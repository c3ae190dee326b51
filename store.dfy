/** The in-memory table that stands for one entity's repository: rows keyed by
    their auto-increment id, the ids in the order `listAll` returns them, and
    the next id an insert will receive. */
module Store {
  import opened Js

  /** Strictly increasing: the order of an auto-increment primary key. */
  ghost predicate Increasing(s: seq<int>) {
    forall i, j :: 0 <= i < j < |s| ==> s[i] < s[j]
  }

  /** `s` with every occurrence of `x` removed. */
  function Without(s: seq<int>, x: int): (r: seq<int>)
    ensures forall y :: y in r <==> y in s && y != x
    ensures Increasing(s) ==> Increasing(r)
  {
    if s == [] then []
    else if s[0] == x then Without(s[1..], x)
    else
      var rest := Without(s[1..], x);
      assert Increasing(s) ==> Increasing([s[0]] + rest) by {
        if Increasing(s) {
          assert Increasing(s[1..]);
          forall i, j | 0 <= i < j < |rest| + 1 ensures ([s[0]] + rest)[i] < ([s[0]] + rest)[j] {
            if i == 0 {
              var y := rest[j - 1];
              assert y in rest;
              var k :| 0 <= k < |s[1..]| && s[1..][k] == y;
              assert s[k + 1] == y;
            }
          }
        }
      }
      [s[0]] + rest
  }

  datatype Table<T> = Table(rows: map<int, T>, order: seq<int>, nextId: int)
  {
    /** The table invariant: ids start at 1, `order` lists exactly the stored ids,
        in increasing order, and every stored id is below `nextId`. */
    ghost predicate Valid() {
      && 1 <= nextId
      && Increasing(order)
      && (forall k :: k in rows <==> k in order)
      && (forall i :: 0 <= i < |order| ==> order[i] in rows)
      && (forall k :: k in rows ==> 1 <= k < nextId)
    }

    /** An INSERT: the row gets the next id, which no stored row has. */
    function Insert(rec: T): (t: Table<T>)
      requires Valid()
      ensures t.Valid()
      ensures nextId !in rows
      ensures t.rows == rows[nextId := rec] && t.nextId == nextId + 1
      ensures t.order == order + [nextId]
    {
      assert forall i :: 0 <= i < |order| ==> order[i] < nextId;
      Table(rows[nextId := rec], order + [nextId], nextId + 1)
    }

    /** An UPDATE of a stored row: same id, same position. */
    function Put(id: int, rec: T): (t: Table<T>)
      requires Valid() && id in rows
      ensures t.Valid()
      ensures t.rows == rows[id := rec] && t.order == order && t.nextId == nextId
    {
      Table(rows[id := rec], order, nextId)
    }

    /** Writing a row back unchanged leaves the table as it was. */
    lemma PutSame(id: int)
      requires Valid() && id in rows
      ensures Put(id, rows[id]) == this
    {
      assert rows[id := rows[id]] == rows;
    }

    /** Where a stored id sits in the order. */
    lemma IndexOf(k: int) returns (i: int)
      requires Valid() && k in rows
      ensures 0 <= i < |order| && order[i] == k
    {
      i :| 0 <= i < |order| && order[i] == k;
    }

    /** A DELETE by id. */
    function Remove(id: int): (t: Table<T>)
      requires Valid()
      ensures t.Valid()
      ensures t.rows == rows - {id} && t.nextId == nextId
    {
      Table(rows - {id}, Without(order, id), nextId)
    }

    /** `listAll`: one row per stored id, in id order. */
    function Values(): (vs: seq<T>)
      requires Valid()
      ensures |vs| == |order|
      ensures forall i :: 0 <= i < |order| ==> vs[i] == rows[order[i]]
      ensures forall k :: k in rows ==> rows[k] in vs
    {
      var vs := seq(|order|, i requires 0 <= i < |order| => rows[order[i]]);
      assert forall k :: k in rows ==> rows[k] in vs by {
        forall k | k in rows ensures rows[k] in vs {
          var i :| 0 <= i < |order| && order[i] == k;
          assert vs[i] == rows[k];
        }
      }
      vs
    }
  }

  /** The table no entity has been stored in yet. */
  function Empty<T>(): (t: Table<T>)
    ensures t.Valid() && t.rows == map[]
  {
    Table(map[], [], 1)
  }

  /** The outcome of one service operation: what it returned or threw, and the
      table afterwards. */
  datatype Step<T, R> = Step(result: Result<R>, table: Table<T>)

  /** `delete(id)` as all four services write it: "not found" when no row has
      the id, otherwise that one row is removed. */
  function DeleteStep<T>(t: Table<T>, id: int, notFound: string): (s: Step<T, ()>)
    requires t.Valid()
    ensures s.table.Valid()
    ensures id !in t.rows ==> s == Step(Err(notFound), t)
    ensures id in t.rows ==> s.result == Ok(())
    ensures s.table.rows == t.rows - {id}
    ensures forall k :: k in s.table.rows ==> s.table.rows[k] == t.rows[k]
  {
    if id !in t.rows then Step(Err(notFound), t) else Step(Ok(()), t.Remove(id))
  }
}
