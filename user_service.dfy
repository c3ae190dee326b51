/** `UserService`: registration with a unique e-mail, reads that never expose
    the stored password, a truthiness-based partial update, and delete. */
module UserServices {
  import opened Js
  import opened Models
  import opened Store

  const EmailExists := "User with this email already exists."
  const UserNotFound := "User not found."

  datatype UserCreationRequest = UserCreationRequest(email: string, password: string)

  datatype UserUpdateRequest = UserUpdateRequest(email: Opt<string>, password: Opt<string>)

  /** `findByEmail(email)` finds a row. */
  predicate EmailTaken(rows: map<int, User>, email: string) {
    exists k :: k in rows && rows[k].email == email
  }

  ghost predicate EmailsUnique(rows: map<int, User>) {
    forall i, j :: i in rows && j in rows && rows[i].email == rows[j].email ==> i == j
  }

  /** The user table's invariant: every row carries its own id and the
      EMPLOYEE role, the only role a `User` record can hold. E-mail uniqueness
      is not part of it, because `update` as written does not keep it. */
  ghost predicate Consistent(t: Table<User>) {
    && t.Valid()
    && (forall k :: k in t.rows ==> t.rows[k].id == Some(k) && t.rows[k].role == EMPLOYEE)
  }

  /** The user as every read path hands it out: same id, e-mail and role,
      password hash replaced by the empty string. */
  function Blank(u: User): (r: User)
    ensures r.id == u.id && r.email == u.email && r.role == u.role
    ensures r.passwordHash == ""
  {
    User(u.id, u.email, "", u.role)
  }

  /** `getById(id)` over a user table: the stored user with the password
      hash blanked, or null. */
  function Lookup(t: Table<User>, id: int): (r: Option<User>)
    ensures r.Some? <==> id in t.rows
    ensures r.Some? ==> r.value == Blank(t.rows[id]) && r.value.passwordHash == ""
  {
    if id in t.rows then Some(Blank(t.rows[id])) else None
  }

  /** `users.map(user => new User(user.id, user.email, '', user.role))` */
  function BlankAll(us: seq<User>): (r: seq<User>)
    ensures |r| == |us|
    ensures forall i :: 0 <= i < |us| ==> r[i] == Blank(us[i])
    ensures forall i :: 0 <= i < |r| ==> r[i].passwordHash == ""
  {
    if us == [] then [] else [Blank(us[0])] + BlankAll(us[1..])
  }

  /** `register({email, password})`: the user is created with the EMPLOYEE
      role, and what the repository hands back carries the password as given. */
  function RegisterStep(t: Table<User>, data: UserCreationRequest): (s: Step<User, User>)
    requires t.Valid()
    ensures s.table.Valid()
    ensures s.result.Err? <==> EmailTaken(t.rows, data.email)
    ensures s.result.Err? ==> s == Step(Err(EmailExists), t)
    ensures s.result.Ok? ==>
            && t.nextId !in t.rows
            && s.result.value == User(Some(t.nextId), data.email, data.password, EMPLOYEE)
            && s.table.rows == t.rows[t.nextId := s.result.value]
    ensures Consistent(t) ==> Consistent(s.table)
    ensures EmailsUnique(t.rows) ==> EmailsUnique(s.table.rows)
  {
    if EmailTaken(t.rows, data.email) then Step(Err(EmailExists), t)
    else
      var u := User(Some(t.nextId), data.email, data.password, EMPLOYEE);
      Step(Ok(u), t.Insert(u))
  }

  /** The user `update` writes back: e-mail and password change only when the
      supplied value is truthy. */
  function Patched(u: User, data: UserUpdateRequest): (r: User)
    ensures r.id == u.id && r.role == u.role
    ensures r.email == if SuppliedString(data.email) then data.email.value else u.email
    ensures r.passwordHash == if SuppliedString(data.password) then data.password.value else u.passwordHash
  {
    User(
      u.id,
      if SuppliedString(data.email) then data.email.value else u.email,
      if SuppliedString(data.password) then data.password.value else u.passwordHash,
      u.role)
  }

  /** `update(id, data)` as written: no uniqueness lookup on a new e-mail. */
  function UpdateStep(t: Table<User>, id: int, data: UserUpdateRequest): (s: Step<User, User>)
    requires t.Valid()
    ensures s.table.Valid()
    ensures s.result.Err? <==> id !in t.rows
    ensures s.result.Err? ==> s == Step(Err(UserNotFound), t)
    ensures s.result.Ok? ==>
            && s.table == t.Put(id, Patched(t.rows[id], data))
            && s.result.value == Blank(Patched(t.rows[id], data))
            && s.result.value.passwordHash == ""
    ensures Consistent(t) ==> Consistent(s.table)
  {
    if id !in t.rows then Step(Err(UserNotFound), t)
    else
      var u := Patched(t.rows[id], data);
      Step(Ok(Blank(u)), t.Put(id, u))
  }

  /** Unlike `register`, `update` can break e-mail uniqueness: in any table
      with two users, giving one the (non-empty) e-mail of the other
      succeeds, and two rows then share an e-mail. */
  lemma UpdateBreaksEmailUniqueness(t: Table<User>, id: int, other: int)
    requires Consistent(t) && EmailsUnique(t.rows)
    requires id in t.rows && other in t.rows && id != other
    requires t.rows[other].email != ""
    ensures var s := UpdateStep(t, id, UserUpdateRequest(Defined(t.rows[other].email), Undefined));
            s.result.Ok? && !EmailsUnique(s.table.rows)
  {
    var s := UpdateStep(t, id, UserUpdateRequest(Defined(t.rows[other].email), Undefined));
    assert s.table.rows[id].email == s.table.rows[other].email;
  }

  /** The update of a stored user to a truthy e-mail that another user
      already holds. */
  predicate EmailClash(t: Table<User>, id: int, data: UserUpdateRequest) {
    && id in t.rows
    && SuppliedString(data.email)
    && data.email.value != t.rows[id].email
    && EmailTaken(t.rows, data.email.value)
  }

  /** `update` with the lookup that `register` performs: an e-mail clash is
      refused and nothing is saved; every other update behaves as written. */
  function UpdateStepUnique(t: Table<User>, id: int, data: UserUpdateRequest): (s: Step<User, User>)
    requires t.Valid()
    ensures s.table.Valid()
    ensures s.result == Err(EmailExists) <==> EmailClash(t, id, data)
    ensures EmailClash(t, id, data) ==> s.table == t
    ensures !EmailClash(t, id, data) ==> s == UpdateStep(t, id, data)
    ensures Consistent(t) ==> Consistent(s.table)
    ensures EmailsUnique(t.rows) ==> EmailsUnique(s.table.rows)
  {
    if EmailClash(t, id, data) then Step(Err(EmailExists), t)
    else UpdateStep(t, id, data)
  }

  class UserService {
    /** The user table behind the repository. */
    var users: Table<User>

    /** The table invariant. Unique e-mails are not part of it, because
        `Update` as written does not keep them. */
    ghost predicate Valid()
      reads this
    {
      Consistent(users)
    }

    constructor ()
      ensures Valid() && users == Empty()
    {
      users := Empty();
    }

    /** `getById(id)`: the stored user with the password hash blanked, or null. */
    function GetById(id: int): (r: Option<User>)
      reads this
      requires Valid()
      ensures r.Some? <==> id in users.rows
      ensures r.Some? ==> r.value == Blank(users.rows[id])
      ensures r.Some? ==> r.value.id == Some(id) && r.value.role == EMPLOYEE && r.value.passwordHash == ""
    {
      Lookup(users, id)
    }

    /** `getAll()`: one blanked user per stored user, in id order. */
    function GetAll(): (r: seq<User>)
      reads this
      requires Valid()
      ensures |r| == |users.order|
      ensures forall i :: 0 <= i < |r| ==> users.order[i] in users.rows && r[i] == Blank(users.rows[users.order[i]])
      ensures forall i :: 0 <= i < |r| ==> r[i].passwordHash == "" && r[i].id == Some(users.order[i])
      ensures forall k :: k in users.rows ==> Blank(users.rows[k]) in r
    {
      var all := users.Values();
      var r := BlankAll(all);
      assert forall k :: k in users.rows ==> Blank(users.rows[k]) in r by {
        forall k | k in users.rows ensures Blank(users.rows[k]) in r {
          var i := users.IndexOf(k);
          assert r[i] == Blank(users.rows[k]);
        }
      }
      r
    }

    /** `userRepository.save(user)`: a user without an id is inserted under
        the next id; one with an id overwrites that row. */
    method Save(user: User) returns (saved: User)
      requires users.Valid()
      modifies this
      ensures users.Valid()
      ensures user.id.None? ==>
                saved == user.(id := Some(old(users.nextId))) && users == old(users).Insert(saved)
      ensures user.id.Some? ==>
                saved == user
                && users == if user.id.value in old(users.rows) then old(users).Put(user.id.value, user) else old(users)
    {
      if user.id.None? {
        saved := user.(id := Some(users.nextId));
        users := users.Insert(saved);
      } else {
        saved := user;
        if user.id.value in users.rows {
          users := users.Put(user.id.value, user);
        }
      }
    }

    method Register(data: UserCreationRequest) returns (r: Result<User>)
      requires Valid()
      modifies this
      ensures Valid()
      ensures Step(r, users) == RegisterStep(old(users), data)
    {
      if EmailTaken(users.rows, data.email) {
        return Err(EmailExists);
      }
      var user := User(None, data.email, data.password, EMPLOYEE);
      var saved := Save(user);
      r := Ok(saved);
    }

    /** `update(id, data)`, as written: no lookup of the new e-mail. */
    method Update(id: int, data: UserUpdateRequest) returns (r: Result<User>)
      requires Valid()
      modifies this
      ensures Valid()
      ensures Step(r, users) == UpdateStep(old(users), id, data)
    {
      if id !in users.rows {
        return Err(UserNotFound);
      }
      var user := users.rows[id];
      ghost var found := user;
      if data.email.Defined? && data.email.value != "" {
        user := user.(email := data.email.value);
      }
      if data.password.Defined? && data.password.value != "" {
        user := user.(passwordHash := data.password.value);
      }
      assert user == Patched(found, data);
      assert UpdateStep(users, id, data) == Step(Ok(Blank(user)), users.Put(id, user));
      var _ := Save(user);
      r := Ok(User(user.id, user.email, "", user.role));
    }

    method Delete(id: int) returns (r: Result<()>)
      requires Valid()
      modifies this
      ensures Valid()
      ensures Step(r, users) == DeleteStep(old(users), id, UserNotFound)
    {
      if id !in users.rows {
        return Err(UserNotFound);
      }
      users := users.Remove(id);
      r := Ok(());
    }
  }
}
