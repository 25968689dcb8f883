/**
 * PUT api/update_profile.php: the caller changes some of first_name,
 * last_name, bio, is_private and username; every other key of the body is
 * ignored. A new username must be well-formed and not held by another user.
 */
module UpdateProfile {
  import opened Wrappers
  import opened Php
  import opened Http
  import opened Schema
  import Validator
  import Seqs
  import Db

  /** The columns of `$allowedFields`. */
  datatype Column = FirstName | LastName | Bio | IsPrivate

  /** The body key and column name of each. */
  function Key(c: Column): string {
    match c
    case FirstName => "first_name"
    case LastName => "last_name"
    case Bio => "bio"
    case IsPrivate => "is_private"
  }

  /** `$allowedFields`, in the order the SET list is built. */
  const ALLOWED_FIELDS: seq<Column> := [FirstName, LastName, Bio, IsPrivate]

  /** One `column = ?` of the SET list with its bound value. */
  datatype Change =
    | SetFirstName(s: string)
    | SetLastName(s: string)
    | SetBio(s: string)
    | SetPrivate(b: bool)
    | SetUsername(s: string)

  /** The bound value of an allowed field: `(bool)` for is_private (stored 1 or 0), sanitizeString otherwise. */
  function FieldChange(field: Column, input: Value, escape: string -> string): (c: Change)
    ensures field == IsPrivate <==> c.SetPrivate?
    ensures c.SetPrivate? ==> c.b == ToBool(Get(input, Key(field)))
    ensures !c.SetPrivate? ==> c.s == Validator.SanitizeString(ToStr(Get(input, Key(field))), escape)
  {
    var s := Validator.SanitizeString(ToStr(Get(input, Key(field))), escape);
    match field
    case FirstName => SetFirstName(s)
    case LastName => SetLastName(s)
    case Bio => SetBio(s)
    case IsPrivate => SetPrivate(ToBool(Get(input, Key(field))))
  }

  /** The change for one allowed field, when the body names it. */
  function Present(field: Column, input: Value, escape: string -> string): seq<Change> {
    if Isset(input, Key(field)) then [FieldChange(field, input, escape)] else []
  }

  /** The SET list the foreach builds from the first `fields` of the allowed list. */
  function Changes(fields: seq<Column>, input: Value, escape: string -> string): seq<Change> {
    if fields == [] then []
    else
      var last := fields[|fields| - 1];
      Changes(fields[..|fields| - 1], input, escape) + Present(last, input, escape)
  }

  /** The foreach over the allowed fields: one change per allowed field present in the body. */
  method Collect(input: Value, escape: string -> string) returns (changes: seq<Change>)
    ensures changes == Changes(ALLOWED_FIELDS, input, escape)
  {
    changes := [];
    for i := 0 to |ALLOWED_FIELDS|
      invariant changes == Changes(ALLOWED_FIELDS[..i], input, escape)
    {
      var field := ALLOWED_FIELDS[i];
      assert ALLOWED_FIELDS[..i + 1][..i] == ALLOWED_FIELDS[..i];
      if Isset(input, Key(field)) {
        changes := changes + [FieldChange(field, input, escape)];
      }
      assert changes == Changes(ALLOWED_FIELDS[..i], input, escape) + Present(field, input, escape);
    }
    assert ALLOWED_FIELDS[..|ALLOWED_FIELDS|] == ALLOWED_FIELDS;
  }

  function ApplyChange(u: User, c: Change): User {
    match c
    case SetFirstName(s) => u.(firstName := s)
    case SetLastName(s) => u.(lastName := s)
    case SetBio(s) => u.(bio := s)
    case SetPrivate(b) => u.(isPrivate := b)
    case SetUsername(s) => u.(username := s)
  }

  /** The row after `UPDATE users SET ...`: the changes in SET-list order; the id never changes. */
  function Apply(u: User, changes: seq<Change>): (r: User)
    ensures r.id == u.id
    decreases changes
  {
    if changes == [] then u else Apply(ApplyChange(u, changes[0]), changes[1..])
  }

  /** The value a present field is set to, or the old value when it is absent. */
  function Field(input: Value, field: Column, escape: string -> string, old_: string): string {
    if Isset(input, Key(field)) then Validator.SanitizeString(ToStr(Get(input, Key(field))), escape) else old_
  }

  /**
   * The whitelist: applying the changes the foreach collects sets exactly the
   * four allowed columns that the body names and leaves every other column,
   * the username included, as it was.
   */
  lemma Whitelist(u: User, input: Value, escape: string -> string)
    ensures Apply(u, Changes(ALLOWED_FIELDS, input, escape))
         == u.(firstName := Field(input, FirstName, escape, u.firstName),
               lastName := Field(input, LastName, escape, u.lastName),
               bio := Field(input, Bio, escape, u.bio),
               isPrivate := if Isset(input, Key(IsPrivate)) then ToBool(Get(input, Key(IsPrivate))) else u.isPrivate)
  {
    var c1 := Present(FirstName, input, escape);
    var c2 := Present(LastName, input, escape);
    var c3 := Present(Bio, input, escape);
    var c4 := Present(IsPrivate, input, escape);
    ChangesUnfold(input, escape);
    ApplyAppend(u, c1 + c2 + c3, c4);
    ApplyAppend(u, c1 + c2, c3);
    ApplyAppend(u, c1, c2);
    ApplyPresent(u, FirstName, input, escape);
    var u1 := Assign(u, FirstName, input, escape);
    ApplyPresent(u1, LastName, input, escape);
    var u2 := Assign(u1, LastName, input, escape);
    ApplyPresent(u2, Bio, input, escape);
    var u3 := Assign(u2, Bio, input, escape);
    ApplyPresent(u3, IsPrivate, input, escape);
  }

  /** The row with one allowed column set from the body, when the body names it. */
  function Assign(u: User, field: Column, input: Value, escape: string -> string): User {
    match field
    case FirstName => u.(firstName := Field(input, field, escape, u.firstName))
    case LastName => u.(lastName := Field(input, field, escape, u.lastName))
    case Bio => u.(bio := Field(input, field, escape, u.bio))
    case IsPrivate => u.(isPrivate := if Isset(input, Key(field)) then ToBool(Get(input, Key(field))) else u.isPrivate)
  }

  /** Applying the change of one allowed field, if the body names it, and returning the row. */
  lemma ApplyPresent(u: User, field: Column, input: Value, escape: string -> string)
    ensures Apply(u, Present(field, input, escape)) == Assign(u, field, input, escape)
  {
    if Isset(input, Key(field)) {
      var c := FieldChange(field, input, escape);
      assert Apply(u, [c]) == Apply(ApplyChange(u, c), []);
      match field
      case FirstName => assert c.SetFirstName?;
      case LastName => assert c.SetLastName?;
      case Bio => assert c.SetBio?;
      case IsPrivate => assert c.SetPrivate?;
    }
  }

  lemma {:induction false} ApplyAppend(u: User, a: seq<Change>, b: seq<Change>)
    ensures Apply(u, a + b) == Apply(Apply(u, a), b)
    decreases a
  {
    if a == [] {
      assert a + b == b;
    } else {
      assert (a + b)[0] == a[0];
      assert (a + b)[1..] == a[1..] + b;
      ApplyAppend(ApplyChange(u, a[0]), a[1..], b);
    }
  }

  /** Another user already has the name: `SELECT id FROM users WHERE username = ? AND id != ?`. */
  predicate TakenByOther(users: seq<User>, name: string, caller: int) {
    exists k :: 0 <= k < |users| && users[k].username == name && users[k].id != caller
  }

  /** The username the body asks for, sanitized as the endpoint binds it. */
  function NewUsername(input: Value, escape: string -> string): string {
    Validator.SanitizeString(ToStr(Get(input, "username")), escape)
  }

  /** The whole SET list, or the error the request ends with. */
  function Plan(users: seq<User>, caller: int, input: Value, escape: string -> string): (r: Checked<seq<Change>>)
    ensures r.Reject? ==> r.code == 400
    ensures !ToBool(input) ==> r == Reject(400, "Invalid JSON input")
    ensures r.Pass? ==> r.value != []
    ensures r.Pass? ==> forall c :: c in r.value && c.SetUsername? ==>
              Validator.ValidateUsername(c.s) && !TakenByOther(users, c.s, caller)
    ensures ToBool(input) && !Isset(input, "username") ==>
              (r.Reject? <==> forall f :: f in ALLOWED_FIELDS ==> !Isset(input, Key(f)))
    ensures ToBool(input) && !Isset(input, "username") && r.Reject? ==> r.error == "No fields to update"
    ensures ToBool(input) && Isset(input, "username") && !Validator.ValidateUsername(NewUsername(input, escape)) ==>
              r == Reject(400, "Invalid username format")
    ensures ToBool(input) && Isset(input, "username") && Validator.ValidateUsername(NewUsername(input, escape))
            && TakenByOther(users, NewUsername(input, escape), caller)
            ==> r == Reject(400, "Username already taken")
    ensures ToBool(input) && Isset(input, "username") && Validator.ValidateUsername(NewUsername(input, escape))
            && !TakenByOther(users, NewUsername(input, escape), caller)
            ==> r.Pass?
    ensures r.Pass? ==>
              r.value == Changes(ALLOWED_FIELDS, input, escape)
                         + (if Isset(input, "username") then [SetUsername(NewUsername(input, escape))] else [])
  {
    if !ToBool(input) then Reject(400, "Invalid JSON input")
    else
      var changes := Changes(ALLOWED_FIELDS, input, escape);
      if Isset(input, "username") then
        var name := NewUsername(input, escape);
        if !Validator.ValidateUsername(name) then Reject(400, "Invalid username format")
        else if TakenByOther(users, name, caller) then Reject(400, "Username already taken")
        else
          ChangesBuilt(input, escape);
          Pass(changes + [SetUsername(name)])
      else if changes == [] then
        ChangesEmpty(input, escape);
        Reject(400, "No fields to update")
      else
        ChangesEmpty(input, escape);
        ChangesBuilt(input, escape);
        Pass(changes)
  }

  /** The foreach adds nothing iff the body names none of the allowed fields. */
  lemma ChangesEmpty(input: Value, escape: string -> string)
    ensures Changes(ALLOWED_FIELDS, input, escape) == [] <==> forall f :: f in ALLOWED_FIELDS ==> !Isset(input, Key(f))
  {
    ChangesUnfold(input, escape);
  }

  /** The foreach unrolled: the four fields in turn. */
  lemma ChangesUnfold(input: Value, escape: string -> string)
    ensures Changes(ALLOWED_FIELDS, input, escape)
         == Present(FirstName, input, escape) + Present(LastName, input, escape)
            + Present(Bio, input, escape) + Present(IsPrivate, input, escape)
  {
    ChangesOfFour(ALLOWED_FIELDS, input, escape);
  }

  /** The foreach over the first two fields. */
  lemma ChangesOfTwo(fields: seq<Column>, input: Value, escape: string -> string)
    requires |fields| >= 2
    ensures Changes(fields[..2], input, escape) == Present(fields[0], input, escape) + Present(fields[1], input, escape)
  {
    ChangesOfOne(fields, input, escape);
    ChangesStep(fields, 2, input, escape);
  }

  /** The foreach over the first field alone. */
  lemma ChangesOfOne(fields: seq<Column>, input: Value, escape: string -> string)
    requires |fields| >= 1
    ensures Changes(fields[..1], input, escape) == Present(fields[0], input, escape)
  {
    var first := fields[..1];
    var p := Present(fields[0], input, escape);
    assert first[..0] == [];
    assert Changes(first, input, escape) == [] + p;
    assert [] + p == p;
  }

  /** The foreach over the first three fields. */
  lemma ChangesOfThree(fields: seq<Column>, input: Value, escape: string -> string)
    requires |fields| >= 3
    ensures Changes(fields[..3], input, escape)
         == Present(fields[0], input, escape) + Present(fields[1], input, escape) + Present(fields[2], input, escape)
  {
    ChangesOfTwo(fields, input, escape);
    ChangesStep(fields, 3, input, escape);
  }

  /** The foreach over four fields, unrolled. */
  lemma ChangesOfFour(fields: seq<Column>, input: Value, escape: string -> string)
    requires |fields| == 4
    ensures Changes(fields, input, escape)
         == Present(fields[0], input, escape) + Present(fields[1], input, escape)
            + Present(fields[2], input, escape) + Present(fields[3], input, escape)
  {
    ChangesOfThree(fields, input, escape);
    ChangesStep(fields, 4, input, escape);
    assert fields[..4] == fields;
  }

  /** The foreach after `k` fields is the foreach after `k - 1` fields plus field `k - 1`, if present. */
  lemma ChangesStep(fields: seq<Column>, k: nat, input: Value, escape: string -> string)
    requires 1 <= k <= |fields|
    ensures Changes(fields[..k], input, escape)
         == Changes(fields[..k - 1], input, escape) + Present(fields[k - 1], input, escape)
  {
    assert fields[..k][..k - 1] == fields[..k - 1];
  }

  /** The foreach never adds a username change. */
  lemma {:induction false} ChangesBuilt(input: Value, escape: string -> string)
    ensures forall c :: c in Changes(ALLOWED_FIELDS, input, escape) ==> !c.SetUsername?
  {
    NoUsernameChange(ALLOWED_FIELDS, input, escape);
  }

  lemma {:induction false} NoUsernameChange(fields: seq<Column>, input: Value, escape: string -> string)
    ensures forall c :: c in Changes(fields, input, escape) ==> !c.SetUsername?
  {
    if fields != [] {
      NoUsernameChange(fields[..|fields| - 1], input, escape);
    }
  }

  predicate IsUser(u: User, caller: int) {
    u.id == caller
  }

  /** `UPDATE users SET ... WHERE id = ?`. */
  function Updated(users: seq<User>, caller: int, changes: seq<Change>): seq<User> {
    Seqs.UpdateWhere(users, (u: User) => IsUser(u, caller), (u: User) => Apply(u, changes))
  }

  /**
   * The UPDATE keeps ids and usernames unique: ids never change, and a new
   * username is one no other user holds.
   */
  lemma UpdatedUnique(users: seq<User>, caller: int, changes: seq<Change>)
    requires Seqs.UniqueBy(users, Db.UserId) && Seqs.UniqueBy(users, Db.Username)
    requires forall c :: c in changes && c.SetUsername? ==> !TakenByOther(users, c.s, caller)
    ensures Seqs.UniqueBy(Updated(users, caller, changes), Db.UserId)
    ensures Seqs.UniqueBy(Updated(users, caller, changes), Db.Username)
  {
    var r := Updated(users, caller, changes);
    Seqs.UniqueUpdate(users, (u: User) => IsUser(u, caller), (u: User) => Apply(u, changes), Db.UserId);
    forall i, j | 0 <= i < j < |r| ensures r[i].username != r[j].username {
      if users[i].id == caller {
        assert users[j].id != caller by { assert Db.UserId(users[i]) != Db.UserId(users[j]); }
        ApplyUsername(users[i], changes, users, caller);
        assert r[j] == users[j];
      } else if users[j].id == caller {
        ApplyUsername(users[j], changes, users, caller);
        assert r[i] == users[i];
      } else {
        assert Db.Username(users[i]) != Db.Username(users[j]);
      }
    }
  }

  /** After the changes the row's username is its old one or a name no other user holds. */
  lemma {:induction false} ApplyUsername(u: User, changes: seq<Change>, users: seq<User>, caller: int)
    requires forall c :: c in changes && c.SetUsername? ==> !TakenByOther(users, c.s, caller)
    ensures Apply(u, changes).username == u.username || !TakenByOther(users, Apply(u, changes).username, caller)
    decreases changes
  {
    if changes != [] {
      ApplyUsername(ApplyChange(u, changes[0]), changes[1..], users, caller);
      assert forall c :: c in changes[1..] ==> c in changes;
    }
  }

  /** The endpoint: the checks in order, then the single UPDATE of the caller's row and its re-read. */
  method Update(db: Db.Database, caller: int, input: Value, escape: string -> string)
    returns (resp: Response<Option<User>>)
    requires db.Valid()
    modifies db`users
    ensures db.Valid()
    ensures Plan(old(db.users), caller, input, escape).Reject? ==>
              && resp == Failure(400, Plan(old(db.users), caller, input, escape).error)
              && db.users == old(db.users)
    ensures Plan(old(db.users), caller, input, escape).Pass? ==>
              && db.users == Updated(old(db.users), caller, Plan(old(db.users), caller, input, escape).value)
              && resp == Success(FindUser(db.users, caller), "Profile updated successfully")
  {
    if !ToBool(input) {
      return Failure(400, "Invalid JSON input");
    }
    var changes := Collect(input, escape);
    if Isset(input, "username") {
      var name := Validator.SanitizeString(ToStr(Get(input, "username")), escape);
      if !Validator.ValidateUsername(name) {
        return Failure(400, "Invalid username format");
      }
      if TakenByOther(db.users, name, caller) {
        return Failure(400, "Username already taken");
      }
      changes := changes + [SetUsername(name)];
    }
    if changes == [] {
      return Failure(400, "No fields to update");
    }
    ChangesBuilt(input, escape);
    assert Plan(db.users, caller, input, escape) == Pass(changes);
    UpdatedUnique(db.users, caller, changes);
    db.SetUsers(Updated(db.users, caller, changes));
    resp := Success(FindUser(db.users, caller), "Profile updated successfully");
  }
}
