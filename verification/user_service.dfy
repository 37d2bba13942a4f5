/**
 * `UserService`: transitions of the store for the user collection. New
 * identifiers, the clock and the salt of a new hash are parameters. A
 * default read leaves the password out; a create returns the document as
 * written, password included.
 */
module UserService {
  import opened Wrappers
  import opened Text
  import opened Messages
  import opened Ids
  import opened UserModel
  import opened Store

  /** The default reads of a sequence of users, in order. */
  function DefaultReads(us: seq<User>): (ds: seq<UserDoc>)
    ensures |ds| == |us|
    ensures forall i :: 0 <= i < |us| ==> ds[i] == DefaultRead(us[i])
    ensures forall u :: u in us ==> DefaultRead(u) in ds
    ensures forall d :: d in ds ==> d.password.None?
    ensures forall d :: d in ds ==> exists u :: u in us && d == DefaultRead(u)
  {
    if us == [] then [] else [DefaultRead(us[0])] + DefaultReads(us[1..])
  }

  /** `User.find()`: every user as a default read returns it, nothing written. */
  function GetAllUsers(s: Store): (r: Step<seq<UserDoc>>)
    ensures r.store == s && r.result.Success?
    ensures |r.result.value| == |s.users|
    ensures forall d :: d in r.result.value ==> d.password.None?
    ensures forall u :: u in s.users.Values ==> DefaultRead(u) in r.result.value
    ensures forall d :: d in r.result.value ==> exists u :: u in s.users.Values && d == DefaultRead(u)
  {
    Step(Success(DefaultReads(AllUsers(s))), s)
  }

  function GetUserById(s: Store, id: Id): (r: Step<UserDoc>)
    ensures r.store == s
    ensures r.result.Success? <==> id in s.users
    ensures r.result.Success? ==> r.result.value == DefaultRead(s.users[id]) && r.result.value.password.None?
    ensures r.result.Failure? ==> r.result.error == UserNotFound
  {
    if id in s.users then Step(Success(DefaultRead(s.users[id])), s) else Step(Failure(UserNotFound), s)
  }

  /**
   * `createUser`: the email lookup (its filter value passes through the
   * email setters), then `User.create`, which validates and writes the
   * password exactly as supplied.
   */
  function CreateUser(s: Store, n: NewUser, newId: Id, now: int): (r: Step<UserDoc>)
    requires newId !in s.users
    ensures EmailTaken(s.users, NormalizeEmail(n.email)) ==> r.result == Failure(EmailExists)
    ensures r.result.Failure? ==> r.store == s
    ensures r.result.Success? <==>
      && !EmailTaken(s.users, NormalizeEmail(n.email))
      && n.name != ""
      && EmailPattern.Matches(NormalizeEmail(n.email))
      && |n.password| >= PasswordMinLength
    ensures r.result.Success? ==>
      var d := r.result.value;
      && r.store.posts == s.posts
      && newId in r.store.users
      && r.store.users == s.users[newId := r.store.users[newId]]
      && d == Written(r.store.users[newId])
      && d.id == newId && d.name == n.name && d.email == NormalizeEmail(n.email)
      && d.password == Some(Plain(n.password))
      && d.version == 0 && d.createdAt == Some(now) && d.updatedAt == Some(now)
  {
    var email := NormalizeEmail(n.email);
    if EmailTaken(s.users, email) then Step(Failure(EmailExists), s)
    else
      var errs := FieldErrors(Some(n.name), Some(email), Some(Plain(n.password)));
      if errs != [] then Step(Failure(StoreValidation(errs)), s)
      else
        var u := User(newId, n.name, email, Plain(n.password), 0, Some(now), Some(now));
        Step(Success(Written(u)), s.(users := s.users[newId := u]))
  }

  /**
   * The email pre-check of `updateUser`: the filter value passes through the
   * email setters. With no email in the request the lookup's filter has no
   * value; the model takes it to match nobody.
   */
  predicate UpdateEmailTaken(users: map<Id, User>, email: Option<string>)
  {
    email.Some? && EmailTaken(users, NormalizeEmail(email.value))
  }

  /** An email already in stored form looks itself up in the update's pre-check. */
  lemma StoredEmailLookup(users: map<Id, User>, e: string)
    requires IsTrimmed(e) && IsLower(e)
    ensures UpdateEmailTaken(users, Some(e)) <==> EmailTaken(users, e)
  {
    NormalEmailIsFixed(e);
  }

  /**
   * The password value `updateUser` sets: a non-empty password is compared
   * with the stored one (a failing comparison propagates, a match is
   * refused) and otherwise replaced by its hash; an empty one is set as is.
   */
  function NewPassword(stored: Secret, password: Option<string>, salt: nat): (r: Result<Option<Secret>, ErrorKind>)
    ensures password.None? ==> r == Success(None)
    ensures password == Some("") ==> r == Success(Some(Plain("")))
    ensures password.Some? && password.value != "" ==>
      match BcryptCompare(password.value, stored)
      case Failure(e) => r == Failure(e)
      case Success(same) =>
        && (same ==> r == Failure(PasswordSame))
        && (!same ==>
              && r.Success? && r.value.Some? && r.value.value.Hashed?
              && Compares(password.value, r.value.value.hash)
              && forall q :: Compares(q, r.value.value.hash) <==> BcryptKey(q) == BcryptKey(password.value))
  {
    if password.None? then Success(None)
    else if password.value == "" then Success(Some(Plain("")))
    else
      var same :- BcryptCompare(password.value, stored);
      if same then Failure(PasswordSame)
      else Success(Some(Hashed(HashPassword(password.value, salt))))
  }

  function Apply(u: User, name: Option<string>, email: Option<string>, password: Option<Secret>, now: int): (v: User)
    ensures v.id == u.id && v.version == u.version && v.createdAt == u.createdAt && v.updatedAt == Some(now)
    ensures v.name == (if name.Some? then name.value else u.name)
    ensures v.email == (if email.Some? then email.value else u.email)
    ensures v.password == (if password.Some? then password.value else u.password)
  {
    u.(name := if name.Some? then name.value else u.name,
       email := if email.Some? then email.value else u.email,
       password := if password.Some? then password.value else u.password,
       updatedAt := Some(now))
  }

  /** The email an update sets, after the setters. */
  function SetEmail(email: Option<string>): (r: Option<string>)
    ensures r.Some? <==> email.Some?
    ensures r.Some? ==> IsTrimmed(r.value) && IsLower(r.value)
  {
    if email.Some? then Some(NormalizeEmail(email.value)) else None
  }

  /**
   * `updateUser`, in the order the code runs: the email lookup (which does
   * not exclude the user being updated), the existence lookup, the password
   * comparison and hashing, then the validated write. The answer is the
   * default read of the updated user.
   */
  function UpdateUser(s: Store, id: Id, c: UserChanges, salt: nat, now: int): (r: Step<UserDoc>)
    ensures r.result.Failure? ==> r.store == s
    ensures UpdateEmailTaken(s.users, c.email) ==> r.result == Failure(EmailExists)
    ensures !UpdateEmailTaken(s.users, c.email) && id !in s.users ==> r.result == Failure(UserNotFound)
    ensures r.result.Success? ==>
      && id in s.users
      && NewPassword(s.users[id].password, c.password, salt).Success?
      && var u := s.users[id];
      && id in r.store.users
      && var v := r.store.users[id];
      && r.store.posts == s.posts
      && r.store.users == s.users[id := v]
      && r.result.value == DefaultRead(v)
      && v.id == u.id && v.version == u.version && v.createdAt == u.createdAt && v.updatedAt == Some(now)
      && v.name == (if c.name.Some? then c.name.value else u.name)
      && v.email == (if c.email.Some? then NormalizeEmail(c.email.value) else u.email)
      && (c.password.None? ==> v.password == u.password)
    ensures r.result.Success? <==>
      && !UpdateEmailTaken(s.users, c.email)
      && id in s.users
      && NewPassword(s.users[id].password, c.password, salt).Success?
      && FieldErrors(c.name, SetEmail(c.email), NewPassword(s.users[id].password, c.password, salt).value) == []
  {
    if UpdateEmailTaken(s.users, c.email) then Step(Failure(EmailExists), s)
    else if id !in s.users then Step(Failure(UserNotFound), s)
    else
      var u := s.users[id];
      match NewPassword(u.password, c.password, salt)
      case Failure(e) => Step(Failure(e), s)
      case Success(password) =>
        var email := SetEmail(c.email);
        var errs := FieldErrors(c.name, email, password);
        if errs != [] then Step(Failure(StoreValidation(errs)), s)
        else
          var v := Apply(u, c.name, email, password, now);
          Step(Success(DefaultRead(v)), s.(users := s.users[id := v]))
  }

  /** `findByIdAndDelete`: removes the user; posts, even the user's own, stay. */
  function DeleteUser(s: Store, id: Id): (r: Step<UserDoc>)
    ensures r.result.Success? <==> id in s.users
    ensures r.result.Failure? ==> r.result.error == UserNotFound && r.store == s
    ensures r.store.posts == s.posts
    ensures r.result.Success? ==>
      && r.result.value == DefaultRead(s.users[id])
      && id !in r.store.users
      && forall k :: k in s.users && k != id ==> k in r.store.users && r.store.users[k] == s.users[k]
  {
    if id !in s.users then Step(Failure(UserNotFound), s)
    else Step(Success(DefaultRead(s.users[id])), s.(users := s.users - {id}))
  }

  /** Resubmitting one's own current email is refused as taken, whatever else the request holds. */
  lemma OwnEmailIsTaken(s: Store, id: Id, c: UserChanges, salt: nat, now: int)
    requires Valid(s) && id in s.users && c.email == Some(s.users[id].email)
    ensures UpdateUser(s, id, c, salt, now) == Step(Failure(EmailExists), s)
  {
    NormalEmailIsFixed(s.users[id].email);
  }

  /** A taken email is reported even for an identifier no user has. */
  lemma EmailCheckPrecedesExistence(s: Store, id: Id, c: UserChanges, salt: nat, now: int)
    requires id !in s.users
    ensures UpdateUser(s, id, c, salt, now).result.Failure?
    ensures UpdateUser(s, id, c, salt, now).result == (if UpdateEmailTaken(s.users, c.email) then Failure(EmailExists) else Failure(UserNotFound))
  {
  }

  /** A password equal to the stored one is refused and nothing is written. */
  lemma SamePasswordRefused(s: Store, id: Id, c: UserChanges, salt: nat, now: int)
    requires id in s.users && !UpdateEmailTaken(s.users, c.email)
    requires s.users[id].password.Hashed? && c.password.Some? && c.password.value != ""
    requires Compares(c.password.value, s.users[id].password.hash)
    ensures UpdateUser(s, id, c, salt, now) == Step(Failure(PasswordSame), s)
  {
  }

  /**
   * A password that agrees with the one behind the stored hash on the
   * characters bcrypt reads is refused as the same password, though the two differ.
   */
  lemma SharedKeyRefused(s: Store, id: Id, previous: string, hashSalt: nat, c: UserChanges, salt: nat, now: int)
    requires id in s.users && s.users[id].password == Hashed(HashPassword(previous, hashSalt))
    requires !UpdateEmailTaken(s.users, c.email) && c.password.Some?
    requires |previous| >= BcryptKeyLength && |c.password.value| >= BcryptKeyLength
    requires previous[..BcryptKeyLength] == c.password.value[..BcryptKeyLength]
    ensures UpdateUser(s, id, c, salt, now) == Step(Failure(PasswordSame), s)
  {
    LongPasswordsShareHash(previous, c.password.value, hashSalt);
    SamePasswordRefused(s, id, c, salt, now);
  }

  /**
   * A user whose password is still the plain text written at creation can
   * resubmit it: the comparison with a non-hash answers false, so the update
   * goes through and the password is hashed.
   */
  lemma PlainPasswordResubmitAccepted(s: Store, id: Id, p: string, salt: nat, now: int)
    requires id in s.users && s.users[id].password == Plain(p)
    requires p != "" && |p| != HashLength
    ensures var r := UpdateUser(s, id, UserChanges(None, Some(p), None), salt, now);
      && r.result.Success?
      && r.store.users[id].password.Hashed?
      && Compares(p, r.store.users[id].password.hash)
  {
  }

  /** After a password change the stored value is a hash of the new password, never the text itself. */
  lemma ChangedPasswordIsHashed(s: Store, id: Id, c: UserChanges, salt: nat, now: int)
    requires c.password.Some? && c.password.value != ""
    requires UpdateUser(s, id, c, salt, now).result.Success?
    ensures var v := UpdateUser(s, id, c, salt, now).store.users[id].password;
      && v.Hashed?
      && v != Plain(c.password.value)
      && Compares(c.password.value, v.hash)
      && forall q :: Compares(q, v.hash) <==> BcryptKey(q) == BcryptKey(c.password.value)
  {
    var u := s.users[id];
    var r := NewPassword(u.password, c.password, salt);
    assert r.Success? && r.value.Some? && r.value.value.Hashed?;
  }

  /** A created user's password is stored and answered as the plain text submitted. */
  lemma CreatedPasswordIsPlain(s: Store, n: NewUser, newId: Id, now: int)
    requires newId !in s.users
    requires CreateUser(s, n, newId, now).result.Success?
    ensures CreateUser(s, n, newId, now).store.users[newId].password == Plain(n.password)
    ensures !ComparePassword(n.password, CreateUser(s, n, newId, now).store.users[newId].password)
  {
  }

  lemma CreateUserKeepsValid(s: Store, n: NewUser, newId: Id, now: int)
    requires Valid(s) && newId !in s.users
    ensures Valid(CreateUser(s, n, newId, now).store)
  {
    var r := CreateUser(s, n, newId, now);
    if r.result.Success? {
      PutUserKeepsValid(s, newId, r.store.users[newId]);
    }
  }

  /** Values that pass the schema, written over a stored user, give a storable user. */
  lemma {:induction false} AppliedUserIsStorable(u: User, name: Option<string>, email: Option<string>, password: Option<Secret>, now: int)
    requires IsStoredUser(u)
    requires email.Some? ==> IsTrimmed(email.value) && IsLower(email.value)
    requires FieldErrors(name, email, password) == []
    ensures IsStoredUser(Apply(u, name, email, password, now))
  {
  }

  /** What a successful update has checked and what it wrote. */
  lemma {:induction false} UpdateUserWrote(s: Store, id: Id, c: UserChanges, salt: nat, now: int)
    requires UpdateUser(s, id, c, salt, now).result.Success?
    ensures id in s.users && NewPassword(s.users[id].password, c.password, salt).Success?
    ensures !UpdateEmailTaken(s.users, c.email)
    ensures FieldErrors(c.name, SetEmail(c.email), NewPassword(s.users[id].password, c.password, salt).value) == []
    ensures UpdateUser(s, id, c, salt, now).store
      == s.(users := s.users[id := Apply(s.users[id], c.name, SetEmail(c.email), NewPassword(s.users[id].password, c.password, salt).value, now)])
  {
  }

  lemma {:induction false} UpdateUserKeepsValid(s: Store, id: Id, c: UserChanges, salt: nat, now: int)
    requires Valid(s)
    ensures Valid(UpdateUser(s, id, c, salt, now).store)
  {
    if UpdateUser(s, id, c, salt, now).result.Success? {
      UpdateUserWrote(s, id, c, salt, now);
      var u := s.users[id];
      var v := Apply(u, c.name, SetEmail(c.email), NewPassword(u.password, c.password, salt).value, now);
      AppliedUserIsStorable(u, c.name, SetEmail(c.email), NewPassword(u.password, c.password, salt).value, now);
      PutUserKeepsValid(s, id, v);
    }
  }

  /** Deleting a user keeps the store valid and leaves the posts, even those the user wrote. */
  lemma DeleteUserKeepsPosts(s: Store, id: Id)
    requires Valid(s)
    ensures Valid(DeleteUser(s, id).store)
    ensures forall p :: p in s.posts.Values && p.author == id ==> p in DeleteUser(s, id).store.posts.Values
  {
  }
}
