/**
 * The user document: what the store keeps, the normalisation and
 * constraints the user schema applies before a write, password comparison,
 * the default projection that hides the password, and the JSON view.
 */
module UserModel {
  import opened Wrappers
  import opened Text
  import opened Messages
  import opened Ids
  import opened Documents
  import EmailPattern

  /**
   * A salted one-way password hash, kept symbolic: the only thing the model
   * does with it is ask, through `Compares`, which password it was made from.
   */
  datatype Hash = Hash(salt: nat, preimage: string)

  /** Length of a hash string in the library's encoding. */
  const HashLength := 60

  /** bcrypt keys its cipher with at most this many leading units of a password. */
  const BcryptKeyLength := 72

  /** The part of a password bcrypt reads: a longer password is cut after `BcryptKeyLength`. */
  function BcryptKey(password: string): (k: string)
    ensures |k| <= BcryptKeyLength
    ensures |password| <= BcryptKeyLength ==> k == password
    ensures |password| > BcryptKeyLength ==> k == password[..BcryptKeyLength]
  {
    if |password| > BcryptKeyLength then password[..BcryptKeyLength] else password
  }

  /** The hashing library's verdict that `password` is one `h` was made from: their keys agree. */
  predicate Compares(password: string, h: Hash) {
    BcryptKey(h.preimage) == BcryptKey(password)
  }

  /**
   * Hashing a password under a salt: the hash compares equal to that
   * password and to exactly the passwords bcrypt cannot tell from it.
   */
  function HashPassword(password: string, salt: nat): (h: Hash)
    ensures Compares(password, h)
    ensures forall p :: Compares(p, h) <==> BcryptKey(p) == BcryptKey(password)
  {
    Hash(salt, password)
  }

  /** Below the key length a hash compares equal to exactly the password it was made from. */
  lemma ShortPasswordHashIsExact(password: string, salt: nat, p: string)
    requires |password| < BcryptKeyLength
    ensures Compares(p, HashPassword(password, salt)) <==> p == password
  {
  }

  /** Two passwords that agree on their first `BcryptKeyLength` units share every hash. */
  lemma LongPasswordsShareHash(a: string, b: string, salt: nat)
    requires |a| >= BcryptKeyLength && |b| >= BcryptKeyLength
    requires a[..BcryptKeyLength] == b[..BcryptKeyLength]
    ensures Compares(b, HashPassword(a, salt))
  {
    if |a| == BcryptKeyLength {
      assert a[..BcryptKeyLength] == a;
    }
    if |b| == BcryptKeyLength {
      assert b[..BcryptKeyLength] == b;
    }
  }

  /** The stored password field: the text as written, or a hash. */
  datatype Secret = Plain(text: string) | Hashed(hash: Hash)

  function StoredLength(s: Secret): nat {
    match s
    case Plain(t) => |t|
    case Hashed(_) => HashLength
  }

  datatype User = User(
    id: Id,
    name: string,
    email: string,
    password: Secret,
    version: nat,
    createdAt: Option<int>,
    updatedAt: Option<int>)

  /** The fields of a create request. */
  datatype NewUser = NewUser(email: string, password: string, name: string)

  /** The fields of an update request; an absent field is left alone. */
  datatype UserChanges = UserChanges(email: Option<string>, password: Option<string>, name: Option<string>)

  const PasswordMinLength := 6

  /** The `lowercase` and `trim` setters of the email field. */
  function NormalizeEmail(e: string): (r: string)
    ensures IsTrimmed(r) && IsLower(r)
  {
    TrimKeepsLower(Lower(e));
    Trim(Lower(e))
  }

  lemma TrimKeepsLower(l: string)
    requires IsLower(l)
    ensures IsLower(Trim(l))
  {
    var k := LeadingSpaces(l);
    var r := Trim(l);
    forall i | 0 <= i < |r|
      ensures !IsUpper(r[i])
    {
      assert r[i] == l[k + i];
    }
  }

  /** Normalising twice is normalising once, so a stored email looks itself up. */
  lemma NormalizeEmailIdempotent(e: string)
    ensures NormalizeEmail(NormalizeEmail(e)) == NormalizeEmail(e)
  {
    var r := NormalizeEmail(e);
    assert Lower(r) == r;
    TrimIdempotent(r);
  }

  /** A stored email is already normal, so looking it up finds it. */
  lemma NormalEmailIsFixed(e: string)
    requires IsTrimmed(e) && IsLower(e)
    ensures NormalizeEmail(e) == e
  {
    assert Lower(e) == e;
    TrimIdempotent(e);
  }

  /** The constraints every stored user satisfies. */
  predicate IsStoredUser(u: User) {
    && u.name != ""
    && IsTrimmed(u.email) && IsLower(u.email) && EmailPattern.Matches(u.email)
    && StoredLength(u.password) >= PasswordMinLength
  }

  function NameError(n: string): (m: Option<string>)
    ensures m.None? <==> n != ""
  {
    if n == "" then Some(NameRequired) else None
  }

  /** Required first, then the pattern; `e` is the value after the setters. */
  function EmailError(e: string): (m: Option<string>)
    ensures m.None? <==> EmailPattern.Matches(e)
    ensures e == "" ==> m == Some(EmailRequired)
  {
    if e == "" then Some(EmailRequired)
    else if !EmailPattern.Matches(e) then Some(EmailInvalid)
    else None
  }

  function PasswordError(s: Secret): (m: Option<string>)
    ensures m.None? <==> StoredLength(s) >= PasswordMinLength
  {
    if StoredLength(s) == 0 then Some(PasswordRequired)
    else if StoredLength(s) < PasswordMinLength then Some(PasswordMin)
    else None
  }

  /**
   * The schema's verdict on the values about to be written, in schema order
   * (name, email, password): none exactly when every supplied value is storable.
   */
  function FieldErrors(name: Option<string>, email: Option<string>, password: Option<Secret>): (errs: seq<FieldError>)
    ensures errs == [] <==>
      && (name.Some? ==> name.value != "")
      && (email.Some? ==> EmailPattern.Matches(email.value))
      && (password.Some? ==> StoredLength(password.value) >= PasswordMinLength)
    ensures |errs| <= 3
  {
    (if name.Some? then OptionalError("name", NameError(name.value)) else [])
    + (if email.Some? then OptionalError("email", EmailError(email.value)) else [])
    + (if password.Some? then OptionalError("password", PasswordError(password.value)) else [])
  }

  /** The text the hashing library reports when a stored value is not a hash it can parse. */
  const UnparsableHashText := "Invalid salt version"

  /**
   * `bcrypt.compare(candidate, stored)`. A hash compares as `Compares` says.
   * A stored plain text is not a hash: when its length is not a hash's the
   * library answers false; a plain text of hash length is parsed as a hash,
   * which the model treats as a parse failure.
   */
  function BcryptCompare(candidate: string, stored: Secret): (r: Result<bool, ErrorKind>)
    ensures r == Success(true) <==> stored.Hashed? && Compares(candidate, stored.hash)
    ensures r.Failure? ==> stored.Plain? && |stored.text| == HashLength && r.error.Other?
  {
    match stored
    case Hashed(h) => Success(Compares(candidate, h))
    case Plain(t) =>
      if |t| != HashLength then Success(false)
      else Failure(Other(GenericErrorName, UnparsableHashText))
  }

  /**
   * The `comparePassword` document method: a failing comparison is reported
   * as a mismatch, so the method itself never fails.
   */
  function ComparePassword(candidate: string, stored: Secret): (r: bool)
    ensures r <==> BcryptCompare(candidate, stored) == Success(true)
    ensures BcryptCompare(candidate, stored).Failure? ==> !r
    ensures r <==> stored.Hashed? && Compares(candidate, stored.hash)
  {
    match BcryptCompare(candidate, stored)
    case Success(same) => same
    case Failure(_) => false
  }

  /** A user document as a query returns it; the password appears only when selected. */
  datatype UserDoc = UserDoc(
    id: Id,
    name: string,
    email: string,
    password: Option<Secret>,
    version: nat,
    createdAt: Option<int>,
    updatedAt: Option<int>)

  /** What a default query returns: the password field is excluded. */
  function DefaultRead(u: User): (d: UserDoc)
    ensures d.password.None?
    ensures d.id == u.id && d.name == u.name && d.email == u.email
  {
    UserDoc(u.id, u.name, u.email, None, u.version, u.createdAt, u.updatedAt)
  }

  /** The document as written by a create: every field, the password included. */
  function Written(u: User): (d: UserDoc)
    ensures d.password == Some(u.password)
    ensures d.id == u.id && d.name == u.name && d.email == u.email
  {
    UserDoc(u.id, u.name, u.email, Some(u.password), u.version, u.createdAt, u.updatedAt)
  }

  /** The JSON view: `_id` becomes `id`, `__v` is dropped, timestamps are shifted. */
  datatype UserJson = UserJson(
    id: Id,
    name: string,
    email: string,
    password: Option<Secret>,
    createdAt: Option<int>,
    updatedAt: Option<int>)

  function ToJson(d: UserDoc): (j: UserJson)
    ensures j.id == d.id && j.name == d.name && j.email == d.email && j.password == d.password
    ensures j.createdAt.Some? <==> d.createdAt.Some?
    ensures j.updatedAt.Some? <==> d.updatedAt.Some?
    ensures d.createdAt.Some? ==> j.createdAt.value == d.createdAt.value + 10800000
    ensures d.updatedAt.Some? ==> j.updatedAt.value == d.updatedAt.value + 10800000
  {
    UserJson(d.id, d.name, d.email, d.password, Shift(d.createdAt), Shift(d.updatedAt))
  }

  function FromJson(j: UserJson, version: nat): (d: UserDoc)
    ensures d.version == version && ToJson(d) == j
  {
    UserDoc(j.id, j.name, j.email, j.password, version, Unshift(j.createdAt), Unshift(j.updatedAt))
  }

  /** Reading a user view back with its version restores the document; timestamps move by three hours. */
  lemma JsonRoundTrip(d: UserDoc)
    ensures FromJson(ToJson(d), d.version) == d
    ensures d.createdAt.Some? ==> ToJson(d).createdAt.value == d.createdAt.value + 10800000
    ensures d.updatedAt.Some? ==> ToJson(d).updatedAt.value == d.updatedAt.value + 10800000
  {
    UnshiftShift(d.createdAt);
    UnshiftShift(d.updatedAt);
  }

  /** A default read never shows a password, in the document or in its view. */
  lemma DefaultReadHidesPassword(u: User)
    ensures ToJson(DefaultRead(u)).password.None?
    ensures FromJson(ToJson(DefaultRead(u)), u.version) == DefaultRead(u)
  {
    JsonRoundTrip(DefaultRead(u));
  }
}
