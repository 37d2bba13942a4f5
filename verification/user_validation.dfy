/**
 * The request schemas of the user routes, as data for the validator, the
 * reading of an accepted body into service input, and what the schemas
 * accept field by field.
 */
module UserValidation {
  import opened Wrappers
  import opened Messages
  import opened Json
  import opened Validation
  import opened UserModel

  const NameMinLength := 3
  /** The update schema asks less of a password than the create schema does. */
  const UpdatePasswordMinLength := 3

  const CreateEmail := StringRule(true, [EmailAddress],
    map[StringEmail := EmailInvalid, AnyRequired := EmailRequired, StringEmpty := EmailRequired])
  const CreatePassword := StringRule(true, [MinLength(PasswordMinLength)],
    map[StringMin := PasswordMin, AnyRequired := PasswordRequired, StringEmpty := PasswordRequired])
  const CreateName := StringRule(true, [MinLength(NameMinLength)],
    map[StringMin := NameMin, AnyRequired := NameRequired, StringEmpty := NameRequired])

  /** `userValidation.createUser`. */
  const CreateUser := Schema([("email", CreateEmail), ("password", CreatePassword), ("name", CreateName)], 0, map[])

  const UpdateEmail := StringRule(false, [EmailAddress], map[StringEmail := EmailInvalid])
  const UpdatePassword := StringRule(false, [MinLength(UpdatePasswordMinLength)], map[StringMin := PasswordMin])
  const UpdateName := StringRule(false, [MinLength(NameMinLength)], map[StringMin := NameMin])

  /** `userValidation.updateUser`: every key optional, and at least one key. */
  const UpdateUser := Schema([("email", UpdateEmail), ("password", UpdatePassword), ("name", UpdateName)], 1,
    map[ObjectMin := MinOneField])

  /** The create request a body carries, if its members are strings. */
  function DecodeNewUser(body: Body): (r: Option<NewUser>)
    ensures r.Some? <==> StringAt(body, "email").Some? && StringAt(body, "password").Some? && StringAt(body, "name").Some?
    ensures r.Some? ==>
      r.value == NewUser(StringAt(body, "email").value, StringAt(body, "password").value, StringAt(body, "name").value)
  {
    match (StringAt(body, "email"), StringAt(body, "password"), StringAt(body, "name"))
    case (Some(e), Some(p), Some(n)) => Some(NewUser(e, p, n))
    case _ => None
  }

  /** The update request a body carries: each key present as a string is a change. */
  function DecodeUserChanges(body: Body): (r: UserChanges)
    ensures r.email == StringAt(body, "email") && r.password == StringAt(body, "password") && r.name == StringAt(body, "name")
  {
    UserChanges(StringAt(body, "email"), StringAt(body, "password"), StringAt(body, "name"))
  }

  /** A name is accepted, on create and on update, exactly when it is a string of at least 3 characters. */
  lemma NameBounds(j: Json, emailShape: string -> bool)
    ensures Accepts(CreateName, Some(j), emailShape) <==> j.JString? && |j.s| >= NameMinLength
    ensures Accepts(UpdateName, Some(j), emailShape) <==> j.JString? && |j.s| >= NameMinLength
    ensures !Accepts(CreateName, None, emailShape) && Accepts(UpdateName, None, emailShape)
  {
    assert CreateName.checks == UpdateName.checks == [MinLength(NameMinLength)];
    if j.JString? && j.s != "" {
      var cs := CreateName.checks;
      assert (forall i :: 0 <= i < |cs| ==> Passes(cs[i], j.s, emailShape)) <==> Passes(cs[0], j.s, emailShape);
    }
  }

  /**
   * A password is accepted on create exactly when it has at least 6
   * characters, and on update exactly when it has at least 3.
   */
  lemma PasswordBounds(j: Json, emailShape: string -> bool)
    ensures Accepts(CreatePassword, Some(j), emailShape) <==> j.JString? && |j.s| >= PasswordMinLength
    ensures Accepts(UpdatePassword, Some(j), emailShape) <==> j.JString? && |j.s| >= UpdatePasswordMinLength
    ensures !Accepts(CreatePassword, None, emailShape) && Accepts(UpdatePassword, None, emailShape)
  {
    if j.JString? && j.s != "" {
      var cs := CreatePassword.checks;
      assert cs == [MinLength(PasswordMinLength)];
      assert (forall i :: 0 <= i < |cs| ==> Passes(cs[i], j.s, emailShape)) <==> Passes(cs[0], j.s, emailShape);
      var us := UpdatePassword.checks;
      assert us == [MinLength(UpdatePasswordMinLength)];
      assert (forall i :: 0 <= i < |us| ==> Passes(us[i], j.s, emailShape)) <==> Passes(us[0], j.s, emailShape);
    }
  }

  /** A password of 3 to 5 characters passes the update schema but not the create schema. */
  lemma ShortPasswordOnlyOnUpdate(p: string, emailShape: string -> bool)
    requires UpdatePasswordMinLength <= |p| < PasswordMinLength
    ensures Accepts(UpdatePassword, Some(JString(p)), emailShape)
    ensures !Accepts(CreatePassword, Some(JString(p)), emailShape)
  {
    PasswordBounds(JString(p), emailShape);
  }

  /** An email is accepted, on create and on update, exactly when it is a non-empty string of email shape. */
  lemma EmailBounds(j: Json, emailShape: string -> bool)
    ensures Accepts(CreateEmail, Some(j), emailShape) <==> j.JString? && j.s != "" && emailShape(j.s)
    ensures Accepts(UpdateEmail, Some(j), emailShape) <==> j.JString? && j.s != "" && emailShape(j.s)
    ensures !Accepts(CreateEmail, None, emailShape) && Accepts(UpdateEmail, None, emailShape)
  {
    assert CreateEmail.checks == UpdateEmail.checks == [EmailAddress];
    if j.JString? && j.s != "" {
      var cs := CreateEmail.checks;
      assert (forall i :: 0 <= i < |cs| ==> Passes(cs[i], j.s, emailShape)) <==> Passes(cs[0], j.s, emailShape);
    }
  }

  /**
   * An empty string is reported with the "required" text on create, and
   * with the library's own text on update, which overrides nothing for it.
   */
  lemma EmptyStringMessages(emailShape: string -> bool)
    ensures CheckValue(CreateEmail, [Key("email")], Some(JString("")), CreateUser.messages, emailShape)
      == [Violation([Key("email")], StringEmpty, Catalog(EmailRequired))]
    ensures CheckValue(CreatePassword, [Key("password")], Some(JString("")), CreateUser.messages, emailShape)
      == [Violation([Key("password")], StringEmpty, Catalog(PasswordRequired))]
    ensures CheckValue(CreateName, [Key("name")], Some(JString("")), CreateUser.messages, emailShape)
      == [Violation([Key("name")], StringEmpty, Catalog(NameRequired))]
    ensures CheckValue(UpdateEmail, [Key("email")], Some(JString("")), UpdateUser.messages, emailShape)
      == [Violation([Key("email")], StringEmpty, LibraryDefault("string.empty"))]
  {
  }

  /** A create body is accepted only when all three keys are present; a missing key is reported as required. */
  lemma CreateNeedsEveryKey(body: Body, emailShape: string -> bool)
    ensures ValidateBody(CreateUser, body, emailShape) == [] ==>
      Lookup(body, "email").Some? && Lookup(body, "password").Some? && Lookup(body, "name").Some?
    ensures Lookup(body, "email").None? ==>
      Violation([Key("email")], AnyRequired, Catalog(EmailRequired)) in ValidateBody(CreateUser, body, emailShape)
    ensures Lookup(body, "password").None? ==>
      Violation([Key("password")], AnyRequired, Catalog(PasswordRequired)) in ValidateBody(CreateUser, body, emailShape)
    ensures Lookup(body, "name").None? ==>
      Violation([Key("name")], AnyRequired, Catalog(NameRequired)) in ValidateBody(CreateUser, body, emailShape)
  {
    var keys := CreateUser.keys;
    if ValidateBody(CreateUser, body, emailShape) == [] {
      assert Accepts(keys[0].1, Lookup(body, "email"), emailShape);
      assert Accepts(keys[1].1, Lookup(body, "password"), emailShape);
      assert Accepts(keys[2].1, Lookup(body, "name"), emailShape);
    }
    if Lookup(body, "email").None? {
      var v := Violation([Key("email")], AnyRequired, Catalog(EmailRequired));
      assert v in CheckValue(keys[0].1, [Key(keys[0].0)], Lookup(body, keys[0].0), CreateUser.messages, emailShape);
      KeyViolationReported(CreateUser, body, emailShape, 0, v);
    }
    if Lookup(body, "password").None? {
      var v := Violation([Key("password")], AnyRequired, Catalog(PasswordRequired));
      assert v in CheckValue(keys[1].1, [Key(keys[1].0)], Lookup(body, keys[1].0), CreateUser.messages, emailShape);
      KeyViolationReported(CreateUser, body, emailShape, 1, v);
    }
    if Lookup(body, "name").None? {
      var v := Violation([Key("name")], AnyRequired, Catalog(NameRequired));
      assert v in CheckValue(keys[2].1, [Key(keys[2].0)], Lookup(body, keys[2].0), CreateUser.messages, emailShape);
      KeyViolationReported(CreateUser, body, emailShape, 2, v);
    }
  }

  /** An accepted create body reads as a create request whose values meet the schema's bounds. */
  lemma AcceptedCreateDecodes(body: Body, emailShape: string -> bool)
    requires ValidateBody(CreateUser, body, emailShape) == []
    ensures DecodeNewUser(body).Some?
    ensures emailShape(DecodeNewUser(body).value.email)
    ensures |DecodeNewUser(body).value.password| >= PasswordMinLength
    ensures |DecodeNewUser(body).value.name| >= NameMinLength
  {
    var keys := CreateUser.keys;
    assert Accepts(keys[0].1, Lookup(body, "email"), emailShape);
    assert Accepts(keys[1].1, Lookup(body, "password"), emailShape);
    assert Accepts(keys[2].1, Lookup(body, "name"), emailShape);
    EmailBounds(Lookup(body, "email").value, emailShape);
    PasswordBounds(Lookup(body, "password").value, emailShape);
    NameBounds(Lookup(body, "name").value, emailShape);
  }

  /** An empty update body fails with the single "at least one field" violation. */
  lemma UpdateNeedsOneField(emailShape: string -> bool)
    ensures ValidateBody(UpdateUser, [], emailShape) == [Violation([], ObjectMin, Catalog(MinOneField))]
  {
  }

  /** An update body carrying any key other than email, password and name is refused. */
  lemma UpdateRejectsUnknown(body: Body, i: nat, emailShape: string -> bool)
    requires i < |body| && body[i].0 != "email" && body[i].0 != "password" && body[i].0 != "name"
    ensures Violation([Key(body[i].0)], ObjectUnknown, LibraryDefault("object.unknown")) in ValidateBody(UpdateUser, body, emailShape)
  {
    var keys := UpdateUser.keys;
    assert keys[0].0 == "email" && keys[1].0 == "password" && keys[2].0 == "name";
    assert !Declared(keys, body[i].0);
    UnknownKeyReported(UpdateUser, body, emailShape, i);
    assert ObjectUnknown !in UpdateUser.messages;
  }

  /**
   * An accepted update body is not empty, and reads as the changes its keys
   * carry, each within the update schema's bounds.
   */
  lemma AcceptedUpdateDecodes(body: Body, emailShape: string -> bool)
    requires ValidateBody(UpdateUser, body, emailShape) == []
    ensures |body| >= 1
    ensures DecodeUserChanges(body).email.Some? <==> Lookup(body, "email").Some?
    ensures DecodeUserChanges(body).password.Some? <==> Lookup(body, "password").Some?
    ensures DecodeUserChanges(body).name.Some? <==> Lookup(body, "name").Some?
    ensures DecodeUserChanges(body).email.Some? ==> emailShape(DecodeUserChanges(body).email.value)
    ensures DecodeUserChanges(body).password.Some? ==> |DecodeUserChanges(body).password.value| >= UpdatePasswordMinLength
    ensures DecodeUserChanges(body).name.Some? ==> |DecodeUserChanges(body).name.value| >= NameMinLength
  {
    var keys := UpdateUser.keys;
    assert Accepts(keys[0].1, Lookup(body, "email"), emailShape);
    assert Accepts(keys[1].1, Lookup(body, "password"), emailShape);
    assert Accepts(keys[2].1, Lookup(body, "name"), emailShape);
    if Lookup(body, "email").Some? {
      EmailBounds(Lookup(body, "email").value, emailShape);
    }
    if Lookup(body, "password").Some? {
      PasswordBounds(Lookup(body, "password").value, emailShape);
    }
    if Lookup(body, "name").Some? {
      NameBounds(Lookup(body, "name").value, emailShape);
    }
  }

  /** A body with only a password of at least 3 characters passes the update schema and changes only the password. */
  lemma PasswordOnlyBody(p: string, emailShape: string -> bool)
    requires |p| >= UpdatePasswordMinLength
    ensures ValidateBody(UpdateUser, [("password", JString(p))], emailShape) == []
    ensures DecodeUserChanges([("password", JString(p))]) == UserChanges(None, Some(p), None)
  {
    var body := [("password", JString(p))];
    PasswordBounds(JString(p), emailShape);
    assert Lookup(body, "email").None? && Lookup(body, "name").None?;
    assert UpdateUser.keys == [("email", UpdateEmail), ("password", UpdatePassword), ("name", UpdateName)];
    assert Declared(UpdateUser.keys, "password") by { assert UpdateUser.keys[1].0 == "password"; }
    assert AcceptsBody(UpdateUser, body, emailShape);
  }

  /** A body with only an email of email shape passes the update schema and changes only the email. */
  lemma EmailOnlyBody(e: string, emailShape: string -> bool)
    requires e != "" && emailShape(e)
    ensures ValidateBody(UpdateUser, [("email", JString(e))], emailShape) == []
    ensures DecodeUserChanges([("email", JString(e))]) == UserChanges(Some(e), None, None)
  {
    var body := [("email", JString(e))];
    EmailBounds(JString(e), emailShape);
    assert Lookup(body, "password").None? && Lookup(body, "name").None?;
    assert UpdateUser.keys == [("email", UpdateEmail), ("password", UpdatePassword), ("name", UpdateName)];
    assert Declared(UpdateUser.keys, "email") by { assert UpdateUser.keys[0].0 == "email"; }
    assert AcceptsBody(UpdateUser, body, emailShape);
  }

  /** A body with an email of email shape and a password of update length passes and changes exactly those two fields. */
  lemma EmailAndPasswordBody(e: string, p: string, emailShape: string -> bool)
    requires e != "" && emailShape(e) && |p| >= UpdatePasswordMinLength
    ensures ValidateBody(UpdateUser, [("email", JString(e)), ("password", JString(p))], emailShape) == []
    ensures DecodeUserChanges([("email", JString(e)), ("password", JString(p))]) == UserChanges(Some(e), Some(p), None)
  {
    var body := [("email", JString(e)), ("password", JString(p))];
    EmailBounds(JString(e), emailShape);
    PasswordBounds(JString(p), emailShape);
    assert Lookup(body, "email") == Some(JString(e));
    assert Lookup(body, "password") == Some(JString(p));
    assert Lookup(body, "name").None?;
    assert UpdateUser.keys == [("email", UpdateEmail), ("password", UpdatePassword), ("name", UpdateName)];
    assert Declared(UpdateUser.keys, "email") by { assert UpdateUser.keys[0].0 == "email"; }
    assert Declared(UpdateUser.keys, "password") by { assert UpdateUser.keys[1].0 == "password"; }
    assert AcceptsBody(UpdateUser, body, emailShape);
  }
}
