/**
 * The user handlers: each turns the outcome of a service call into a status
 * and an envelope, comparing `error.message` and `error.name` with fixed
 * texts in the handlers' order. `CreateFailure` and `UpdateFailure` state
 * the same dispatch by error kind.
 */
module UserController {
  import opened Wrappers
  import opened Messages
  import opened UserModel
  import opened Http

  /** A listing shows every user it lists, in order, and each can be read back from its view. */
  lemma ViewsReadBack(ds: seq<UserDoc>)
    ensures |Map(ds, ToJson)| == |ds|
    ensures forall i :: 0 <= i < |ds| ==> FromJson(Map(ds, ToJson)[i], ds[i].version) == ds[i]
  {
    forall i | 0 <= i < |ds|
      ensures FromJson(Map(ds, ToJson)[i], ds[i].version) == ds[i]
    {
      JsonRoundTrip(ds[i]);
    }
  }

  /** `getAllUsers`: 200 with the count and the users, or 500. */
  function GetAllUsersResponse(outcome: Result<seq<UserDoc>, ErrorKind>): (r: Response)
    ensures r.body.Ok? <==> outcome.Success?
    ensures outcome.Success? ==>
      r.status == 200 && r.body.results == Some(|outcome.value|) && r.body.data == Users(Map(outcome.value, ToJson))
    ensures outcome.Failure? ==> r == Response(500, Error(UserGetError, None))
  {
    match outcome
    case Success(ds) => Response(200, Ok(None, Some(|ds|), Users(Map(ds, ToJson))))
    case Failure(_) => Response(500, Error(UserGetError, None))
  }

  /** A 404 for the missing-user text, a 500 otherwise, with the error's own text. */
  function UserNotFoundOr500(e: ErrorKind): (r: Response)
    ensures r.body == Error(MessageOf(e), None)
    ensures r.status == 404 <==> MessageOf(e) == UserNotFoundText
    ensures r.status != 404 ==> r.status == 500
  {
    Response(if MessageOf(e) == UserNotFoundText then 404 else 500, Error(MessageOf(e), None))
  }

  /** `getUserById`: 200 with the user, 404 for the missing-user text, else 500. */
  function GetUserByIdResponse(outcome: Result<UserDoc, ErrorKind>): (r: Response)
    ensures r.body.Ok? <==> outcome.Success?
    ensures outcome.Success? ==> r.status == 200 && r.body.data == OneUser(ToJson(outcome.value))
    ensures outcome.Failure? ==> r == UserNotFoundOr500(outcome.error)
  {
    match outcome
    case Success(d) => Response(200, Ok(None, None, OneUser(ToJson(d))))
    case Failure(e) => UserNotFoundOr500(e)
  }

  /**
   * `createUser`: 201 with the user; on failure, in order: the
   * password-comparison text is a 400 with that text; a validation error
   * lists its paths; the email-exists text is a 400 with that text;
   * anything else is a 500.
   */
  function CreateUserResponse(outcome: Result<UserDoc, ErrorKind>): (r: Response)
    ensures r.body.Ok? <==> outcome.Success?
    ensures outcome.Success? ==> r.status == 201 && r.body.data == OneUser(ToJson(outcome.value))
    ensures outcome.Failure? ==> r.status in {400, 500}
  {
    match outcome
    case Success(d) => Response(201, Ok(None, None, OneUser(ToJson(d))))
    case Failure(e) =>
      if MessageOf(e) == PasswordCompareError then Response(400, Error(MessageOf(e), None))
      else if NameOf(e) == "ValidationError" then Response(400, Error(ValidationErrorText, Some(e.errors)))
      else if MessageOf(e) == EmailExistsText then Response(400, Error(MessageOf(e), None))
      else Response(500, Error(UserCreateError, None))
  }

  /** What `createUser` answers to each kind of error. */
  function CreateFailure(e: ErrorKind): (r: Response)
    ensures r.status == 400 <==> e.StoreValidation? || e == EmailExists
    ensures r.status != 400 ==> r == Response(500, Error(UserCreateError, None))
  {
    match e
    case StoreValidation(errors) => Response(400, Error(ValidationErrorText, Some(errors)))
    case EmailExists => Response(400, Error(EmailExistsText, None))
    case _ => Response(500, Error(UserCreateError, None))
  }

  /**
   * `updateUser`: 200 with the user; on failure, in order: the
   * password-comparison text and a validation error are 400s, the
   * email-exists text is a 400, the missing-user text a 404, anything else
   * (the same-password error among them) a 500.
   */
  function UpdateUserResponse(outcome: Result<UserDoc, ErrorKind>): (r: Response)
    ensures r.body.Ok? <==> outcome.Success?
    ensures outcome.Success? ==> r.status == 200 && r.body.data == OneUser(ToJson(outcome.value))
    ensures outcome.Failure? ==> r.status in {400, 404, 500}
  {
    match outcome
    case Success(d) => Response(200, Ok(None, None, OneUser(ToJson(d))))
    case Failure(e) =>
      if MessageOf(e) == PasswordCompareError then Response(400, Error(MessageOf(e), None))
      else if NameOf(e) == "ValidationError" then Response(400, Error(ValidationErrorText, Some(e.errors)))
      else if MessageOf(e) == EmailExistsText then Response(400, Error(MessageOf(e), None))
      else if MessageOf(e) == UserNotFoundText then Response(404, Error(MessageOf(e), None))
      else Response(500, Error(UserUpdateError, None))
  }

  /** What `updateUser` answers to each kind of error. */
  function UpdateFailure(e: ErrorKind): (r: Response)
    ensures r.status == 400 <==> e.StoreValidation? || e == EmailExists
    ensures r.status == 404 <==> e == UserNotFound
    ensures r.status != 400 && r.status != 404 ==> r == Response(500, Error(UserUpdateError, None))
  {
    match e
    case StoreValidation(errors) => Response(400, Error(ValidationErrorText, Some(errors)))
    case EmailExists => Response(400, Error(EmailExistsText, None))
    case UserNotFound => Response(404, Error(UserNotFoundText, None))
    case _ => Response(500, Error(UserUpdateError, None))
  }

  /** The answers to a taken email and to an unchanged password. */
  lemma KnownUpdateFailures()
    ensures UpdateUserResponse(Failure(EmailExists)) == Response(400, Error(EmailExistsText, None))
    ensures UpdateUserResponse(Failure(PasswordSame)) == Response(500, Error(UserUpdateError, None))
  {
    SentinelTextsDistinct();
  }

  /** `deleteUser`: 204 with no data, 404 for the missing-user text, else 500. */
  function DeleteUserResponse(outcome: Result<UserDoc, ErrorKind>): (r: Response)
    ensures r.body.Ok? <==> outcome.Success?
    ensures outcome.Success? ==> r == Response(204, Ok(None, None, NoData))
    ensures outcome.Failure? ==> r == UserNotFoundOr500(outcome.error)
  {
    match outcome
    case Success(_) => Response(204, Ok(None, None, NoData))
    case Failure(e) => UserNotFoundOr500(e)
  }

  /**
   * For every error whose text is not mistaken for another's, the
   * text-based dispatch gives what each error kind is meant to give.
   */
  lemma DispatchByKind(e: ErrorKind)
    requires Distinguishable(e)
    ensures CreateUserResponse(Failure(e)) == CreateFailure(e)
    ensures UpdateUserResponse(Failure(e)) == UpdateFailure(e)
    ensures GetUserByIdResponse(Failure(e)).status == (if e == UserNotFound then 404 else 500)
    ensures DeleteUserResponse(Failure(e)).status == (if e == UserNotFound then 404 else 500)
  {
    SentinelTextsDistinct();
  }
}
