/**
 * The routes that carry a body: the `validate` middleware, then the reading
 * of the accepted body, the service call and the handler. Each route answers
 * a response and the store after the request. The other routes are their
 * handler applied to their service call, as `GetPostsByUserRoute` shows.
 */
module Endpoints {
  import opened Wrappers
  import opened Messages
  import opened Ids
  import opened Json
  import opened Validation
  import opened Http
  import opened Store
  import UserModel
  import EmailPattern
  import PostValidation
  import UserValidation
  import PostService
  import UserService
  import PostController
  import UserController
  import ValidateMiddleware

  /** `GET /posts/user/:userId`. */
  function GetPostsByUserRoute(s: Store, userId: Id): (r: Response)
    ensures r.status == 200 <==> exists id :: id in s.posts && s.posts[id].author == userId
    ensures r.status != 200 ==> r == Response(404, Error(UserNotFoundText, None))
  {
    PostController.GetPostsByUserResponse(PostService.GetPostsByUser(s, userId).result)
  }

  /** `POST /posts`. */
  function CreatePostRoute(s: Store, body: Body, newId: Id, now: int, emailShape: string -> bool): (r: (Response, Store))
    requires newId !in s.posts
    ensures !AcceptsBody(PostValidation.CreatePost, body, emailShape) ==> r.1 == s && r.0.status == 400
  {
    match ValidateMiddleware.Validate(PostValidation.CreatePost, body, emailShape)
    case Reject(response) => (response, s)
    case Next =>
      PostValidation.AcceptedCreateDecodes(body, emailShape);
      var step := PostService.CreatePost(s, PostValidation.DecodeNewPost(body).value, newId, now);
      (PostController.CreatePostResponse(step.result), step.store)
  }

  /**
   * Through the route a post creation never answers 500: the schema only
   * lets through authors that cast, so the only failures left are the
   * schema's, the missing author and the store's validation.
   */
  lemma CreatePostNever500(s: Store, body: Body, newId: Id, now: int, emailShape: string -> bool)
    requires newId !in s.posts
    ensures CreatePostRoute(s, body, newId, now, emailShape).0.status in {201, 400, 404}
  {
    if ValidateMiddleware.Validate(PostValidation.CreatePost, body, emailShape).Next? {
      PostValidation.AcceptedCreateDecodes(body, emailShape);
      var n := PostValidation.DecodeNewPost(body).value;
      var r := PostService.CreatePost(s, n, newId, now).result;
      if r.Failure? {
        PostController.CreateKnownFailures(r.error);
      }
    }
  }

  /** `PUT /posts/:id`. */
  function UpdatePostRoute(s: Store, id: Id, body: Body, now: int, emailShape: string -> bool): (r: (Response, Store))
    ensures !AcceptsBody(PostValidation.UpdatePost, body, emailShape) ==> r.1 == s && r.0.status == 400
  {
    match ValidateMiddleware.Validate(PostValidation.UpdatePost, body, emailShape)
    case Reject(response) => (response, s)
    case Next =>
      var step := PostService.UpdatePost(s, id, PostValidation.DecodeChanges(body), now);
      (PostController.UpdatePostResponse(step.result), step.store)
  }

  /** `POST /users`. */
  function CreateUserRoute(s: Store, body: Body, newId: Id, now: int, emailShape: string -> bool): (r: (Response, Store))
    requires newId !in s.users
    ensures !AcceptsBody(UserValidation.CreateUser, body, emailShape) ==> r.1 == s && r.0.status == 400
  {
    match ValidateMiddleware.Validate(UserValidation.CreateUser, body, emailShape)
    case Reject(response) => (response, s)
    case Next =>
      UserValidation.AcceptedCreateDecodes(body, emailShape);
      var step := UserService.CreateUser(s, UserValidation.DecodeNewUser(body).value, newId, now);
      (UserController.CreateUserResponse(step.result), step.store)
  }

  /** `PUT /users/:id`; `salt` is the salt the hashing library would draw. */
  function UpdateUserRoute(s: Store, id: Id, body: Body, salt: nat, now: int, emailShape: string -> bool): (r: (Response, Store))
    ensures !AcceptsBody(UserValidation.UpdateUser, body, emailShape) ==> r.1 == s && r.0.status == 400
  {
    match ValidateMiddleware.Validate(UserValidation.UpdateUser, body, emailShape)
    case Reject(response) => (response, s)
    case Next =>
      var step := UserService.UpdateUser(s, id, UserValidation.DecodeUserChanges(body), salt, now);
      (UserController.UpdateUserResponse(step.result), step.store)
  }

  /**
   * A post with a two-letter title, five-letter content and no tags is
   * refused before the service with three entries, in key order; nothing is
   * written.
   */
  lemma ShortPostAnswer(s: Store, author: Id, newId: Id, now: int, emailShape: string -> bool)
    requires newId !in s.posts
    ensures CreatePostRoute(s, PostValidation.ShortBody(author), newId, now, emailShape)
      == (Response(400, Error(ValidationErrorText, Some([FieldError("title", Catalog(TitleMin)),
                                                        FieldError("content", Catalog(ContentMin)),
                                                        FieldError("tags", Catalog(TagsMin))]))), s)
  {
    PostValidation.ShortCreateBody(author, emailShape);
    ValidateMiddleware.FieldNames("title", 0);
    ValidateMiddleware.FieldNames("content", 0);
    ValidateMiddleware.FieldNames("tags", 0);
    ValidateMiddleware.EntriesOfThree(Violation([Key("title")], StringMin, Catalog(TitleMin)),
                                      Violation([Key("content")], StringMin, Catalog(ContentMin)),
                                      Violation([Key("tags")], ArrayMin, Catalog(TagsMin)));
  }

  /** An empty update body is refused with the single "at least one field" entry, under an empty field name. */
  lemma EmptyPostUpdateAnswer(s: Store, id: Id, now: int, emailShape: string -> bool)
    ensures UpdatePostRoute(s, id, [], now, emailShape)
      == (Response(400, Error(ValidationErrorText, Some([FieldError("", Catalog(MinOneField))]))), s)
  {
    PostValidation.UpdateNeedsOneField(emailShape);
    ValidateMiddleware.FieldNames("", 0);
    ValidateMiddleware.EntriesOfOne(Violation([], ObjectMin, Catalog(MinOneField)));
  }

  /**
   * Resubmitting one's current password, with an email no user has, is
   * refused as a server error (500), not as the same-password message, and
   * nothing is written.
   */
  lemma SamePasswordAnswer(s: Store, id: Id, e: string, p: string, salt: nat, now: int, emailShape: string -> bool)
    requires id in s.users && s.users[id].password.Hashed? && UserModel.Compares(p, s.users[id].password.hash)
    requires |p| >= UserValidation.UpdatePasswordMinLength
    requires e != "" && emailShape(e) && !EmailTaken(s.users, UserModel.NormalizeEmail(e))
    ensures UpdateUserRoute(s, id, [("email", JString(e)), ("password", JString(p))], salt, now, emailShape)
      == (Response(500, Error(UserUpdateError, None)), s)
  {
    UserValidation.EmailAndPasswordBody(e, p, emailShape);
    var c := UserModel.UserChanges(Some(e), Some(p), None);
    UserService.SamePasswordRefused(s, id, c, salt, now);
    UserController.KnownUpdateFailures();
  }

  /** Resubmitting one's own email is refused as already registered, and nothing is written. */
  lemma OwnEmailAnswer(s: Store, id: Id, salt: nat, now: int, emailShape: string -> bool)
    requires Valid(s) && id in s.users && emailShape(s.users[id].email)
    ensures UpdateUserRoute(s, id, [("email", JString(s.users[id].email))], salt, now, emailShape)
      == (Response(400, Error(EmailExistsText, None)), s)
  {
    var e := s.users[id].email;
    assert UserModel.IsStoredUser(s.users[id]);
    EmailPattern.MatchesNotEmpty(e);
    UserValidation.EmailOnlyBody(e, emailShape);
    var body := [("email", JString(e))];
    assert ValidateMiddleware.Validate(UserValidation.UpdateUser, body, emailShape) == ValidateMiddleware.Next;
    var c := UserModel.UserChanges(Some(e), None, None);
    UserService.OwnEmailIsTaken(s, id, c, salt, now);
    UserController.KnownUpdateFailures();
  }
}
