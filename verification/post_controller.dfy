/**
 * The post handlers: each turns the outcome of a service call into a status
 * and an envelope. Like the handlers, the failure branches compare
 * `error.name` and `error.message` with fixed texts, in the handlers' order;
 * `CreateFailure` and friends state the same dispatch by error kind.
 */
module PostController {
  import opened Wrappers
  import opened Messages
  import opened PostModel
  import opened Http

  /** A listing shows every post it lists, in order, and each can be read back from its view. */
  lemma ViewsReadBack(ps: seq<Post>)
    ensures |Map(ps, ToJson)| == |ps|
    ensures forall i :: 0 <= i < |ps| ==> FromJson(Map(ps, ToJson)[i], ps[i].version) == ps[i]
  {
    forall i | 0 <= i < |ps|
      ensures FromJson(Map(ps, ToJson)[i], ps[i].version) == ps[i]
    {
      JsonRoundTrip(ps[i]);
    }
  }

  /** The 400 envelope of a store validation error: one entry per failing path. */
  function StoreErrors(errors: seq<FieldError>): (r: Response)
    ensures r.status == 400 && r.body.Error? && r.body.message == ValidationErrorText
    ensures r.body.errors == Some(errors)
  {
    Response(400, Error(ValidationErrorText, Some(errors)))
  }

  /** `getAllPosts`: 200 with the count and the posts, or 500. */
  function GetAllPostsResponse(outcome: Result<seq<Post>, ErrorKind>): (r: Response)
    ensures r.body.Ok? <==> outcome.Success?
    ensures outcome.Success? ==>
      r.status == 200 && r.body.results == Some(|outcome.value|) && r.body.data == Posts(Map(outcome.value, ToJson))
    ensures outcome.Failure? ==> r == Response(500, Error(PostGetError, None))
  {
    match outcome
    case Success(ps) => Response(200, Ok(None, Some(|ps|), Posts(Map(ps, ToJson))))
    case Failure(_) => Response(500, Error(PostGetError, None))
  }

  /** A 404 when the error's text is `notFound`, a 500 otherwise, with the error's own text. */
  function NotFoundOr500(e: ErrorKind, notFound: string): (r: Response)
    ensures r.body == Error(MessageOf(e), None)
    ensures r.status == 404 <==> MessageOf(e) == notFound
    ensures r.status != 404 ==> r.status == 500
  {
    Response(if MessageOf(e) == notFound then 404 else 500, Error(MessageOf(e), None))
  }

  /** `getPostsByUser`: 200 with the posts; 404 when the error is the missing-user text. */
  function GetPostsByUserResponse(outcome: Result<seq<Post>, ErrorKind>): (r: Response)
    ensures r.body.Ok? <==> outcome.Success?
    ensures outcome.Success? ==> r.status == 200 && r.body.results.None? && r.body.data == Posts(Map(outcome.value, ToJson))
    ensures outcome.Failure? ==> r == NotFoundOr500(outcome.error, UserNotFoundText)
  {
    match outcome
    case Success(ps) => Response(200, Ok(None, None, Posts(Map(ps, ToJson))))
    case Failure(e) => NotFoundOr500(e, UserNotFoundText)
  }

  /** `getPostsByTag`: 200 with the posts; 404 when the error is the no-post-for-tag text. */
  function GetPostsByTagResponse(outcome: Result<seq<Post>, ErrorKind>): (r: Response)
    ensures r.body.Ok? <==> outcome.Success?
    ensures outcome.Success? ==> r.status == 200 && r.body.results.None? && r.body.data == Posts(Map(outcome.value, ToJson))
    ensures outcome.Failure? ==> r == NotFoundOr500(outcome.error, NotFoundForTagText)
  {
    match outcome
    case Success(ps) => Response(200, Ok(None, None, Posts(Map(ps, ToJson))))
    case Failure(e) => NotFoundOr500(e, NotFoundForTagText)
  }

  /** `getPostById`: 200 with the post; 404 when the error is the post-not-found text. */
  function GetPostByIdResponse(outcome: Result<Post, ErrorKind>): (r: Response)
    ensures r.body.Ok? <==> outcome.Success?
    ensures outcome.Success? ==> r.status == 200 && r.body.data == OnePost(ToJson(outcome.value))
    ensures outcome.Failure? ==> r == NotFoundOr500(outcome.error, PostNotFoundText)
  {
    match outcome
    case Success(p) => Response(200, Ok(None, None, OnePost(ToJson(p))))
    case Failure(e) => NotFoundOr500(e, PostNotFoundText)
  }

  /**
   * `createPost`: 201 with the post; on failure, in order: a validation
   * error lists its paths; the missing-user text is a 404 on `author`; a
   * cast or BSON error is a 400 on `author`; anything else is a 500.
   */
  function CreatePostResponse(outcome: Result<Post, ErrorKind>): (r: Response)
    ensures r.body.Ok? <==> outcome.Success?
    ensures outcome.Success? ==> r.status == 201 && r.body.data == OnePost(ToJson(outcome.value))
    ensures outcome.Failure? ==> r.status in {400, 404, 500}
  {
    match outcome
    case Success(p) => Response(201, Ok(None, None, OnePost(ToJson(p))))
    case Failure(e) =>
      if NameOf(e) == "ValidationError" then StoreErrors(e.errors)
      else if MessageOf(e) == UserNotFoundText then
        Response(404, Error(UserNotFoundText, Some([FieldError("author", Catalog(MessageOf(e)))])))
      else if NameOf(e) == "BSONError" || NameOf(e) == "CastError" then
        Response(400, Error(ValidationErrorText, Some([FieldError("author", Catalog(AuthorInvalidFormat))])))
      else Response(500, Error(PostCreateError, None))
  }

  /** What `createPost` answers to each kind of error. */
  function CreateFailure(e: ErrorKind): (r: Response)
    ensures r.status == 404 <==> e == UserNotFound
    ensures r.status == 400 <==> e.StoreValidation? || (e.Other? && (e.name == CastErrorName || e.name == BsonErrorName))
    ensures r.status != 400 && r.status != 404 ==> r == Response(500, Error(PostCreateError, None))
  {
    match e
    case StoreValidation(errors) => StoreErrors(errors)
    case UserNotFound => Response(404, Error(UserNotFoundText, Some([FieldError("author", Catalog(UserNotFoundText))])))
    case Other(CastErrorName, _) => Response(400, Error(ValidationErrorText, Some([FieldError("author", Catalog(AuthorInvalidFormat))])))
    case Other(BsonErrorName, _) => Response(400, Error(ValidationErrorText, Some([FieldError("author", Catalog(AuthorInvalidFormat))])))
    case _ => Response(500, Error(PostCreateError, None))
  }

  /** The failures `createPost` can meet once the author has cast are 400s and 404s. */
  lemma CreateKnownFailures(e: ErrorKind)
    requires e == UserNotFound || e.StoreValidation?
    ensures CreatePostResponse(Failure(e)).status == (if e == UserNotFound then 404 else 400)
  {
  }

  /**
   * `updatePost`: 200 with the updated post and the success text; on
   * failure, in order: a validation error lists its paths; the
   * post-not-found text is a 404; anything else is a 500.
   */
  function UpdatePostResponse(outcome: Result<Post, ErrorKind>): (r: Response)
    ensures r.body.Ok? <==> outcome.Success?
    ensures outcome.Success? ==>
      r.status == 200 && r.body.note == Some(PostUpdated) && r.body.data == OnePost(ToJson(outcome.value))
    ensures outcome.Failure? ==> r.status in {400, 404, 500}
  {
    match outcome
    case Success(p) => Response(200, Ok(Some(PostUpdated), None, OnePost(ToJson(p))))
    case Failure(e) =>
      if NameOf(e) == "ValidationError" then StoreErrors(e.errors)
      else if MessageOf(e) == PostNotFoundText then Response(404, Error(MessageOf(e), None))
      else Response(500, Error(PostUpdateError, None))
  }

  /** What `updatePost` answers to each kind of error. */
  function UpdateFailure(e: ErrorKind): (r: Response)
    ensures r.status == 404 <==> e == PostNotFound
    ensures r.status == 400 <==> e.StoreValidation?
    ensures r.status != 400 && r.status != 404 ==> r == Response(500, Error(PostUpdateError, None))
  {
    match e
    case StoreValidation(errors) => StoreErrors(errors)
    case PostNotFound => Response(404, Error(PostNotFoundText, None))
    case _ => Response(500, Error(PostUpdateError, None))
  }

  /**
   * `deletePost`: 204 with the success text; on failure 404 for the
   * post-not-found text, else 500, with the error's text or, when that is
   * empty, the delete error text.
   */
  function DeletePostResponse(outcome: Result<Post, ErrorKind>): (r: Response)
    ensures r.body.Ok? <==> outcome.Success?
    ensures outcome.Success? ==> r == Response(204, Ok(Some(PostDeleted), None, NoData))
    ensures outcome.Failure? ==>
      && (r.status == 404 <==> MessageOf(outcome.error) == PostNotFoundText)
      && r.body.Error? && r.body.message != ""
  {
    match outcome
    case Success(_) => Response(204, Ok(Some(PostDeleted), None, NoData))
    case Failure(e) =>
      var message := if MessageOf(e) != "" then MessageOf(e) else PostDeleteError;
      Response(if MessageOf(e) == PostNotFoundText then 404 else 500, Error(message, None))
  }

  /**
   * For every error whose text is not mistaken for another's, the
   * text-based dispatch of the handlers gives what each error kind is meant
   * to give.
   */
  lemma DispatchByKind(e: ErrorKind)
    requires Distinguishable(e)
    ensures CreatePostResponse(Failure(e)) == CreateFailure(e)
    ensures UpdatePostResponse(Failure(e)) == UpdateFailure(e)
    ensures GetPostByIdResponse(Failure(e)).status == (if e == PostNotFound then 404 else 500)
    ensures GetPostsByUserResponse(Failure(e)).status == (if e == UserNotFound then 404 else 500)
    ensures GetPostsByTagResponse(Failure(e)).status == (if e == NoPostsForTag then 404 else 500)
    ensures DeletePostResponse(Failure(e)).status == (if e == PostNotFound then 404 else 500)
  {
    SentinelTextsDistinct();
  }
}
