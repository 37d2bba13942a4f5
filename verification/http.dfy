/** What a handler sends: a status code and a JSON envelope. */
module Http {
  import opened Wrappers
  import opened Messages
  import PostModel
  import UserModel

  /** The `data` member of a success envelope, rendered through the documents' JSON views. */
  datatype Payload =
    | NoData
    | Posts(posts: seq<PostModel.PostJson>)
    | OnePost(post: PostModel.PostJson)
    | Users(users: seq<UserModel.UserJson>)
    | OneUser(user: UserModel.UserJson)

  /**
   * `{ status: "success", message?, results?, data }` or
   * `{ status: "error", message, errors? }`.
   */
  datatype Envelope =
    | Ok(note: Option<string>, results: Option<nat>, data: Payload)
    | Error(message: string, errors: Option<seq<FieldError>>)

  datatype Response = Response(status: nat, body: Envelope)

}
