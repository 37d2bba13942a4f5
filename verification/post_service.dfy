/**
 * `PostService`: every operation is a transition of the store that returns
 * the operation's outcome. Identifiers of new posts and the clock are
 * parameters; a listing enumerates the collection in identifier order.
 */
module PostService {
  import opened Wrappers
  import opened Text
  import opened Messages
  import opened Ids
  import opened PostModel
  import opened Store

  /** What the driver reports when an author string is not an ObjectId. */
  const AuthorCastText := "Cast to ObjectId failed for value at path \"_id\" for model \"User\""

  /** `Post.find()`: every post, nothing written. */
  function GetAllPosts(s: Store): (r: Step<seq<Post>>)
    ensures r.store == s && r.result.Success?
    ensures |r.result.value| == |s.posts|
    ensures forall p :: p in r.result.value <==> p in s.posts.Values
  {
    Step(Success(AllPosts(s)), s)
  }

  /** `Post.find({ author })`, where an empty answer is reported as a missing user. */
  function GetPostsByUser(s: Store, userId: Id): (r: Step<seq<Post>>)
    ensures r.store == s
    ensures r.result.Success? ==> forall p :: p in r.result.value <==> p in s.posts.Values && p.author == userId
    ensures r.result.Failure? <==> forall id :: id in s.posts ==> s.posts[id].author != userId
    ensures r.result.Failure? ==> r.result.error == UserNotFound
  {
    var all := AllPosts(s);
    var found := Filter(all, (p: Post) => p.author == userId);
    if found == [] then
      assert forall id :: id in s.posts ==> s.posts[id].author != userId by {
        forall id | id in s.posts ensures s.posts[id].author != userId {
          assert s.posts[id] in s.posts.Values;
          assert s.posts[id] in all;
        }
      }
      Step(Failure(UserNotFound), s)
    else
      assert found[0] in found;
      Step(Success(found), s)
  }

  /**
   * `Post.find({ tags: tag })`: the posts with `tag` among their tags. The
   * filter value passes through the tag setter, so it is trimmed first.
   */
  function GetPostsByTag(s: Store, tag: string): (r: Step<seq<Post>>)
    ensures r.store == s
    ensures r.result.Success? ==> forall p :: p in r.result.value <==> p in s.posts.Values && Trim(tag) in p.tags
    ensures r.result.Failure? <==> forall id :: id in s.posts ==> Trim(tag) !in s.posts[id].tags
    ensures r.result.Failure? ==> r.result.error == NoPostsForTag
  {
    var t := Trim(tag);
    var all := AllPosts(s);
    var found := Filter(all, (p: Post) => t in p.tags);
    if found == [] then
      assert forall id :: id in s.posts ==> t !in s.posts[id].tags by {
        forall id | id in s.posts ensures t !in s.posts[id].tags {
          assert s.posts[id] in s.posts.Values;
          assert s.posts[id] in all;
        }
      }
      Step(Failure(NoPostsForTag), s)
    else
      assert found[0] in found;
      Step(Success(found), s)
  }

  function GetPostById(s: Store, id: Id): (r: Step<Post>)
    ensures r.store == s
    ensures r.result.Success? <==> id in s.posts
    ensures r.result.Success? ==> r.result.value == s.posts[id]
    ensures r.result.Failure? ==> r.result.error == PostNotFound
  {
    if id in s.posts then Step(Success(s.posts[id]), s) else Step(Failure(PostNotFound), s)
  }

  /**
   * The values `Post.create` would write for a create request: every field
   * is set, and the setters have already done their work, so running them
   * again changes nothing.
   */
  function CreateValues(n: NewPost): (v: PostChanges)
    ensures v.title.Some? && v.content.Some? && v.tags.Some? && |v.tags.value| == |n.tags|
    ensures SetChanges(v) == v
  {
    var v := SetChanges(PostChanges(Some(n.title), Some(n.content), Some(n.tags)));
    TrimIdempotent(n.title);
    TrimIdempotent(n.content);
    forall i | 0 <= i < |v.tags.value|
      ensures Trim(v.tags.value[i]) == v.tags.value[i]
    {
      TrimIdempotent(v.tags.value[i]);
    }
    assert TrimTags(v.tags.value) == v.tags.value;
    v
  }

  /** The schema accepts a create request exactly when its trimmed values meet the bounds. */
  lemma CreateValuesAccepted(n: NewPost)
    ensures FieldErrors(CreateValues(n)) == [] <==>
      && TitleMinLength <= |Trim(n.title)| <= TitleMaxLength
      && |Trim(n.content)| >= ContentMinLength
      && forall i :: 0 <= i < |n.tags| ==> Trim(n.tags[i]) != ""
  {
    var v := CreateValues(n);
    assert forall i :: 0 <= i < |n.tags| ==> v.tags.value[i] == Trim(n.tags[i]);
  }

  /**
   * `createPost`: the author lookup casts the author string (a malformed one
   * is a cast failure), a missing author is reported as a missing user, and
   * only then does the schema validate and the store insert, stamping both
   * timestamps with `now`. `newId` is the fresh identifier the driver draws.
   */
  function CreatePost(s: Store, n: NewPost, newId: Id, now: int): (r: Step<Post>)
    requires newId !in s.posts
    ensures ParseObjectId(n.author).None? ==> r.result.Failure? && r.result.error.Other? && r.result.error.name == CastErrorName
    ensures ParseObjectId(n.author).Some? && ParseObjectId(n.author).value !in s.users ==> r.result == Failure(UserNotFound)
    ensures r.result.Failure? ==> r.store == s
    ensures ParseObjectId(n.author).Some? && r.result.Failure? ==> r.result.error == UserNotFound || r.result.error.StoreValidation?
    ensures r.result.Success? <==>
      && ParseObjectId(n.author).Some? && ParseObjectId(n.author).value in s.users
      && TitleMinLength <= |Trim(n.title)| <= TitleMaxLength
      && |Trim(n.content)| >= ContentMinLength
      && forall i :: 0 <= i < |n.tags| ==> Trim(n.tags[i]) != ""
    ensures r.result.Success? ==>
      var p := r.result.value;
      && r.store == s.(posts := s.posts[newId := p])
      && p.id == newId && p.author in s.users && p.version == 0
      && p.title == Trim(n.title) && p.content == Trim(n.content)
      && |p.tags| == |n.tags| && (forall i :: 0 <= i < |p.tags| ==> p.tags[i] == Trim(n.tags[i]))
      && p.createdAt == Some(now) && p.updatedAt == Some(now)
  {
    match ParseObjectId(n.author)
    case None => Step(Failure(Other(CastErrorName, AuthorCastText)), s)
    case Some(author) =>
      if author !in s.users then Step(Failure(UserNotFound), s)
      else
        var v := CreateValues(n);
        var errs := FieldErrors(v);
        CreateValuesAccepted(n);
        if errs != [] then Step(Failure(StoreValidation(errs)), s)
        else
          var p := Post(newId, v.title.value, v.content.value, author, v.tags.value, 0, Some(now), Some(now));
          Step(Success(p), s.(posts := s.posts[newId := p]))
  }

  /** The post with the set values of an update written over it. */
  function Apply(p: Post, v: PostChanges, now: int): (q: Post)
    ensures q.id == p.id && q.author == p.author && q.version == p.version && q.createdAt == p.createdAt
    ensures q.title == (if v.title.Some? then v.title.value else p.title)
    ensures q.content == (if v.content.Some? then v.content.value else p.content)
    ensures q.tags == (if v.tags.Some? then v.tags.value else p.tags)
    ensures q.updatedAt == Some(now)
  {
    p.(title := if v.title.Some? then v.title.value else p.title,
       content := if v.content.Some? then v.content.value else p.content,
       tags := if v.tags.Some? then v.tags.value else p.tags,
       updatedAt := Some(now))
  }

  /**
   * `findByIdAndUpdate` with update validators: the set values are validated
   * first, then the post is looked up, then the supplied fields are written.
   */
  function UpdatePost(s: Store, id: Id, c: PostChanges, now: int): (r: Step<Post>)
    ensures r.result.Failure? ==> r.store == s
    ensures FieldErrors(SetChanges(c)) != [] ==> r.result.Failure? && r.result.error.StoreValidation?
    ensures FieldErrors(SetChanges(c)) == [] && id !in s.posts ==> r.result == Failure(PostNotFound)
    ensures r.result.Success? <==> FieldErrors(SetChanges(c)) == [] && id in s.posts
    ensures r.result.Success? ==>
      var q := r.result.value;
      var p := s.posts[id];
      && r.store == s.(posts := s.posts[id := q])
      && q.id == p.id && q.author == p.author && q.version == p.version && q.createdAt == p.createdAt
      && q.title == (if c.title.Some? then Trim(c.title.value) else p.title)
      && q.content == (if c.content.Some? then Trim(c.content.value) else p.content)
      && q.tags == (if c.tags.Some? then TrimTags(c.tags.value) else p.tags)
      && q.updatedAt == Some(now)
  {
    var v := SetChanges(c);
    var errs := FieldErrors(v);
    if errs != [] then Step(Failure(StoreValidation(errs)), s)
    else if id !in s.posts then Step(Failure(PostNotFound), s)
    else
      var q := Apply(s.posts[id], v, now);
      Step(Success(q), s.(posts := s.posts[id := q]))
  }

  /** `findByIdAndDelete`: removes and returns the post. */
  function DeletePost(s: Store, id: Id): (r: Step<Post>)
    ensures r.result.Success? <==> id in s.posts
    ensures r.result.Failure? ==> r.result.error == PostNotFound && r.store == s
    ensures r.result.Success? ==>
      && r.result.value == s.posts[id]
      && r.store.users == s.users
      && id !in r.store.posts
      && forall k :: k in s.posts && k != id ==> k in r.store.posts && r.store.posts[k] == s.posts[k]
  {
    if id !in s.posts then Step(Failure(PostNotFound), s)
    else Step(Success(s.posts[id]), s.(posts := s.posts - {id}))
  }

  /** A created post is stored under its id, readable back, and keeps the store valid. */
  lemma CreatePostKeepsValid(s: Store, n: NewPost, newId: Id, now: int)
    requires Valid(s) && newId !in s.posts
    ensures Valid(CreatePost(s, n, newId, now).store)
    ensures CreatePost(s, n, newId, now).result.Success? ==>
      GetPostById(CreatePost(s, n, newId, now).store, newId).result == CreatePost(s, n, newId, now).result
  {
    var r := CreatePost(s, n, newId, now);
    if r.result.Success? {
      var p := r.result.value;
      SetValuesAreStorable(PostChanges(Some(n.title), Some(n.content), Some(n.tags)));
      assert IsStoredPost(p);
      forall id | id in r.store.posts
        ensures r.store.posts[id].id == id && IsStoredPost(r.store.posts[id])
      {
        if id != newId {
          assert r.store.posts[id] == s.posts[id];
        }
      }
    }
  }

  /** An update keeps the store valid, and the updated post is what a later read returns. */
  lemma UpdatePostKeepsValid(s: Store, id: Id, c: PostChanges, now: int)
    requires Valid(s)
    ensures Valid(UpdatePost(s, id, c, now).store)
    ensures UpdatePost(s, id, c, now).result.Success? ==>
      GetPostById(UpdatePost(s, id, c, now).store, id).result == UpdatePost(s, id, c, now).result
  {
    var r := UpdatePost(s, id, c, now);
    if r.result.Success? {
      SetValuesAreStorable(c);
      assert IsStoredPost(r.result.value);
      forall k | k in r.store.posts
        ensures r.store.posts[k].id == k && IsStoredPost(r.store.posts[k])
      {
        if k != id {
          assert r.store.posts[k] == s.posts[k];
        }
      }
    }
  }

  /** After a delete, the post is gone: reading it fails and deleting it again fails. */
  lemma DeleteThenGetFails(s: Store, id: Id)
    requires id in s.posts
    ensures GetPostById(DeletePost(s, id).store, id).result == Failure(PostNotFound)
    ensures DeletePost(DeletePost(s, id).store, id).result == Failure(PostNotFound)
    ensures Valid(s) ==> Valid(DeletePost(s, id).store)
  {
  }

  /** Every post by an author appears in the by-author listing, which fails only when there are none. */
  lemma ByUserComplete(s: Store, userId: Id, id: Id)
    requires id in s.posts && s.posts[id].author == userId
    ensures GetPostsByUser(s, userId).result.Success?
    ensures s.posts[id] in GetPostsByUser(s, userId).result.value
  {
  }
}
