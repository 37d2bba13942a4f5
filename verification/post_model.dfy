/**
 * The post document: what the store keeps, the normalisation and
 * constraints the post schema applies before a write, and the JSON view.
 */
module PostModel {
  import opened Wrappers
  import opened Text
  import opened Messages
  import opened Ids
  import opened Documents

  datatype Post = Post(
    id: Id,
    title: string,
    content: string,
    author: Id,
    tags: seq<string>,
    version: nat,                 // `__v`
    createdAt: Option<int>,       // milliseconds since the epoch
    updatedAt: Option<int>)

  /** The fields of a create request, as the body supplies them. */
  datatype NewPost = NewPost(title: string, content: string, tags: seq<string>, author: string)

  /** The fields of an update request; an absent field is left alone. */
  datatype PostChanges = PostChanges(title: Option<string>, content: Option<string>, tags: Option<seq<string>>)

  const TitleMinLength := 3
  const TitleMaxLength := 100
  const ContentMinLength := 10

  predicate ValidTitle(t: string) {
    IsTrimmed(t) && TitleMinLength <= |t| <= TitleMaxLength
  }

  predicate ValidContent(c: string) {
    IsTrimmed(c) && |c| >= ContentMinLength
  }

  predicate ValidTags(tags: seq<string>) {
    forall i :: 0 <= i < |tags| ==> IsTrimmed(tags[i]) && tags[i] != ""
  }

  /** The constraints every stored post satisfies. */
  predicate IsStoredPost(p: Post) {
    ValidTitle(p.title) && ValidContent(p.content) && ValidTags(p.tags)
  }

  /** The `trim` setter of the tag elements. */
  function TrimTags(tags: seq<string>): (r: seq<string>)
    ensures |r| == |tags|
    ensures forall i :: 0 <= i < |r| ==> r[i] == Trim(tags[i])
  {
    seq(|tags|, i requires 0 <= i < |tags| => Trim(tags[i]))
  }

  /** The values the store writes for the supplied fields: every string trimmed. */
  function SetChanges(c: PostChanges): (r: PostChanges)
    ensures r.title.Some? <==> c.title.Some?
    ensures r.content.Some? <==> c.content.Some?
    ensures r.tags.Some? <==> c.tags.Some?
    ensures r.title.Some? ==> IsTrimmed(r.title.value)
    ensures r.content.Some? ==> IsTrimmed(r.content.value)
    ensures r.tags.Some? ==> forall i :: 0 <= i < |r.tags.value| ==> IsTrimmed(r.tags.value[i])
  {
    PostChanges(
      if c.title.Some? then Some(Trim(c.title.value)) else None,
      if c.content.Some? then Some(Trim(c.content.value)) else None,
      if c.tags.Some? then Some(TrimTags(c.tags.value)) else None)
  }

  /** The first failing title validator: required, then minimum, then maximum length. */
  function TitleError(t: string): (m: Option<string>)
    ensures m.None? <==> TitleMinLength <= |t| <= TitleMaxLength
    ensures t == "" ==> m == Some(TitleRequired)
  {
    if t == "" then Some(TitleRequired)
    else if |t| < TitleMinLength then Some(TitleMin)
    else if |t| > TitleMaxLength then Some(TitleMax)
    else None
  }

  function ContentError(c: string): (m: Option<string>)
    ensures m.None? <==> |c| >= ContentMinLength
    ensures c == "" ==> m == Some(ContentRequired)
  {
    if c == "" then Some(ContentRequired)
    else if |c| < ContentMinLength then Some(ContentMin)
    else None
  }

  /** Each tag element is required: one error per empty element, at path `tags.<index>`. */
  function TagErrors(tags: seq<string>, from: nat): (errs: seq<FieldError>)
    ensures errs == [] <==> forall i :: 0 <= i < |tags| ==> tags[i] != ""
    ensures |errs| <= |tags|
    ensures forall e :: e in errs ==> e.message == Catalog(TagsRequired)
    decreases |tags|
  {
    if tags == [] then []
    else
      var head := if tags[0] == "" then [FieldError("tags." + NatToString(from), Catalog(TagsRequired))] else [];
      assert forall i :: 1 <= i < |tags| ==> tags[i] == tags[1..][i - 1];
      head + TagErrors(tags[1..], from + 1)
  }

  /**
   * The schema's verdict on the values about to be written (already set):
   * no error exactly when every supplied value meets its bound.
   */
  function FieldErrors(c: PostChanges): (errs: seq<FieldError>)
    ensures errs == [] <==>
      && (c.title.Some? ==> TitleMinLength <= |c.title.value| <= TitleMaxLength)
      && (c.content.Some? ==> |c.content.value| >= ContentMinLength)
      && (c.tags.Some? ==> forall i :: 0 <= i < |c.tags.value| ==> c.tags.value[i] != "")
  {
    (if c.title.Some? then OptionalError("title", TitleError(c.title.value)) else [])
    + (if c.content.Some? then OptionalError("content", ContentError(c.content.value)) else [])
    + (if c.tags.Some? then TagErrors(c.tags.value, 0) else [])
  }

  /** Values that pass the schema once set satisfy the stored-post constraints. */
  lemma SetValuesAreStorable(c: PostChanges)
    requires FieldErrors(SetChanges(c)) == []
    ensures c.title.Some? ==> ValidTitle(SetChanges(c).title.value)
    ensures c.content.Some? ==> ValidContent(SetChanges(c).content.value)
    ensures c.tags.Some? ==> ValidTags(SetChanges(c).tags.value)
  {
  }

  /** The JSON view of a post: `_id` becomes `id`, `__v` is dropped, timestamps are shifted. */
  datatype PostJson = PostJson(
    id: Id,
    title: string,
    content: string,
    author: Id,
    tags: seq<string>,
    createdAt: Option<int>,
    updatedAt: Option<int>)

  function ToJson(p: Post): (j: PostJson)
    ensures j.id == p.id && j.author == p.author
    ensures j.title == p.title && j.content == p.content && j.tags == p.tags
    ensures j.createdAt.Some? <==> p.createdAt.Some?
    ensures j.updatedAt.Some? <==> p.updatedAt.Some?
    ensures p.createdAt.Some? ==> j.createdAt.value == p.createdAt.value + 10800000
    ensures p.updatedAt.Some? ==> j.updatedAt.value == p.updatedAt.value + 10800000
  {
    PostJson(p.id, p.title, p.content, p.author, p.tags, Shift(p.createdAt), Shift(p.updatedAt))
  }

  /** Reads a JSON view back, given the version counter the view dropped. */
  function FromJson(j: PostJson, version: nat): (p: Post)
    ensures p.version == version && ToJson(p) == j
  {
    Post(j.id, j.title, j.content, j.author, j.tags, version, Unshift(j.createdAt), Unshift(j.updatedAt))
  }

  /**
   * The view keeps every stored field but the version: reading it back with
   * the version restores the post, and timestamps move by exactly three hours.
   */
  lemma JsonRoundTrip(p: Post)
    ensures FromJson(ToJson(p), p.version) == p
    ensures ToJson(p).createdAt.Some? <==> p.createdAt.Some?
    ensures p.createdAt.Some? ==> ToJson(p).createdAt.value == p.createdAt.value + 10800000
    ensures p.updatedAt.Some? ==> ToJson(p).updatedAt.value == p.updatedAt.value + 10800000
  {
    UnshiftShift(p.createdAt);
    UnshiftShift(p.updatedAt);
  }

  /** Two posts with the same view differ at most in their version counters. */
  lemma JsonInjective(p: Post, q: Post)
    requires ToJson(p) == ToJson(q)
    ensures p == q.(version := p.version)
  {
    JsonRoundTrip(p);
    JsonRoundTrip(q);
  }
}
