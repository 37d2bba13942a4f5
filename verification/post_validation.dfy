/**
 * The request schemas of the post routes, as data for the validator, the
 * reading of an accepted body into service input, and what the schemas
 * accept field by field.
 */
module PostValidation {
  import opened Wrappers
  import opened Messages
  import opened Json
  import opened Ids
  import opened Validation
  import opened PostModel

  const CreateTitle := StringRule(true, [MinLength(TitleMinLength), MaxLength(TitleMaxLength)],
    map[StringEmpty := TitleRequired, StringMin := TitleMin, StringMax := TitleMax, AnyRequired := TitleRequired])
  const CreateContent := StringRule(true, [MinLength(ContentMinLength)],
    map[StringEmpty := ContentRequired, StringMin := ContentMin, AnyRequired := ContentRequired])
  // The source also sets a text for "array.required", which is not a code the library raises.
  const CreateTags := StringArrayRule(true, 1, map[ArrayMin := TagsMin, AnyRequired := TagsRequired])
  const CreateAuthor := StringRule(true, [ObjectIdPattern],
    map[StringEmpty := AuthorRequired, AnyRequired := AuthorRequired, StringPattern := AuthorInvalidFormat])

  /** `postValidation.createPost`. */
  const CreatePost := Schema([("title", CreateTitle), ("content", CreateContent), ("tags", CreateTags), ("author", CreateAuthor)], 0, map[])

  const UpdateTitle := StringRule(false, [MinLength(TitleMinLength), MaxLength(TitleMaxLength)],
    map[StringMin := TitleMin, StringMax := TitleMax])
  const UpdateContent := StringRule(false, [MinLength(ContentMinLength)], map[StringMin := ContentMin])
  const UpdateTags := StringArrayRule(false, 1, map[ArrayMin := TagsMin])

  /** `postValidation.updatePost`: no `author` key, and at least one key. */
  const UpdatePost := Schema([("title", UpdateTitle), ("content", UpdateContent), ("tags", UpdateTags)], 1, map[ObjectMin := MinOneField])

  /** The create request a body carries, if its members have the right types. */
  function DecodeNewPost(body: Body): (r: Option<NewPost>)
    ensures r.Some? <==>
      StringAt(body, "title").Some? && StringAt(body, "content").Some?
      && StringsAt(body, "tags").Some? && StringAt(body, "author").Some?
    ensures r.Some? ==> r.value == NewPost(StringAt(body, "title").value, StringAt(body, "content").value,
                                           StringsAt(body, "tags").value, StringAt(body, "author").value)
  {
    match (StringAt(body, "title"), StringAt(body, "content"), StringsAt(body, "tags"), StringAt(body, "author"))
    case (Some(t), Some(c), Some(g), Some(a)) => Some(NewPost(t, c, g, a))
    case _ => None
  }

  /** The update request a body carries: each key present with the right type is a change. */
  function DecodeChanges(body: Body): (r: PostChanges)
    ensures r.title == StringAt(body, "title") && r.content == StringAt(body, "content") && r.tags == StringsAt(body, "tags")
  {
    PostChanges(StringAt(body, "title"), StringAt(body, "content"), StringsAt(body, "tags"))
  }

  /** A title is accepted, on create and on update, exactly when it is a string of 3 to 100 characters. */
  lemma TitleBounds(j: Json, emailShape: string -> bool)
    ensures Accepts(CreateTitle, Some(j), emailShape) <==> j.JString? && TitleMinLength <= |j.s| <= TitleMaxLength
    ensures Accepts(UpdateTitle, Some(j), emailShape) <==> j.JString? && TitleMinLength <= |j.s| <= TitleMaxLength
    ensures !Accepts(CreateTitle, None, emailShape) && Accepts(UpdateTitle, None, emailShape)
  {
    assert CreateTitle.checks == UpdateTitle.checks == [MinLength(TitleMinLength), MaxLength(TitleMaxLength)];
    if j.JString? && j.s != "" {
      var cs := CreateTitle.checks;
      assert (forall i :: 0 <= i < |cs| ==> Passes(cs[i], j.s, emailShape))
        <==> Passes(cs[0], j.s, emailShape) && Passes(cs[1], j.s, emailShape);
    }
  }

  /** Content is accepted, on create and on update, exactly when it is a string of at least 10 characters. */
  lemma ContentBounds(j: Json, emailShape: string -> bool)
    ensures Accepts(CreateContent, Some(j), emailShape) <==> j.JString? && |j.s| >= ContentMinLength
    ensures Accepts(UpdateContent, Some(j), emailShape) <==> j.JString? && |j.s| >= ContentMinLength
    ensures !Accepts(CreateContent, None, emailShape) && Accepts(UpdateContent, None, emailShape)
  {
    assert CreateContent.checks == UpdateContent.checks == [MinLength(ContentMinLength)];
    if j.JString? && j.s != "" {
      var cs := CreateContent.checks;
      assert (forall i :: 0 <= i < |cs| ==> Passes(cs[i], j.s, emailShape)) <==> Passes(cs[0], j.s, emailShape);
    }
  }

  /** Tags are accepted exactly when they are a non-empty array of non-empty strings. */
  lemma TagsShape(j: Json, emailShape: string -> bool)
    ensures Accepts(CreateTags, Some(j), emailShape) <==>
      j.JArray? && |j.items| >= 1 && forall i :: 0 <= i < |j.items| ==> j.items[i].JString? && j.items[i].s != ""
    ensures Accepts(UpdateTags, Some(j), emailShape) <==> Accepts(CreateTags, Some(j), emailShape)
    ensures !Accepts(CreateTags, None, emailShape) && Accepts(UpdateTags, None, emailShape)
  {
  }

  /** An author is accepted exactly when it is 24 hexadecimal digits, in either case. */
  lemma AuthorFormat(j: Json, emailShape: string -> bool)
    ensures Accepts(CreateAuthor, Some(j), emailShape) <==> j.JString? && IsObjectIdHex(j.s)
    ensures Accepts(CreateAuthor, Some(j), emailShape) ==> ParseObjectId(j.s).Some?
  {
    assert CreateAuthor.checks == [ObjectIdPattern];
    if j.JString? && j.s != "" {
      var cs := CreateAuthor.checks;
      assert (forall i :: 0 <= i < |cs| ==> Passes(cs[i], j.s, emailShape)) <==> Passes(cs[0], j.s, emailShape);
    }
  }

  /** A create body is accepted only when all four keys are present; a missing title is reported as required. */
  lemma CreateNeedsEveryKey(body: Body, emailShape: string -> bool)
    ensures ValidateBody(CreatePost, body, emailShape) == [] ==>
      && Lookup(body, "title").Some? && Lookup(body, "content").Some?
      && Lookup(body, "tags").Some? && Lookup(body, "author").Some?
    ensures Lookup(body, "title").None? ==>
      Violation([Key("title")], AnyRequired, Catalog(TitleRequired)) in ValidateBody(CreatePost, body, emailShape)
  {
    if ValidateBody(CreatePost, body, emailShape) == [] {
      assert Accepts(CreatePost.keys[0].1, Lookup(body, "title"), emailShape);
      assert Accepts(CreatePost.keys[1].1, Lookup(body, "content"), emailShape);
      assert Accepts(CreatePost.keys[2].1, Lookup(body, "tags"), emailShape);
      assert Accepts(CreatePost.keys[3].1, Lookup(body, "author"), emailShape);
    }
    if Lookup(body, "title").None? {
      var v := Violation([Key("title")], AnyRequired, Catalog(TitleRequired));
      assert v in CheckValue(CreatePost.keys[0].1, [Key(CreatePost.keys[0].0)], Lookup(body, CreatePost.keys[0].0), CreatePost.messages, emailShape);
      KeyViolationReported(CreatePost, body, emailShape, 0, v);
    }
  }

  /** An accepted create body reads as a create request with the same values. */
  lemma AcceptedCreateDecodes(body: Body, emailShape: string -> bool)
    requires ValidateBody(CreatePost, body, emailShape) == []
    ensures DecodeNewPost(body).Some?
    ensures IsObjectIdHex(DecodeNewPost(body).value.author)
    ensures |DecodeNewPost(body).value.tags| >= 1
  {
    assert Accepts(CreatePost.keys[0].1, Lookup(body, "title"), emailShape);
    assert Accepts(CreatePost.keys[1].1, Lookup(body, "content"), emailShape);
    assert Accepts(CreatePost.keys[2].1, Lookup(body, "tags"), emailShape);
    assert Accepts(CreatePost.keys[3].1, Lookup(body, "author"), emailShape);
    AuthorFormat(Lookup(body, "author").value, emailShape);
  }

  /** An empty update body fails with the single "at least one field" violation. */
  lemma UpdateNeedsOneField(emailShape: string -> bool)
    ensures ValidateBody(UpdatePost, [], emailShape) == [Violation([], ObjectMin, Catalog(MinOneField))]
  {
  }

  /** An update body carrying `author` is refused: the key is not declared. */
  lemma UpdateRejectsAuthor(body: Body, i: nat, emailShape: string -> bool)
    requires i < |body| && body[i].0 == "author"
    ensures Violation([Key("author")], ObjectUnknown, LibraryDefault("object.unknown")) in ValidateBody(UpdatePost, body, emailShape)
  {
    var keys := UpdatePost.keys;
    assert keys[0].0 == "title" && keys[1].0 == "content" && keys[2].0 == "tags";
    assert !Declared(keys, "author");
    UnknownKeyReported(UpdatePost, body, emailShape, i);
    assert ObjectUnknown !in UpdatePost.messages;
  }

  /** Update values within their bounds pass every declared key of the update schema. */
  lemma UpdateValuesAccepted(body: Body, emailShape: string -> bool)
    requires Lookup(body, "title").Some? ==> Lookup(body, "title").value.JString? && TitleMinLength <= |Lookup(body, "title").value.s| <= TitleMaxLength
    requires Lookup(body, "content").Some? ==> Lookup(body, "content").value.JString? && |Lookup(body, "content").value.s| >= ContentMinLength
    requires Lookup(body, "tags").Some? ==> Accepts(CreateTags, Lookup(body, "tags"), emailShape)
    ensures forall i :: 0 <= i < |UpdatePost.keys| ==> Accepts(UpdatePost.keys[i].1, Lookup(body, UpdatePost.keys[i].0), emailShape)
  {
    if Lookup(body, "title").Some? {
      TitleBounds(Lookup(body, "title").value, emailShape);
    }
    if Lookup(body, "content").Some? {
      ContentBounds(Lookup(body, "content").value, emailShape);
    }
    if Lookup(body, "tags").Some? {
      TagsShape(Lookup(body, "tags").value, emailShape);
    }
    assert Accepts(UpdateTitle, Lookup(body, "title"), emailShape);
    assert Accepts(UpdateContent, Lookup(body, "content"), emailShape);
    assert Accepts(UpdateTags, Lookup(body, "tags"), emailShape);
    assert UpdatePost.keys == [("title", UpdateTitle), ("content", UpdateContent), ("tags", UpdateTags)];
  }

  /**
   * Any non-empty set of update keys among title, content and tags is
   * accepted when each value meets its bound, and it reads as the changes
   * those keys carry.
   */
  lemma UpdateAcceptsSubsets(body: Body, emailShape: string -> bool)
    requires |body| >= 1
    requires forall i :: 0 <= i < |body| ==> body[i].0 == "title" || body[i].0 == "content" || body[i].0 == "tags"
    requires Lookup(body, "title").Some? ==> Lookup(body, "title").value.JString? && TitleMinLength <= |Lookup(body, "title").value.s| <= TitleMaxLength
    requires Lookup(body, "content").Some? ==> Lookup(body, "content").value.JString? && |Lookup(body, "content").value.s| >= ContentMinLength
    requires Lookup(body, "tags").Some? ==> Accepts(CreateTags, Lookup(body, "tags"), emailShape)
    ensures ValidateBody(UpdatePost, body, emailShape) == []
    ensures DecodeChanges(body).title.Some? <==> Lookup(body, "title").Some?
    ensures DecodeChanges(body).content.Some? <==> Lookup(body, "content").Some?
    ensures DecodeChanges(body).tags.Some? <==> Lookup(body, "tags").Some?
  {
    UpdateValuesAccepted(body, emailShape);
    assert UpdatePost.keys[0].0 == "title" && UpdatePost.keys[1].0 == "content" && UpdatePost.keys[2].0 == "tags";
    assert forall i :: 0 <= i < |body| ==> Declared(UpdatePost.keys, body[i].0);
    assert AcceptsBody(UpdatePost, body, emailShape);
  }

  /** A create body with a two-letter title, five-letter content, no tags and a well-formed author. */
  function ShortBody(author: Id): Body {
    [("title", JString("Hi")), ("content", JString("short")), ("tags", JArray([])), ("author", JString(FormatObjectId(author)))]
  }

  lemma ShortBodyLookups(author: Id)
    ensures Lookup(ShortBody(author), "title") == Some(JString("Hi"))
    ensures Lookup(ShortBody(author), "content") == Some(JString("short"))
    ensures Lookup(ShortBody(author), "tags") == Some(JArray([]))
    ensures Lookup(ShortBody(author), "author") == Some(JString(FormatObjectId(author)))
  {
    var body := ShortBody(author);
    LookupFirst(body, "content");
    LookupFirst(body, "tags");
    LookupFirst(body[1..], "tags");
    LookupFirst(body, "author");
    LookupFirst(body[1..], "author");
    LookupFirst(body[2..], "author");
  }

  lemma ShortBodyDeclared(author: Id)
    ensures forall i :: 0 <= i < |ShortBody(author)| ==> Declared(CreatePost.keys, ShortBody(author)[i].0)
  {
    var keys := CreatePost.keys;
    assert Declared(keys, "title") by { assert keys[0].0 == "title"; }
    assert Declared(keys, "content") by { assert keys[1].0 == "content"; }
    assert Declared(keys, "tags") by { assert keys[2].0 == "tags"; }
    assert Declared(keys, "author") by { assert keys[3].0 == "author"; }
  }

  lemma ShortBodyValues(author: Id, emailShape: string -> bool)
    ensures CheckValue(CreateTitle, [Key("title")], Some(JString("Hi")), map[], emailShape)
      == [Violation([Key("title")], StringMin, Catalog(TitleMin))]
    ensures CheckValue(CreateContent, [Key("content")], Some(JString("short")), map[], emailShape)
      == [Violation([Key("content")], StringMin, Catalog(ContentMin))]
    ensures CheckValue(CreateTags, [Key("tags")], Some(JArray([])), map[], emailShape)
      == [Violation([Key("tags")], ArrayMin, Catalog(TagsMin))]
    ensures CheckValue(CreateAuthor, [Key("author")], Some(JString(FormatObjectId(author))), map[], emailShape) == []
  {
    ShortTitle(emailShape);
    ShortContent(emailShape);
    AuthorFormat(JString(FormatObjectId(author)), emailShape);
  }

  lemma ShortTitle(emailShape: string -> bool)
    ensures CheckValue(CreateTitle, [Key("title")], Some(JString("Hi")), map[], emailShape)
      == [Violation([Key("title")], StringMin, Catalog(TitleMin))]
  {
    var cs := CreateTitle.checks;
    assert cs[1..] == [MaxLength(TitleMaxLength)];
    assert CheckString(cs[1..], "Hi", [Key("title")], CreateTitle.messages, map[], emailShape) == [];
  }

  lemma ShortContent(emailShape: string -> bool)
    ensures CheckValue(CreateContent, [Key("content")], Some(JString("short")), map[], emailShape)
      == [Violation([Key("content")], StringMin, Catalog(ContentMin))]
  {
    var cs := CreateContent.checks;
    assert cs[1..] == [];
  }

  lemma ShortBodyKeys(author: Id, emailShape: string -> bool)
    ensures KeyViolations(CreatePost.keys, ShortBody(author), map[], emailShape)
      == [Violation([Key("title")], StringMin, Catalog(TitleMin)),
          Violation([Key("content")], StringMin, Catalog(ContentMin)),
          Violation([Key("tags")], ArrayMin, Catalog(TagsMin))]
  {
    ShortBodyLookups(author);
    ShortBodyValues(author, emailShape);
    KeyViolationsOfFour(("title", CreateTitle), ("content", CreateContent), ("tags", CreateTags), ("author", CreateAuthor),
                        ShortBody(author), map[], emailShape);
    Three(Violation([Key("title")], StringMin, Catalog(TitleMin)),
          Violation([Key("content")], StringMin, Catalog(ContentMin)),
          Violation([Key("tags")], ArrayMin, Catalog(TagsMin)));
  }

  /**
   * The short create body gets three violations, in key order: title and
   * content too short, tags empty.
   */
  lemma ShortCreateBody(author: Id, emailShape: string -> bool)
    ensures ValidateBody(CreatePost, ShortBody(author), emailShape)
      == [Violation([Key("title")], StringMin, Catalog(TitleMin)),
          Violation([Key("content")], StringMin, Catalog(ContentMin)),
          Violation([Key("tags")], ArrayMin, Catalog(TagsMin))]
  {
    var body := ShortBody(author);
    ShortBodyDeclared(author);
    ShortBodyKeys(author, emailShape);
    var known := KeyViolations(CreatePost.keys, body, map[], emailShape);
    assert UnknownViolations(CreatePost.keys, body, map[]) == [];
    assert CreatePost.messages == map[];
    assert ValidateBody(CreatePost, body, emailShape) == known + [] + [];
    Unit(known);
  }

  /**
   * Sequence identities stated apart, so that they are proved without the
   * large context of the lemmas that use them.
   */
  lemma Three<T>(a: T, b: T, c: T)
    ensures [a] + ([b] + ([c] + ([] + []))) == [a, b, c]
  {
  }

  lemma Unit<T>(s: seq<T>)
    ensures s + [] + [] == s
  {
  }
}
