/**
 * The `validate(schema)` middleware: validate the request body with every
 * violation collected and unknown keys refused; on any violation answer 400
 * with one `{ field, message }` entry per violation, the field being the
 * violation's path joined with dots; otherwise pass the request on.
 */
module ValidateMiddleware {
  import opened Wrappers
  import opened Text
  import opened Messages
  import opened Json
  import opened Validation
  import opened Http

  /** A key is written as itself, an array position in decimal. */
  function SegText(g: Seg): string {
    match g
    case Key(name) => name
    case Index(i) => NatToString(i)
  }

  /** `path.join(".")`. */
  function JoinPath(path: seq<Seg>): (r: string)
    ensures r == "" <==> path == [] || (|path| == 1 && SegText(path[0]) == "")
  {
    if |path| == 0 then ""
    else if |path| == 1 then SegText(path[0])
    else SegText(path[0]) + "." + JoinPath(path[1..])
  }

  /** The position of the first dot. */
  function FirstDot(s: string): (k: nat)
    requires '.' in s
    ensures k < |s| && s[k] == '.'
    ensures forall j :: 0 <= j < k ==> s[j] != '.'
  {
    if s[0] == '.' then 0
    else
      assert '.' in s[1..];
      1 + FirstDot(s[1..])
  }

  /** `s.split(".")`, the reading a client makes of a field. */
  function SplitDots(s: string): (parts: seq<string>)
    ensures |parts| >= 1
    decreases |s|
  {
    if '.' !in s then [s]
    else
      var k := FirstDot(s);
      [s[..k]] + SplitDots(s[k + 1..])
  }

  /** The text of every segment, in order. */
  function SegTexts(path: seq<Seg>): (r: seq<string>)
    ensures |r| == |path|
    ensures forall i :: 0 <= i < |path| ==> r[i] == SegText(path[i])
  {
    seq(|path|, i requires 0 <= i < |path| => SegText(path[i]))
  }

  /** An array position never contains a dot. */
  lemma IndexHasNoDot(i: nat)
    ensures '.' !in NatToString(i)
  {
    var t := NatToString(i);
    assert forall k :: 0 <= k < |t| ==> t[k] != '.';
  }

  lemma SplitAfterDot(t: string, rest: string)
    requires '.' !in t
    ensures SplitDots(t + "." + rest) == [t] + SplitDots(rest)
  {
    var s := t + "." + rest;
    assert s[|t|] == '.';
    assert forall j :: 0 <= j < |t| ==> s[j] == t[j] && s[j] != '.';
    var k := FirstDot(s);
    assert s[..k] == t;
    assert s[k + 1..] == rest;
  }

  /**
   * Splitting a field at its dots gives back the path's segments, as long as
   * no object key in the path contains a dot.
   */
  lemma {:induction false} SplitJoin(path: seq<Seg>)
    requires path != []
    requires forall i :: 0 <= i < |path| ==> '.' !in SegText(path[i])
    ensures SplitDots(JoinPath(path)) == SegTexts(path)
    decreases |path|
  {
    if |path| == 1 {
      assert SplitDots(SegText(path[0])) == [SegText(path[0])];
    } else {
      SplitJoin(path[1..]);
      SplitAfterDot(SegText(path[0]), JoinPath(path[1..]));
      assert SegTexts(path) == [SegText(path[0])] + SegTexts(path[1..]);
    }
  }

  /** The field of a key violation is the key; that of an array item is `key.index`; the object's own is empty. */
  lemma FieldNames(k: string, i: nat)
    ensures JoinPath([Key(k)]) == k
    ensures JoinPath([Key(k), Index(i)]) == k + "." + NatToString(i)
    ensures JoinPath([]) == ""
  {
    assert [Key(k), Index(i)][1..] == [Index(i)];
  }

  /** One envelope entry per violation, in order. */
  function Entries(vs: seq<Violation>): (es: seq<FieldError>)
    ensures |es| == |vs|
    ensures forall i :: 0 <= i < |vs| ==> es[i] == FieldError(JoinPath(vs[i].path), vs[i].message)
  {
    seq(|vs|, i requires 0 <= i < |vs| => FieldError(JoinPath(vs[i].path), vs[i].message))
  }

  /** The entries of one and of three violations, stated apart to keep their clients' proofs small. */
  lemma EntriesOfOne(x: Violation)
    ensures Entries([x]) == [FieldError(JoinPath(x.path), x.message)]
  {
  }

  lemma EntriesOfThree(x: Violation, y: Violation, z: Violation)
    ensures Entries([x, y, z])
      == [FieldError(JoinPath(x.path), x.message), FieldError(JoinPath(y.path), y.message), FieldError(JoinPath(z.path), z.message)]
  {
  }

  /** Either the request goes on to its handler, or it is answered here. */
  datatype Gate = Next | Reject(response: Response)

  /**
   * The middleware: the request goes on exactly when the schema accepts the
   * body; a refusal is a 400 validation error listing one entry per violation.
   */
  function Validate(schema: Schema, body: Body, emailShape: string -> bool): (g: Gate)
    ensures g.Next? <==> AcceptsBody(schema, body, emailShape)
    ensures g.Reject? ==>
      && g.response.status == 400
      && g.response.body.Error?
      && g.response.body.message == ValidationErrorText
      && g.response.body.errors.Some?
      && |g.response.body.errors.value| == |ValidateBody(schema, body, emailShape)| >= 1
  {
    var vs := ValidateBody(schema, body, emailShape);
    if vs == [] then Next
    else Reject(Response(400, Error(ValidationErrorText, Some(Entries(vs)))))
  }

  /**
   * A refusal reports every violation under its joined path with its
   * message, and every entry it reports is such a violation.
   */
  lemma RejectListsViolations(schema: Schema, body: Body, emailShape: string -> bool)
    requires Validate(schema, body, emailShape).Reject?
    ensures forall v :: v in ValidateBody(schema, body, emailShape) ==>
              FieldError(JoinPath(v.path), v.message) in Validate(schema, body, emailShape).response.body.errors.value
    ensures forall e :: e in Validate(schema, body, emailShape).response.body.errors.value ==>
              exists v :: v in ValidateBody(schema, body, emailShape) && e == FieldError(JoinPath(v.path), v.message)
  {
    var vs := ValidateBody(schema, body, emailShape);
    var es := Validate(schema, body, emailShape).response.body.errors.value;
    assert es == Entries(vs);
    forall v | v in vs
      ensures FieldError(JoinPath(v.path), v.message) in es
    {
      var i :| 0 <= i < |vs| && vs[i] == v;
      assert es[i] == FieldError(JoinPath(v.path), v.message);
    }
    forall e | e in es
      ensures exists v :: v in vs && e == FieldError(JoinPath(v.path), v.message)
    {
      var i :| 0 <= i < |es| && es[i] == e;
      assert vs[i] in vs;
    }
  }
}
