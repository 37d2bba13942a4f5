/**
 * A declarative request-body validator with the semantics the application
 * configures its schema library with: every violation is collected (no early
 * abort) and keys the schema does not declare are violations.
 *
 * Per field: an absent value fails only a required field; a value of the wrong
 * type, or the empty string, fails with one base error and no further rule is
 * tried; otherwise every rule is tried in declaration order and each failing
 * rule adds one violation. Array items are validated one by one at path
 * `key.index`. Per object: declared keys in declaration order, then unknown
 * keys in body order, then — only when nothing failed so far — the minimum
 * number of keys.
 */
module Validation {
  import opened Wrappers
  import opened Text
  import opened Messages
  import opened Json
  import opened Ids

  /** Error codes of the schema library. */
  datatype Code =
    | AnyRequired | StringBase | StringEmpty | StringMin | StringMax | StringPattern | StringEmail
    | ArrayBase | ArrayMin | ObjectUnknown | ObjectMin

  function CodeText(c: Code): string {
    match c
    case AnyRequired => "any.required"
    case StringBase => "string.base"
    case StringEmpty => "string.empty"
    case StringMin => "string.min"
    case StringMax => "string.max"
    case StringPattern => "string.pattern.base"
    case StringEmail => "string.email"
    case ArrayBase => "array.base"
    case ArrayMin => "array.min"
    case ObjectUnknown => "object.unknown"
    case ObjectMin => "object.min"
  }

  /** A path segment: an object key or an array index. */
  datatype Seg = Key(name: string) | Index(i: nat)

  datatype Violation = Violation(path: seq<Seg>, code: Code, message: Message)

  /** A rule on a non-empty string value. */
  datatype Check = MinLength(n: nat) | MaxLength(n: nat) | ObjectIdPattern | EmailAddress

  /** The rule set of one key; `messages` overrides the library's texts per code. */
  datatype Rule =
    | StringRule(required: bool, checks: seq<Check>, messages: map<Code, string>)
    | StringArrayRule(required: bool, minItems: nat, messages: map<Code, string>)

  /** An object schema: its keys in declaration order, `.min(minKeys)`, object-level messages. */
  datatype Schema = Schema(keys: seq<(string, Rule)>, minKeys: nat, messages: map<Code, string>)

  /** The text for a code: the innermost override wins, else the library default. */
  function Resolve(own: map<Code, string>, inherited: map<Code, string>, c: Code): (m: Message)
    ensures m.LibraryDefault? <==> c !in own && c !in inherited
  {
    if c in own then Catalog(own[c])
    else if c in inherited then Catalog(inherited[c])
    else LibraryDefault(CodeText(c))
  }

  predicate Passes(c: Check, s: string, emailShape: string -> bool) {
    match c
    case MinLength(n) => |s| >= n
    case MaxLength(n) => |s| <= n
    case ObjectIdPattern => IsObjectIdHex(s)
    case EmailAddress => emailShape(s)
  }

  function FailureCode(c: Check): Code {
    match c
    case MinLength(_) => StringMin
    case MaxLength(_) => StringMax
    case ObjectIdPattern => StringPattern
    case EmailAddress => StringEmail
  }

  /** One violation per failing rule, in rule order. */
  function CheckString(checks: seq<Check>, s: string, path: seq<Seg>, messages: map<Code, string>,
                       inherited: map<Code, string>, emailShape: string -> bool): (vs: seq<Violation>)
    ensures vs == [] <==> forall i :: 0 <= i < |checks| ==> Passes(checks[i], s, emailShape)
    ensures |vs| <= |checks|
    ensures forall v :: v in vs ==> v.path == path
    ensures forall i :: 0 <= i < |checks| && !Passes(checks[i], s, emailShape) ==>
              Violation(path, FailureCode(checks[i]), Resolve(messages, inherited, FailureCode(checks[i]))) in vs
  {
    if checks == [] then []
    else
      var head := if Passes(checks[0], s, emailShape) then []
                  else [Violation(path, FailureCode(checks[0]), Resolve(messages, inherited, FailureCode(checks[0])))];
      var tail := CheckString(checks[1..], s, path, messages, inherited, emailShape);
      assert forall i :: 1 <= i < |checks| ==> checks[i] == checks[1..][i - 1];
      head + tail
  }

  /** Each item must be a non-empty string; one violation per bad item at path `path.index`. */
  function CheckItems(items: seq<Json>, from: nat, path: seq<Seg>, inherited: map<Code, string>): (vs: seq<Violation>)
    ensures vs == [] <==> forall i :: 0 <= i < |items| ==> items[i].JString? && items[i].s != ""
    ensures |vs| <= |items|
    ensures forall v :: v in vs ==>
              && |v.path| == |path| + 1 && v.path[..|path|] == path
              && v.path[|path|].Index? && from <= v.path[|path|].i < from + |items|
    decreases |items|
  {
    if items == [] then []
    else
      var here := path + [Index(from)];
      var head := match items[0]
        case JString(s) => if s == "" then [Violation(here, StringEmpty, Resolve(map[], inherited, StringEmpty))] else []
        case _ => [Violation(here, StringBase, Resolve(map[], inherited, StringBase))];
      var tail := CheckItems(items[1..], from + 1, path, inherited);
      assert forall i :: 1 <= i < |items| ==> items[i] == items[1..][i - 1];
      head + tail
  }

  /**
   * The independent statement of when a key's value is acceptable: absent and
   * optional, a non-empty string passing every rule, or an array of non-empty
   * strings long enough.
   */
  predicate Accepts(rule: Rule, v: Option<Json>, emailShape: string -> bool) {
    match v
    case None => !rule.required
    case Some(j) =>
      match rule
      case StringRule(_, checks, _) =>
        j.JString? && j.s != "" && forall i :: 0 <= i < |checks| ==> Passes(checks[i], j.s, emailShape)
      case StringArrayRule(_, minItems, _) =>
        j.JArray? && |j.items| >= minItems
        && forall i :: 0 <= i < |j.items| ==> j.items[i].JString? && j.items[i].s != ""
  }

  /** The violations of one key. */
  function CheckValue(rule: Rule, path: seq<Seg>, v: Option<Json>, inherited: map<Code, string>,
                      emailShape: string -> bool): (vs: seq<Violation>)
    ensures vs == [] <==> Accepts(rule, v, emailShape)
    ensures forall x :: x in vs ==> |x.path| >= |path| && x.path[..|path|] == path
  {
    match v
    case None =>
      if rule.required then [Violation(path, AnyRequired, Resolve(rule.messages, inherited, AnyRequired))] else []
    case Some(j) =>
      match rule
      case StringRule(_, checks, messages) =>
        if !j.JString? then [Violation(path, StringBase, Resolve(messages, inherited, StringBase))]
        else if j.s == "" then [Violation(path, StringEmpty, Resolve(messages, inherited, StringEmpty))]
        else CheckString(checks, j.s, path, messages, inherited, emailShape)
      case StringArrayRule(_, minItems, messages) =>
        if !j.JArray? then [Violation(path, ArrayBase, Resolve(messages, inherited, ArrayBase))]
        else
          var itemMessages := inherited + messages;
          var items := CheckItems(j.items, 0, path, itemMessages);
          items + (if |j.items| < minItems then [Violation(path, ArrayMin, Resolve(messages, inherited, ArrayMin))] else [])
  }

  predicate Declared(keys: seq<(string, Rule)>, k: string) {
    exists i :: 0 <= i < |keys| && keys[i].0 == k
  }

  /** The violations of the declared keys, in declaration order. */
  function KeyViolations(keys: seq<(string, Rule)>, body: Body, inherited: map<Code, string>,
                         emailShape: string -> bool): (vs: seq<Violation>)
    ensures vs == [] <==> forall i :: 0 <= i < |keys| ==> Accepts(keys[i].1, Lookup(body, keys[i].0), emailShape)
  {
    if keys == [] then []
    else
      var head := CheckValue(keys[0].1, [Key(keys[0].0)], Lookup(body, keys[0].0), inherited, emailShape);
      var tail := KeyViolations(keys[1..], body, inherited, emailShape);
      assert forall i :: 1 <= i < |keys| ==> keys[i] == keys[1..][i - 1];
      head + tail
  }

  /** The violations of the first key come first. */
  lemma KeyViolationsStep(keys: seq<(string, Rule)>, body: Body, inherited: map<Code, string>, emailShape: string -> bool)
    requires keys != []
    ensures KeyViolations(keys, body, inherited, emailShape)
      == CheckValue(keys[0].1, [Key(keys[0].0)], Lookup(body, keys[0].0), inherited, emailShape)
         + KeyViolations(keys[1..], body, inherited, emailShape)
  {
  }

  /** Every violation of every declared key is reported, and nothing else is. */
  lemma {:induction false} KeyViolationsMembers(keys: seq<(string, Rule)>, body: Body, inherited: map<Code, string>,
                                                emailShape: string -> bool)
    ensures forall i :: 0 <= i < |keys| ==>
              forall x :: x in CheckValue(keys[i].1, [Key(keys[i].0)], Lookup(body, keys[i].0), inherited, emailShape) ==>
                x in KeyViolations(keys, body, inherited, emailShape)
    ensures forall x :: x in KeyViolations(keys, body, inherited, emailShape) ==>
              (exists i :: 0 <= i < |keys| &&
                 x in CheckValue(keys[i].1, [Key(keys[i].0)], Lookup(body, keys[i].0), inherited, emailShape))
  {
    if keys != [] {
      KeyViolationsMembers(keys[1..], body, inherited, emailShape);
      KeyViolationsStep(keys, body, inherited, emailShape);
      assert forall i :: 1 <= i < |keys| ==> keys[i] == keys[1..][i - 1];
    }
  }

  lemma KeyViolationsCons(k: (string, Rule), rest: seq<(string, Rule)>, body: Body, inherited: map<Code, string>,
                          emailShape: string -> bool)
    ensures KeyViolations([k] + rest, body, inherited, emailShape)
      == CheckValue(k.1, [Key(k.0)], Lookup(body, k.0), inherited, emailShape) + KeyViolations(rest, body, inherited, emailShape)
  {
    assert ([k] + rest)[1..] == rest;
    KeyViolationsStep([k] + rest, body, inherited, emailShape);
  }

  /** A four-key schema reports the violations of each key in turn. */
  lemma KeyViolationsOfFour(a: (string, Rule), b: (string, Rule), c: (string, Rule), d: (string, Rule),
                            body: Body, inherited: map<Code, string>, emailShape: string -> bool)
    ensures KeyViolations([a, b, c, d], body, inherited, emailShape)
      == CheckValue(a.1, [Key(a.0)], Lookup(body, a.0), inherited, emailShape)
         + (CheckValue(b.1, [Key(b.0)], Lookup(body, b.0), inherited, emailShape)
         + (CheckValue(c.1, [Key(c.0)], Lookup(body, c.0), inherited, emailShape)
         + (CheckValue(d.1, [Key(d.0)], Lookup(body, d.0), inherited, emailShape) + [])))
  {
    var d1: seq<(string, Rule)> := [d] + [];
    var c1 := [c] + d1;
    var b1 := [b] + c1;
    assert [a, b, c, d] == [a] + b1;
    KeyViolationsCons(a, b1, body, inherited, emailShape);
    KeyViolationsCons(b, c1, body, inherited, emailShape);
    KeyViolationsCons(c, d1, body, inherited, emailShape);
    KeyViolationsCons(d, [], body, inherited, emailShape);
  }

  /** One violation per body member whose key the schema does not declare, in body order. */
  function UnknownViolations(keys: seq<(string, Rule)>, body: Body, messages: map<Code, string>): (vs: seq<Violation>)
    ensures vs == [] <==> forall i :: 0 <= i < |body| ==> Declared(keys, body[i].0)
    ensures forall i :: 0 <= i < |body| && !Declared(keys, body[i].0) ==>
              Violation([Key(body[i].0)], ObjectUnknown, Resolve(messages, map[], ObjectUnknown)) in vs
    ensures forall x :: x in vs ==>
              && x.code == ObjectUnknown
              && (exists i :: 0 <= i < |body| && !Declared(keys, body[i].0) && x.path == [Key(body[i].0)])
  {
    if body == [] then []
    else
      var head := if Declared(keys, body[0].0) then []
                  else [Violation([Key(body[0].0)], ObjectUnknown, Resolve(messages, map[], ObjectUnknown))];
      var tail := UnknownViolations(keys, body[1..], messages);
      assert forall i :: 1 <= i < |body| ==> body[i] == body[1..][i - 1];
      head + tail
  }

  /** When a body is acceptable, stated without the violation lists. */
  predicate AcceptsBody(schema: Schema, body: Body, emailShape: string -> bool) {
    && (forall i :: 0 <= i < |schema.keys| ==> Accepts(schema.keys[i].1, Lookup(body, schema.keys[i].0), emailShape))
    && (forall i :: 0 <= i < |body| ==> Declared(schema.keys, body[i].0))
    && |body| >= schema.minKeys
  }

  /**
   * All violations of a body, in Joi's order: the declared keys' in
   * declaration order, then the unknown keys', then the key-count check,
   * which Joi only reaches when everything else passed. The body is accepted
   * exactly when there are none.
   */
  function ValidateBody(schema: Schema, body: Body, emailShape: string -> bool): (vs: seq<Violation>)
    ensures vs == [] <==> AcceptsBody(schema, body, emailShape)
  {
    var known := KeyViolations(schema.keys, body, schema.messages, emailShape);
    var unknown := UnknownViolations(schema.keys, body, schema.messages);
    var tooFew := if known + unknown == [] && |body| < schema.minKeys
                  then [Violation([], ObjectMin, Resolve(schema.messages, map[], ObjectMin))] else [];
    known + unknown + tooFew
  }

  /** Every violation of a declared key is reported (`abortEarly: false`). */
  lemma KeyViolationReported(schema: Schema, body: Body, emailShape: string -> bool, i: nat, x: Violation)
    requires i < |schema.keys|
    requires x in CheckValue(schema.keys[i].1, [Key(schema.keys[i].0)], Lookup(body, schema.keys[i].0), schema.messages, emailShape)
    ensures x in ValidateBody(schema, body, emailShape)
  {
    KeyViolationsMembers(schema.keys, body, schema.messages, emailShape);
  }

  /** Every key the schema does not declare is reported as unknown. */
  lemma UnknownKeyReported(schema: Schema, body: Body, emailShape: string -> bool, i: nat)
    requires i < |body| && !Declared(schema.keys, body[i].0)
    ensures Violation([Key(body[i].0)], ObjectUnknown, Resolve(schema.messages, map[], ObjectUnknown)) in ValidateBody(schema, body, emailShape)
  {
    var unknown := UnknownViolations(schema.keys, body, schema.messages);
    assert Violation([Key(body[i].0)], ObjectUnknown, Resolve(schema.messages, map[], ObjectUnknown)) in unknown;
  }

  /**
   * Nothing else is reported: each violation is one of a declared key's, an
   * unknown key, or the key-count check.
   */
  lemma ValidateBodySound(schema: Schema, body: Body, emailShape: string -> bool)
    ensures forall x :: x in ValidateBody(schema, body, emailShape) ==>
              || (exists i :: 0 <= i < |schema.keys| &&
                   x in CheckValue(schema.keys[i].1, [Key(schema.keys[i].0)], Lookup(body, schema.keys[i].0), schema.messages, emailShape))
              || (x.code == ObjectUnknown && exists i :: 0 <= i < |body| && !Declared(schema.keys, body[i].0) && x.path == [Key(body[i].0)])
              || x == Violation([], ObjectMin, Resolve(schema.messages, map[], ObjectMin))
  {
    KeyViolationsMembers(schema.keys, body, schema.messages, emailShape);
  }
}
