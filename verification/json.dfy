/** The JSON values a request body can carry, and member lookup on a parsed object. */
module Json {
  import opened Wrappers

  datatype Json =
    | JNull
    | JBool(b: bool)
    | JNumber(n: int)
    | JString(s: string)
    | JArray(items: seq<Json>)
    | JObject(members: seq<(string, Json)>)

  /** A parsed request body: the members of a JSON object, in key order. */
  type Body = seq<(string, Json)>

  /** `body[key]`: the value of the first member named `key`, if any. */
  function Lookup(body: Body, key: string): (r: Option<Json>)
    ensures r.None? <==> forall i :: 0 <= i < |body| ==> body[i].0 != key
    ensures r.Some? ==> exists i :: 0 <= i < |body| && body[i] == (key, r.value)
  {
    if |body| == 0 then None
    else if body[0].0 == key then Some(body[0].1)
    else Lookup(body[1..], key)
  }

  /** A lookup looks at the first member, then at the rest. */
  lemma LookupFirst(body: Body, key: string)
    requires body != []
    ensures Lookup(body, key) == if body[0].0 == key then Some(body[0].1) else Lookup(body[1..], key)
  {
  }

  /** The string under `key`, when there is one. */
  function StringAt(body: Body, key: string): (r: Option<string>)
    ensures r.Some? <==> Lookup(body, key).Some? && Lookup(body, key).value.JString?
    ensures r.Some? ==> r.value == Lookup(body, key).value.s
  {
    match Lookup(body, key)
    case Some(JString(s)) => Some(s)
    case _ => None
  }

  predicate AllStrings(items: seq<Json>) {
    forall i :: 0 <= i < |items| ==> items[i].JString?
  }

  /** The strings under `key`, when it holds an array of strings. */
  function StringsAt(body: Body, key: string): (r: Option<seq<string>>)
    ensures r.Some? <==> Lookup(body, key).Some? && Lookup(body, key).value.JArray? && AllStrings(Lookup(body, key).value.items)
    ensures r.Some? ==>
      && |r.value| == |Lookup(body, key).value.items|
      && forall i :: 0 <= i < |r.value| ==> r.value[i] == Lookup(body, key).value.items[i].s
  {
    match Lookup(body, key)
    case Some(JArray(items)) =>
      if AllStrings(items) then Some(seq(|items|, i requires 0 <= i < |items| => items[i].s)) else None
    case _ => None
  }
}
