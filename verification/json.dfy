/** JSON values as the modelled code builds and reads them, and the JSONPath
    subset (`$`, `.name`, `[i]`) that the workflow definition uses. */
module Json {
  import opened Wrappers

  /** An object keeps its members in insertion order; numbers are integers,
      which is all the modelled payloads carry. */
  datatype Json =
    | JNull
    | JBool(b: bool)
    | JNumber(n: int)
    | JString(s: string)
    | JArray(items: seq<Json>)
    | JObject(fields: seq<(string, Json)>)

  /** A string-valued JSON member list: what a `Dictionary<string, string>`
      handler result serialises to, in insertion order. */
  type Entries = seq<(string, string)>

  function Keys(fields: seq<(string, Json)>): (r: seq<string>)
    ensures |r| == |fields|
    ensures forall i :: 0 <= i < |fields| ==> r[i] == fields[i].0
  {
    seq(|fields|, i requires 0 <= i < |fields| => fields[i].0)
  }

  predicate DistinctKeys(fields: seq<(string, Json)>) {
    forall i, j :: 0 <= i < j < |fields| ==> fields[i].0 != fields[j].0
  }

  /** The value of member `name`; when a name occurs more than once the last
      occurrence wins, as for `JsonElement.TryGetProperty`. */
  function Lookup(fields: seq<(string, Json)>, name: string): (r: Option<Json>)
    ensures r.None? <==> name !in Keys(fields)
  {
    if |fields| == 0 then None
    else if fields[|fields| - 1].0 == name then Some(fields[|fields| - 1].1)
    else
      assert Keys(fields) == Keys(fields[..|fields| - 1]) + [fields[|fields| - 1].0];
      Lookup(fields[..|fields| - 1], name)
  }

  /** With distinct names, every member is found under its own name. */
  lemma {:induction false} LookupDistinct(fields: seq<(string, Json)>, i: nat)
    requires DistinctKeys(fields) && i < |fields|
    ensures Lookup(fields, fields[i].0) == Some(fields[i].1)
  {
    if i < |fields| - 1 {
      LookupDistinct(fields[..|fields| - 1], i);
    }
  }

  /** Member lookup on any JSON value: only objects have members. */
  function Get(j: Json, name: string): Option<Json> {
    if j.JObject? then Lookup(j.fields, name) else None
  }

  /** Overwrites member `name` in place, or appends it when absent. */
  function SetField(fields: seq<(string, Json)>, name: string, v: Json): (r: seq<(string, Json)>)
    ensures Lookup(r, name) == Some(v)
    ensures forall n :: n != name ==> Lookup(r, n) == Lookup(fields, n)
    ensures forall n :: n in Keys(r) <==> n in Keys(fields) || n == name
  {
    if name in Keys(fields) then Replace(fields, name, v)
    else
      assert Keys(fields + [(name, v)]) == Keys(fields) + [name];
      fields + [(name, v)]
  }

  function Replace(fields: seq<(string, Json)>, name: string, v: Json): (r: seq<(string, Json)>)
    ensures Keys(r) == Keys(fields)
    ensures name in Keys(fields) ==> Lookup(r, name) == Some(v)
    ensures forall n :: n != name ==> Lookup(r, n) == Lookup(fields, n)
  {
    if |fields| == 0 then []
    else
      var init := fields[..|fields| - 1];
      var last := fields[|fields| - 1];
      var r := Replace(init, name, v) + [if last.0 == name then (name, v) else last];
      assert Keys(fields) == Keys(init) + [last.0];
      assert Keys(r) == Keys(Replace(init, name, v)) + [last.0];
      assert r[..|r| - 1] == Replace(init, name, v);
      r
  }

  /** A string-valued entry list as a JSON object. */
  function ObjectOf(entries: Entries): (r: Json)
    ensures r.JObject? && |r.fields| == |entries|
    ensures forall i :: 0 <= i < |entries| ==> r.fields[i] == (entries[i].0, JString(entries[i].1))
  {
    JObject(seq(|entries|, i requires 0 <= i < |entries| => (entries[i].0, JString(entries[i].1))))
  }

  /** One step of a JSONPath: `.name` or `[i]`. */
  datatype Step = Field(name: string) | Index(i: nat)

  /** A JSONPath below the root `$`; `[]` is `$` itself. */
  type Path = seq<Step>

  /** The value a JSONPath selects, or `None` when it selects nothing. */
  function Resolve(j: Json, path: Path): Option<Json>
    decreases |path|
  {
    if |path| == 0 then Some(j)
    else match path[0]
      case Field(name) =>
        (match Get(j, name)
         case Some(v) => Resolve(v, path[1..])
         case None => None)
      case Index(i) =>
        if j.JArray? && i < |j.items| then Resolve(j.items[i], path[1..]) else None
  }

  /** A path that starts with an array index selects nothing in an object. */
  lemma IndexOnObjectSelectsNothing(fields: seq<(string, Json)>, i: nat, rest: Path)
    ensures Resolve(JObject(fields), [Index(i)] + rest) == None
  {
    assert ([Index(i)] + rest)[0] == Index(i);
  }
}
