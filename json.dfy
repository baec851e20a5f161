/**
 * JSON documents as they are held in the dataset's `data` column and in an
 * ingestion manifest, and the typed readings of them that the dataset's
 * columns use.  Numbers are integers only.
 */
module Json {
  import opened Wrappers

  datatype Json =
    | JNull
    | JBool(b: bool)
    | JNum(n: int)
    | JStr(s: string)
    | JArr(items: seq<Json>)
    | JObj(fields: map<string, Json>)

  /** A JSON mapping (a Python `dict` decoded from JSON). */
  type Doc = map<string, Json>

  /** Python's `d.get(key)`: the value, or `None` when the key is absent. */
  function Get(d: Doc, key: string): Json
  {
    if key in d then d[key] else JNull
  }

  /** A value a nullable text column accepts. */
  predicate IsText(v: Json)
  {
    v.JStr? || v.JNull?
  }

  /** A value a nullable boolean column accepts. */
  predicate IsFlag(v: Json)
  {
    v.JBool? || v.JNull?
  }

  predicate AllText(items: seq<Json>)
  {
    forall i :: 0 <= i < |items| ==> items[i].JStr?
  }

  /** A value a list of codes (languages, territories) accepts. */
  predicate IsCodeList(v: Json)
  {
    v.JArr? && AllText(v.items)
  }

  function AsText(v: Json): Option<string>
    requires IsText(v)
  {
    if v.JStr? then Some(v.s) else None
  }

  function AsFlag(v: Json): Option<bool>
    requires IsFlag(v)
  {
    if v.JBool? then Some(v.b) else None
  }

  function AsCodes(items: seq<Json>): (codes: seq<string>)
    requires AllText(items)
    ensures |codes| == |items|
    ensures forall i :: 0 <= i < |items| ==> items[i] == JStr(codes[i])
  {
    if items == [] then [] else [items[0].s] + AsCodes(items[1..])
  }

  function TextValue(t: Option<string>): (v: Json)
    ensures IsText(v) && AsText(v) == t
  {
    match t
    case None => JNull
    case Some(s) => JStr(s)
  }

  function FlagValue(f: Option<bool>): (v: Json)
    ensures IsFlag(v) && AsFlag(v) == f
  {
    match f
    case None => JNull
    case Some(b) => JBool(b)
  }

  function CodesValue(codes: seq<string>): (items: seq<Json>)
    ensures |items| == |codes|
  {
    if codes == [] then [] else [JStr(codes[0])] + CodesValue(codes[1..])
  }

  /** Writing a code list to JSON and reading it back gives the same codes. */
  lemma {:induction false} CodesRoundTrip(codes: seq<string>)
    ensures IsCodeList(JArr(CodesValue(codes)))
    ensures AsCodes(CodesValue(codes)) == codes
  {
    if codes != [] {
      CodesRoundTrip(codes[1..]);
      assert CodesValue(codes)[1..] == CodesValue(codes[1..]);
    }
  }
}
