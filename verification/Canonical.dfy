/** The canonical JSON printer behind every response comparison. */
module Canonical {
  import opened Prelude
  import opened Text

  /** A parsed JSON value. Object members are in the order the map yields them; a number is the token
      its text is. */
  datatype Json =
    | Null
    | Bool(b: bool)
    | Number(token: string)
    | String(s: string)
    | Array(items: seq<Json>)
    | Object(members: seq<Member>)

  datatype Member = Member(key: string, value: Json)

  function KeyOf(m: Member): string { m.key }

  predicate NumberChar(c: char) {
    '0' <= c <= '9' || c == '-' || c == '+' || c == '.' || c == 'e' || c == 'E'
  }

  predicate IsNumber(token: string) {
    token != "" && forall c <- token :: NumberChar(c)
  }

  /** What a parser hands over: number tokens are numbers, and an object's keys are distinct. */
  predicate WellFormed(v: Json) {
    match v
    case Number(token) => IsNumber(token)
    case Array(items) => forall x <- items :: WellFormed(x)
    case Object(members) => DistinctKeys(members, KeyOf) && forall m <- members :: WellFormed(m.value)
    case _ => true
  }

  // ---------------------------------------------------------------------------
  // The printer.

  datatype Part = Part(key: string, text: string)

  function PartKey(p: Part): string { p.key }

  function EscapeAll(s: string): string {
    if s == "" then "" else Escape(s[0]) + EscapeAll(s[1..])
  }

  function Quote(s: string): string {
    "\"" + EscapeAll(s) + "\""
  }

  function Print(v: Json): string
    decreases v, 1
  {
    match v
    case Null => "null"
    case Bool(b) => if b then "true" else "false"
    case Number(token) => token
    case String(s) => Quote(s)
    case Array(items) => "[" + JoinTexts(PrintAll(items)) + "]"
    case Object(members) => "{" + JoinParts(Sort(PrintMembers(members), PartKey)) + "}"
  }

  function PrintAll(items: seq<Json>): seq<string>
    decreases items, 0
  {
    if items == [] then [] else [Print(items[0])] + PrintAll(items[1..])
  }

  function PrintMembers(members: seq<Member>): seq<Part>
    decreases members, 0
  {
    if members == [] then [] else [Part(members[0].key, Print(members[0].value))] + PrintMembers(members[1..])
  }

  function JoinParts(parts: seq<Part>): string {
    if parts == [] then ""
    else
      var first := Quote(parts[0].key) + ":" + parts[0].text;
      if |parts| == 1 then first else first + "," + JoinParts(parts[1..])
  }

  // ---------------------------------------------------------------------------
  // Equality up to key order.

  predicate Same(v: Json, w: Json)
    decreases v
  {
    match (v, w)
    case (Array(xs), Array(ys)) => |xs| == |ys| && forall i | 0 <= i < |xs| :: Same(xs[i], ys[i])
    case (Object(ms), Object(ns)) =>
      |ms| == |ns| && forall m <- ms :: exists n <- ns :: n.key == m.key && Same(m.value, n.value)
    case _ => v == w
  }

  /** The representative of a value: members in key order, all the way down. */
  function Ordered(v: Json): Json
    decreases v, 1
  {
    match v
    case Array(items) => Array(OrderedAll(items))
    case Object(members) => Object(Sort(OrderedMembers(members), KeyOf))
    case _ => v
  }

  function OrderedAll(items: seq<Json>): seq<Json>
    decreases items, 0
  {
    if items == [] then [] else [Ordered(items[0])] + OrderedAll(items[1..])
  }

  function OrderedMembers(members: seq<Member>): seq<Member>
    decreases members, 0
  {
    if members == [] then []
    else [Member(members[0].key, Ordered(members[0].value))] + OrderedMembers(members[1..])
  }

  // ---------------------------------------------------------------------------
  // Volatile fields.

  function Remove(members: seq<Member>, key: string): seq<Member> {
    if members == [] then []
    else (if members[0].key == key then [] else [members[0]]) + Remove(members[1..], key)
  }

  /** `data._meta`, the block each indexer happened to be at. */
  function StripMeta(members: seq<Member>): seq<Member> {
    if members == [] then []
    else
      var m := members[0];
      (if m.key == "data" && m.value.Object? then [Member("data", Object(Remove(m.value.members, "_meta")))] else [m])
      + StripMeta(members[1..])
  }

  /** What is compared of a response: everything but `extensions`, `headers` and `data._meta`. */
  function StripVolatile(v: Json): Json {
    match v
    case Object(members) => Object(StripMeta(Remove(Remove(members, "extensions"), "headers")))
    case _ => v
  }

  function Lookup(members: seq<Member>, key: string): Option<Json> {
    if members == [] then None
    else if members[0].key == key then Some(members[0].value)
    else Lookup(members[1..], key)
  }
}
