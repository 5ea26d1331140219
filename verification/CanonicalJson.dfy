/**
 The canonical JSON encoding of `interfaces.py`, over values as Python holds them: objects
 remember the order their members were inserted in. NFC is an arbitrary function of
 strings; a string is a sequence of Unicode scalar values, and a float is its own text.
 */
module CanonicalJson {
  import opened Bytes

  datatype Json =
    | Null
    | Bool(b: bool)
    | Int(i: int)
    | Float(text: string)
    | Str(s: string)
    | Arr(items: seq<Json>)
    | Obj(members: seq<Member>)

  datatype Member = Member(key: string, value: Json)

  type Nfc = string -> string

  // ----- the values json.dumps can be handed -------------------------------------------------

  predicate TokenChar(c: char) { '0' <= c <= '9' || c == '-' || c == '+' || c == '.' || c == 'e' }

  /** A finite float's text: token characters only, and a point or an exponent among them. */
  predicate FloatToken(t: string) {
    t != "" && ('0' <= t[0] <= '9' || t[0] == '-') && (forall c :: c in t ==> TokenChar(c)) && ('.' in t || 'e' in t)
  }

  predicate Distinct(members: seq<Member>) {
    forall i, j :: 0 <= i < j < |members| ==> members[i].key != members[j].key
  }

  predicate WellFormed(j: Json) {
    match j
    case Float(text) => FloatToken(text)
    case Arr(items) => forall i :: 0 <= i < |items| ==> WellFormed(items[i])
    case Obj(members) => Distinct(members) && forall i :: 0 <= i < |members| ==> WellFormed(members[i].value)
    case _ => true
  }

  predicate Has(members: seq<Member>, key: string) {
    members != [] && (members[0].key == key || Has(members[1..], key))
  }

  function Lookup(members: seq<Member>, key: string): Json
    requires Has(members, key)
  {
    if members[0].key == key then members[0].value else Lookup(members[1..], key)
  }

  /** Equality of Python values: lists position by position, objects key by key, whatever the order. */
  predicate Same(a: Json, b: Json) {
    match (a, b)
    case (Arr(x), Arr(y)) => |x| == |y| && forall i :: 0 <= i < |x| ==> Same(x[i], y[i])
    case (Obj(x), Obj(y)) =>
      && (forall i :: 0 <= i < |x| ==> Has(y, x[i].key) && Same(x[i].value, Lookup(y, x[i].key)))
      && (forall j :: 0 <= j < |y| ==> Has(x, y[j].key))
    case _ => a == b
  }

  // ----- normalisation ------------------------------------------------------------------------

  /** Assigning a key of a dict: in place when it is there, at the end otherwise. */
  function Put(members: seq<Member>, key: string, value: Json): seq<Member> {
    if members == [] then [Member(key, value)]
    else if members[0].key == key then [Member(key, value)] + members[1..]
    else [members[0]] + Put(members[1..], key, value)
  }

  /** `_nfc`: every string and key normalised; a later key replaces an earlier one it collides with. */
  function Normal(nfc: Nfc, j: Json): Json {
    match j
    case Str(s) => Str(nfc(s))
    case Arr(items) => Arr(seq(|items|, i requires 0 <= i < |items| => Normal(nfc, items[i])))
    case Obj(members) => Obj(NormalMembers(nfc, members, |members|))
    case _ => j
  }

  function NormalMembers(nfc: Nfc, members: seq<Member>, n: nat): seq<Member>
    requires n <= |members|
    decreases members, n
  {
    if n == 0 then []
    else Put(NormalMembers(nfc, members, n - 1), nfc(members[n - 1].key), Normal(nfc, members[n - 1].value))
  }

  // ----- sorting keys ---------------------------------------------------------------------------

  /** Lexicographic order by code point. */
  predicate Less(a: string, b: string) {
    b != "" && (a == "" || a[0] < b[0] || (a[0] == b[0] && Less(a[1..], b[1..])))
  }

  function Insert(m: Member, sorted: seq<Member>): seq<Member> {
    if sorted == [] || Less(m.key, sorted[0].key) then [m] + sorted else [sorted[0]] + Insert(m, sorted[1..])
  }

  function SortKeys(members: seq<Member>): seq<Member> {
    if members == [] then [] else Insert(members[0], SortKeys(members[1..]))
  }

  /** Every object's members in key order. */
  function Sorted(j: Json): Json {
    match j
    case Arr(items) => Arr(seq(|items|, i requires 0 <= i < |items| => Sorted(items[i])))
    case Obj(members) => Obj(SortKeys(SortedValues(members)))
    case _ => j
  }

  function SortedValues(members: seq<Member>): (r: seq<Member>)
    ensures |r| == |members|
    ensures forall i :: 0 <= i < |members| ==> r[i] == Member(members[i].key, Sorted(members[i].value))
  {
    seq(|members|, i requires 0 <= i < |members| => Member(members[i].key, Sorted(members[i].value)))
  }

  // ----- text -----------------------------------------------------------------------------------------

  function Digits(n: nat): (t: string)
    ensures t != "" && forall c :: c in t ==> '0' <= c <= '9'
  {
    if n < 10 then [HEX_DIGITS[n]] else Digits(n / 10) + [HEX_DIGITS[n % 10]]
  }

  function IntText(i: int): string { if i < 0 then "-" + Digits(-i) else Digits(i) }

  /** The escapes of section 7 of RFC 8259 that are used; all other characters stand for themselves. */
  function EscapeChar(c: char): (t: string)
    ensures t != "" && t[0] != '\"'
  {
    if c == '\"' then "\\\""
    else if c == '\\' then "\\\\"
    else if c == '\n' then "\\n"
    else if c == '\r' then "\\r"
    else if c == '\t' then "\\t"
    else if c as int == 12 then "\\f"
    else if c as int == 8 then "\\b"
    else if c as int < 32 then "\\u00" + [HEX_DIGITS[c as int / 16], HEX_DIGITS[c as int % 16]]
    else [c]
  }

  function Escape(s: string): string { if s == "" then "" else EscapeChar(s[0]) + Escape(s[1..]) }

  function Quoted(s: string): string { "\"" + Escape(s) + "\"" }

  function Render(j: Json): string {
    match j
    case Null => "null"
    case Bool(b) => if b then "true" else "false"
    case Int(i) => IntText(i)
    case Float(text) => text
    case Str(s) => Quoted(s)
    case Arr(items) => "[" + RenderItems(items) + "]"
    case Obj(members) => "{" + RenderMembers(members) + "}"
  }

  function RenderItems(items: seq<Json>): string {
    if items == [] then ""
    else if |items| == 1 then Render(items[0])
    else Render(items[0]) + "," + RenderItems(items[1..])
  }

  function RenderMember(m: Member): string { Quoted(m.key) + ":" + Render(m.value) }

  function RenderMembers(members: seq<Member>): string {
    if members == [] then ""
    else if |members| == 1 then RenderMember(members[0])
    else RenderMember(members[0]) + "," + RenderMembers(members[1..])
  }

  // ----- UTF-8 -------------------------------------------------------------------------------------------

  function Utf8Char(c: char): (b: Bytes)
    ensures b != []
  {
    var x := c as int;
    if x < 0x80 then [x]
    else if x < 0x800 then [0xC0 + x / 64, 0x80 + x % 64]
    else if x < 0x10000 then [0xE0 + x / 4096, 0x80 + x / 64 % 64, 0x80 + x % 64]
    else [0xF0 + x / 262144, 0x80 + x / 4096 % 64, 0x80 + x / 64 % 64, 0x80 + x % 64]
  }

  function Utf8(t: string): Bytes { if t == "" then [] else Utf8Char(t[0]) + Utf8(t[1..]) }

  /** `_canonical_json_py`. */
  function Canonical(nfc: Nfc, j: Json): Bytes { Utf8(Render(Sorted(Normal(nfc, j)))) }
}
