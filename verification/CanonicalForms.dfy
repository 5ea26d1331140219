/**
 The text and bytes of the canonical encoding, form by form: the literals and separators of
 section 2 of RFC 8259, the escapes of its section 7, and UTF-8 as section 3 of RFC 3629 lays
 it out.
 */
module CanonicalForms {
  import opened Bytes
  import opened CanonicalJson

  lemma ScalarsWritten()
    ensures Render(Null) == "null" && Render(Bool(true)) == "true" && Render(Bool(false)) == "false"
    ensures Render(Int(0)) == "0" && Render(Str("")) == "\"\"" && Render(Arr([])) == "[]" && Render(Obj([])) == "{}"
  {
  }

  /** A number of two digits, and one below zero. */
  lemma NumbersWritten(a: int, b: int)
    requires 1 <= a <= 9 && 0 <= b <= 9
    ensures Render(Int(10 * a + b)) == [HEX_DIGITS[a], HEX_DIGITS[b]]
    ensures Render(Int(-a)) == ['-', HEX_DIGITS[a]]
  {
    assert (10 * a + b) / 10 == a && (10 * a + b) % 10 == b;
    assert Digits(a) == [HEX_DIGITS[a]];
  }

  /** Items and members stand between commas, a key and its value around a colon, without blanks. */
  lemma ContainersWritten(x: Json, rest: seq<Json>, m: Member, more: seq<Member>)
    ensures Render(Arr([x])) == "[" + Render(x) + "]"
    ensures rest != [] ==> Render(Arr([x] + rest)) == "[" + (Render(x) + "," + RenderItems(rest)) + "]"
    ensures RenderMember(m) == Quoted(m.key) + ":" + Render(m.value)
    ensures Render(Obj([m])) == "{" + RenderMember(m) + "}"
    ensures more != [] ==> Render(Obj([m] + more)) == "{" + (RenderMember(m) + "," + RenderMembers(more)) + "}"
  {
    assert ([x] + rest)[1..] == rest && ([m] + more)[1..] == more;
  }

  /** Characters of a string: two-character escapes, six-character ones for other controls, all others as they are. */
  lemma CharactersWritten(c: char)
    ensures c == '\"' ==> EscapeChar(c) == ['\\', '\"']
    ensures c == '\\' ==> EscapeChar(c) == ['\\', '\\']
    ensures c == '\U{08}' ==> EscapeChar(c) == "\\b"
    ensures c == '\U{0C}' ==> EscapeChar(c) == "\\f"
    ensures c == '\n' ==> EscapeChar(c) == "\\n"
    ensures c == '\r' ==> EscapeChar(c) == "\\r"
    ensures c == '\t' ==> EscapeChar(c) == "\\t"
    ensures c < ' ' && c !in {'\U{08}', '\U{0C}', '\n', '\r', '\t'} ==>
      EscapeChar(c) == "\\u00" + [if c < '\U{10}' then '0' else '1', HEX_DIGITS[c as int % 16]]
    ensures c >= ' ' && c != '\"' && c != '\\' ==> EscapeChar(c) == [c]
  {
  }

  /** What a byte carries below its mark. */
  function Carried(b: int, mark: int): int { b - mark }

  predicate Continues(b: int) { 0x80 <= b < 0xC0 }

  /** One or two bytes. */
  lemma Utf8Short(c: char)
    requires c as int < 0x800
    ensures var x, b := c as int, Utf8Char(c);
      if x < 0x80 then b == [x]
      else
        && |b| == 2 && 0xC0 <= b[0] < 0xE0 && Continues(b[1])
        && x == 64 * Carried(b[0], 0xC0) + Carried(b[1], 0x80)
  {
  }

  /** Three bytes. */
  lemma Utf8Middle(c: char)
    requires 0x800 <= c as int < 0x1_0000
    ensures var x, b := c as int, Utf8Char(c);
      && |b| == 3 && 0xE0 <= b[0] < 0xF0 && Continues(b[1]) && Continues(b[2])
      && x == 4096 * Carried(b[0], 0xE0) + 64 * Carried(b[1], 0x80) + Carried(b[2], 0x80)
  {
  }

  /** Four bytes: each code point is put together again from what its bytes carry. */
  lemma Utf8Long(c: char)
    requires 0x1_0000 <= c as int
    ensures var x, b := c as int, Utf8Char(c);
      && |b| == 4 && 0xF0 <= b[0] < 0xF8 && Continues(b[1]) && Continues(b[2]) && Continues(b[3])
      && x == 262144 * Carried(b[0], 0xF0) + 4096 * Carried(b[1], 0x80) + 64 * Carried(b[2], 0x80)
                + Carried(b[3], 0x80)
  {
  }
}
