/**
 The text of a JSON value can be read back in one way only: each rendering lemma peels one
 construct off the front of a longer text and says what is left.
 */
module CanonicalText {
  import opened Bytes
  import opened CanonicalJson

  lemma Assoc<T>(a: seq<T>, b: seq<T>, c: seq<T>)
    ensures a + b + c == a + (b + c)
  {
  }

  lemma EmptyFront<T>(x: seq<T>)
    ensures [] + x == x
  {
  }

  lemma Uncons(p: char, x: string)
    ensures ([p] + x)[0] == p && ([p] + x)[1..] == x
  {
  }

  lemma FrontChar(p: string, x: string)
    requires p != ""
    ensures (p + x)[0] == p[0]
  {
  }

  // ----- UTF-8 ----------------------------------------------------------------------------------

  lemma DivMod(x: nat, y: nat, d: nat)
    requires d > 0 && x / d == y / d && x % d == y % d
    ensures x == y
  {
    assert x == x / d * d + x % d && y == y / d * d + y % d;
  }

  /** Two characters with the same bytes are the same. */
  lemma SameUtf8(x: char, y: char)
    requires Utf8Char(x) == Utf8Char(y)
    ensures x == y
  {
    var a, b, m, n := Utf8Char(x), Utf8Char(y), x as int, y as int;
    if m >= 0x80 {
      assert a[|a| - 1] == b[|a| - 1];
      if m >= 0x800 {
        assert a[|a| - 2] == b[|a| - 2];
        if m >= 0x10000 {
          assert a[1] == b[1];
          DivMod(m / 4096, n / 4096, 64);
        }
        DivMod(m / 64, n / 64, 64);
      }
      DivMod(m, n, 64);
    }
  }

  /** The first byte tells how many follow. */
  lemma Utf8Length(x: char, y: char)
    requires Utf8Char(x)[0] == Utf8Char(y)[0]
    ensures |Utf8Char(x)| == |Utf8Char(y)|
  {
  }

  lemma Utf8CharUnique(x: char, y: char, r: Bytes, s: Bytes)
    requires Utf8Char(x) + r == Utf8Char(y) + s
    ensures x == y && r == s
  {
    var a, b := Utf8Char(x), Utf8Char(y);
    assert (a + r)[0] == a[0] && (b + s)[0] == b[0];
    Utf8Length(x, y);
    ConcatSplit(a, r, b, s);
    SameUtf8(x, y);
  }

  lemma {:induction false} Utf8Injective(a: string, b: string)
    requires Utf8(a) == Utf8(b)
    ensures a == b
  {
    if a != "" && b != "" {
      Utf8CharUnique(a[0], b[0], Utf8(a[1..]), Utf8(b[1..]));
      Utf8Injective(a[1..], b[1..]);
      assert a == [a[0]] + a[1..] && b == [b[0]] + b[1..];
    }
  }

  /** No text is longer than its bytes. */
  lemma {:induction false} Utf8Longer(t: string)
    ensures |t| <= |Utf8(t)|
  {
    if t != "" {
      Utf8Longer(t[1..]);
    }
  }

  // ----- strings -----------------------------------------------------------------------------------

  lemma EscapeCharUnique(x: char, y: char, r: string, s: string)
    requires EscapeChar(x) + r == EscapeChar(y) + s
    ensures x == y && r == s
  {
    var a, b := EscapeChar(x), EscapeChar(y);
    assert (a + r)[0] == a[0] && (b + s)[0] == b[0];
    if |a| > 1 && |b| > 1 {
      assert (a + r)[1] == a[1] && (b + s)[1] == b[1];
      if |a| == 6 && |b| == 6 {
        assert (a + r)[4] == a[4] && (b + s)[4] == b[4] && (a + r)[5] == a[5] && (b + s)[5] == b[5];
        HexDigitInjective(x as int / 16, y as int / 16);
        HexDigitInjective(x as int % 16, y as int % 16);
      }
    }
    ConcatSplit(a, r, b, s);
  }

  /** An escaped string, its closing quote and what follows. */
  function Closed(x: string, r: string): string { Escape(x) + ("\"" + r) }

  lemma ClosedStart(x: string, r: string)
    ensures Closed(x, r) != "" && (Closed(x, r)[0] == '\"' <==> x == "")
    ensures x != "" ==> Closed(x, r) == EscapeChar(x[0]) + Closed(x[1..], r)
    ensures x == "" ==> Closed(x, r) == "\"" + r
  {
    if x != "" {
      Assoc(EscapeChar(x[0]), Escape(x[1..]), "\"" + r);
    }
  }

  /** An escaped string ends at the first bare quote. */
  lemma {:induction false} EscapeUnique(x: string, y: string, r: string, s: string)
    requires Closed(x, r) == Closed(y, s)
    ensures x == y && r == s
  {
    ClosedStart(x, r);
    ClosedStart(y, s);
    if x == "" {
      ConcatSplit("\"", r, "\"", s);
    } else {
      EscapeCharUnique(x[0], y[0], Closed(x[1..], r), Closed(y[1..], s));
      EscapeUnique(x[1..], y[1..], r, s);
      assert x == [x[0]] + x[1..] && y == [y[0]] + y[1..];
    }
  }

  lemma QuotedIs(x: string, r: string)
    ensures Quoted(x) + r == "\"" + Closed(x, r)
  {
    Assoc("\"" + Escape(x), "\"", r);
    Assoc("\"", Escape(x), "\"" + r);
  }

  lemma QuotedUnique(x: string, y: string, r: string, s: string)
    requires Quoted(x) + r == Quoted(y) + s
    ensures x == y && r == s
  {
    QuotedIs(x, r);
    QuotedIs(y, s);
    ConcatSplit("\"", Closed(x, r), "\"", Closed(y, s));
    EscapeUnique(x, y, r, s);
  }

  // ----- numbers ---------------------------------------------------------------------------------------

  /** Nothing that could continue a number. */
  predicate Stops(r: string) { r == "" || !TokenChar(r[0]) }

  predicate Token(t: string) { forall c :: c in t ==> TokenChar(c) }

  /** How many token characters a text starts with. */
  function Span(t: string): nat {
    if t == "" || !TokenChar(t[0]) then 0 else 1 + Span(t[1..])
  }

  lemma {:induction false} TokenSpan(t: string, r: string)
    requires Token(t) && Stops(r)
    ensures Span(t + r) == |t|
  {
    if t == "" {
      assert t + r == r;
    } else {
      assert (t + r)[1..] == t[1..] + r && t[0] in t;
      TokenSpan(t[1..], r);
    }
  }

  /** A number is as long as it can be. */
  lemma TokenUnique(t: string, u: string, r: string, s: string)
    requires Token(t) && Token(u) && Stops(r) && Stops(s) && t + r == u + s
    ensures t == u && r == s
  {
    TokenSpan(t, r);
    TokenSpan(u, s);
    ConcatSplit(t, r, u, s);
  }

  function DigitValue(c: char): int { c as int - '0' as int }

  function Value(t: string): int {
    if t == "" then 0 else Value(t[..|t| - 1]) * 10 + DigitValue(t[|t| - 1])
  }

  lemma {:induction false} DigitsValue(n: nat)
    ensures Value(Digits(n)) == n
  {
    if n >= 10 {
      DigitsValue(n / 10);
      assert Digits(n)[..|Digits(n)| - 1] == Digits(n / 10);
    } else {
      assert Digits(n)[..0] == "" && Value("") == 0;
    }
  }

  /** A number reads back as itself. */
  function Reading(t: string): int
    requires t != ""
  {
    if t[0] == '-' then -Value(t[1..]) else Value(t)
  }

  lemma IntReads(i: int)
    ensures IntText(i) != "" && Reading(IntText(i)) == i
  {
    if i < 0 {
      Uncons('-', Digits(-i));
      DigitsValue(-i);
    } else {
      DigitsStart(i);
      DigitsValue(i);
    }
  }

  lemma DigitsStart(n: nat)
    ensures '0' <= Digits(n)[0] <= '9'
  {
    assert Digits(n)[0] in Digits(n);
  }

  lemma IntUnique(i: int, j: int)
    requires IntText(i) == IntText(j)
    ensures i == j
  {
    IntReads(i);
    IntReads(j);
  }

  lemma IntIsToken(i: int)
    ensures Token(IntText(i)) && IntText(i) != "" && ('0' <= IntText(i)[0] <= '9' || IntText(i)[0] == '-')
    ensures '.' !in IntText(i) && 'e' !in IntText(i)
  {
    if i >= 0 {
      assert IntText(i)[0] in Digits(i);
    }
  }

  // ----- values -------------------------------------------------------------------------------------------

  /** What a value's text starts with. */
  predicate Starts(j: Json, c: char) {
    match j
    case Null => c == 'n'
    case Bool(b) => c == if b then 't' else 'f'
    case Int(_) => '0' <= c <= '9' || c == '-'
    case Float(_) => '0' <= c <= '9' || c == '-'
    case Str(_) => c == '\"'
    case Arr(_) => c == '['
    case Obj(_) => c == '{'
  }

  lemma RenderStarts(j: Json)
    requires WellFormed(j)
    ensures Render(j) != "" && Starts(j, Render(j)[0])
  {
    if j.Int? {
      IntIsToken(j.i);
    }
  }

  lemma NumberUnique(a: Json, b: Json, r: string, s: string)
    requires WellFormed(a) && WellFormed(b) && (a.Int? || a.Float?) && (b.Int? || b.Float?)
    requires Stops(r) && Stops(s) && Render(a) + r == Render(b) + s
    ensures a == b && r == s
  {
    if a.Int? {
      IntIsToken(a.i);
    }
    if b.Int? {
      IntIsToken(b.i);
    }
    TokenUnique(Render(a), Render(b), r, s);
    if a.Int? && b.Int? {
      IntUnique(a.i, b.i);
    }
  }

  /** The text of an array or object: a bracket, the parts, and what closes them. */
  lemma ArrIs(items: seq<Json>, r: string)
    ensures Render(Arr(items)) + r == "[" + (RenderItems(items) + ("]" + r))
  {
    Assoc("[" + RenderItems(items), "]", r);
    Assoc("[", RenderItems(items), "]" + r);
  }

  lemma ObjIs(members: seq<Member>, r: string)
    ensures Render(Obj(members)) + r == "{" + (RenderMembers(members) + ("}" + r))
  {
    Assoc("{" + RenderMembers(members), "}", r);
    Assoc("{", RenderMembers(members), "}" + r);
  }

  lemma ArrUnique(x: seq<Json>, y: seq<Json>, r: string, s: string)
    requires Render(Arr(x)) + r == Render(Arr(y)) + s
    ensures RenderItems(x) + ("]" + r) == RenderItems(y) + ("]" + s)
  {
    ArrIs(x, r);
    ArrIs(y, s);
    ConcatSplit("[", RenderItems(x) + ("]" + r), "[", RenderItems(y) + ("]" + s));
  }

  lemma ObjUnique(x: seq<Member>, y: seq<Member>, r: string, s: string)
    requires Render(Obj(x)) + r == Render(Obj(y)) + s
    ensures RenderMembers(x) + ("}" + r) == RenderMembers(y) + ("}" + s)
  {
    ObjIs(x, r);
    ObjIs(y, s);
    ConcatSplit("{", RenderMembers(x) + ("}" + r), "{", RenderMembers(y) + ("}" + s));
  }

  /** Values whose texts start alike are of one kind. */
  lemma SameKind(a: Json, b: Json, r: string, s: string)
    requires WellFormed(a) && WellFormed(b) && Render(a) + r == Render(b) + s
    ensures ((a.Int? || a.Float?) && (b.Int? || b.Float?)) || (a.Null? && b.Null?) || (a.Bool? && b.Bool? && a.b == b.b)
         || (a.Str? && b.Str?) || (a.Arr? && b.Arr?) || (a.Obj? && b.Obj?)
  {
    RenderStarts(a);
    RenderStarts(b);
    FrontChar(Render(a), r);
    FrontChar(Render(b), s);
  }

  /** A value's text determines the value and what follows it. */
  lemma {:induction false} RenderUnique(a: Json, b: Json, r: string, s: string)
    requires WellFormed(a) && WellFormed(b) && Stops(r) && Stops(s) && Render(a) + r == Render(b) + s
    ensures a == b && r == s
    decreases a, 2
  {
    SameKind(a, b, r, s);
    match a {
      case Int(_) => NumberUnique(a, b, r, s);
      case Float(_) => NumberUnique(a, b, r, s);
      case Str(x) => QuotedUnique(x, b.s, r, s);
      case Arr(x) =>
        ArrUnique(x, b.items, r, s);
        ItemsUnique(x, b.items, r, s);
      case Obj(x) =>
        ObjUnique(x, b.members, r, s);
        MembersUnique(x, b.members, r, s);
      case _ => ConcatSplit(Render(a), r, Render(b), s);
    }
  }

  /** What follows the first of some items. */
  function ItemsRest(x: seq<Json>, r: string): string
    requires x != []
  {
    if |x| == 1 then "]" + r else "," + (RenderItems(x[1..]) + ("]" + r))
  }

  lemma ItemsSplit(x: seq<Json>, r: string)
    requires x != []
    ensures RenderItems(x) + ("]" + r) == Render(x[0]) + ItemsRest(x, r)
  {
    if |x| > 1 {
      Assoc(Render(x[0]) + ",", RenderItems(x[1..]), "]" + r);
      Assoc(Render(x[0]), ",", RenderItems(x[1..]) + ("]" + r));
    }
  }

  lemma ItemsRestStops(x: seq<Json>, r: string)
    requires x != []
    ensures Stops(ItemsRest(x, r)) && (ItemsRest(x, r)[0] == ']' <==> |x| == 1)
  {
  }

  lemma ItemsStart(x: seq<Json>, r: string)
    requires forall i :: 0 <= i < |x| ==> WellFormed(x[i])
    ensures (RenderItems(x) + ("]" + r))[0] == ']' <==> x == []
  {
    if x == [] {
      EmptyFront("]" + r);
    } else {
      ItemsSplit(x, r);
      RenderStarts(x[0]);
      FrontChar(Render(x[0]), ItemsRest(x, r));
    }
  }

  lemma ItemsHeads(x: seq<Json>, y: seq<Json>, r: string, s: string)
    requires x != [] && y != [] && RenderItems(x) + ("]" + r) == RenderItems(y) + ("]" + s)
    ensures Render(x[0]) + ItemsRest(x, r) == Render(y[0]) + ItemsRest(y, s)
    ensures Stops(ItemsRest(x, r)) && Stops(ItemsRest(y, s))
  {
    ItemsSplit(x, r);
    ItemsSplit(y, s);
    ItemsRestStops(x, r);
    ItemsRestStops(y, s);
  }

  lemma ItemsTails(x: seq<Json>, y: seq<Json>, r: string, s: string)
    requires x != [] && y != [] && ItemsRest(x, r) == ItemsRest(y, s)
    ensures |x| == 1 <==> |y| == 1
    ensures if |x| == 1 then r == s else RenderItems(x[1..]) + ("]" + r) == RenderItems(y[1..]) + ("]" + s)
  {
    ItemsRestStops(x, r);
    ItemsRestStops(y, s);
    if |x| == 1 {
      ConcatSplit("]", r, "]", s);
    } else {
      ConcatSplit(",", RenderItems(x[1..]) + ("]" + r), ",", RenderItems(y[1..]) + ("]" + s));
    }
  }

  lemma NoItems(y: seq<Json>, r: string, s: string)
    requires forall i :: 0 <= i < |y| ==> WellFormed(y[i])
    requires RenderItems([]) + ("]" + r) == RenderItems(y) + ("]" + s)
    ensures y == [] && r == s
  {
    ItemsStart([], r);
    ItemsStart(y, s);
    EmptyFront("]" + r);
    EmptyFront("]" + s);
    ConcatSplit("]", r, "]", s);
  }

  lemma FrontAndRest<T>(x: seq<T>, y: seq<T>)
    requires x != [] && y != [] && x[0] == y[0] && x[1..] == y[1..]
    ensures x == y
  {
    assert x == [x[0]] + x[1..] && y == [y[0]] + y[1..];
  }

  lemma {:induction false} ItemsUnique(x: seq<Json>, y: seq<Json>, r: string, s: string)
    requires (forall i :: 0 <= i < |x| ==> WellFormed(x[i])) && (forall i :: 0 <= i < |y| ==> WellFormed(y[i]))
    requires RenderItems(x) + ("]" + r) == RenderItems(y) + ("]" + s)
    ensures x == y && r == s
    decreases x, 1
  {
    if x == [] {
      NoItems(y, r, s);
    } else if y == [] {
      NoItems(x, s, r);
    } else {
      ItemsHeads(x, y, r, s);
      RenderUnique(x[0], y[0], ItemsRest(x, r), ItemsRest(y, s));
      ItemsTails(x, y, r, s);
      if |x| > 1 {
        ItemsUnique(x[1..], y[1..], r, s);
      }
      FrontAndRest(x, y);
    }
  }

  /** What follows the first of some members. */
  function MembersRest(x: seq<Member>, r: string): string
    requires x != []
  {
    if |x| == 1 then "}" + r else "," + (RenderMembers(x[1..]) + ("}" + r))
  }

  /** One member and what follows it. */
  function MemberThen(m: Member, r: string): string { Quoted(m.key) + (":" + (Render(m.value) + r)) }

  lemma MemberIs(m: Member, r: string)
    ensures RenderMember(m) + r == MemberThen(m, r)
  {
    Assoc(Quoted(m.key) + ":", Render(m.value), r);
    Assoc(Quoted(m.key), ":", Render(m.value) + r);
  }

  lemma MembersSplit(x: seq<Member>, r: string)
    requires x != []
    ensures RenderMembers(x) + ("}" + r) == MemberThen(x[0], MembersRest(x, r))
  {
    MemberIs(x[0], MembersRest(x, r));
    if |x| > 1 {
      Assoc(RenderMember(x[0]) + ",", RenderMembers(x[1..]), "}" + r);
      Assoc(RenderMember(x[0]), ",", RenderMembers(x[1..]) + ("}" + r));
    }
  }

  lemma MembersRestStops(x: seq<Member>, r: string)
    requires x != []
    ensures Stops(MembersRest(x, r)) && (MembersRest(x, r)[0] == '}' <==> |x| == 1)
  {
  }

  lemma MembersStart(x: seq<Member>, r: string)
    ensures (RenderMembers(x) + ("}" + r))[0] == '}' <==> x == []
  {
    if x == [] {
      EmptyFront("}" + r);
    } else {
      MembersSplit(x, r);
      QuotedIs(x[0].key, ":" + (Render(x[0].value) + MembersRest(x, r)));
    }
  }

  lemma MemberUnique(a: Member, b: Member, r: string, s: string)
    requires MemberThen(a, r) == MemberThen(b, s)
    ensures a.key == b.key && Render(a.value) + r == Render(b.value) + s
  {
    QuotedUnique(a.key, b.key, ":" + (Render(a.value) + r), ":" + (Render(b.value) + s));
    ConcatSplit(":", Render(a.value) + r, ":", Render(b.value) + s);
  }

  lemma MembersTails(x: seq<Member>, y: seq<Member>, r: string, s: string)
    requires x != [] && y != [] && MembersRest(x, r) == MembersRest(y, s)
    ensures |x| == 1 <==> |y| == 1
    ensures if |x| == 1 then r == s else RenderMembers(x[1..]) + ("}" + r) == RenderMembers(y[1..]) + ("}" + s)
  {
    MembersRestStops(x, r);
    MembersRestStops(y, s);
    if |x| == 1 {
      ConcatSplit("}", r, "}", s);
    } else {
      ConcatSplit(",", RenderMembers(x[1..]) + ("}" + r), ",", RenderMembers(y[1..]) + ("}" + s));
    }
  }

  lemma NoMembers(y: seq<Member>, r: string, s: string)
    requires RenderMembers([]) + ("}" + r) == RenderMembers(y) + ("}" + s)
    ensures y == [] && r == s
  {
    MembersStart([], r);
    MembersStart(y, s);
    EmptyFront("}" + r);
    EmptyFront("}" + s);
    ConcatSplit("}", r, "}", s);
  }

  lemma MembersHeads(x: seq<Member>, y: seq<Member>, r: string, s: string)
    requires x != [] && y != [] && RenderMembers(x) + ("}" + r) == RenderMembers(y) + ("}" + s)
    ensures x[0].key == y[0].key && Render(x[0].value) + MembersRest(x, r) == Render(y[0].value) + MembersRest(y, s)
    ensures Stops(MembersRest(x, r)) && Stops(MembersRest(y, s))
  {
    MembersSplit(x, r);
    MembersSplit(y, s);
    MembersRestStops(x, r);
    MembersRestStops(y, s);
    MemberUnique(x[0], y[0], MembersRest(x, r), MembersRest(y, s));
  }

  lemma {:induction false} MembersUnique(x: seq<Member>, y: seq<Member>, r: string, s: string)
    requires (forall i :: 0 <= i < |x| ==> WellFormed(x[i].value))
    requires (forall i :: 0 <= i < |y| ==> WellFormed(y[i].value))
    requires RenderMembers(x) + ("}" + r) == RenderMembers(y) + ("}" + s)
    ensures x == y && r == s
    decreases x, 1
  {
    if x == [] {
      NoMembers(y, r, s);
    } else if y == [] {
      NoMembers(x, s, r);
    } else {
      MembersHeads(x, y, r, s);
      RenderUnique(x[0].value, y[0].value, MembersRest(x, r), MembersRest(y, s));
      MembersTails(x, y, r, s);
      if |x| > 1 {
        MembersUnique(x[1..], y[1..], r, s);
      }
      FrontAndRest(x, y);
    }
  }
}
