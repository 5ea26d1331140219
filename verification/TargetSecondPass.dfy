/**
 When canonicalising once is enough. Escapes are decoded once, blanks are stripped only
 before that, brackets are dropped and an empty location stops a target from being read as a
 URL, so a second pass can go further; here is exactly when it does, in terms of what the
 first pass read.
 */
module TargetSecondPass {
  import opened Bytes
  import opened CanonicalText
  import J = CanonicalJson
  import opened TargetGrammar
  import opened Targets

  /**
   What the URL parser does with brackets in an ASCII location: it looks no further without any,
   and refuses half a pair.
   */
  ghost predicate RefusalLaws(u: Url) {
    && (forall n :: IsAscii(n) && u.refused(n) ==> '[' in n || ']' in n)
    && (forall n :: IsAscii(n) && ('[' in n) != (']' in n) ==> u.refused(n))
  }

  // ----- searching in concatenations ----------------------------------------------------------------------

  lemma FirstIs(s: string, p: char -> bool, i: nat)
    requires i <= |s| && (i < |s| ==> p(s[i])) && forall k :: 0 <= k < i ==> !p(s[k])
    ensures First(s, p) == i
  {
  }

  lemma FirstAfter(a: string, b: string, p: char -> bool)
    requires forall k :: 0 <= k < |a| ==> !p(a[k])
    requires b == "" || p(b[0])
    ensures First(a + b, p) == |a|
  {
    FirstIs(a + b, p, |a|);
  }

  lemma {:induction false} BreaksConcat(a: string, b: string)
    ensures WithoutBreaks(a + b) == WithoutBreaks(a) + WithoutBreaks(b)
  {
    if a == "" {
      assert a + b == b;
    } else {
      assert (a + b)[1..] == a[1..] + b;
      BreaksConcat(a[1..], b);
    }
  }

  predicate Unbroken(s: string) { forall i :: 0 <= i < |s| ==> !Stripped(s[i]) }

  // ----- reading a target back ------------------------------------------------------------------------------

  predicate SchemeText(s: string) {
    s != "" && Letter(s[0]) && forall i :: 0 <= i < |s| ==> SchemeChar(s[i])
  }

  predicate LocationText(n: string) { forall i :: 0 <= i < |n| ==> !EndsNetloc()(n[i]) && !Stripped(n[i]) }

  function Whole(scheme: string, netloc: string, tail: string): string { scheme + ("://" + (netloc + tail)) }

  /** What `urlsplit` takes for the path of text that follows a location. */
  function PathOf(tail: string): string { tail[..First(tail, EndsPath())] }

  lemma {:induction false} ParseWhole(u: Url, scheme: string, netloc: string, tail: string)
    requires SchemeText(scheme) && LocationText(netloc) && (tail == "" || tail[0] == '/')
    ensures Parse(u, Whole(scheme, netloc, tail))
         == if netloc == "" || u.refused(netloc) then NotUrl else Parts(scheme, netloc, PathOf(tail))
  {
    var s := Whole(scheme, netloc, tail);
    FirstAfter(scheme, "://" + (netloc + tail), Is(':'));
    assert s[|scheme|..|scheme| + 3] == "://";
    assert s[|scheme| + 3..] == netloc + tail;
    FirstAfter(netloc, tail, EndsNetloc());
    assert (netloc + tail)[..|netloc|] == netloc && (netloc + tail)[|netloc|..] == tail;
    assert s[..|scheme|] == scheme;
    forall i | 0 <= i < |scheme|
      ensures SchemeChar(s[i])
    {
    }
  }

  lemma {:induction false} ScannedWhole(scheme: string, netloc: string, tail: string)
    requires SchemeText(scheme) && LocationText(netloc)
    ensures Scanned(Whole(scheme, netloc, tail)) == Whole(scheme, netloc, WithoutBreaks(tail))
  {
    var s := Whole(scheme, netloc, tail);
    assert WithoutLeading(s) == s by { assert s[0] == scheme[0]; }
    WholeUnbroken(scheme, netloc, tail);
  }

  lemma {:induction false} WholeUnbroken(scheme: string, netloc: string, tail: string)
    requires SchemeText(scheme) && LocationText(netloc)
    ensures WithoutBreaks(Whole(scheme, netloc, tail)) == Whole(scheme, netloc, WithoutBreaks(tail))
  {
    UnbrokenFront(scheme, "://" + (netloc + tail));
    UnbrokenFront("://", netloc + tail);
    UnbrokenFront(netloc, tail);
  }

  lemma UnbrokenFront(a: string, b: string)
    requires Unbroken(a)
    ensures WithoutBreaks(a + b) == a + WithoutBreaks(b)
  {
    BreaksConcat(a, b);
    assert WithoutBreaks(a) == a;
  }

  /** The second reading of a folded URL. */
  lemma ParseAgain(u: Url, scheme: string, netloc: string, tail: string)
    requires SchemeText(scheme) && LocationText(netloc) && (tail == "" || tail[0] == '/')
    ensures Parse(u, Scanned(Whole(scheme, netloc, tail)))
         == if netloc == "" || u.refused(netloc) then NotUrl else Parts(scheme, netloc, PathOf(WithoutBreaks(tail)))
  {
    ScannedWhole(scheme, netloc, tail);
    ParseWhole(u, scheme, netloc, WithoutBreaks(tail));
  }

  // ----- what the first reading found ---------------------------------------------------------------------------

  lemma {:induction false} ParsedTexts(u: Url, s: string)
    requires Parse(u, s).Parts? && Unbroken(s)
    ensures SchemeText(Parse(u, s).scheme) && LocationText(Parse(u, s).netloc) && !u.refused(Parse(u, s).netloc)
  {
    var rest := ParseSplits(u, s);
    var p := Parse(u, s);
    forall i | 0 <= i < |p.netloc|
      ensures !Stripped(p.netloc[i])
    {
      assert s[|p.scheme| + 3 + i] == p.netloc[i];
    }
  }

  lemma ScannedUnbroken(s: string)
    ensures Unbroken(Scanned(s))
  {
    BreaksGone(WithoutLeading(s));
  }

  lemma {:induction false} BreaksGone(s: string)
    ensures Unbroken(WithoutBreaks(s))
  {
    if s != "" {
      BreaksGone(s[1..]);
    }
  }

  // ----- the path, segment by segment ------------------------------------------------------------------------------

  predicate NamesAscii(names: seq<string>) { forall i :: 0 <= i < |names| ==> IsAscii(names[i]) }

  /** A decoded segment that survived: its slashes part it into normal segments. */
  predicate NameNormal(u: Url, name: string)
    requires IsAscii(name)
  {
    SplitAscii(name);
    SegmentsNormal(u, Split(name))
  }

  predicate Holding(s: string, p: char -> bool) { forall i :: 0 <= i < |s| ==> p(s[i]) }

  /** Neither the end of a path nor dropped by the URL parser. */
  function Clean(): char -> bool { (c: char) => c != '?' && c != '#' && !Stripped(c) }
  function LowerCase(): char -> bool { (c: char) => LowerChar(c) == c }
  function AsciiChar(): char -> bool { (c: char) => c as int < 128 }

  predicate NameSettled(u: Url, name: string) { IsAscii(name) && Holding(name, Clean()) && NameNormal(u, name) }

  lemma {:induction false} SplitJoined(a: string, b: string)
    ensures Split(a + "/" + b) == Split(a) + Split(b)
    decreases |a|
  {
    var s, i := a + "/" + b, First(a, Is('/'));
    FirstIs(s, Is('/'), i);
    Slices(a, b, i);
    if i < |a| {
      SplitJoined(a[i + 1..], b);
      Assoc([a[..i]], Split(a[i + 1..]), Split(b));
    } else {
      assert a[..i] == a;
    }
  }

  lemma Slices(a: string, b: string, i: nat)
    requires i <= |a|
    ensures (a + "/" + b)[..i] == a[..i]
    ensures (a + "/" + b)[i + 1..] == if i < |a| then a[i + 1..] + "/" + b else b
  {
  }

  lemma JoinedAscii(names: seq<string>)
    requires NamesAscii(names)
    ensures IsAscii(Join(names))
  {
    if |names| > 1 {
      JoinedAscii(names[1..]);
    }
  }

  /** Joined names split into normal segments exactly when each does. */
  lemma {:induction false} JoinNormal(u: Url, names: seq<string>)
    requires names != [] && NamesAscii(names) && IsAscii(Join(names)) && AllAscii(Split(Join(names)))
    ensures SegmentsNormal(u, Split(Join(names))) <==> forall i :: 0 <= i < |names| ==> NameNormal(u, names[i])
    decreases |names|
  {
    if |names| > 1 {
      var rest := names[1..];
      JoinedAscii(rest);
      SplitAscii(Join(rest));
      SplitAscii(names[0]);
      JoinNormal(u, rest);
      assert Join(names) == names[0] + "/" + Join(rest);
      SplitJoined(names[0], Join(rest));
      NormalConcat(u, Split(names[0]), Split(Join(rest)));
      assert forall i :: 0 <= i < |rest| ==> rest[i] == names[i + 1];
      assert forall i :: 1 <= i < |names| ==> names[i] == rest[i - 1];
    }
  }

  lemma NormalConcat(u: Url, a: seq<string>, b: seq<string>)
    requires AllAscii(a) && AllAscii(b) && AllAscii(a + b)
    ensures SegmentsNormal(u, a + b) <==> SegmentsNormal(u, a) && SegmentsNormal(u, b)
  {
    var c := a + b;
    assert forall i :: 0 <= i < |a| ==> c[i] == a[i];
    assert forall i :: 0 <= i < |b| ==> c[|a| + i] == b[i];
    if SegmentsNormal(u, c) {
      forall i | 0 <= i < |a|
        ensures SegmentNormal(u, a[i])
      {
        assert SegmentNormal(u, c[i]);
      }
      forall i | 0 <= i < |b|
        ensures SegmentNormal(u, b[i])
      {
        assert SegmentNormal(u, c[|a| + i]);
      }
    }
  }

  /** A property of characters that slashes have holds of the path text exactly when it holds of every name. */
  lemma {:induction false} JoinHas(names: seq<string>, p: char -> bool)
    requires p('/')
    ensures Holding(Join(names), p) <==> forall k :: 0 <= k < |names| ==> Holding(names[k], p)
  {
    if |names| > 1 {
      var rest := names[1..];
      JoinHas(rest, p);
      HoldingConcat(names[0], "/" + Join(rest), p);
      HoldingConcat("/", Join(rest), p);
      assert Join(names) == names[0] + ("/" + Join(rest));
      assert Holding(Join(names), p) <==> Holding(names[0], p) && Holding(Join(rest), p);
      assert forall k :: 0 <= k < |rest| ==> rest[k] == names[k + 1];
      assert forall k :: 1 <= k < |names| ==> names[k] == rest[k - 1];
    } else if |names| == 1 {
      assert Holding(Join(names), p) <==> Holding(names[0], p);
    }
  }

  lemma HoldingConcat(a: string, b: string, p: char -> bool)
    ensures Holding(a + b, p) <==> Holding(a, p) && Holding(b, p)
  {
    var c := a + b;
    assert forall i :: 0 <= i < |a| ==> c[i] == a[i];
    assert forall i :: 0 <= i < |b| ==> c[|a| + i] == b[i];
  }

  lemma PathHas(names: seq<string>, p: char -> bool)
    requires p('/')
    ensures Holding(PathText(names), p) <==> forall k :: 0 <= k < |names| ==> Holding(names[k], p)
  {
    JoinHas(names, p);
    HoldingConcat("/", Join(names), p);
  }

  lemma CleanTail(tail: string)
    ensures WithoutBreaks(tail) == tail && PathOf(tail) == tail <==> Holding(tail, Clean())
  {
    if PathOf(tail) == tail {
      assert First(tail, EndsPath()) == |tail|;
    }
    if Holding(tail, Clean()) {
      forall i | 0 <= i < |tail|
        ensures !Stripped(tail[i]) && !EndsPath()(tail[i])
      {
        assert Clean()(tail[i]);
      }
    }
  }

  /** A second reading keeps the path exactly when every name is clean and parts into normal segments. */
  lemma PathAgain(u: Url, names: seq<string>)
    requires IsAscii(PathText(names))
    ensures (WithoutBreaks(PathText(names)) == PathText(names) == PathOf(PathText(names))
             && PathNormal(u, PathText(names)))
       <==> forall i :: 0 <= i < |names| ==> NameSettled(u, names[i])
  {
    var tail := PathText(names);
    PathHas(names, AsciiChar());
    assert Holding(tail, AsciiChar());
    assert NamesAscii(names) by {
      forall k | 0 <= k < |names|
        ensures IsAscii(names[k])
      {
        assert Holding(names[k], AsciiChar());
      }
    }
    PathHas(names, Clean());
    CleanTail(tail);
    if names != [] {
      assert tail[1..] == Join(names);
      JoinedAscii(names);
      SplitAscii(Join(names));
      JoinNormal(u, names);
    }
  }

  // ----- the location --------------------------------------------------------------------------------------

  predicate PortDropped(scheme: string, port: string) { Value(port) == 0 || DefaultPort(scheme, Value(port)) }

  /** Every character of the host is one of the location's. */
  lemma HostChars(netloc: string, p: char -> bool)
    requires Holding(netloc, p)
    ensures Holding(HostPort(netloc).0, p)
  {
    AfterAtHas(netloc, p);
  }

  lemma {:induction false} AfterAtHas(s: string, p: char -> bool)
    requires Holding(s, p)
    ensures Holding(AfterLastAt(s), p) && '@' !in AfterLastAt(s)
  {
    if s != "" && '@' in s[1..] {
      AfterAtHas(s[1..], p);
    }
  }

  /** The host has no `@`, and half a pair of brackets if any. */
  lemma HostBrackets(netloc: string)
    ensures '@' !in HostPort(netloc).0
    ensures '[' !in HostPort(netloc).0 || ']' !in HostPort(netloc).0
  {
    AfterAtHas(netloc, (c: char) => true);
    var info := AfterLastAt(netloc);
    var open := First(info, Is('['));
    if open == |info| {
      assert '[' !in HostPort(netloc).0;
    } else {
      var bracketed := info[open + 1..];
      assert ']' !in bracketed[..First(bracketed, Is(']'))];
    }
  }

  lemma FoldedHas(host: string, c: char)
    requires LowerChar(c) == c && c != '.' && (forall d :: LowerChar(d) == c ==> d == c)
    ensures c in Folded(host) <==> c in host
  {
    var low := Lower(host);
    assert c in low <==> c in host by {
      if c in host {
        var i :| 0 <= i < |host| && host[i] == c;
        assert low[i] == c;
      }
    }
    DotsKeep(low, c);
  }

  lemma {:induction false} DotsKeep(s: string, c: char)
    requires c != '.'
    ensures c in WithoutTrailingDots(s) <==> c in s
  {
    if s != "" && s[|s| - 1] == '.' {
      DotsKeep(s[..|s| - 1], c);
      assert s == s[..|s| - 1] + ['.'];
    }
  }

  lemma {:induction false} DotsEnd(s: string)
    ensures var r := WithoutTrailingDots(s); r == "" || r[|r| - 1] != '.'
  {
    if s != "" && s[|s| - 1] == '.' {
      DotsEnd(s[..|s| - 1]);
    }
  }

  lemma FoldedIsNormal(host: string)
    ensures HostNormal(Folded(host))
  {
    DotsEnd(Lower(host));
    var r := Folded(host);
    forall i | 0 <= i < |r|
      ensures Lower(r)[i] == r[i]
    {
      assert r[i] == Lower(host)[i] == LowerChar(host[i]);
    }
  }

  /**
   Without brackets in the host, the parser refuses the folded location no more than the first
   one; with any, it does.
   */
  lemma RefusedAgainIff(u: Url, scheme: string, netloc: string)
    requires RefusalLaws(u) && PortValid(netloc) && IsAscii(netloc)
    ensures u.refused(NetlocText(scheme, netloc)) <==> '[' in HostPort(netloc).0 || ']' in HostPort(netloc).0
  {
    var at := NetlocText(scheme, netloc);
    FoldedAscii(scheme, netloc);
    HostBrackets(netloc);
    BracketKept(scheme, netloc, '[');
    BracketKept(scheme, netloc, ']');
  }

  lemma PortChars(scheme: string, port: string, c: char)
    requires AllDigits(port) && 0 <= Value(port) && c in PortText(scheme, port)
    ensures c == ':' || '0' <= c <= '9'
  {
  }

  lemma BracketKept(scheme: string, netloc: string, c: char)
    requires PortValid(netloc) && (c == '[' || c == ']')
    ensures c in NetlocText(scheme, netloc) <==> c in HostPort(netloc).0
  {
    var (host, port) := HostPort(netloc);
    FoldedHas(host, c);
    if c in PortText(scheme, port) {
      PortChars(scheme, port, c);
    }
    assert NetlocText(scheme, netloc) == Folded(host) + PortText(scheme, port);
  }

  lemma FoldedAscii(scheme: string, netloc: string)
    requires PortValid(netloc) && IsAscii(netloc)
    ensures IsAscii(NetlocText(scheme, netloc))
  {
    var (host, port) := HostPort(netloc);
    HostChars(netloc, AsciiChar());
    forall i | 0 <= i < |host|
      ensures host[i] as int < 128
    {
      assert AsciiChar()(host[i]);
    }
    var text := NetlocText(scheme, netloc);
    assert text == Folded(host) + PortText(scheme, port);
    forall i | 0 <= i < |text|
      ensures text[i] as int < 128
    {
      if i < |Folded(host)| {
        assert text[i] == Lower(host)[i];
      } else {
        assert text[i] in PortText(scheme, port);
        PortChars(scheme, port, text[i]);
      }
    }
  }

  function LocationChar(): char -> bool { (c: char) => c != '/' && c != '?' && c != '#' && !Stripped(c) }

  lemma LocationIff(n: string)
    ensures LocationText(n) <==> Holding(n, LocationChar())
  {
    if Holding(n, LocationChar()) {
      forall i | 0 <= i < |n|
        ensures !EndsNetloc()(n[i]) && !Stripped(n[i])
      {
        assert LocationChar()(n[i]);
      }
    }
  }

  lemma {:induction false} FoldedFits(host: string)
    requires Holding(host, LocationChar())
    ensures Holding(Folded(host), LocationChar())
  {
    var r := Folded(host);
    forall i | 0 <= i < |r|
      ensures LocationChar()(r[i])
    {
      assert r[i] == Lower(host)[i] == LowerChar(host[i]) && LocationChar()(host[i]);
    }
  }

  lemma PortFits(scheme: string, port: string)
    requires AllDigits(port) && 0 <= Value(port)
    ensures Holding(PortText(scheme, port), LocationChar())
  {
    var end := PortText(scheme, port);
    forall i | 0 <= i < |end|
      ensures LocationChar()(end[i])
    {
      PortChars(scheme, port, end[i]);
    }
  }

  lemma {:induction false} FoldedText(scheme: string, netloc: string)
    requires PortValid(netloc) && LocationText(netloc)
    ensures LocationText(NetlocText(scheme, netloc))
  {
    var (host, port) := HostPort(netloc);
    LocationIff(netloc);
    HostChars(netloc, LocationChar());
    FoldedFits(host);
    PortFits(scheme, port);
    HoldingConcat(Folded(host), PortText(scheme, port), LocationChar());
    assert NetlocText(scheme, netloc) == Folded(host) + PortText(scheme, port);
    LocationIff(NetlocText(scheme, netloc));
  }

  /** The host is the whole of a plain location: no colon, or a folded host that reads as one itself. */
  predicate HostSettled(scheme: string, host: string, port: string) {
    ':' in host ==> PortDropped(scheme, port) && NetlocNormal(scheme, Folded(host))
  }

  lemma NetlocAgain(scheme: string, netloc: string)
    requires PortValid(netloc) && '[' !in HostPort(netloc).0
    ensures var (host, port) := HostPort(netloc);
      NetlocNormal(scheme, NetlocText(scheme, netloc)) <==> HostSettled(scheme, host, port)
  {
    var (host, port) := HostPort(netloc);
    FoldedHas(host, ':');
    FoldedHas(host, '@');
    FoldedHas(host, '[');
    HostBrackets(netloc);
    if ':' !in host {
      FoldedIsNormal(host);
      PlainAgain(scheme, Folded(host), port);
    } else {
      ColonAgain(scheme, Folded(host), port);
    }
  }

  /** A normal host without colon, and the port's text. */
  lemma PlainAgain(scheme: string, host: string, port: string)
    requires AllDigits(port) && 0 <= Value(port) && HostNormal(host) && ':' !in host && '@' !in host && '[' !in host
    ensures NetlocNormal(scheme, host + PortText(scheme, port))
  {
    var end := PortText(scheme, port);
    PlainParts(host, end);
    if '@' in end {
      PortChars(scheme, port, '@');
    }
    if '[' in end {
      PortChars(scheme, port, '[');
    }
    if end != "" {
      DigitsValue(Value(port));
      assert end[1..] == J.Digits(Value(port));
    }
  }

  lemma PlainParts(host: string, end: string)
    requires ':' !in host && (end == "" || end[0] == ':')
    ensures PlainHost(host + end) == host && (end == "" <==> First(host + end, Is(':')) == |host + end|)
    ensures PlainPort(host + end) == if end == "" then "" else end[1..]
  {
    FirstAfter(host, end, Is(':'));
    assert (host + end)[..|host|] == host;
    if end != "" {
      assert (host + end)[|host| + 1..] == end[1..];
    }
  }

  lemma ColonAgain(scheme: string, host: string, port: string)
    requires AllDigits(port) && 0 <= Value(port) && ':' in host && '@' !in host && '[' !in host
    ensures NetlocNormal(scheme, host + PortText(scheme, port))
       <==> PortDropped(scheme, port) && NetlocNormal(scheme, host)
  {
    var end, at := PortText(scheme, port), host + PortText(scheme, port);
    if PortDropped(scheme, port) {
      assert at == host;
    } else {
      var i := First(host, Is(':'));
      FirstIs(at, Is(':'), i);
      assert PlainPort(at) == at[i + 1..];
      assert at[i + 1..][|host| - i - 1] == ':';
      assert ':' in PlainPort(at);
    }
  }

  // ----- targets that are not read as URLs -----------------------------------------------------------------

  /** Letters before a colon, two slashes and a location: a URL, unless the location is refused. */
  predicate Shaped(s: string) {
    var colon := First(s, Is(':'));
    Headed(s, colon) && First(s[colon + 3..], EndsNetloc()) > 0
  }

  predicate Headed(s: string, colon: nat) {
    && 0 < colon && colon + 3 <= |s| && Letter(s[0]) && (forall i :: 0 <= i < colon ==> SchemeChar(s[i]))
    && s[colon + 1] == '/' && s[colon + 2] == '/'
  }

  function Location(s: string): string
    requires Shaped(s)
  {
    var after := s[First(s, Is(':')) + 3..];
    after[..First(after, EndsNetloc())]
  }

  lemma ParsedIff(u: Url, s: string)
    ensures Parse(u, s).Parts? <==> Shaped(s) && !u.refused(Location(s))
    ensures Parse(u, s).Parts? ==> Parse(u, s).netloc == Location(s)
  {
  }

  lemma LowerFirst(s: string, p: char -> bool)
    requires forall c :: p(LowerChar(c)) <==> p(c)
    ensures First(Lower(s), p) == First(s, p)
  {
    FirstIs(Lower(s), p, First(s, p));
  }

  lemma {:induction false} LowerSlice(s: string, i: nat, j: nat)
    requires i <= j <= |s|
    ensures Lower(s)[i..j] == Lower(s[i..j])
  {
  }

  lemma {:induction false} LowerShaped(s: string)
    ensures Shaped(Lower(s)) <==> Shaped(s)
    ensures Shaped(s) ==> Location(Lower(s)) == Lower(Location(s))
  {
    LowerFirst(s, Is(':'));
    var colon := First(s, Is(':'));
    LowerHeaded(s, colon);
    if Headed(s, colon) {
      LowerLocation(s, colon + 3);
    }
  }

  lemma {:induction false} LowerHeaded(s: string, colon: nat)
    ensures Headed(Lower(s), colon) <==> Headed(s, colon)
  {
    var low := Lower(s);
    assert forall i :: 0 <= i < |s| ==> (SchemeChar(low[i]) <==> SchemeChar(s[i]));
    assert forall i :: 0 <= i < |s| ==> (low[i] == '/' <==> s[i] == '/') && (Letter(low[i]) <==> Letter(s[i]));
  }

  lemma {:induction false} LowerLocation(s: string, at: nat)
    requires at <= |s|
    ensures var end := First(s[at..], EndsNetloc());
      && First(Lower(s)[at..], EndsNetloc()) == end
      && Lower(s)[at..][..end] == Lower(s[at..][..end])
  {
    var after := s[at..];
    LowerSlice(s, at, |s|);
    assert Lower(s)[at..] == Lower(after);
    LowerFirst(after, EndsNetloc());
    LowerSlice(after, 0, First(after, EndsNetloc()));
  }

  lemma {:induction false} LowerBreaks(s: string)
    ensures WithoutBreaks(Lower(s)) == Lower(WithoutBreaks(s))
  {
    if s != "" {
      LowerBreaks(s[1..]);
      assert Lower(s) == [LowerChar(s[0])] + Lower(s[1..]);
      LowerConcat([s[0]], WithoutBreaks(s[1..]));
      assert Lower([s[0]]) == [LowerChar(s[0])];
    }
  }

  lemma {:induction false} LowerLeading(s: string)
    ensures WithoutLeading(Lower(s)) == Lower(WithoutLeading(s))
  {
    if s != "" {
      LowerLeading(s[1..]);
      assert Lower(s)[1..] == Lower(s[1..]);
    }
  }

  lemma LowerScanned(s: string)
    ensures Scanned(Lower(s)) == Lower(Scanned(s))
  {
    LowerLeading(s);
    LowerBreaks(WithoutLeading(s));
  }

  /** Read as a URL only in lower case, where a bracketed location becomes acceptable. */
  predicate AcceptedLower(u: Url, s: string) {
    Shaped(s) && u.refused(Location(s)) && !u.refused(Lower(Location(s)))
  }

  lemma LocationAscii(s: string)
    requires IsAscii(s) && Shaped(s)
    ensures IsAscii(Location(s))
  {
    var at := First(s, Is(':')) + 3;
    forall i | 0 <= i < |Location(s)|
      ensures Location(s)[i] as int < 128
    {
      assert Location(s)[i] == s[at + i];
    }
  }

  lemma LowerHas(s: string, c: char)
    requires c == '[' || c == ']'
    ensures c in Lower(s) <==> c in s
  {
    if c in s {
      var i :| 0 <= i < |s| && s[i] == c;
      assert Lower(s)[i] == c;
    }
  }

  lemma {:induction false} PlainTwice(u: Url, raw: string)
    requires RefusalLaws(u) && IsAscii(raw) && Parse(u, Scanned(raw)).NotUrl?
    ensures IsAscii(Lower(raw))
    ensures FoldNormal(u, Lower(raw)) <==> !AcceptedLower(u, Scanned(raw))
  {
    LowerTwice(raw);
    LowerAscii(raw);
    ReadInLower(u, raw);
    ReadNormal(u, Lower(raw));
  }

  lemma LowerAscii(s: string)
    requires IsAscii(s)
    ensures IsAscii(Lower(s))
  {
  }

  lemma {:induction false} ReadInLower(u: Url, raw: string)
    requires RefusalLaws(u) && IsAscii(raw) && Parse(u, Scanned(raw)).NotUrl?
    ensures Parse(u, Scanned(Lower(raw))).Parts? <==> AcceptedLower(u, Scanned(raw))
    ensures AcceptedLower(u, Scanned(raw)) ==> '[' in Parse(u, Scanned(Lower(raw))).netloc
  {
    LowerScanned(raw);
    LowerParsed(u, Scanned(raw));
  }

  lemma ReadNormal(u: Url, t: string)
    requires IsAscii(t) && Lower(t) == t
    ensures Parse(u, Scanned(t)).NotUrl? ==> FoldNormal(u, t)
    ensures Parse(u, Scanned(t)).Parts? && '[' in Parse(u, Scanned(t)).netloc ==> !FoldNormal(u, t)
  {
  }

  /** Lower case is read as a URL only when its location is accepted then, and has brackets. */
  lemma {:induction false} LowerParsed(u: Url, s: string)
    requires RefusalLaws(u) && IsAscii(s) && Parse(u, s).NotUrl?
    ensures Parse(u, Lower(s)).Parts? <==> AcceptedLower(u, s)
    ensures AcceptedLower(u, s) ==> '[' in Parse(u, Lower(s)).netloc
  {
    LowerRead(u, s);
    FirstRead(u, s);
    if AcceptedLower(u, s) {
      LocationAscii(s);
      BracketedAccepted(u, Location(s));
    }
  }

  lemma FirstRead(u: Url, s: string)
    requires Parse(u, s).NotUrl?
    ensures Shaped(s) ==> u.refused(Location(s))
  {
    ParsedIff(u, s);
  }

  lemma LowerRead(u: Url, s: string)
    ensures Parse(u, Lower(s)).Parts? <==> Shaped(s) && !u.refused(Lower(Location(s)))
    ensures Parse(u, Lower(s)).Parts? ==> Parse(u, Lower(s)).netloc == Lower(Location(s))
  {
    LowerShaped(s);
    ParsedIff(u, Lower(s));
  }

  lemma BracketedAccepted(u: Url, n: string)
    requires RefusalLaws(u) && IsAscii(n) && u.refused(n) && !u.refused(Lower(n))
    ensures '[' in Lower(n)
  {
    LowerHas(n, '[');
    LowerHas(n, ']');
    assert IsAscii(Lower(n));
  }

  // ----- one pass or two -----------------------------------------------------------------------------------

  /** The segments that survive the first pass, decoded and cut. */
  function Names(u: Url, path: string): seq<string>
    requires IsAscii(path)
  {
    SplitAscii(path);
    Resolve(u, Split(path), |Split(path)|)
  }

  /** What is left of the location no longer reads as one: no host and no port, or a lone bracket. */
  predicate LocationLost(scheme: string, host: string, port: string) {
    '[' in host || ']' in host || (Folded(host) == "" && PortDropped(scheme, port))
  }

  /**
   What the first pass read that the second would leave alone. A lost location leaves a plain
   name, which is only lower-cased; otherwise the host must stand on its own and every
   surviving segment must be clean and part into normal ones.
   */
  predicate FoldedOnce(u: Url, raw: string)
    requires IsAscii(raw)
  {
    match Parse(u, Scanned(raw))
    case NotUrl => !AcceptedLower(u, Scanned(raw))
    case Parts(scheme, netloc, path) =>
      IsAscii(path) && PartsEnough(u, Lower(scheme), HostPort(netloc).0, HostPort(netloc).1, Names(u, path))
  }

  predicate PartsEnough(u: Url, scheme: string, host: string, port: string, names: seq<string>) {
    if LocationLost(scheme, host, port) then forall i :: 0 <= i < |names| ==> Holding(names[i], LowerCase())
    else HostSettled(scheme, host, port) && forall i :: 0 <= i < |names| ==> NameSettled(u, names[i])
  }

  lemma LostIff(u: Url, scheme: string, netloc: string)
    requires RefusalLaws(u) && PortValid(netloc) && IsAscii(netloc)
    ensures NetlocText(scheme, netloc) == "" || u.refused(NetlocText(scheme, netloc))
       <==> LocationLost(scheme, HostPort(netloc).0, HostPort(netloc).1)
  {
    RefusedAgainIff(u, scheme, netloc);
  }

  lemma {:induction false} LowerWhole(scheme: string, netloc: string, names: seq<string>)
    requires Lower(scheme) == scheme && Lower(netloc) == netloc
    ensures Lower(Whole(scheme, netloc, PathText(names))) == Whole(scheme, netloc, PathText(names))
       <==> forall i :: 0 <= i < |names| ==> Holding(names[i], LowerCase())
  {
    var tail := PathText(names);
    LowerParts(scheme, netloc, tail);
    PathHas(names, LowerCase());
    if Lower(tail) == tail {
      assert Holding(tail, LowerCase());
    }
    if Holding(tail, LowerCase()) {
      assert forall i :: 0 <= i < |tail| ==> LowerCase()(tail[i]);
    }
    if Lower(Whole(scheme, netloc, tail)) == Whole(scheme, netloc, tail) {
      ConcatSplit(scheme, "://" + (netloc + Lower(tail)), scheme, "://" + (netloc + tail));
      ConcatSplit("://", netloc + Lower(tail), "://", netloc + tail);
      ConcatSplit(netloc, Lower(tail), netloc, tail);
    }
  }

  lemma {:induction false} NetlocLower(scheme: string, netloc: string)
    requires PortValid(netloc)
    ensures Lower(NetlocText(scheme, netloc)) == NetlocText(scheme, netloc)
  {
    var (host, port) := HostPort(netloc);
    FoldedIsNormal(host);
    PortLower(scheme, port);
    LowerConcat(Folded(host), PortText(scheme, port));
  }

  lemma {:induction false} PortLower(scheme: string, port: string)
    requires AllDigits(port) && 0 <= Value(port)
    ensures Lower(PortText(scheme, port)) == PortText(scheme, port)
  {
    var end := PortText(scheme, port);
    forall i | 0 <= i < |end|
      ensures Lower(end)[i] == end[i]
    {
      PortChars(scheme, port, end[i]);
    }
  }

  /** The folded URL is in normal form exactly when its parts read back as they are. */
  lemma {:induction false} WholeNormal(u: Url, scheme: string, at: string, names: seq<string>)
    requires SchemeText(scheme) && Lower(scheme) == scheme && LocationText(at) && at != "" && !u.refused(at)
    requires IsAscii(Whole(scheme, at, PathText(names))) && IsAscii(PathText(names))
    ensures FoldNormal(u, Whole(scheme, at, PathText(names)))
       <==> NetlocNormal(scheme, at) && forall i :: 0 <= i < |names| ==> NameSettled(u, names[i])
  {
    var tail := PathText(names);
    ParseAgain(u, scheme, at, tail);
    ScannedWhole(scheme, at, tail);
    PathAgain(u, names);
    WholeEqual(scheme, at, WithoutBreaks(tail), tail);
    WholeEqual(scheme, at, PathOf(WithoutBreaks(tail)), tail);
  }

  lemma WholeEqual(scheme: string, at: string, a: string, b: string)
    ensures Whole(scheme, at, a) == Whole(scheme, at, b) <==> a == b
  {
    if Whole(scheme, at, a) == Whole(scheme, at, b) {
      ConcatSplit(scheme, "://" + (at + a), scheme, "://" + (at + b));
      ConcatSplit("://", at + a, "://", at + b);
      ConcatSplit(at, a, at, b);
    }
  }

  /** A URL's canonical form, as scheme, location and names. */
  lemma FoldedWhole(u: Url, raw: string)
    requires IsAscii(raw) && PortsValid(u, raw) && Parse(u, Scanned(raw)).Parts?
    ensures var p := Parse(u, Scanned(raw));
      && IsAscii(p.path) && IsAscii(p.netloc)
      && SchemeText(Lower(p.scheme)) && LocationText(p.netloc)
      && FoldedTarget(u, raw)
           == Whole(Lower(p.scheme), NetlocText(Lower(p.scheme), p.netloc), PathText(Names(u, p.path)))
  {
    var p := Parse(u, Scanned(raw));
    FoldedIs(u, raw);
    ScannedUnbroken(raw);
    ParsedTexts(u, Scanned(raw));
    NetlocAscii(u, Scanned(raw));
    LowerScheme(p.scheme);
  }

  lemma LowerScheme(s: string)
    requires SchemeText(s)
    ensures SchemeText(Lower(s))
  {
    forall i | 0 <= i < |s|
      ensures SchemeChar(Lower(s)[i]) && (Letter(s[i]) ==> Letter(Lower(s)[i]))
    {
      assert SchemeChar(s[i]);
    }
  }

  lemma NetlocAscii(u: Url, s: string)
    requires IsAscii(s) && Parse(u, s).Parts?
    ensures IsAscii(Parse(u, s).netloc)
  {
    var rest := ParseSplits(u, s);
    var p := Parse(u, s);
    forall i | 0 <= i < |p.netloc|
      ensures p.netloc[i] as int < 128
    {
      assert s[|p.scheme| + 3 + i] == p.netloc[i];
    }
  }

  lemma TailAscii(scheme: string, at: string, tail: string)
    requires IsAscii(Whole(scheme, at, tail))
    ensures IsAscii(tail)
  {
    var s := Whole(scheme, at, tail);
    forall i | 0 <= i < |tail|
      ensures tail[i] as int < 128
    {
      assert s[|scheme| + 3 + |at| + i] == tail[i];
    }
  }

  /** A folded URL is in normal form exactly when its parts were settled. */
  lemma {:induction false} PartsTwice(u: Url, scheme: string, netloc: string, names: seq<string>)
    requires RefusalLaws(u) && PortValid(netloc) && IsAscii(netloc) && LocationText(netloc)
    requires SchemeText(scheme) && Lower(scheme) == scheme
    requires IsAscii(Whole(scheme, NetlocText(scheme, netloc), PathText(names)))
    ensures FoldNormal(u, Whole(scheme, NetlocText(scheme, netloc), PathText(names)))
       <==> PartsEnough(u, scheme, HostPort(netloc).0, HostPort(netloc).1, names)
  {
    var at := NetlocText(scheme, netloc);
    LostIff(u, scheme, netloc);
    FoldedText(scheme, netloc);
    if at == "" || u.refused(at) {
      NetlocLower(scheme, netloc);
      LostTwice(u, scheme, at, names);
    } else {
      TailAscii(scheme, at, PathText(names));
      WholeNormal(u, scheme, at, names);
      NetlocAgain(scheme, netloc);
    }
  }

  /** Without a location the text is a plain name, which is only lower-cased. */
  lemma LostTwice(u: Url, scheme: string, at: string, names: seq<string>)
    requires SchemeText(scheme) && Lower(scheme) == scheme && LocationText(at) && Lower(at) == at
    requires (at == "" || u.refused(at)) && IsAscii(Whole(scheme, at, PathText(names)))
    ensures FoldNormal(u, Whole(scheme, at, PathText(names)))
       <==> forall i :: 0 <= i < |names| ==> Holding(names[i], LowerCase())
  {
    ParseAgain(u, scheme, at, PathText(names));
    LowerWhole(scheme, at, names);
  }

  lemma {:induction false} UrlTwice(u: Url, raw: string)
    requires RefusalLaws(u) && IsAscii(raw) && PortsValid(u, raw) && Parse(u, Scanned(raw)).Parts?
    requires IsAscii(FoldedTarget(u, raw))
    ensures FoldNormal(u, FoldedTarget(u, raw)) <==> FoldedOnce(u, raw)
  {
    var p := Parse(u, Scanned(raw));
    FoldedWhole(u, raw);
    LowerTwice(p.scheme);
    PartsTwice(u, Lower(p.scheme), p.netloc, Names(u, p.path));
  }

  // ----- blanks the first pass uncovers ---------------------------------------------------------------------

  predicate Solid(s: string) { s == "" || !Blank(s[|s| - 1]) }

  /** The last segment left ends in no blank; without any, nor does a host that no port follows. */
  predicate EndSolid(scheme: string, host: string, port: string, names: seq<string>) {
    if names != [] then Solid(names[|names| - 1]) else PortDropped(scheme, port) ==> Solid(Folded(host))
  }

  predicate FoldedSolid(u: Url, raw: string)
    requires IsAscii(raw)
  {
    match Parse(u, Scanned(raw))
    case NotUrl => true
    case Parts(scheme, netloc, path) =>
      IsAscii(path) && EndSolid(Lower(scheme), HostPort(netloc).0, HostPort(netloc).1, Names(u, path))
  }

  /** What the first pass read neither folds further nor ends in a blank, which the second would strip. */
  predicate OnceIsEnough(u: Url, target: string)
    requires IsAscii(target)
  {
    FoldedOnce(u, Strip(target)) && FoldedSolid(u, Strip(target))
  }

  predicate Nonempty(names: seq<string>) { forall i :: 0 <= i < |names| ==> names[i] != "" }

  lemma {:induction false} NamesNonempty(u: Url, segments: seq<string>, n: nat)
    requires n <= |segments| && AllAscii(segments)
    ensures Nonempty(Resolve(u, segments, n))
  {
    if n > 0 {
      NamesNonempty(u, segments, n - 1);
    }
  }

  lemma {:induction false} JoinEnds(names: seq<string>)
    requires names != [] && Nonempty(names)
    ensures Join(names) != "" && Join(names)[|Join(names)| - 1] == names[|names| - 1][|names[|names| - 1]| - 1]
  {
    if |names| > 1 {
      var rest := names[1..];
      JoinEnds(rest);
      assert Join(names) == names[0] + "/" + Join(rest);
      assert rest[|rest| - 1] == names[|names| - 1];
    }
  }

  /** A folded URL is free of surrounding blanks exactly when its last part ends in none. */
  lemma {:induction false} WholeSolid(scheme: string, at: string, names: seq<string>)
    requires SchemeText(scheme) && Nonempty(names)
    ensures var s := Whole(scheme, at, PathText(names));
      Strip(s) == s <==> if names != [] then Solid(names[|names| - 1]) else Solid(at)
  {
    var tail := PathText(names);
    var s := Whole(scheme, at, tail);
    assert s[0] == scheme[0] && !Blank(s[0]);
    if names != [] {
      JoinEnds(names);
      assert tail == "/" + Join(names);
      assert s[|s| - 1] == tail[|tail| - 1] == Join(names)[|Join(names)| - 1];
    } else if at != "" {
      assert s[|s| - 1] == at[|at| - 1];
    } else {
      assert s[|s| - 1] == '/';
    }
  }

  lemma {:induction false} NetlocSolid(scheme: string, netloc: string)
    requires PortValid(netloc)
    ensures var (host, port) := HostPort(netloc);
      Solid(NetlocText(scheme, netloc)) <==> PortDropped(scheme, port) ==> Solid(Folded(host))
  {
    var (host, port) := HostPort(netloc);
    PortSolid(scheme, port);
    SolidConcat(Folded(host), PortText(scheme, port));
    assert NetlocText(scheme, netloc) == Folded(host) + PortText(scheme, port);
  }

  lemma SolidConcat(a: string, b: string)
    requires Solid(b)
    ensures Solid(a + b) <==> b == "" ==> Solid(a)
  {
    if b == "" {
      assert a + b == a;
    }
  }

  lemma {:induction false} PortSolid(scheme: string, port: string)
    requires AllDigits(port) && 0 <= Value(port)
    ensures Solid(PortText(scheme, port)) && (PortText(scheme, port) == "" <==> PortDropped(scheme, port))
  {
    var end := PortText(scheme, port);
    if end != "" {
      PortChars(scheme, port, end[|end| - 1]);
    }
  }

  lemma LowerSolid(s: string)
    requires Strip(s) == s
    ensures Strip(Lower(s)) == Lower(s)
  {
  }

  /** The folds' result is free of surrounding blanks exactly when what they read was so ended. */
  lemma {:induction false} FoldedEnds(u: Url, raw: string)
    requires IsAscii(raw) && PortsValid(u, raw) && Strip(raw) == raw
    ensures Strip(FoldedTarget(u, raw)) == FoldedTarget(u, raw) <==> FoldedSolid(u, raw)
  {
    var p := Parse(u, Scanned(raw));
    if p.Parts? {
      FoldedWhole(u, raw);
      SplitAscii(p.path);
      NamesNonempty(u, Split(p.path), |Split(p.path)|);
      NetlocSolid(Lower(p.scheme), p.netloc);
      WholeSolid(Lower(p.scheme), NetlocText(Lower(p.scheme), p.netloc), Names(u, p.path));
    } else {
      LowerSolid(raw);
    }
  }

  /**
   Canonicalising a canonical form changes it exactly when one pass was not enough, wherever
   the second pass is defined.
   */
  lemma {:induction false} SecondPassIff(u: Url, target: string)
    requires DecodeLaws(u) && RefusalLaws(u) && Foldable(u, target) && Foldable(u, Canonical(u, target))
    ensures Canonical(u, Canonical(u, target)) == Canonical(u, target) <==> OnceIsEnough(u, target)
  {
    var raw := Strip(target);
    GrammarIff(u, Canonical(u, target));
    FoldedEnds(u, raw);
    if Parse(u, Scanned(raw)).Parts? {
      UrlTwice(u, raw);
    } else {
      PlainTwice(u, raw);
    }
  }

  // ----- targets one pass is not enough for ----------------------------------------------------------------

  lemma PlainScheme()
    ensures SchemeText("https") && Lower("https") == "https"
  {
  }

  lemma PlainHostName()
    ensures LocationText("h") && IsAscii("h") && HostPort("h") == ("h", "") && NetlocText("https", "h") == "h"
  {
    PlainHostPort("h");
    assert PlainHost("h") == "h" && PlainPort("h") == "";
    assert Lower("h") == "h";
  }

  /** A target with a path under a plain host. */
  function Simple(path: string): string { Whole("https", "h", path) }

  lemma SimpleParsed(u: Url, path: string)
    requires RefusalLaws(u) && path != "" && path[0] == '/' && Holding(path, Clean())
    ensures Parse(u, Scanned(Simple(path))) == Parts("https", "h", path)
  {
    PlainScheme();
    PlainHostName();
    assert '[' !in "h" && ']' !in "h";
    assert !u.refused("h");
    CleanTail(path);
    ParseAgain(u, "https", "h", path);
  }

  lemma SimpleAscii(path: string)
    requires IsAscii(path)
    ensures IsAscii(Simple(path))
  {
    assert IsAscii("https") && IsAscii("://") && IsAscii("h");
  }

  /** Only its path is folded, once no blank ends it. */
  lemma SimpleUrl(u: Url, path: string)
    requires RefusalLaws(u) && IsAscii(path) && path != "" && path[0] == '/' && Holding(path, Clean()) && Solid(path)
    ensures Foldable(u, Simple(path)) && Canonical(u, Simple(path)) == Simple(ResolvedPath(u, path))
  {
    SimpleParsed(u, path);
    SimpleAscii(path);
    PlainHostName();
    PlainScheme();
    SimpleEnds(path);
    assert PortValid("h");
    FoldedIs(u, Simple(path));
  }

  lemma SimpleEnds(path: string)
    requires Solid(path)
    ensures Strip(Simple(path)) == Simple(path)
  {
    var s := Simple(path);
    assert s[0] == 'h';
    assert s[|s| - 1] == if path == "" then 'h' else path[|path| - 1];
  }

  lemma {:induction false} SimpleSegment(u: Url, s: string, decoded: string)
    requires DecodeLaws(u) && RefusalLaws(u) && IsAscii(s) && IsAscii(decoded)
    requires Holding(s, Clean()) && s != "" && Solid(s) && '/' !in s && ';' !in decoded
    requires Unescaped(s) == Codes(decoded) && decoded != "" && decoded != "." && decoded != ".."
    ensures Foldable(u, Simple("/" + s)) && Canonical(u, Simple("/" + s)) == Simple("/" + decoded)
  {
    OneSegment(u, s, decoded);
    HoldingConcat("/", s, Clean());
    assert ("/" + s)[|s|] == s[|s| - 1];
    SimpleUrl(u, "/" + s);
  }

  /** A segment encoded twice: the second pass decodes what the first one left. */
  lemma EncodedTwice(u: Url)
    requires DecodeLaws(u) && RefusalLaws(u)
    ensures var twice, once, plain := Simple("/" + "%2541"), Simple("/" + "%41"), Simple("/" + "A");
      && Foldable(u, twice) && Canonical(u, twice) == once
      && Foldable(u, once) && Canonical(u, once) == plain && once != plain
  {
    PlainEscapes();
    UnescapedOnce("%2541", "%41");
    SimpleSegment(u, "%2541", "%41");
    UnescapedOnce("%41", "A");
    SimpleSegment(u, "%41", "A");
    DifferentLengths("/" + "%41", "/" + "A");
  }

  lemma PlainEscapes()
    ensures IsAscii("%2541") && Holding("%2541", Clean()) && '/' !in "%2541" && Solid("%2541")
    ensures IsAscii("%41") && Holding("%41", Clean()) && '/' !in "%41" && ';' !in "%41" && Solid("%41")
    ensures "%41" != "." && "%41" != ".." && IsAscii("A") && ';' !in "A" && "A" != "." && "A" != ".."
  {
  }

  lemma DifferentLengths(a: string, b: string)
    requires |a| != |b|
    ensures Simple(a) != Simple(b)
  {
    if Simple(a) == Simple(b) {
      WholeEqual("https", "h", a, b);
    }
  }

  /** An encoded blank at the end: the first pass decodes it, the second strips it and the slash goes too. */
  lemma BlankUncovered(u: Url)
    requires DecodeLaws(u) && RefusalLaws(u)
    ensures var encoded, blank, bare := Simple("/" + "%20"), Simple("/" + " "), Simple("");
      && Foldable(u, encoded) && Canonical(u, encoded) == blank
      && Foldable(u, blank) && Canonical(u, blank) == bare && blank != bare
  {
    BlankEscape();
    SimpleSegment(u, "%20", " ");
    BlankStripped();
    RootResolves(u);
    SimpleUrl(u, "/");
    DifferentLengths("/" + " ", "");
  }

  lemma BlankEscape()
    ensures IsAscii("%20") && Holding("%20", Clean()) && '/' !in "%20" && Solid("%20")
    ensures IsAscii(" ") && ';' !in " " && Unescaped("%20") == Codes(" ")
  {
    assert "%20"[3..] == "" && " "[1..] == "";
  }

  lemma BlankStripped()
    ensures Strip(Simple("/" + " ")) == Strip(Simple("/")) == Simple("/") && IsAscii(Simple("/" + " "))
  {
    var s := Simple("/" + " ");
    assert s[..|s| - 1] == Simple("/") && Blank(s[|s| - 1]);
    SimpleEnds("/");
    SimpleAscii("/" + " ");
  }

  lemma RootResolves(u: Url)
    requires DecodeLaws(u)
    ensures IsAscii("/") && Holding("/", Clean()) && Solid("/") && ResolvedPath(u, "/") == ""
  {
    SplitAscii("/");
    assert "/"[1..] == "" && First("/", Is('/')) == 0 && Split("") == [""];
    assert Split("/") == ["", ""];
    SegmentLength(u, "");
    var segments := ["", ""];
    assert Resolve(u, segments, 0) == [] && Resolve(u, segments, 1) == [] && Resolve(u, segments, 2) == [];
  }
}
