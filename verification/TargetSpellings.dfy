/**
 The spellings a target may have. Dot segments, empty segments, escapes, parameters, queries
 and fragments, user information, letter case, trailing dots and default ports make no
 difference: each is undone by the canonicaliser, whatever stands around it.
 */
module TargetSpellings {
  import opened Bytes
  import opened CanonicalText
  import J = CanonicalJson
  import opened TargetGrammar
  import opened TargetSecondPass
  import opened Targets

  // ----- segments ----------------------------------------------------------------------------------------

  /** What is left of all segments. */
  function All(u: Url, segments: seq<string>): seq<string>
    requires AllAscii(segments)
  {
    Resolve(u, segments, |segments|)
  }

  /** A segment that names something. */
  predicate Naming(u: Url, s: string)
    requires IsAscii(s)
  {
    Segment(u, s) != "" && Segment(u, s) != "." && Segment(u, s) != ".."
  }

  lemma {:induction false} ResolveFront(u: Url, a: seq<string>, b: seq<string>, n: nat)
    requires AllAscii(a + b) && AllAscii(a) && n <= |a|
    ensures Resolve(u, a + b, n) == Resolve(u, a, n)
  {
    if n > 0 {
      ResolveFront(u, a, b, n - 1);
    }
  }

  lemma AsciiParts(a: seq<string>, b: seq<string>)
    ensures AllAscii(a + b) <==> AllAscii(a) && AllAscii(b)
  {
    var c := a + b;
    assert forall i :: 0 <= i < |a| ==> c[i] == a[i];
    assert forall i :: 0 <= i < |b| ==> c[|a| + i] == b[i];
  }

  lemma AllNext(u: Url, a: seq<string>, s: string)
    requires AllAscii(a) && IsAscii(s)
    ensures AllAscii(a + [s]) && All(u, a + [s]) == Push(All(u, a), Segment(u, s))
  {
    AsciiParts(a, [s]);
    ResolveFront(u, a, [s], |a|);
  }

  /** Equal stacks stay equal, whatever follows. */
  lemma {:induction false} SameRest(u: Url, a: seq<string>, a': seq<string>, b: seq<string>)
    requires AllAscii(a) && AllAscii(a') && AllAscii(b) && All(u, a) == All(u, a')
    ensures AllAscii(a + b) && AllAscii(a' + b) && All(u, a + b) == All(u, a' + b)
    decreases |b|
  {
    AsciiParts(a, b);
    AsciiParts(a', b);
    if b == [] {
      assert a + b == a && a' + b == a';
    } else {
      var front, last := b[..|b| - 1], b[|b| - 1];
      SameRest(u, a, a', front);
      AllNext(u, a + front, last);
      AllNext(u, a' + front, last);
      assert (a + front) + [last] == a + b && (a' + front) + [last] == a' + b;
    }
  }

  /** A `..` cancels with the segment right before it, if that names something. */
  lemma UpCancels(u: Url, a: seq<string>, x: string, y: string, b: seq<string>)
    requires AllAscii(a) && IsAscii(x) && IsAscii(y) && AllAscii(b) && Naming(u, x) && Segment(u, y) == ".."
    ensures AllAscii(a + [x, y] + b) && AllAscii(a + b) && All(u, a + [x, y] + b) == All(u, a + b)
  {
    AllNext(u, a, x);
    AllNext(u, a + [x], y);
    assert a + [x] + [y] == a + [x, y];
    assert (All(u, a) + [Segment(u, x)])[..|All(u, a)|] == All(u, a);
    SameRest(u, a + [x, y], a, b);
  }

  /** With nothing before it, a `..` is dropped. */
  lemma LeadingUp(u: Url, y: string, b: seq<string>)
    requires IsAscii(y) && AllAscii(b) && Segment(u, y) == ".."
    ensures AllAscii([y] + b) && All(u, [y] + b) == All(u, b)
  {
    AllNext(u, [], y);
    assert [] + [y] == [y] && [] + b == b;
    SameRest(u, [y], [], b);
  }

  /** Empty and `.` segments are dropped anywhere. */
  lemma DotSkipped(u: Url, a: seq<string>, x: string, b: seq<string>)
    requires AllAscii(a) && IsAscii(x) && AllAscii(b) && (Segment(u, x) == "" || Segment(u, x) == ".")
    ensures AllAscii(a + [x] + b) && AllAscii(a + b) && All(u, a + [x] + b) == All(u, a + b)
  {
    AllNext(u, a, x);
    SameRest(u, a + [x], a, b);
  }

  /** Without any of these the segments stay, decoded and in order. */
  lemma {:induction false} NamesStay(u: Url, a: seq<string>)
    requires AllAscii(a) && forall i :: 0 <= i < |a| ==> Naming(u, a[i])
    ensures |All(u, a)| == |a| && forall i :: 0 <= i < |a| ==> All(u, a)[i] == Segment(u, a[i])
  {
    if a != [] {
      var front, last := a[..|a| - 1], a[|a| - 1];
      NamesStay(u, front);
      AllNext(u, front, last);
      assert front + [last] == a;
    }
  }

  // ----- escapes -----------------------------------------------------------------------------------------

  /** How a character is written: as it is, or escaped with small or capital digits. */
  datatype Spelt = Plain | Small | Capital

  const SMALL := "0123456789abcdef"
  const CAPITAL := "0123456789ABCDEF"

  function SpellChar(c: char, how: Spelt): string
    requires c as int < 128
  {
    match how
    case Plain => [c]
    case Small => ['%', SMALL[c as int / 16], SMALL[c as int % 16]]
    case Capital => ['%', CAPITAL[c as int / 16], CAPITAL[c as int % 16]]
  }

  function Spell(t: string, how: seq<Spelt>): string
    requires IsAscii(t) && |how| == |t|
  {
    if t == "" then "" else SpellChar(t[0], how[0]) + Spell(t[1..], how[1..])
  }

  /** A percent sign is itself escaped. */
  predicate Unambiguous(t: string, how: seq<Spelt>)
    requires |how| == |t|
  {
    forall i :: 0 <= i < |t| && t[i] == '%' ==> how[i] != Plain
  }

  lemma Digits(v: nat)
    requires v < 16
    ensures IsHex(SMALL[v]) && HexValue(SMALL[v]) == v && SMALL[v] as int < 128
    ensures IsHex(CAPITAL[v]) && HexValue(CAPITAL[v]) == v && CAPITAL[v] as int < 128
  {
  }

  lemma CharSpelt(c: char, how: Spelt, rest: string)
    requires c as int < 128 && IsAscii(rest) && (c == '%' ==> how != Plain)
    ensures IsAscii(SpellChar(c, how) + rest)
    ensures Unescaped(SpellChar(c, how) + rest) == [c as int] + Unescaped(rest)
  {
    Digits(c as int / 16);
    Digits(c as int % 16);
    var s := SpellChar(c, how) + rest;
    if how == Plain {
      assert s[1..] == rest;
    } else {
      assert s[3..] == rest;
    }
  }

  /** However its characters are written, the text is decoded to itself. */
  lemma {:induction false} SpeltDecodes(t: string, how: seq<Spelt>)
    requires IsAscii(t) && |how| == |t| && Unambiguous(t, how)
    ensures IsAscii(Spell(t, how)) && Unescaped(Spell(t, how)) == Codes(t)
  {
    if t != "" {
      SpeltDecodes(t[1..], how[1..]);
      CharSpelt(t[0], how[0], Spell(t[1..], how[1..]));
    }
  }

  /** A segment is its text up to the first semicolon, however both are written. */
  lemma SegmentSpelt(u: Url, name: string, parameters: string, how: seq<Spelt>)
    requires DecodeLaws(u) && IsAscii(name) && ';' !in name
    requires IsAscii(parameters) && (parameters == "" || parameters[0] == ';')
    requires |how| == |name + parameters| && Unambiguous(name + parameters, how)
    ensures IsAscii(Spell(name + parameters, how)) && Segment(u, Spell(name + parameters, how)) == name
  {
    var t := name + parameters;
    SpeltDecodes(t, how);
    assert u.decode(Codes(t)) == t;
    FirstAfter(name, parameters, Is(';'));
    assert t[..|name|] == name;
  }

  // ----- locations ---------------------------------------------------------------------------------------

  predicate BareHost(host: string) { '@' !in host && ':' !in host && '[' !in host }

  lemma {:induction false} AfterInfo(info: string, rest: string)
    requires '@' !in rest
    ensures AfterLastAt(info + ("@" + rest)) == rest
  {
    if info == "" {
      assert info + ("@" + rest) == "@" + rest && ("@" + rest)[1..] == rest;
    } else {
      var s := info + ("@" + rest);
      assert s[1..] == info[1..] + ("@" + rest);
      assert s[1..][|info| - 1] == '@';
      AfterInfo(info[1..], rest);
    }
  }

  /** User information makes no difference. */
  lemma InfoDropped(scheme: string, info: string, rest: string)
    requires '@' !in rest && PortValid(rest)
    ensures PortValid(info + ("@" + rest)) && NetlocText(scheme, info + ("@" + rest)) == NetlocText(scheme, rest)
  {
    AfterInfo(info, rest);
    assert AfterLastAt(rest) == rest;
    SameAfterAt(info + ("@" + rest), rest);
    SameHostPort(scheme, info + ("@" + rest), rest);
  }

  lemma SameAfterAt(a: string, b: string)
    requires AfterLastAt(a) == AfterLastAt(b)
    ensures HostPort(a) == HostPort(b)
  {
  }

  lemma SameHostPort(scheme: string, a: string, b: string)
    requires HostPort(a) == HostPort(b) && PortValid(b)
    ensures PortValid(a) && NetlocText(scheme, a) == NetlocText(scheme, b)
  {
  }

  lemma BareParts(host: string, end: string)
    requires BareHost(host) && '@' !in end && '[' !in end && (end == "" || end[0] == ':')
    ensures HostPort(host + end) == (host, if end == "" then "" else end[1..])
  {
    PlainParts(host, end);
    PlainHostPort(host + end);
  }

  predicate EndsInDots(s: string, t: string) { t <= s && forall i :: |t| <= i < |s| ==> s[i] == '.' }

  /** The folded host: lower case, and no dots at the end. */
  lemma {:induction false} DotsDropped(s: string)
    ensures var r := WithoutTrailingDots(s);
      EndsInDots(s, r) && (r == "" || r[|r| - 1] != '.')
  {
    if s != "" && s[|s| - 1] == '.' {
      DotsDropped(s[..|s| - 1]);
    }
  }

  /** Cutting the dots off leaves one result. */
  lemma DotsOnce(s: string, t: string, r: string)
    requires EndsInDots(s, t) && EndsInDots(s, r)
    requires (t == "" || t[|t| - 1] != '.') && (r == "" || r[|r| - 1] != '.')
    ensures t == r
  {
    if |t| < |r| {
      LongerEndsInDot(s, t, r);
    } else if |r| < |t| {
      LongerEndsInDot(s, r, t);
    }
  }

  lemma LongerEndsInDot(s: string, t: string, r: string)
    requires EndsInDots(s, t) && r <= s && |t| < |r|
    ensures r[|r| - 1] == '.'
  {
    assert r[|r| - 1] == s[|r| - 1];
  }

  /** A bare host in any case, with any dots after it, and no port. */
  lemma HostSpelt(scheme: string, host: string, name: string)
    requires BareHost(host) && EndsInDots(Lower(host), name) && (name == "" || name[|name| - 1] != '.')
    ensures PortValid(host) && NetlocText(scheme, host) == name
  {
    BareParts(host, "");
    assert host + "" == host;
    DotsDropped(Lower(host));
    DotsOnce(Lower(host), name, WithoutTrailingDots(Lower(host)));
  }

  /** A port is kept, as a plain number, unless it is zero or the scheme's own. */
  lemma PortSpelt(scheme: string, host: string, port: string)
    requires BareHost(host) && AllDigits(port) && 0 <= Value(port) <= 65535
    ensures PortValid(host) && PortValid(host + (":" + port))
    ensures NetlocText(scheme, host + (":" + port))
         == if Value(port) == 0 || (scheme == "https" && Value(port) == 443) || (scheme == "http" && Value(port) == 80)
            then NetlocText(scheme, host) else NetlocText(scheme, host) + (":" + J.Digits(Value(port)))
  {
    BareValid(scheme, host);
    BarePort(host, port);
    NetlocIs(scheme, host + (":" + port), host, port);
  }

  lemma BarePort(host: string, port: string)
    requires BareHost(host) && AllDigits(port)
    ensures HostPort(host + (":" + port)) == (host, port)
  {
    assert forall c :: c in port ==> '0' <= c <= '9';
    BareParts(host, ":" + port);
    assert (":" + port)[1..] == port;
  }

  lemma NetlocIs(scheme: string, netloc: string, host: string, port: string)
    requires HostPort(netloc) == (host, port) && AllDigits(port) && 0 <= Value(port) <= 65535
    ensures PortValid(netloc) && NetlocText(scheme, netloc) == Folded(host) + PortText(scheme, port)
  {
  }

  lemma BareValid(scheme: string, host: string)
    requires BareHost(host)
    ensures PortValid(host) && NetlocText(scheme, host) == Folded(host)
  {
    BareParts(host, "");
    assert host + "" == host;
  }

  // ----- whole targets -----------------------------------------------------------------------------------

  /** A URL written out: what follows the path starts a query or a fragment. */
  function Written(scheme: string, netloc: string, segments: seq<string>, rest: string): string {
    Whole(scheme, netloc, "/" + Join(segments) + rest)
  }

  /** Such a URL is read back as it was written. */
  predicate Readable(u: Url, scheme: string, netloc: string, segments: seq<string>, rest: string) {
    && SchemeText(scheme) && LocationText(netloc) && netloc != "" && !u.refused(netloc) && PortValid(netloc)
    && segments != [] && AllAscii(segments) && (forall i :: 0 <= i < |segments| ==> '/' !in segments[i])
    && (forall i :: 0 <= i < |segments| ==> Holding(segments[i], Clean()))
    && (rest == "" || EndsPath()(rest[0])) && Unbroken(rest)
    && IsAscii(Written(scheme, netloc, segments, rest))
    && Strip(Written(scheme, netloc, segments, rest)) == Written(scheme, netloc, segments, rest)
  }

  lemma {:induction false} SplitOfJoin(segments: seq<string>)
    requires segments != [] && forall i :: 0 <= i < |segments| ==> '/' !in segments[i]
    ensures Split(Join(segments)) == segments
  {
    if |segments| == 1 {
      NoSlash(segments[0]);
    } else {
      SplitOfJoin(segments[1..]);
      NoSlash(segments[0]);
      assert Join(segments) == segments[0] + "/" + Join(segments[1..]);
      SplitJoined(segments[0], Join(segments[1..]));
    }
  }

  lemma PathWritten(segments: seq<string>, rest: string)
    requires forall i :: 0 <= i < |segments| ==> Holding(segments[i], Clean())
    requires (rest == "" || EndsPath()(rest[0])) && Unbroken(rest)
    ensures var path := "/" + Join(segments);
      WithoutBreaks(path + rest) == path + rest && PathOf(path + rest) == path
  {
    var path := "/" + Join(segments);
    JoinHas(segments, Clean());
    HoldingConcat("/", Join(segments), Clean());
    assert Holding(path, Clean());
    forall i | 0 <= i < |path|
      ensures !Stripped(path[i]) && !EndsPath()(path[i])
    {
      assert Clean()(path[i]);
    }
    FirstAfter(path, rest, EndsPath());
    assert (path + rest)[..|path|] == path;
    forall i | 0 <= i < |path + rest|
      ensures !Stripped((path + rest)[i])
    {
      if i < |path| {
        assert (path + rest)[i] == path[i];
      } else {
        assert (path + rest)[i] == rest[i - |path|];
      }
    }
  }

  /** The canonical form of a written URL: the parts folded, the rest dropped. */
  lemma WrittenFolds(u: Url, scheme: string, netloc: string, segments: seq<string>, rest: string)
    requires DecodeLaws(u) && Readable(u, scheme, netloc, segments, rest)
    ensures var target := Written(scheme, netloc, segments, rest);
      && Foldable(u, target)
      && Canonical(u, target)
           == Whole(Lower(scheme), NetlocText(Lower(scheme), netloc), PathText(All(u, segments)))
  {
    var path, target := "/" + Join(segments), Written(scheme, netloc, segments, rest);
    PathWritten(segments, rest);
    assert (path + rest)[0] == '/';
    ParseAgain(u, scheme, netloc, path + rest);
    assert Parse(u, Scanned(target)) == Parts(scheme, netloc, path);
    FoldedIs(u, target);
    WrittenPath(u, segments);
  }

  lemma WrittenPath(u: Url, segments: seq<string>)
    requires DecodeLaws(u) && segments != [] && AllAscii(segments)
    requires forall i :: 0 <= i < |segments| ==> '/' !in segments[i]
    requires IsAscii("/" + Join(segments))
    ensures ResolvedPath(u, "/" + Join(segments)) == PathText(All(u, segments))
  {
    RootedSplit(segments);
    AllSkips(u, segments);
    ResolvedIs(u, "/" + Join(segments), [""] + segments);
  }

  lemma AllSkips(u: Url, segments: seq<string>)
    requires DecodeLaws(u) && AllAscii(segments)
    ensures AllAscii([""] + segments) && All(u, [""] + segments) == All(u, segments)
  {
    AsciiParts([""], segments);
    ResolveSkips(u, segments, |segments|);
  }

  lemma ResolvedIs(u: Url, path: string, segments: seq<string>)
    requires IsAscii(path) && Split(path) == segments && AllAscii(segments)
    ensures ResolvedPath(u, path) == PathText(All(u, segments))
  {
  }

  lemma RootedSplit(segments: seq<string>)
    requires segments != [] && forall i :: 0 <= i < |segments| ==> '/' !in segments[i]
    ensures Split("/" + Join(segments)) == [""] + segments
  {
    var path := "/" + Join(segments);
    SplitOfJoin(segments);
    SplitRooted(path);
    assert path[1..] == Join(segments);
  }

  lemma WholeApart(scheme: string, at: string, tail: string, scheme': string, at': string, tail': string)
    requires SchemeText(scheme) && SchemeText(scheme') && LocationText(at) && LocationText(at')
    requires (tail == "" || tail[0] == '/') && (tail' == "" || tail'[0] == '/')
    ensures Whole(scheme, at, tail) == Whole(scheme', at', tail') <==> scheme == scheme' && at == at' && tail == tail'
  {
    if Whole(scheme, at, tail) == Whole(scheme', at', tail') {
      FirstAfter(scheme, "://" + (at + tail), Is(':'));
      FirstAfter(scheme', "://" + (at' + tail'), Is(':'));
      ConcatSplit(scheme, "://" + (at + tail), scheme', "://" + (at' + tail'));
      ConcatSplit("://", at + tail, "://", at' + tail');
      FirstAfter(at, tail, EndsNetloc());
      FirstAfter(at', tail', EndsNetloc());
      ConcatSplit(at, tail, at', tail');
    }
  }

  /**
   Two written URLs have one canonical form exactly when they agree in the scheme up to case,
   in the folded location and in what is left of their segments.
   */
  lemma SameCanonicalIff(
    u: Url, scheme: string, netloc: string, a: seq<string>, rest: string,
    scheme': string, netloc': string, b: seq<string>, rest': string)
    requires DecodeLaws(u) && Readable(u, scheme, netloc, a, rest) && Readable(u, scheme', netloc', b, rest')
    ensures Foldable(u, Written(scheme, netloc, a, rest)) && Foldable(u, Written(scheme', netloc', b, rest'))
    ensures Canonical(u, Written(scheme, netloc, a, rest)) == Canonical(u, Written(scheme', netloc', b, rest'))
       <==> Lower(scheme) == Lower(scheme')
              && NetlocText(Lower(scheme), netloc) == NetlocText(Lower(scheme'), netloc')
              && PathText(All(u, a)) == PathText(All(u, b))
  {
    WrittenFolds(u, scheme, netloc, a, rest);
    WrittenFolds(u, scheme', netloc', b, rest');
    LowerScheme(scheme);
    LowerScheme(scheme');
    FoldedText(Lower(scheme), netloc);
    FoldedText(Lower(scheme'), netloc');
    WholeApart(Lower(scheme), NetlocText(Lower(scheme), netloc), PathText(All(u, a)),
               Lower(scheme'), NetlocText(Lower(scheme'), netloc'), PathText(All(u, b)));
  }

  /** A segment and the `..` after it may be left out of a URL, and so may what follows the path. */
  lemma UpCancelsInUrl(
    u: Url, scheme: string, netloc: string, a: seq<string>, x: string, y: string, b: seq<string>, rest: string)
    requires DecodeLaws(u) && AllAscii(a) && IsAscii(x) && IsAscii(y) && AllAscii(b)
    requires Naming(u, x) && Segment(u, y) == ".."
    requires Readable(u, scheme, netloc, a + [x, y] + b, rest) && Readable(u, scheme, netloc, a + b, "")
    ensures Foldable(u, Written(scheme, netloc, a + [x, y] + b, rest))
    ensures Foldable(u, Written(scheme, netloc, a + b, ""))
    ensures Canonical(u, Written(scheme, netloc, a + [x, y] + b, rest))
         == Canonical(u, Written(scheme, netloc, a + b, ""))
  {
    UpCancels(u, a, x, y, b);
    SameCanonicalIff(u, scheme, netloc, a + [x, y] + b, rest, scheme, netloc, a + b, "");
  }

  /** A segment written out: its name, its parameters, and how their characters are spelt. */
  datatype Piece = Piece(name: string, parameters: string, how: seq<Spelt>) {
    predicate Valid() {
      && IsAscii(name) && ';' !in name && name != "" && name != "." && name != ".."
      && IsAscii(parameters) && (parameters == "" || parameters[0] == ';')
      && |how| == |name + parameters| && Unambiguous(name + parameters, how)
    }

    function Text(): string
      requires Valid()
    {
      Spell(name + parameters, how)
    }
  }

  function Texts(pieces: seq<Piece>): (segments: seq<string>)
    requires forall i :: 0 <= i < |pieces| ==> pieces[i].Valid()
    ensures |segments| == |pieces| && forall i :: 0 <= i < |pieces| ==> segments[i] == pieces[i].Text()
  {
    seq(|pieces|, i requires 0 <= i < |pieces| => pieces[i].Text())
  }

  function NamesOf(pieces: seq<Piece>): (names: seq<string>)
    ensures |names| == |pieces| && forall i :: 0 <= i < |pieces| ==> names[i] == pieces[i].name
  {
    seq(|pieces|, i requires 0 <= i < |pieces| => pieces[i].name)
  }

  /** However a URL's segments are spelt, and whatever parameters and query it has, its names are what is left. */
  lemma SpeltUrl(u: Url, scheme: string, netloc: string, pieces: seq<Piece>, rest: string)
    requires DecodeLaws(u) && forall i :: 0 <= i < |pieces| ==> pieces[i].Valid()
    requires Readable(u, scheme, netloc, Texts(pieces), rest)
    ensures Foldable(u, Written(scheme, netloc, Texts(pieces), rest))
    ensures Canonical(u, Written(scheme, netloc, Texts(pieces), rest))
         == Whole(Lower(scheme), NetlocText(Lower(scheme), netloc), PathText(NamesOf(pieces)))
  {
    var segments := Texts(pieces);
    forall i | 0 <= i < |pieces|
      ensures IsAscii(segments[i]) && Segment(u, segments[i]) == pieces[i].name
    {
      SegmentSpelt(u, pieces[i].name, pieces[i].parameters, pieces[i].how);
    }
    NamesStay(u, segments);
    assert All(u, segments) == NamesOf(pieces);
    WrittenFolds(u, scheme, netloc, segments, rest);
  }
}
