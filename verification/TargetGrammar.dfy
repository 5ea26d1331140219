/**
 What the registration grammar admits. Canonicalising never lengthens a target; it either
 shortens it or only changes its case; and it changes nothing exactly on the targets in
 syntactic normal form, which is what may be registered.
 */
module TargetGrammar {
  import opened Bytes
  import opened CanonicalText
  import J = CanonicalJson
  import opened Targets

  // ----- normal form ------------------------------------------------------------------------------------

  predicate SegmentNormal(u: Url, s: string)
    requires IsAscii(s)
  {
    s != "" && s != "." && s != ".." && ';' !in s && Unquote(u, s) == s
  }

  predicate SegmentsNormal(u: Url, segments: seq<string>)
    requires AllAscii(segments)
  {
    forall i :: 0 <= i < |segments| ==> SegmentNormal(u, segments[i])
  }

  /** Nothing, or slashes each followed by a segment that is neither empty, nor dots, nor encoded, nor parametrised. */
  predicate PathNormal(u: Url, path: string)
    requires IsAscii(path)
  {
    path == "" || (path[0] == '/' && AllAscii(Split(path[1..])) && SegmentsNormal(u, Split(path[1..])))
  }

  /** A bare lower-case host without trailing dot, and at most a plain, non-default, non-zero port. */
  predicate NetlocNormal(scheme: string, netloc: string) {
    '@' !in netloc && '[' !in netloc && HostNormal(PlainHost(netloc)) && EndNormal(scheme, netloc)
  }

  /** No surrounding blanks, and what the folds keep. */
  predicate NormalForm(u: Url, target: string)
    requires IsAscii(target)
  {
    Strip(target) == target && FoldNormal(u, target)
  }

  /** A lower-case non-URL, or a URL that is scheme, normal location and normal path with nothing after it. */
  predicate FoldNormal(u: Url, raw: string)
    requires IsAscii(raw)
  {
    match Parse(u, Scanned(raw))
    case NotUrl => Lower(raw) == raw
    case Parts(scheme, netloc, path) =>
      && Scanned(raw) == raw && raw == scheme + ("://" + (netloc + path))
      && Lower(scheme) == scheme && NetlocNormal(scheme, netloc)
      && IsAscii(path) && PathNormal(u, path)
  }

  // ----- segments ----------------------------------------------------------------------------------------------

  /** Decoding that shortens nothing decodes nothing. */
  lemma {:induction false} UnescapedLength(s: string)
    requires IsAscii(s) && |Unescaped(s)| == |s|
    ensures Unescaped(s) == Codes(s)
  {
    if s != "" {
      UnescapedLength(s[1..]);
    }
  }

  lemma SegmentLength(u: Url, s: string)
    requires DecodeLaws(u) && IsAscii(s)
    ensures |Segment(u, s)| <= |s|
    ensures |Segment(u, s)| == |s| ==> Segment(u, s) == s && ';' !in s && Unquote(u, s) == s
  {
    if |Segment(u, s)| == |s| {
      UnescapedLength(s);
      assert u.decode(Codes(s)) == s;
    }
  }

  lemma SegmentKept(u: Url, s: string)
    requires IsAscii(s) && ';' !in s && Unquote(u, s) == s
    ensures Segment(u, s) == s
  {
    var i := First(s, Is(';'));
    assert s[..i] == s;
  }

  /** Characters of the segments, each with the slash before it. */
  function Weight(segments: seq<string>): nat {
    if segments == [] then 0 else Weight(segments[..|segments| - 1]) + |segments[|segments| - 1]| + 1
  }

  lemma WeightNext(segments: seq<string>, n: nat)
    requires n < |segments|
    ensures Weight(segments[..n + 1]) == Weight(segments[..n]) + |segments[n]| + 1
  {
    assert segments[..n + 1][..n] == segments[..n];
  }

  lemma WeightPush(resolved: seq<string>, segment: string)
    ensures Weight(Push(resolved, segment)) <= Weight(resolved) + |segment| + 1
    ensures Weight(Push(resolved, segment)) == Weight(resolved) + |segment| + 1 ==>
      segment != "" && segment != "." && segment != ".." && Push(resolved, segment) == resolved + [segment]
  {
    var pushed := resolved + [segment];
    assert pushed[..|pushed| - 1] == resolved;
  }

  /** A stack of this weight is no heavier than the input, and as heavy only when it is the input, all of it normal. */
  predicate Kept(u: Url, segments: seq<string>, n: nat, stack: seq<string>, weight: nat, total: nat)
    requires n <= |segments| && AllAscii(segments)
  {
    && weight <= total
    && (weight == total ==> stack == segments[..n] && forall i :: 0 <= i < n ==> SegmentNormal(u, segments[i]))
  }

  /** The stack never outweighs its input, and matches it only when every segment was normal and stayed. */
  lemma {:induction false} ResolveWeight(u: Url, segments: seq<string>, n: nat)
    requires DecodeLaws(u) && n <= |segments| && AllAscii(segments)
    ensures Kept(u, segments, n, Resolve(u, segments, n), Weight(Resolve(u, segments, n)), Weight(segments[..n]))
  {
    if n > 0 {
      ResolveWeight(u, segments, n - 1);
      WeightNext(segments, n - 1);
      ResolvePushes(u, segments, n);
      KeptNext(u, segments, n, Resolve(u, segments, n - 1), Resolve(u, segments, n),
               Weight(Resolve(u, segments, n - 1)), Weight(Resolve(u, segments, n)), Weight(segments[..n - 1]));
    }
  }

  lemma KeptNext(
    u: Url, segments: seq<string>, n: nat, before: seq<string>, after: seq<string>, wasWeight: nat, weight: nat,
      total: nat)
    requires 0 < n <= |segments| && AllAscii(segments) && Kept(u, segments, n - 1, before, wasWeight, total)
    requires weight <= wasWeight + |segments[n - 1]| + 1
    requires weight == wasWeight + |segments[n - 1]| + 1 ==>
      after == before + [segments[n - 1]] && SegmentNormal(u, segments[n - 1])
    ensures Kept(u, segments, n, after, weight, total + |segments[n - 1]| + 1)
  {
    assert segments[..n] == segments[..n - 1] + [segments[n - 1]];
  }

  lemma ResolvePushes(u: Url, segments: seq<string>, n: nat)
    requires DecodeLaws(u) && 0 < n <= |segments| && AllAscii(segments)
    ensures Weight(Resolve(u, segments, n)) <= Weight(Resolve(u, segments, n - 1)) + |segments[n - 1]| + 1
    ensures Weight(Resolve(u, segments, n)) == Weight(Resolve(u, segments, n - 1)) + |segments[n - 1]| + 1 ==>
      Resolve(u, segments, n) == Resolve(u, segments, n - 1) + [segments[n - 1]] && SegmentNormal(u, segments[n - 1])
  {
    SegmentLength(u, segments[n - 1]);
    WeightPush(Resolve(u, segments, n - 1), Segment(u, segments[n - 1]));
  }

  lemma {:induction false} ResolveNormal(u: Url, segments: seq<string>, n: nat)
    requires n <= |segments| && AllAscii(segments) && SegmentsNormal(u, segments)
    ensures Resolve(u, segments, n) == segments[..n]
  {
    if n > 0 {
      ResolveNormal(u, segments, n - 1);
      assert SegmentNormal(u, segments[n - 1]);
      SegmentKept(u, segments[n - 1]);
    }
  }

  /** The empty segment before a leading slash is skipped. */
  lemma {:induction false} ResolveSkips(u: Url, segments: seq<string>, n: nat)
    requires DecodeLaws(u) && n <= |segments| && AllAscii(segments) && AllAscii([""] + segments)
    ensures Resolve(u, [""] + segments, n + 1) == Resolve(u, segments, n)
  {
    if n > 0 {
      ResolveSkips(u, segments, n - 1);
    } else {
      SegmentLength(u, "");
      assert Resolve(u, [""] + segments, 0) == [];
    }
  }

  // ----- paths ------------------------------------------------------------------------------------------------------

  lemma {:induction false} WeightFront(segments: seq<string>)
    requires segments != []
    ensures Weight(segments) == |segments[0]| + 1 + Weight(segments[1..])
  {
    if |segments| > 1 {
      var front := segments[..|segments| - 1];
      WeightFront(front);
      assert segments[1..][..|segments| - 2] == front[1..];
    } else {
      assert segments[..0] == [] && segments[1..] == [];
    }
  }

  lemma {:induction false} JoinWeight(segments: seq<string>)
    requires segments != []
    ensures |Join(segments)| == Weight(segments) - 1
  {
    WeightFront(segments);
    if |segments| > 1 {
      JoinWeight(segments[1..]);
    }
  }

  lemma {:induction false} JoinSplit(s: string)
    ensures Join(Split(s)) == s
    decreases |s|
  {
    var i := First(s, Is('/'));
    if i < |s| {
      JoinSplit(s[i + 1..]);
      assert s == s[..i] + "/" + s[i + 1..];
    }
  }

  lemma PathTextLength(resolved: seq<string>)
    ensures |PathText(resolved)| == Weight(resolved)
  {
    if resolved != [] {
      JoinWeight(resolved);
    }
  }

  lemma SplitRooted(path: string)
    requires path != "" && path[0] == '/'
    ensures Split(path) == [""] + Split(path[1..]) && Weight(Split(path[1..])) == |path|
    ensures path == "/" + Join(Split(path[1..]))
  {
    assert First(path, Is('/')) == 0;
    JoinSplit(path[1..]);
    JoinWeight(Split(path[1..]));
  }

  function ResolvedPath(u: Url, path: string): string
    requires IsAscii(path)
  {
    SplitAscii(path);
    PathText(Resolve(u, Split(path), |Split(path)|))
  }

  /** Resolving a path never lengthens it; keeping its length keeps it; and it is kept exactly when normal. */
  lemma PathFolds(u: Url, path: string)
    requires DecodeLaws(u) && IsAscii(path) && (path == "" || path[0] == '/')
    ensures |ResolvedPath(u, path)| <= |path|
    ensures |ResolvedPath(u, path)| == |path| <==> ResolvedPath(u, path) == path
    ensures ResolvedPath(u, path) == path <==> PathNormal(u, path)
  {
    SplitAscii(path);
    if path == "" {
      assert Split("") == [""];
      SegmentLength(u, "");
      assert Resolve(u, [""], 0) == [];
    } else {
      var segments := Split(path[1..]);
      SplitAscii(path[1..]);
      SplitRooted(path);
      ResolveSkips(u, segments, |segments|);
      var resolved := Resolve(u, segments, |segments|);
      assert segments[..|segments|] == segments;
      ResolveWeight(u, segments, |segments|);
      PathTextLength(resolved);
      if SegmentsNormal(u, segments) {
        ResolveNormal(u, segments, |segments|);
      }
    }
  }

  // ----- ports ---------------------------------------------------------------------------------------------

  /** A number's plain text is never longer than any spelling of it, and is that spelling if as long. */
  lemma {:induction false} DigitsShortest(p: string)
    requires AllDigits(p) && p != ""
    ensures Value(p) >= 0 && |J.Digits(Value(p))| <= |p|
    ensures |J.Digits(Value(p))| == |p| ==> J.Digits(Value(p)) == p
    decreases |p|
  {
    var n := |p| - 1;
    assert p == p[..n] + [p[n]];
    if n == 0 {
      assert Value(p[..0]) == 0;
    } else {
      DigitsShortest(p[..n]);
      OneMoreDigit(p);
    }
  }

  /** The text of a number with one more digit is one longer, unless the number was zero. */
  lemma OneMoreDigit(p: string)
    requires AllDigits(p) && p != "" && Value(p[..|p| - 1]) >= 0
    ensures Value(p) >= 0
    ensures Value(p[..|p| - 1]) > 0 ==> J.Digits(Value(p)) == J.Digits(Value(p[..|p| - 1])) + [p[|p| - 1]]
    ensures Value(p[..|p| - 1]) == 0 ==> |J.Digits(Value(p))| == 1
  {
    var v, d := Value(p[..|p| - 1]), DigitValue(p[|p| - 1]);
    assert Value(p) == 10 * v + d && 0 <= d < 10;
    DigitText(p[|p| - 1]);
    if v > 0 {
      NextDigit(v, d);
    }
  }

  lemma DigitText(c: char)
    requires '0' <= c <= '9'
    ensures HEX_DIGITS[DigitValue(c)] == c
  {
  }

  lemma NextDigit(v: nat, d: nat)
    requires v > 0 && d < 10
    ensures J.Digits(10 * v + d) == J.Digits(v) + [HEX_DIGITS[d]]
  {
    assert (10 * v + d) / 10 == v && (10 * v + d) % 10 == d;
  }

  function PortText(scheme: string, port: string): string
    requires AllDigits(port) && 0 <= Value(port)
  {
    var number := Value(port);
    if number == 0 || DefaultPort(scheme, number) then "" else ":" + J.Digits(number)
  }

  lemma PortFolds(scheme: string, port: string)
    requires AllDigits(port) && 0 <= Value(port)
    ensures |PortText(scheme, port)| <= |port| + (if port == "" then 0 else 1)
    ensures |PortText(scheme, port)| == |port| + 1 ==> PortText(scheme, port) == ":" + port
    ensures PortText(scheme, port) == ":" + port <==>
      Value(port) > 0 && !DefaultPort(scheme, Value(port)) && port == J.Digits(Value(port))
  {
    if port != "" {
      DigitsShortest(port);
    }
  }

  // ----- network locations ---------------------------------------------------------------------------------

  /** Host text before a colon, and the port text after it, if any. */
  function PlainHost(netloc: string): string { netloc[..First(netloc, Is(':'))] }

  function PlainPort(netloc: string): string {
    var colon := First(netloc, Is(':'));
    if colon < |netloc| then netloc[colon + 1..] else ""
  }

  /** The colon and the port, as they stand. */
  function PlainEnd(netloc: string): string { netloc[First(netloc, Is(':'))..] }

  lemma PlainHostPort(netloc: string)
    requires '@' !in netloc && '[' !in netloc
    ensures HostPort(netloc) == (PlainHost(netloc), PlainPort(netloc))
  {
    assert AfterLastAt(netloc) == netloc && First(netloc, Is('[')) == |netloc|;
  }

  lemma PlainEnds(netloc: string)
    ensures netloc == PlainHost(netloc) + PlainEnd(netloc)
    ensures PlainEnd(netloc) == if First(netloc, Is(':')) < |netloc| then ":" + PlainPort(netloc) else ""
  {
    var colon := First(netloc, Is(':'));
    Cut(netloc, colon);
    if colon < |netloc| {
      assert Is(':')(netloc[colon]);
      HeadTail(netloc, colon);
    }
  }

  lemma HeadTail(s: string, i: nat)
    requires i < |s|
    ensures s[i..] == [s[i]] + s[i + 1..]
  {
  }

  /** The folded host. */
  function Folded(host: string): string { WithoutTrailingDots(Lower(host)) }

  lemma PlainNetloc(scheme: string, netloc: string)
    requires PortValid(netloc) && '@' !in netloc && '[' !in netloc
    ensures AllDigits(PlainPort(netloc)) && 0 <= Value(PlainPort(netloc))
    ensures NetlocText(scheme, netloc) == Folded(PlainHost(netloc)) + PortText(scheme, PlainPort(netloc))
  {
    PlainHostPort(netloc);
  }

  lemma OtherNetloc(scheme: string, netloc: string)
    requires PortValid(netloc) && ('@' in netloc || '[' in netloc)
    ensures |NetlocText(scheme, netloc)| < |netloc|
  {
    var info := AfterLastAt(netloc);
    var (host, port) := HostPort(netloc);
    PortFolds(scheme, port);
    AtShortens(netloc);
    assert |NetlocText(scheme, netloc)| <= |host| + |PortText(scheme, port)|;
    if First(info, Is('[')) == |info| {
      BracketsOutside(netloc);
    }
  }

  lemma {:induction false} AtShortens(s: string)
    ensures '@' in s ==> |AfterLastAt(s)| < |s|
  {
    if s != "" && '@' in s[1..] {
      AtShortens(s[1..]);
    }
  }

  /** Without a bracket in the host, the location itself has none or has user information. */
  lemma BracketsOutside(netloc: string)
    requires First(AfterLastAt(netloc), Is('[')) == |AfterLastAt(netloc)|
    ensures '[' in netloc ==> '@' in netloc
  {
    if '@' !in netloc {
      assert AfterLastAt(netloc) == netloc;
    }
  }

  /** No port, or a plain one worth writing. */
  predicate EndNormal(scheme: string, netloc: string) {
    var port := PlainPort(netloc);
    First(netloc, Is(':')) == |netloc|
      || (Value(port) > 0 && !DefaultPort(scheme, Value(port)) && port == J.Digits(Value(port)))
  }

  predicate HostNormal(host: string) { Lower(host) == host && (host == "" || host[|host| - 1] != '.') }

  /** The port's part of the location: no longer than what stood there, the same if as long. */
  lemma EndFolds(scheme: string, netloc: string)
    requires AllDigits(PlainPort(netloc)) && 0 <= Value(PlainPort(netloc))
    ensures |PortText(scheme, PlainPort(netloc))| <= |PlainEnd(netloc)|
    ensures |PortText(scheme, PlainPort(netloc))| == |PlainEnd(netloc)| ==>
      PortText(scheme, PlainPort(netloc)) == PlainEnd(netloc)
    ensures PortText(scheme, PlainPort(netloc)) == PlainEnd(netloc) <==> EndNormal(scheme, netloc)
  {
    PortFolds(scheme, PlainPort(netloc));
    PlainEnds(netloc);
  }

  /** The host's part. */
  lemma HostFolds(host: string)
    ensures |Folded(host)| <= |host|
    ensures |Folded(host)| == |host| ==> Folded(host) == Lower(host)
    ensures Folded(host) == host <==> HostNormal(host)
  {
    if |Folded(host)| == |host| {
      assert Folded(host) == Lower(host)[..|host|];
    }
  }

  lemma PlainLength(scheme: string, netloc: string)
    requires PortValid(netloc) && '@' !in netloc && '[' !in netloc
    ensures |NetlocText(scheme, netloc)| <= |netloc|
    ensures |NetlocText(scheme, netloc)| == |netloc| ==>
      NetlocText(scheme, netloc) == Lower(PlainHost(netloc)) + PlainEnd(netloc)
  {
    PlainNetloc(scheme, netloc);
    PlainEnds(netloc);
    HostFolds(PlainHost(netloc));
    EndFolds(scheme, netloc);
  }

  lemma PlainNormal(scheme: string, netloc: string)
    requires PortValid(netloc) && '@' !in netloc && '[' !in netloc
    ensures NetlocText(scheme, netloc) == netloc <==> NetlocNormal(scheme, netloc)
  {
    var host, end, port := PlainHost(netloc), PlainEnd(netloc), PlainPort(netloc);
    PlainNetloc(scheme, netloc);
    PlainEnds(netloc);
    HostFolds(host);
    EndFolds(scheme, netloc);
    if NetlocText(scheme, netloc) == netloc {
      assert |Folded(host)| == |host|;
      ConcatSplit(Folded(host), PortText(scheme, port), host, end);
    }
  }

  lemma PlainFolds(scheme: string, netloc: string)
    requires PortValid(netloc) && '@' !in netloc && '[' !in netloc
    ensures |NetlocText(scheme, netloc)| <= |netloc|
    ensures |NetlocText(scheme, netloc)| == |netloc| ==> Lower(NetlocText(scheme, netloc)) == Lower(netloc)
    ensures NetlocText(scheme, netloc) == netloc <==> NetlocNormal(scheme, netloc)
  {
    var host, end := PlainHost(netloc), PlainEnd(netloc);
    PlainLength(scheme, netloc);
    PlainNormal(scheme, netloc);
    PlainEnds(netloc);
    LowerConcat(Lower(host), end);
    LowerConcat(host, end);
    LowerTwice(host);
  }

  lemma LowerConcat(a: string, b: string)
    ensures Lower(a + b) == Lower(a) + Lower(b)
  {
    var x, y := Lower(a + b), Lower(a) + Lower(b);
    forall i | 0 <= i < |x|
      ensures x[i] == y[i]
    {
    }
  }

  lemma LowerTwice(s: string)
    ensures Lower(Lower(s)) == Lower(s)
  {
  }

  /** Folding a location never lengthens it, keeps it up to case when as long, and keeps it exactly when normal. */
  lemma NetlocFolds(scheme: string, netloc: string)
    requires PortValid(netloc)
    ensures |NetlocText(scheme, netloc)| <= |netloc|
    ensures |NetlocText(scheme, netloc)| == |netloc| ==> Lower(NetlocText(scheme, netloc)) == Lower(netloc)
    ensures NetlocText(scheme, netloc) == netloc <==> NetlocNormal(scheme, netloc)
  {
    if '@' in netloc || '[' in netloc {
      OtherNetloc(scheme, netloc);
    } else {
      PlainFolds(scheme, netloc);
    }
  }

  // ----- the grammar ---------------------------------------------------------------------------------------

  /** The canonical form of a URL, part by part. */
  function FoldedUrl(u: Url, p: Parts): string
    requires p.Parts? && PortValid(p.netloc) && IsAscii(p.path)
  {
    Lower(p.scheme) + ("://" + (NetlocText(Lower(p.scheme), p.netloc) + ResolvedPath(u, p.path)))
  }

  lemma FoldedIs(u: Url, raw: string)
    requires IsAscii(raw) && PortsValid(u, raw) && Parse(u, Scanned(raw)).Parts?
    ensures var p := Parse(u, Scanned(raw)); IsAscii(p.path) && FoldedTarget(u, raw) == FoldedUrl(u, p)
  {
    var p := Parse(u, Scanned(raw));
    PartsAscii(u, Scanned(raw));
    var s, n, r := Lower(p.scheme), NetlocText(Lower(p.scheme), p.netloc), ResolvedPath(u, p.path);
    Assoc(s + "://", n, r);
    Assoc(s, "://", n + r);
  }

  /**
   A folded URL is as long as its parts at most; if as long, it differs at most by case; it is
   them exactly when normal.
   */
  lemma PartsFold(u: Url, p: Parts)
    requires DecodeLaws(u) && p.Parts? && PortValid(p.netloc) && IsAscii(p.path) && (p.path == "" || p.path[0] == '/')
    ensures var whole := p.scheme + ("://" + (p.netloc + p.path));
      && |FoldedUrl(u, p)| <= |whole|
      && (|FoldedUrl(u, p)| == |whole| ==> Lower(FoldedUrl(u, p)) == Lower(whole))
      && (FoldedUrl(u, p) == whole
          <==> Lower(p.scheme) == p.scheme && NetlocNormal(p.scheme, p.netloc) && PathNormal(u, p.path))
  {
    var s, n, r := Lower(p.scheme), NetlocText(Lower(p.scheme), p.netloc), ResolvedPath(u, p.path);
    NetlocFolds(s, p.netloc);
    PathFolds(u, p.path);
    if |FoldedUrl(u, p)| == |p.scheme + ("://" + (p.netloc + p.path))| {
      LowerParts(s, n, p.path);
      LowerParts(p.scheme, p.netloc, p.path);
      LowerTwice(p.scheme);
    }
    if FoldedUrl(u, p) == p.scheme + ("://" + (p.netloc + p.path)) {
      ConcatSplit(s, "://" + (n + r), p.scheme, "://" + (p.netloc + p.path));
      ConcatSplit("://", n + r, "://", p.netloc + p.path);
      ConcatSplit(n, r, p.netloc, p.path);
    }
  }

  lemma LowerParts(s: string, n: string, r: string)
    ensures Lower(s + ("://" + (n + r))) == Lower(s) + ("://" + (Lower(n) + Lower(r)))
  {
    LowerConcat(s, "://" + (n + r));
    LowerConcat("://", n + r);
    LowerConcat(n, r);
    assert Lower("://") == "://" by {
      var x := Lower("://");
      assert x[0] == ':' && x[1] == '/' && x[2] == '/';
    }
  }

  /** Lengths: the target is at least its scanned text, which is its parts and what follows them. */
  lemma PartsLength(u: Url, raw: string) returns (rest: string)
    requires Parse(u, Scanned(raw)).Parts?
    ensures var p := Parse(u, Scanned(raw));
      var whole := p.scheme + ("://" + (p.netloc + p.path));
      && |whole| + |rest| == |Scanned(raw)| <= |raw|
      && (|whole| == |raw| ==> Scanned(raw) == raw == whole)
      && (p.path == "" || p.path[0] == '/')
  {
    rest := ParseSplits(u, Scanned(raw));
    var p := Parse(u, Scanned(raw));
    if rest == "" {
      assert p.path + rest == p.path;
    }
  }

  lemma FoldsShorten(u: Url, raw: string)
    requires DecodeLaws(u) && IsAscii(raw) && PortsValid(u, raw)
    ensures |FoldedTarget(u, raw)| <= |raw|
    ensures |FoldedTarget(u, raw)| == |raw| ==> Lower(FoldedTarget(u, raw)) == Lower(raw)
    ensures FoldedTarget(u, raw) == raw <==> FoldNormal(u, raw)
  {
    if Parse(u, Scanned(raw)).Parts? {
      FoldedIs(u, raw);
      var rest := PartsLength(u, raw);
      PartsFold(u, Parse(u, Scanned(raw)));
    } else {
      LowerTwice(raw);
    }
  }

  /** Canonicalising never lengthens a target; what it changes it shortens, or changes only in case. */
  lemma ShortensOrLowers(u: Url, target: string)
    requires DecodeLaws(u) && Foldable(u, target)
    ensures |Canonical(u, target)| <= |target|
    ensures |Canonical(u, target)| == |target| ==> Lower(Canonical(u, target)) == Lower(target)
  {
    FoldsShorten(u, Strip(target));
  }

  /**
   A target is its own canonical form exactly when it is in normal form, and passes for
   registration, where blanks around it are forgiven, exactly when its stripped text is.
   */
  lemma GrammarIff(u: Url, target: string)
    requires DecodeLaws(u) && Foldable(u, target)
    ensures Canonical(u, target) == target <==> NormalForm(u, target)
    ensures Canonical(u, target) == Strip(target) <==> NormalForm(u, Strip(target))
  {
    FoldsShorten(u, Strip(target));
  }

  // ----- one segment ------------------------------------------------------------------------------------------------

  /** A path of one segment that decodes to plain text. */
  lemma OneSegment(u: Url, s: string, decoded: string)
    requires DecodeLaws(u) && IsAscii(s) && IsAscii(decoded) && '/' !in s && ';' !in decoded
    requires Unescaped(s) == Codes(decoded) && decoded != "" && decoded != "." && decoded != ".."
    ensures IsAscii("/" + s) && ResolvedPath(u, "/" + s) == "/" + decoded
  {
    SplitAscii("/" + s);
    NoSlash(s);
    assert ("/" + s)[1..] == s && First("/" + s, Is('/')) == 0;
    assert Split("/" + s) == ["", s];
    assert Unquote(u, s) == decoded;
    SegmentLength(u, "");
    assert First(decoded, Is(';')) == |decoded|;
    assert Segment(u, s) == decoded;
    var segments := ["", s];
    assert Resolve(u, segments, 0) == [] && Resolve(u, segments, 1) == Push([], Segment(u, "")) == [];
    assert Resolve(u, segments, 2) == Push([], decoded) == [decoded];
  }

  lemma NoSlash(s: string)
    requires '/' !in s
    ensures Split(s) == [s]
  {
  }

  lemma UnescapedOnce(s: string, decoded: string)
    requires (s == "%2541" && decoded == "%41") || (s == "%41" && decoded == "A")
    ensures Unescaped(s) == Codes(decoded)
  {
    if s == "%2541" {
      assert s[3..] == "41" && "41"[1..] == "1" && "1"[1..] == "";
      assert Unescaped("1") == [49] && Unescaped("41") == [52, 49];
      assert "%41"[1..] == "41";
    } else {
      assert s[3..] == "" && "A"[1..] == "";
    }
  }
}
