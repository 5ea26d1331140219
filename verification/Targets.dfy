/**
 The registration grammar of `app/main.py`: a target is canonicalised by parsing it as a URL
 and folding every part, and it may be registered only if that changes nothing. Targets are
 ASCII here. Surrounding blanks are stripped before anything else. Percent-decoded bytes are
 turned into text by a parameter, which leaves ASCII bytes alone and never makes text longer
 than its bytes; another says which network locations the URL parser refuses.
 */
module Targets {
  import opened Bytes
  import opened CanonicalText
  import J = CanonicalJson

  /** UTF-8 decoding with replacement, and the network locations `urlsplit` raises on. */
  datatype Url = Url(decode: Bytes -> string, refused: string -> bool)

  ghost predicate DecodeLaws(u: Url) {
    && (forall b :: |u.decode(b)| <= |b|)
    && (forall s :: IsAscii(s) ==> u.decode(Codes(s)) == s)
  }

  predicate IsAscii(s: string) { forall i :: 0 <= i < |s| ==> s[i] as int < 128 }

  function Codes(s: string): (b: Bytes)
    requires IsAscii(s)
    ensures |b| == |s|
  {
    if s == "" then [] else [s[0] as int] + Codes(s[1..])
  }

  // ----- characters -----------------------------------------------------------------------------------

  function LowerChar(c: char): char { if 'A' <= c <= 'Z' then (c as int + 32) as char else c }

  function Lower(s: string): (r: string)
    ensures |r| == |s|
    ensures forall i :: 0 <= i < |s| ==> r[i] == LowerChar(s[i])
  {
    if s == "" then "" else [LowerChar(s[0])] + Lower(s[1..])
  }

  /** Where the first character that satisfies `p` is, or the end. */
  function First(s: string, p: char -> bool): (i: nat)
    ensures i <= |s|
    ensures i < |s| ==> p(s[i])
    ensures forall k :: 0 <= k < i ==> !p(s[k])
  {
    if s == "" || p(s[0]) then 0 else 1 + First(s[1..], p)
  }

  function Is(c: char): char -> bool { (d: char) => d == c }
  function EndsPath(): char -> bool { (d: char) => d == '?' || d == '#' }
  function EndsNetloc(): char -> bool { (d: char) => d == '/' || d == '?' || d == '#' }

  /** What follows the last `@`. */
  function AfterLastAt(s: string): (r: string)
    ensures |r| <= |s| && (r == s <==> '@' !in s)
  {
    if s == "" then ""
    else if '@' in s[1..] then AfterLastAt(s[1..])
    else if s[0] == '@' then s[1..]
    else s
  }

  function WithoutTrailingDots(s: string): (r: string)
    ensures r <= s && (r == s <==> s == "" || s[|s| - 1] != '.')
  {
    if s == "" || s[|s| - 1] != '.' then s else WithoutTrailingDots(s[..|s| - 1])
  }

  // ----- splitting and joining -----------------------------------------------------------------------------

  function Split(s: string): (parts: seq<string>)
    ensures parts != []
  {
    var i := First(s, Is('/'));
    if i == |s| then [s] else [s[..i]] + Split(s[i + 1..])
  }

  function Join(parts: seq<string>): string {
    if parts == [] then "" else if |parts| == 1 then parts[0] else parts[0] + "/" + Join(parts[1..])
  }

  // ----- percent decoding --------------------------------------------------------------------------------------

  predicate IsHex(c: char) { '0' <= c <= '9' || 'a' <= c <= 'f' || 'A' <= c <= 'F' }

  function HexValue(c: char): (v: nat)
    requires IsHex(c)
    ensures v < 16
  {
    if c <= '9' then c as int - '0' as int
    else if c <= 'F' then c as int - 'A' as int + 10
    else c as int - 'a' as int + 10
  }

  predicate EscapeAt(s: string) { |s| >= 3 && s[0] == '%' && IsHex(s[1]) && IsHex(s[2]) }

  /** The bytes an ASCII text stands for, escapes decoded once. */
  function Unescaped(s: string): (b: Bytes)
    requires IsAscii(s)
    ensures |b| <= |s|
  {
    if s == "" then []
    else if EscapeAt(s) then [16 * HexValue(s[1]) + HexValue(s[2])] + Unescaped(s[3..])
    else [s[0] as int] + Unescaped(s[1..])
  }

  function Unquote(u: Url, s: string): string
    requires IsAscii(s)
  {
    u.decode(Unescaped(s))
  }

  // ----- the path ---------------------------------------------------------------------------------------------------

  /** A segment decoded, with its parameters dropped. */
  function Segment(u: Url, s: string): string
    requires IsAscii(s)
  {
    var decoded := Unquote(u, s);
    decoded[..First(decoded, Is(';'))]
  }

  predicate AllAscii(segments: seq<string>) { forall i :: 0 <= i < |segments| ==> IsAscii(segments[i]) }

  function Push(resolved: seq<string>, segment: string): seq<string> {
    if segment == "" || segment == "." then resolved
    else if segment == ".." then (if resolved == [] then [] else resolved[..|resolved| - 1])
    else resolved + [segment]
  }

  /** The stack after the first `n` segments. */
  function Resolve(u: Url, segments: seq<string>, n: nat): seq<string>
    requires n <= |segments| && AllAscii(segments)
  {
    if n == 0 then [] else Push(Resolve(u, segments, n - 1), Segment(u, segments[n - 1]))
  }

  method ResolveSegments(u: Url, segments: seq<string>) returns (resolved: seq<string>)
    requires AllAscii(segments)
    ensures resolved == Resolve(u, segments, |segments|)
  {
    resolved := [];
    for i := 0 to |segments|
      invariant resolved == Resolve(u, segments, i)
    {
      var segment := Unquote(u, segments[i]);
      segment := segment[..First(segment, Is(';'))];
      if segment == "" || segment == "." {
        continue;
      }
      if segment == ".." {
        if resolved != [] {
          resolved := resolved[..|resolved| - 1];
        }
        continue;
      }
      resolved := resolved + [segment];
    }
  }

  function PathText(resolved: seq<string>): string { if resolved == [] then "" else "/" + Join(resolved) }

  // ----- the network location ------------------------------------------------------------------------------

  /** Host and port text, as the URL parser takes them apart. */
  function HostPort(netloc: string): (string, string) { HostPortOf(AfterLastAt(netloc)) }

  function HostPortOf(info: string): (string, string) {
    var open := First(info, Is('['));
    if open < |info| then
      var bracketed := info[open + 1..];
      var close := First(bracketed, Is(']'));
      var after := if close < |bracketed| then bracketed[close + 1..] else "";
      var colon := First(after, Is(':'));
      (bracketed[..close], if colon < |after| then after[colon + 1..] else "")
    else
      var colon := First(info, Is(':'));
      (info[..colon], if colon < |info| then info[colon + 1..] else "")
  }

  predicate AllDigits(s: string) { forall i :: 0 <= i < |s| ==> '0' <= s[i] <= '9' }

  /** The port is absent or a number up to 65535; anything else the parser raises on later. */
  predicate PortValid(netloc: string) {
    var port := HostPort(netloc).1;
    AllDigits(port) && 0 <= Value(port) <= 65535
  }

  predicate DefaultPort(scheme: string, port: int) {
    (scheme == "https" && port == 443) || (scheme == "http" && port == 80)
  }

  /** Host and port folded: case, trailing dots, the default port, a zero port. */
  function NetlocText(scheme: string, netloc: string): string
    requires PortValid(netloc)
  {
    var (host, port) := HostPort(netloc);
    var number := Value(port);
    WithoutTrailingDots(Lower(host)) + (if number == 0 || DefaultPort(scheme, number) then ""
                                        else ":" + J.Digits(number))
  }

  // ----- surrounding blanks --------------------------------------------------------------------------------

  predicate Blank(c: char) { 9 <= c as int <= 13 || 28 <= c as int <= 32 }

  function StripLeft(s: string): (r: string)
    ensures |r| <= |s| && (r == s <==> s == "" || !Blank(s[0]))
    ensures r != "" ==> !Blank(r[0]) && r[|r| - 1] == s[|s| - 1]
    ensures IsAscii(s) ==> IsAscii(r)
  {
    if s == "" || !Blank(s[0]) then s else StripLeft(s[1..])
  }

  /** `str.strip()` on ASCII text. */
  function Strip(s: string): (r: string)
    ensures |r| <= |s| && (|r| == |s| ==> r == s)
    ensures r == s <==> s == "" || (!Blank(s[0]) && !Blank(s[|s| - 1]))
    ensures r != "" ==> !Blank(r[0]) && !Blank(r[|r| - 1])
    ensures IsAscii(s) ==> IsAscii(r)
    decreases |s|
  {
    if s != "" && Blank(s[|s| - 1]) then Strip(s[..|s| - 1]) else StripLeft(s)
  }

  // ----- the target ----------------------------------------------------------------------------------------

  predicate SchemeChar(c: char) {
    'a' <= c <= 'z' || 'A' <= c <= 'Z' || '0' <= c <= '9' || c == '+' || c == '-' || c == '.'
  }

  predicate Letter(c: char) { 'a' <= c <= 'z' || 'A' <= c <= 'Z' }

  /** A URL's parts: everything after the path is query and fragment. */
  datatype Parts = NotUrl | Parts(scheme: string, netloc: string, path: string)

  /** `urlsplit`, on text without characters it strips; it raises on a refused network location. */
  function Parse(u: Url, s: string): Parts {
    var colon := First(s, Is(':'));
    if colon == 0 || colon + 3 > |s| || s[colon + 1] != '/' || s[colon + 2] != '/' || !Letter(s[0])
      || (exists i :: 0 <= i < colon && !SchemeChar(s[i])) then NotUrl
    else
      var after := s[colon + 3..];
      var n := First(after, EndsNetloc());
      if n == 0 || u.refused(after[..n]) then NotUrl
      else Parts(s[..colon], after[..n], after[n..][..First(after[n..], EndsPath())])
  }

  /** The parts in place: text up to the path, and what follows it. */
  function Reassembled(p: Parts, rest: string): string
    requires p.Parts?
  {
    p.scheme + ("://" + (p.netloc + (p.path + rest)))
  }

  lemma UrlFront(s: string, colon: nat)
    requires colon + 3 <= |s| && s[colon] == ':' && s[colon + 1] == '/' && s[colon + 2] == '/'
    ensures s == s[..colon] + ("://" + s[colon + 3..])
  {
    assert s[colon..colon + 3] == "://";
    assert s == s[..colon] + (s[colon..colon + 3] + s[colon + 3..]);
  }

  lemma Cut(s: string, n: nat)
    requires n <= |s|
    ensures s == s[..n] + s[n..]
  {
  }

  lemma ParseSplits(u: Url, s: string) returns (rest: string)
    requires Parse(u, s).Parts?
    ensures var p := Parse(u, s);
      && s == Reassembled(p, rest)
      && p.scheme != "" && p.netloc != "" && (p.path == "" || p.path[0] == '/')
      && (rest == "" || EndsPath()(rest[0]))
  {
    var colon := First(s, Is(':'));
    UrlFront(s, colon);
    rest := AfterParts(s[colon + 3..]);
  }

  /** Location, path and rest of what follows the two slashes. */
  lemma AfterParts(after: string) returns (rest: string)
    ensures var n := First(after, EndsNetloc());
      var path := after[n..][..First(after[n..], EndsPath())];
      && after == after[..n] + (path + rest)
      && (path == "" || path[0] == '/') && (rest == "" || EndsPath()(rest[0]))
  {
    var n := First(after, EndsNetloc());
    var tail := after[n..];
    var k := First(tail, EndsPath());
    rest := tail[k..];
    Cut(after, n);
    Cut(tail, k);
  }

  predicate Stripped(c: char) { c == '\t' || c == '\n' || c == '\r' }

  function WithoutBreaks(s: string): (r: string)
    ensures |r| <= |s| && (|r| == |s| ==> r == s)
    ensures r == s <==> forall i :: 0 <= i < |s| ==> !Stripped(s[i])
    ensures IsAscii(s) ==> IsAscii(r)
  {
    if s == "" then "" else (if Stripped(s[0]) then "" else [s[0]]) + WithoutBreaks(s[1..])
  }

  predicate Leading(c: char) { c as int <= 32 }

  function WithoutLeading(s: string): (r: string)
    ensures |r| <= |s| && (|r| == |s| ==> r == s) && (r == s <==> s == "" || !Leading(s[0]))
    ensures IsAscii(s) ==> IsAscii(r)
  {
    if s == "" || !Leading(s[0]) then s else WithoutLeading(s[1..])
  }

  /** What the URL parser looks at: leading controls and spaces gone, tabs and line breaks removed. */
  function Scanned(s: string): (r: string)
    ensures |r| <= |s| && (|r| == |s| ==> r == s)
    ensures IsAscii(s) ==> IsAscii(r)
  {
    WithoutBreaks(WithoutLeading(s))
  }

  predicate PortsValid(u: Url, s: string) {
    var p := Parse(u, Scanned(s));
    p.Parts? ==> PortValid(p.netloc)
  }

  /** The folds on stripped text. */
  function FoldedTarget(u: Url, raw: string): string
    requires IsAscii(raw) && PortsValid(u, raw)
  {
    match Parse(u, Scanned(raw))
    case NotUrl => Lower(raw)
    case Parts(scheme, netloc, path) =>
      assert IsAscii(path) by { PartsAscii(u, Scanned(raw)); }
      SplitAscii(path);
      Lower(scheme) + "://" + NetlocText(Lower(scheme), netloc) + PathText(Resolve(u, Split(path), |Split(path)|))
  }

  /** Targets the folding is defined on: ASCII, with a port the URL parser accepts. */
  predicate Foldable(u: Url, target: string) { IsAscii(target) && PortsValid(u, Strip(target)) }

  /** `_canonical_target`. */
  function Canonical(u: Url, target: string): string
    requires Foldable(u, target)
  {
    FoldedTarget(u, Strip(target))
  }

  method CanonicalTarget(u: Url, target: string) returns (canonical: string)
    requires Foldable(u, target)
    ensures canonical == Canonical(u, target)
  {
    var raw := Strip(target);
    var parsed := Parse(u, Scanned(raw));
    if parsed.NotUrl? {
      return Lower(raw);
    }
    PartsAscii(u, Scanned(raw));
    SplitAscii(parsed.path);
    var resolved := ResolveSegments(u, Split(parsed.path));
    canonical := Lower(parsed.scheme) + "://" + NetlocText(Lower(parsed.scheme), parsed.netloc) + PathText(resolved);
  }

  lemma PartsAscii(u: Url, s: string)
    requires IsAscii(s) && Parse(u, s).Parts?
    ensures IsAscii(Parse(u, s).path)
  {
    var rest := ParseSplits(u, s);
    var p := Parse(u, s);
    var at := |p.scheme| + 3 + |p.netloc|;
    forall i | 0 <= i < |p.path|
      ensures (p.path[i]) as int < 128
    {
      assert s[at + i] == p.path[i];
    }
  }

  lemma {:induction false} SplitAscii(s: string)
    requires IsAscii(s)
    ensures AllAscii(Split(s))
    decreases |s|
  {
    var i := First(s, Is('/'));
    if i < |s| {
      SplitAscii(s[i + 1..]);
    }
  }
}
