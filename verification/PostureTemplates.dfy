/**
 Patterns as they are written: a scheme and segments, where a name in braces stands for any
 one segment.
 */
module PostureTemplates {
  import opened PostureFloor
  import opened Targets
  import TargetSpellings

  function Template(head: string, parts: seq<string>): string { head + ("://" + Join(parts)) }

  /** A name in braces. */
  predicate Braced(s: string) { exists i :: 0 < i < |s| && i == |s| - 1 && s[0] == '{' && s[i] == '}' }

  predicate Writable(head: string, parts: seq<string>) {
    ':' !in head && parts != [] && forall i :: 0 <= i < |parts| ==> '/' !in parts[i]
  }

  lemma {:induction false} SeparatorAfter(head: string, rest: string)
    requires ':' !in head
    ensures Separator(head + ("://" + rest)) == |head|
  {
    var t := head + ("://" + rest);
    if head == "" {
      assert t == "://" + rest && t[..3] == "://";
    } else {
      assert t[1..] == head[1..] + ("://" + rest);
      assert t[..3][0] == head[0];
      SeparatorAfter(head[1..], rest);
    }
  }

  /** It is read as its scheme and its segments. */
  lemma TemplateShape(head: string, parts: seq<string>)
    requires Writable(head, parts)
    ensures ShapeOf(Template(head, parts)) == Pattern(head, parts)
  {
    var t := Template(head, parts);
    SeparatorAfter(head, Join(parts));
    assert t[..|head|] == head && t[|head| + 3..] == Join(parts);
    TargetSpellings.SplitOfJoin(parts);
  }

  /** Two templates overlap exactly when they pair up, a braced name with anything, the rest with its like. */
  lemma TemplatesOverlapIff(head: string, a: seq<string>, head': string, b: seq<string>)
    requires Writable(head, a) && Writable(head', b)
    ensures Subsumes(Template(head, a), Template(head', b))
       <==> head == head' && |a| == |b|
              && forall i :: 0 <= i < |a| ==> a[i] == b[i] || Braced(a[i]) || Braced(b[i])
  {
    TemplateShape(head, a);
    TemplateShape(head', b);
    forall i | 0 <= i < |a|
      ensures Placeholder(a[i]) <==> Braced(a[i])
    {
      BracedIff(a[i]);
    }
    forall i | 0 <= i < |b|
      ensures Placeholder(b[i]) <==> Braced(b[i])
    {
      BracedIff(b[i]);
    }
  }

  lemma BracedIff(s: string)
    ensures Placeholder(s) <==> Braced(s)
  {
    if Placeholder(s) {
      assert 0 < |s| - 1 < |s| && s[|s| - 1] == '}';
    }
  }

  /** A template covers exactly the paths its braced names can stand for. */
  lemma TemplateCoversIff(head: string, parts: seq<string>, segments: seq<string>)
    requires Writable(head, parts)
    ensures Covers(Template(head, parts), Path(head, segments))
       <==> |parts| == |segments| && forall i :: 0 <= i < |parts| ==> Braced(parts[i]) || parts[i] == segments[i]
  {
    TemplateShape(head, parts);
    forall i | 0 <= i < |parts|
      ensures Placeholder(parts[i]) <==> Braced(parts[i])
    {
      BracedIff(parts[i]);
    }
  }
}
