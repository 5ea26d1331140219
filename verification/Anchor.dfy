/**
 The head anchor of `audit/anchor.py`: an append-only file of signed head lines outside
 Redis, read by a max-scan and rotated by rewriting the survivors.
 */
module Anchor {
  import opened WormStore
  import opened WormVerify
  import opened Wrappers

  /** A line of the file: one that does not parse, or a head with the signature beside it. */
  datatype Line = Damaged | Line(epoch: int, hash: string, signature: Signature)

  function SignedLine(epoch: int, hash: string): Line {
    Line(epoch, hash, AnchorMessage(epoch, hash))
  }

  /** The head a line witnesses, only if its signature verifies. */
  function ParseVerified(signed: set<Message>, line: Line): Option<Witness> {
    if line.Line? && line.signature == AnchorMessage(line.epoch, line.hash) && line.signature in signed
    then Some(Witness(line.epoch, line.hash))
    else None
  }

  /** The head of the first `n` lines: the first one of highest epoch. */
  function HeadOf(signed: set<Message>, lines: seq<Line>, n: nat): Option<Witness>
    requires n <= |lines|
  {
    if n == 0 then None
    else
      var best, parsed := HeadOf(signed, lines, n - 1), ParseVerified(signed, lines[n - 1]);
      if parsed.Some? && (best.None? || parsed.value.epoch > best.value.epoch) then parsed else best
  }

  function Head(signed: set<Message>, lines: seq<Line>): Option<Witness> {
    HeadOf(signed, lines, |lines|)
  }

  /** The lines a rotation keeps. */
  function Survivors(signed: set<Message>, lines: seq<Line>, minEpoch: int, n: nat): seq<Line>
    requires n <= |lines|
  {
    if n == 0 then []
    else
      var kept, parsed := Survivors(signed, lines, minEpoch, n - 1), ParseVerified(signed, lines[n - 1]);
      if parsed.Some? && parsed.value.epoch >= minEpoch then kept + [lines[n - 1]] else kept
  }

  class AnchorStore {
    var lines: seq<Line>

    constructor ()
      ensures lines == []
    {
      lines := [];
    }

    /** Append one signed head line. */
    method Record(epoch: int, hash: string)
      modifies this
      ensures lines == old(lines) + [SignedLine(epoch, hash)]
    {
      lines := lines + [SignedLine(epoch, hash)];
    }

    /** The max-scan over the file. */
    method ReadHead(signed: set<Message>) returns (best: Option<Witness>)
      ensures best == Head(signed, lines)
    {
      best := None;
      for i := 0 to |lines|
        invariant best == HeadOf(signed, lines, i)
      {
        var parsed := ParseVerified(signed, lines[i]);
        if parsed.None? {
          continue;
        }
        if best.None? || parsed.value.epoch > best.value.epoch {
          best := parsed;
        }
      }
    }

    /** Rewrite the file with the validly signed lines at or above `minEpoch`. */
    method CompactFile(signed: set<Message>, minEpoch: int)
      modifies this
      ensures lines == Survivors(signed, old(lines), minEpoch, |old(lines)|)
    {
      var survivors: seq<Line> := [];
      for i := 0 to |lines|
        invariant lines == old(lines)
        invariant survivors == Survivors(signed, lines, minEpoch, i)
      {
        var parsed := ParseVerified(signed, lines[i]);
        if parsed.Some? && parsed.value.epoch >= minEpoch {
          survivors := survivors + [lines[i]];
        }
      }
      lines := survivors;
    }
  }

  /** The head is a verified line, none verified is above it, and there is one iff any line verifies. */
  lemma {:induction false} HeadIsHighest(signed: set<Message>, lines: seq<Line>, n: nat)
    requires n <= |lines|
    ensures var head := HeadOf(signed, lines, n);
      && (head.Some? ==> exists i :: 0 <= i < n && ParseVerified(signed, lines[i]) == head)
      && (forall i :: 0 <= i < n && ParseVerified(signed, lines[i]).Some? ==>
            head.Some? && ParseVerified(signed, lines[i]).value.epoch <= head.value.epoch)
  {
    if n > 0 {
      HeadIsHighest(signed, lines, n - 1);
    }
  }

  lemma {:induction false} HeadOfPrefix(signed: set<Message>, lines: seq<Line>, longer: seq<Line>, n: nat)
    requires lines <= longer && n <= |lines|
    ensures HeadOf(signed, longer, n) == HeadOf(signed, lines, n)
  {
    if n > 0 {
      HeadOfPrefix(signed, lines, longer, n - 1);
    }
  }

  /** Recording never lowers the watermark, and raises it to any newer epoch recorded. */
  lemma RecordRaisesHead(signed: set<Message>, lines: seq<Line>, epoch: int, hash: string)
    requires AnchorMessage(epoch, hash) in signed
    ensures var before, after := Head(signed, lines), Head(signed, lines + [SignedLine(epoch, hash)]);
      after == if before.Some? && before.value.epoch >= epoch then before else Some(Witness(epoch, hash))
  {
    HeadOfPrefix(signed, lines, lines + [SignedLine(epoch, hash)], |lines|);
  }

  lemma {:induction false} SurvivorsHead(signed: set<Message>, lines: seq<Line>, minEpoch: int, n: nat)
    requires n <= |lines|
    ensures var head := HeadOf(signed, lines, n);
      Head(signed, Survivors(signed, lines, minEpoch, n))
        == if head.Some? && head.value.epoch >= minEpoch then head else None
  {
    if n > 0 {
      SurvivorsHead(signed, lines, minEpoch, n - 1);
      var kept := Survivors(signed, lines, minEpoch, n - 1);
      HeadOfPrefix(signed, kept, kept + [lines[n - 1]], |kept|);
    }
  }

  /** A rotation keeps the watermark exactly when it is at or above the cut; otherwise nothing is left. */
  lemma RotationKeepsHeadIff(signed: set<Message>, lines: seq<Line>, minEpoch: int)
    ensures var head, rotated := Head(signed, lines), Head(signed, Survivors(signed, lines, minEpoch, |lines|));
      && (rotated == head <==> (head.None? || head.value.epoch >= minEpoch))
      && (rotated != head ==> rotated == None)
  {
    SurvivorsHead(signed, lines, minEpoch, |lines|);
  }

  /** A line a rotation keeps: verified, at or above the cut. */
  predicate Surviving(signed: set<Message>, line: Line, minEpoch: int) {
    && line.Line? && line.epoch >= minEpoch
    && line.signature == AnchorMessage(line.epoch, line.hash) && line.signature in signed
  }

  /** The positions of the kept lines: all of those that are to be kept, each once, in order. */
  ghost predicate KeptAt(signed: set<Message>, lines: seq<Line>, minEpoch: int, n: nat, kept: seq<Line>, at: seq<nat>)
    requires n <= |lines|
  {
    && |at| == |kept|
    && (forall i :: 0 <= i < |at| ==> at[i] < n && kept[i] == lines[at[i]])
    && (forall i, j :: 0 <= i < j < |at| ==> at[i] < at[j])
    && forall k: nat :: k < n ==> (k in at <==> Surviving(signed, lines[k], minEpoch))
  }

  /** A rotation keeps every verified line at or above the cut, in order, and nothing else. */
  lemma {:induction false} RotationKeepsExactly(signed: set<Message>, lines: seq<Line>, minEpoch: int, n: nat)
    returns (at: seq<nat>)
    requires n <= |lines|
    ensures KeptAt(signed, lines, minEpoch, n, Survivors(signed, lines, minEpoch, n), at)
  {
    at := [];
    if n > 0 {
      at := RotationKeepsExactly(signed, lines, minEpoch, n - 1);
      if Surviving(signed, lines[n - 1], minEpoch) {
        var longer := at + [n - 1];
        assert longer[|at|] == n - 1;
        forall k: nat | k < n
          ensures k in longer <==> Surviving(signed, lines[k], minEpoch)
        {
        }
        at := longer;
      }
    }
  }
}
