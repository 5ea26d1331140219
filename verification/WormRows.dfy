/**
 Index rows of folded epochs. Compaction deletes a header from the stream first and its row
 in the header index after; a crash in between leaves rows that no later compaction finds,
 and nothing else does.
 */
module WormRows {
  import opened WormFold
  import opened WormInvariant
  import opened WormMachine
  import opened WormRuns
  import opened WormSteps
  import opened WormStore

  /** An index row of an epoch whose header is gone from the stream, and which no deletion under way names. */
  ghost predicate RowLeft(s: State, k: int) {
    k in s.db.index && k < s.dropped && (s.pc.CompactDelete? || s.pc.CompactIndex? ==> k !in s.pc.folded)
  }

  /** A scan of the stream only names epochs that are still in it. */
  lemma ScanNamesStream(c: Crypto, s: State, target: int, k: int)
    requires s in Safe(c) && k in FoldedEpochs(s.db.epochs, target)
    ensures s.dropped <= k
  {
    SafeMeans(c, s);
    var e :| e in s.db.epochs && Folded(e, target) && EpochField(e.fields).value == k;
    var i: nat :| i < |s.db.epochs| && s.db.epochs[i] == e;
    FoldedIff(c, s.hist, s.sids, s.dropped, s.db.epochs, target, i);
  }

  lemma CompactLeavesRow(c: Crypto, s: State, k: int)
    requires s in Safe(c) && s.pc.Compacting() && RowLeft(s, k)
    ensures RowLeft(CompactStep(s), k)
  {
    if s.pc.CompactScan? && k in FoldedEpochs(s.db.epochs, s.pc.target) {
      ScanNamesStream(c, s, s.pc.target, k);
    }
  }

  lemma OtherLeavesRow(c: Crypto, s: State, a: Action, k: int)
    requires RowLeft(s, k) && Enabled(s, a) && (a.Progress? ==> !s.pc.Compacting())
    ensures RowLeft(Apply(c, s, a), k)
  {
  }

  lemma NextLeavesRow(c: Crypto, states: seq<State>, actions: seq<Action>, k: int, i: nat)
    requires Run(c, states, actions) && i < |actions| && states[i] in Safe(c) && RowLeft(states[i], k)
    ensures RowLeft(states[i + 1], k)
  {
    assert StepAt(c, states, actions, i);
    if actions[i].Progress? && states[i].pc.Compacting() {
      CompactLeavesRow(c, states[i], k);
    } else {
      OtherLeavesRow(c, states[i], actions[i], k);
    }
  }

  /**
   An index row left behind by a compaction that was cut short after the header deletion
   stays for the rest of every run: later scans only see the headers still in the stream.
   */
  lemma {:induction false} RowLeftForGood(c: Crypto, states: seq<State>, actions: seq<Action>, k: int, j: nat, i: nat)
    requires Run(c, states, actions) && states[0] in Safe(c) && j <= i <= |actions| && RowLeft(states[j], k)
    ensures RowLeft(states[i], k)
    decreases i
  {
    if j < i {
      RowLeftForGood(c, states, actions, k, j, i - 1);
      RunIsSafe(c, states, actions, i - 1);
      NextLeavesRow(c, states, actions, k, i - 1);
    }
  }

  // ----- what every run keeps -----------------------------------------------------------------------------

  /**
   From the checkpoint to the deletion of its rows, the target's row is there; its header is
   until the stream's entries are deleted, and then it is among the folded epochs.
   */
  ghost predicate TargetHeld(s: State) {
    match s.pc
    case CompactScan(target) => target in s.db.index && s.dropped <= target
    case CompactDelete(target, sids, folded) =>
      target in s.db.index && s.dropped <= target && folded == FoldedEpochs(s.db.epochs, target)
    case CompactIndex(target, folded) => target in s.db.index && target < s.dropped && target in folded
    case _ => true
  }

  /** The scan names exactly the epochs up to the target that are in the stream. */
  lemma ScanNamesIff(c: Crypto, s: State, target: int, k: int)
    requires s in Safe(c) && target < |s.hist.sealed|
    ensures k in FoldedEpochs(s.db.epochs, target) <==> s.dropped <= k <= target
  {
    SafeMeans(c, s);
    if k in FoldedEpochs(s.db.epochs, target) {
      var e :| e in s.db.epochs && Folded(e, target) && EpochField(e.fields).value == k;
      var i: nat :| i < |s.db.epochs| && s.db.epochs[i] == e;
      FoldedIff(c, s.hist, s.sids, s.dropped, s.db.epochs, target, i);
    }
    if s.dropped <= k <= target {
      FoldedIff(c, s.hist, s.sids, s.dropped, s.db.epochs, target, k - s.dropped);
      assert s.db.epochs[k - s.dropped] in s.db.epochs;
    }
  }

  /** What a compaction about to set its checkpoint knows of its target. */
  lemma SafeTarget(c: Crypto, s: State)
    requires s in Safe(c) && s.pc.CompactSet?
    ensures s.pc.target in s.db.index && s.dropped <= s.pc.target < |s.hist.sealed|
  {
    SafeMeans(c, s);
    assert IndexEntryOk(s.hist, First(s), s.db.index, s.pc.target);
  }

  lemma SafeFolding(c: Crypto, s: State)
    requires s in Safe(c) && (s.pc.CompactScan? || s.pc.CompactDelete?)
    ensures s.pc.target < |s.hist.sealed|
  {
    SafeMeans(c, s);
  }

  lemma CompactHeld(c: Crypto, s: State)
    requires s in Safe(c) && s.pc.Compacting() && TargetHeld(s)
    ensures TargetHeld(CompactStep(s))
  {
    if s.pc.CompactSet? {
      SafeTarget(c, s);
    } else if s.pc.CompactDelete? {
      SafeFolding(c, s);
      ScanNamesIff(c, s, s.pc.target, s.pc.target);
    }
  }

  lemma ElseHeld(c: Crypto, s: State, a: Action)
    requires TargetHeld(s) && Enabled(s, a) && (a.Progress? ==> !s.pc.Compacting())
    ensures TargetHeld(Apply(c, s, a))
  {
  }

  // ----- rows of the stream's headers only -----------------------------------------------------------------

  /** A row of a header in the stream, or one about to be deleted. */
  ghost predicate RowTidy(s: State, k: int) {
    k in s.db.index ==> s.dropped <= k || (s.pc.CompactIndex? && k in s.pc.folded)
  }

  ghost predicate AllTidy(s: State) { forall k :: RowTidy(s, k) }

  lemma CompactTidy(c: Crypto, s: State)
    requires s in Safe(c) && s.pc.Compacting() && TargetHeld(s) && AllTidy(s)
    ensures AllTidy(CompactStep(s))
  {
    if s.pc.CompactDelete? {
      SafeFolding(c, s);
    }
    forall k
      ensures RowTidy(CompactStep(s), k)
    {
      assert RowTidy(s, k);
      if s.pc.CompactDelete? {
        ScanNamesIff(c, s, s.pc.target, k);
      }
    }
  }

  lemma CommitTidy(c: Crypto, s: State, now: int, sid: StreamId)
    requires s in Safe(c) && s.pc.Commit? && AllTidy(s)
    ensures AllTidy(CloseStep(c, s, now, sid))
  {
    SafeAppend(c, s);
    CommitIs(c, s, s.pc.pending, now, sid);
    forall k
      ensures RowTidy(CloseStep(c, s, now, sid), k)
    {
      assert RowTidy(s, k);
    }
  }

  lemma SafeAppend(c: Crypto, s: State)
    requires s in Safe(c) && s.pc.Commit?
    ensures s.dropped <= |s.hist.sealed| && PendingOk(s.hist, s.pc.pending) && s.db.num.GetOr(-1) < |s.hist.sealed|
    ensures s.pc == Commit(s.pc.pending, s.hist.Link(|s.hist.sealed|), |s.hist.sealed|)
  {
    SafeMeans(c, s);
    CountersRead(s.hist, s.db.num, s.db.lastSeq, s.db.head);
  }

  lemma ElseTidy(c: Crypto, s: State, a: Action)
    requires AllTidy(s) && Enabled(s, a) && !(a.Crash? && s.pc.CompactIndex?)
    requires a.Progress? ==> !s.pc.Compacting() && !s.pc.Commit?
    ensures AllTidy(Apply(c, s, a))
  {
    forall k
      ensures RowTidy(Apply(c, s, a), k)
    {
      assert RowTidy(s, k);
    }
  }

  /** A crash between the deletion of the headers and that of their rows. */
  predicate CrashesBetween(s: State, a: Action) { a.Crash? && s.pc.CompactIndex? }

  lemma StepTidy(c: Crypto, s: State, a: Action)
    requires s in Safe(c) && Enabled(s, a) && TargetHeld(s)
    ensures TargetHeld(Apply(c, s, a))
    ensures AllTidy(s) && !CrashesBetween(s, a) ==> AllTidy(Apply(c, s, a))
  {
    if a.Progress? && s.pc.Compacting() {
      CompactHeld(c, s);
      if AllTidy(s) {
        CompactTidy(c, s);
      }
    } else {
      ElseHeld(c, s, a);
      if AllTidy(s) && !CrashesBetween(s, a) {
        if a.Progress? && s.pc.Commit? {
          CommitTidy(c, s, a.now, a.sid);
        } else {
          ElseTidy(c, s, a);
        }
      }
    }
  }

  lemma NextTidy(c: Crypto, states: seq<State>, actions: seq<Action>, i: nat)
    requires Run(c, states, actions) && i < |actions| && states[i] in Safe(c) && TargetHeld(states[i])
    ensures TargetHeld(states[i + 1])
    ensures AllTidy(states[i]) && !CrashesBetween(states[i], actions[i]) ==> AllTidy(states[i + 1])
  {
    assert StepAt(c, states, actions, i);
    StepTidy(c, states[i], actions[i]);
  }

  ghost predicate NoCrashBetween(states: seq<State>, actions: seq<Action>, i: nat)
    requires i <= |actions| < |states|
  {
    forall j :: 0 <= j < i ==> !CrashesBetween(states[j], actions[j])
  }

  lemma {:induction false} RunTidy(c: Crypto, states: seq<State>, actions: seq<Action>, anchored: bool, i: nat)
    requires Run(c, states, actions) && states[0] == Initial(anchored) && i <= |actions|
    ensures states[i] in Safe(c) && TargetHeld(states[i])
    ensures NoCrashBetween(states, actions, i) ==> AllTidy(states[i])
  {
    InitialSafe(c, anchored);
    RunIsSafe(c, states, actions, i);
    if i > 0 {
      RunTidy(c, states, actions, anchored, i - 1);
      NextTidy(c, states, actions, i - 1);
    }
  }

  /** A crash there leaves the target's row behind. */
  lemma CrashLeavesRow(c: Crypto, s: State)
    requires TargetHeld(s) && s.pc.CompactIndex?
    ensures RowLeft(Apply(c, s, Crash), s.pc.target)
  {
  }

  /** Every row is that of a header still in the stream. */
  ghost predicate RowsExact(s: State) { forall k :: k in s.db.index ==> s.dropped <= k }

  lemma CrashedStays(c: Crypto, states: seq<State>, actions: seq<Action>, anchored: bool, j: nat, i: nat)
    requires Run(c, states, actions) && states[0] == Initial(anchored) && j < i <= |actions|
    requires CrashesBetween(states[j], actions[j])
    ensures !RowsExact(states[i])
  {
    RunTidy(c, states, actions, anchored, 0);
    RunTidy(c, states, actions, anchored, j);
    assert StepAt(c, states, actions, j);
    CrashLeavesRow(c, states[j]);
    RowLeftForGood(c, states, actions, states[j].pc.target, j + 1, i);
  }

  /**
   In every run from an empty ledger, whenever nobody holds the lock, the header index has rows
   only of headers still in the stream if and only if no compaction crashed between deleting
   headers and deleting their rows.
   */
  lemma RowsExactIff(c: Crypto, states: seq<State>, actions: seq<Action>, anchored: bool, i: nat)
    requires Run(c, states, actions) && states[0] == Initial(anchored) && i <= |actions| && states[i].pc.Idle?
    ensures RowsExact(states[i]) <==> NoCrashBetween(states, actions, i)
  {
    RunTidy(c, states, actions, anchored, i);
    if NoCrashBetween(states, actions, i) {
      forall k | k in states[i].db.index
        ensures states[i].dropped <= k
      {
        assert RowTidy(states[i], k);
      }
    } else {
      var j: nat :| j < i && CrashesBetween(states[j], actions[j]);
      CrashedStays(c, states, actions, anchored, j, i);
    }
  }
}
