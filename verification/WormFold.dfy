/**
 Verifications and compactions keep the invariant of the ledger machine: a verification of
 an undisturbed ledger ends intact, and a compaction only folds what its checkpoint covers.
 */
module WormFold {
  import opened Anchor
  import opened Bytes
  import opened WormHistory
  import opened WormHonest
  import opened WormInvariant
  import opened WormMachine
  import opened WormSoundness
  import opened WormSteps
  import opened WormStore
  import opened WormTrim
  import opened WormVerify
  import opened Wrappers

  // ----- verification ------------------------------------------------------------------------

  /** Whatever the anchor file holds, its head was sealed: only sealed heads were signed. */
  lemma HeadIsGenuine(hist: History, signed: set<Message>, lines: seq<Line>)
    requires SignedHonest(hist, signed)
    ensures WitnessHonest(hist, Head(signed, lines))
  {
    var head := Head(signed, lines);
    HeadIsHighest(signed, lines, |lines|);
    if head.Some? {
      var i :| 0 <= i < |lines| && ParseVerified(signed, lines[i]) == head;
      assert Genuine(hist, lines[i].signature);
    }
  }

  lemma StreamIsSealed(hist: History, sids: seq<StreamId>, dropped: nat, epochs: seq<EpochEntry>)
    requires StreamOk(hist, sids, dropped, epochs)
    ensures SealedFrom(hist, epochs, dropped)
  {
    forall i | 0 <= i < |epochs|
      ensures epochs[i].fields == Readable(hist.sealed[dropped + i])
    {
      assert StreamEntryOk(hist, sids, dropped, epochs, i);
    }
  }

  /** What a finished verification read is an honest snapshot. */
  lemma SnapshotIsHonest(c: Crypto, s: State, snap: Snapshot)
    requires StoreOk(c, s.db, s.hist, s.sids, s.signed, s.trimmed, s.dropped)
    requires SnapshotOk(s.db, s.hist, s.trimmed, 6, snap)
    ensures HonestSnapshot(s.hist, s.signed, snap.(head := s.db.head), s.trimmed, s.dropped,
                           s.hist.Start(s.trimmed) - 1 + |snap.events|)
  {
    SealedThroughBounds(c, s.hist, s.trimmed);
    StreamIsSealed(s.hist, s.sids, s.dropped, s.db.epochs);
    var lo, first := s.hist.Start(s.trimmed) - 1, FirstEpoch(CellCheckpoint(s.db.checkpoint));
    assert first <= |s.hist.sealed|;
  }

  lemma VerdictIsIntact(c: Crypto, s: State, snap: Snapshot)
    requires StoreOk(c, s.db, s.hist, s.sids, s.signed, s.trimmed, s.dropped)
    requires SnapshotOk(s.db, s.hist, s.trimmed, 6, snap)
    ensures VerdictOf(c, s.signed, snap.(head := s.db.head)) == INTACT
  {
    SnapshotIsHonest(c, s, snap);
    HonestSnapshotIntact(c, s.hist, s.signed, snap.(head := s.db.head), s.trimmed, s.dropped,
                         s.hist.Start(s.trimmed) - 1 + |snap.events|);
  }

  /** Each read keeps the snapshot in step with the store. */
  lemma NextRead(c: Crypto, s: State, goal: Goal, stage: nat, snap: Snapshot)
    requires HistoryOk(c, s.hist) && BufferOk(s.hist, s.trimmed, s.db.events) && SignedHonest(s.hist, s.signed)
    requires SnapshotOk(s.db, s.hist, s.trimmed, stage, snap) && stage < 6
    ensures VerifyStep(c, s, goal, stage, snap).pc.Verifying?
    ensures var pc := VerifyStep(c, s, goal, stage, snap).pc;
      pc.goal == goal && SnapshotOk(s.db, s.hist, s.trimmed, pc.stage, pc.snap)
  {
    if stage == 0 {
      HeadIsGenuine(s.hist, s.signed, s.anchor);
    } else if stage == 3 {
      SealedThroughBounds(c, s.hist, s.trimmed);
    }
  }

  lemma VerifyIsSafe(c: Crypto, s: State, goal: Goal, stage: nat, snap: Snapshot)
    requires s in Safe(c) && s.pc == Verifying(goal, stage, snap)
    ensures VerifyStep(c, s, goal, stage, snap) in Safe(c)
  {
    SafeMeans(c, s);
    if stage < 6 {
      NextRead(c, s, goal, stage, snap);
    } else {
      VerdictIsIntact(c, s, snap);
    }
    ReadIsSafe(c, s, VerifyStep(c, s, goal, stage, snap).pc);
  }

  lemma VerifiedIsSafe(c: Crypto, s: State, goal: Goal, verdict: Verdict)
    requires s in Safe(c) && s.pc == Verified(goal, verdict)
    ensures VerifiedStep(s, goal, verdict) in Safe(c)
  {
    SafeMeans(c, s);
    if goal.Fold? {
      IndexRead(s.hist, FirstEpoch(CellCheckpoint(s.db.checkpoint)), s.db, goal.target);
    }
    ReadIsSafe(c, s, VerifiedStep(s, goal, verdict).pc);
  }

  // ----- compaction: what it drops --------------------------------------------------------------

  lemma SidsDistinct(sids: seq<StreamId>, i: nat, j: nat)
    requires i < |sids| && j < |sids| && SidsOk(sids, |sids|) && sids[i] == sids[j]
    ensures i == j
  {
    if i < j {
      SidsIncrease(sids, |sids|, i, j);
    } else if j < i {
      SidsIncrease(sids, |sids|, j, i);
    }
  }

  lemma {:induction false} SidsIncrease(sids: seq<StreamId>, n: nat, i: nat, j: nat)
    requires i < j < n <= |sids| && SidsOk(sids, n)
    ensures sids[i] < sids[j]
  {
    if j < n - 1 {
      SidsIncrease(sids, n - 1, i, j);
    } else if i < j - 1 {
      SidsIncrease(sids, n - 1, i, j - 1);
    }
  }

  /** A deletion that hits exactly the first `a` entries leaves the rest. */
  lemma {:induction false} WithoutPrefix(entries: seq<EpochEntry>, sids: set<StreamId>, a: nat)
    requires a <= |entries| && forall i :: 0 <= i < |entries| ==> (entries[i].sid in sids <==> i < a)
    ensures Without(entries, sids) == entries[a..]
  {
    if entries != [] {
      assert entries[0].sid in sids <==> 0 < a;
      if a > 0 {
        WithoutPrefix(entries[1..], sids, a - 1);
        assert entries[1..][a - 1..] == entries[a..];
      } else {
        WithoutPrefix(entries[1..], sids, 0);
        assert entries == [entries[0]] + entries[1..];
      }
    }
  }

  /** The scan marks exactly the headers of epochs up to the target. */
  lemma FoldedIff(
    c: Crypto, hist: History, sids: seq<StreamId>, dropped: nat, epochs: seq<EpochEntry>, target: int, i: nat)
    requires HistoryOk(c, hist) && StreamOk(hist, sids, dropped, epochs) && i < |epochs|
    ensures Folded(epochs[i], target) <==> dropped + i <= target
    ensures EpochField(epochs[i].fields) == Some(dropped + i)
  {
    assert StreamEntryOk(hist, sids, dropped, epochs, i);
    assert hist.sealed[dropped + i].core.epoch == dropped + i by { SealedPartition(c, hist, dropped + i); }
  }

  lemma FoldedSidIff(
    c: Crypto, hist: History, sids: seq<StreamId>, dropped: nat, epochs: seq<EpochEntry>, target: int, i: nat)
    requires HistoryOk(c, hist) && StreamOk(hist, sids, dropped, epochs) && i < |epochs|
    ensures epochs[i].sid in FoldedSids(epochs, target) <==> dropped + i <= target
  {
    FoldedIff(c, hist, sids, dropped, epochs, target, i);
    if epochs[i].sid in FoldedSids(epochs, target) {
      var e :| e in epochs && Folded(e, target) && e.sid == epochs[i].sid;
      var j :| 0 <= j < |epochs| && epochs[j] == e;
      FoldedIff(c, hist, sids, dropped, epochs, target, j);
      assert StreamEntryOk(hist, sids, dropped, epochs, i) && StreamEntryOk(hist, sids, dropped, epochs, j);
      SidsDistinct(sids, dropped + i, dropped + j);
    } else {
      assert epochs[i] in epochs;
    }
  }

  lemma DeletingKeepsStream(
    c: Crypto, hist: History, sids: seq<StreamId>, dropped: nat, epochs: seq<EpochEntry>, target: nat)
    requires HistoryOk(c, hist) && StreamOk(hist, sids, dropped, epochs) && target < |hist.sealed|
    ensures StreamOk(hist, sids, Max(dropped, target + 1), Without(epochs, FoldedSids(epochs, target)))
  {
    var a := Max(dropped, target + 1) - dropped;
    var marked := FoldedSids(epochs, target);
    forall i | 0 <= i < |epochs|
      ensures epochs[i].sid in marked <==> i < a
    {
      FoldedSidIff(c, hist, sids, dropped, epochs, target, i);
    }
    WithoutPrefix(epochs, marked, a);
    var dropped', epochs' := dropped + a, epochs[a..];
    forall i
      ensures StreamEntryOk(hist, sids, dropped', epochs', i)
    {
      assert StreamEntryOk(hist, sids, dropped, epochs, a + i);
    }
  }

  /** Every epoch the scan marks is at or below the target. */
  lemma MarkedBelow(entries: seq<EpochEntry>, target: int)
    ensures forall k :: k in FoldedEpochs(entries, target) ==> k <= target
  {
  }

  // ----- compaction: the lookups ------------------------------------------------------------------

  lemma FoldingKeepsIndex(hist: History, first: int, index: map<int, Fields>, folded: set<int>)
    requires IndexOk(hist, first, index) && forall k :: k in folded ==> k < first
    ensures IndexOk(hist, first, index - folded)
  {
    var index' := index - folded;
    forall k
      ensures IndexEntryOk(hist, first, index', k)
    {
      assert IndexEntryOk(hist, first, index, k);
    }
  }

  lemma FoldingKeepsStreamIds(sids: seq<StreamId>, first: int, streamId: map<int, StreamId>, folded: set<int>)
    requires StreamIdsOk(sids, first, streamId) && forall k :: k in folded ==> k < first
    ensures StreamIdsOk(sids, first, streamId - folded)
  {
    var streamId' := streamId - folded;
    forall k
      ensures StreamIdEntryOk(sids, first, streamId', k)
    {
      assert StreamIdEntryOk(sids, first, streamId, k);
    }
  }

  lemma FoldingKeepsLeaves(c: Crypto, hist: History, first: int, leaves: map<int, seq<Bytes>>, folded: set<int>)
    requires LeavesOk(c, hist, first, leaves) && forall k :: k in folded ==> k < first
    ensures LeavesOk(c, hist, first, leaves - folded)
  {
    var leaves' := leaves - folded;
    forall k
      ensures LeavesEntryOk(c, hist, first, leaves', k)
    {
      assert LeavesEntryOk(c, hist, first, leaves, k);
    }
  }

  /** A later checkpoint asks less of the lookups. */
  lemma LookupsOfLater(c: Crypto, db: Redis, hist: History, sids: seq<StreamId>, first: int, first': int)
    requires LookupsOk(c, db, hist, sids, first) && first <= first'
    ensures LookupsOk(c, db, hist, sids, first')
  {
    forall k
      ensures IndexEntryOk(hist, first', db.index, k)
    {
      assert IndexEntryOk(hist, first, db.index, k);
    }
    forall k
      ensures StreamIdEntryOk(sids, first', db.streamId, k)
    {
      assert StreamIdEntryOk(sids, first, db.streamId, k);
    }
    forall k
      ensures LeavesEntryOk(c, hist, first', db.leaves, k)
    {
      assert LeavesEntryOk(c, hist, first, db.leaves, k);
    }
  }

  // ----- compaction: the steps ----------------------------------------------------------------------

  lemma CompactReadsAreSafe(c: Crypto, s: State)
    requires s in Safe(c) && (s.pc.CompactGetNum? || s.pc.CompactGetCheckpoint? || s.pc.CompactScan?)
    ensures CompactStep(s) in Safe(c)
  {
    if s.pc.CompactGetNum? {
      SafeMeans(c, s);
      ReadIsSafe(c, s, CompactStep(s).pc);
    } else if s.pc.CompactGetCheckpoint? {
      CheckpointReadIsSafe(c, s);
    } else {
      ScanIsSafe(c, s);
    }
  }

  lemma CheckpointReadIsSafe(c: Crypto, s: State)
    requires s in Safe(c) && s.pc.CompactGetCheckpoint?
    ensures CompactStep(s) in Safe(c)
  {
    SafeMeans(c, s);
    CheckpointReadOk(s, s.pc.target);
    ReadIsSafe(c, s, CompactStep(s).pc);
  }

  /** A compaction that goes on to verify does so for a target above the checkpoint. */
  lemma CheckpointReadOk(s: State, target: int)
    requires s.trimmed <= |s.hist.sealed| && CheckpointHonest(s.hist, CellCheckpoint(s.db.checkpoint))
    requires s.pc.CompactGetCheckpoint? && s.pc.target == target
    ensures PcOk(CompactStep(s))
  {
  }

  lemma ScanIsSafe(c: Crypto, s: State)
    requires s in Safe(c) && s.pc.CompactScan?
    ensures CompactStep(s) in Safe(c)
  {
    SafeMeans(c, s);
    MarkedBelow(s.db.epochs, s.pc.target);
    ReadIsSafe(c, s, CompactStep(s).pc);
  }

  lemma SettingKeepsEvents(c: Crypto, s: State, header: Header, target: int)
    requires EventsOk(c, s.db, s.hist, s.signed, s.trimmed) && 0 <= target < |s.hist.sealed|
    requires header == s.hist.sealed[target]
    ensures var m := CheckpointMessage(target, header.hash, header.core.end);
      EventsOk(c, SetCheckpoint(s.db, Checkpoint(target, header.hash, header.core.end)), s.hist, s.signed + {m},
               s.trimmed)
  {
    SigningKeeps(s.hist, s.signed, CheckpointMessage(target, header.hash, header.core.end));
  }

  lemma CompactSetIsSafe(c: Crypto, s: State)
    requires s in Safe(c) && s.pc.CompactSet?
    ensures CompactStep(s) in Safe(c)
  {
    SafeMeans(c, s);
    var header, target := s.pc.header, s.pc.target;
    SettingKeepsStore(c, s, header, target);
    assert Inv(c, CompactStep(s));
  }

  lemma SettingKeepsStore(c: Crypto, s: State, header: Header, target: int)
    requires StoreOk(c, s.db, s.hist, s.sids, s.signed, s.trimmed, s.dropped)
    requires 0 <= target < |s.hist.sealed| && header == s.hist.sealed[target]
    requires FirstEpoch(CellCheckpoint(s.db.checkpoint)) <= target
    ensures var m := CheckpointMessage(target, header.hash, header.core.end);
      StoreOk(c, SetCheckpoint(s.db, Checkpoint(target, header.hash, header.core.end)), s.hist, s.sids, s.signed + {m},
              s.trimmed, s.dropped)
  {
    SettingKeepsEvents(c, s, header, target);
    LookupsOfLater(c, s.db, s.hist, s.sids, FirstEpoch(CellCheckpoint(s.db.checkpoint)), target + 1);
  }

  lemma CompactDeleteIsSafe(c: Crypto, s: State)
    requires s in Safe(c) && s.pc.CompactDelete?
    ensures CompactStep(s) in Safe(c)
  {
    SafeMeans(c, s);
    DeletingKeepsStore(c, s.db, s.hist, s.sids, s.signed, s.trimmed, s.dropped, s.pc.target);
    assert Inv(c, CompactStep(s));
  }

  lemma DeletingKeepsStore(
    c: Crypto, db: Redis, hist: History, sids: seq<StreamId>, signed: set<Message>, trimmed: nat, dropped: nat,
      target: nat)
    requires StoreOk(c, db, hist, sids, signed, trimmed, dropped)
    requires target < |hist.sealed| && FirstEpoch(CellCheckpoint(db.checkpoint)) == target + 1
    ensures StoreOk(c, DeleteEntries(db, FoldedSids(db.epochs, target)), hist, sids, signed, trimmed,
                    Max(dropped, target + 1))
  {
    DeletingKeepsStream(c, hist, sids, dropped, db.epochs, target);
  }

  lemma CompactIndexIsSafe(c: Crypto, s: State)
    requires s in Safe(c) && s.pc.CompactIndex?
    ensures CompactStep(s) in Safe(c)
  {
    SafeMeans(c, s);
    FoldingKeepsIndex(s.hist, s.pc.target + 1, s.db.index, s.pc.folded);
    assert Inv(c, CompactStep(s));
  }

  lemma CompactStreamIdsIsSafe(c: Crypto, s: State)
    requires s in Safe(c) && s.pc.CompactStreamIds?
    ensures CompactStep(s) in Safe(c)
  {
    SafeMeans(c, s);
    FoldingKeepsStreamIds(s.sids, s.pc.target + 1, s.db.streamId, s.pc.folded);
    assert Inv(c, CompactStep(s));
  }

  lemma CompactLeavesIsSafe(c: Crypto, s: State)
    requires s in Safe(c) && s.pc.CompactLeaves?
    ensures CompactStep(s) in Safe(c)
  {
    SafeMeans(c, s);
    FoldingKeepsLeaves(c, s.hist, s.pc.target + 1, s.db.leaves, s.pc.folded);
    assert Inv(c, CompactStep(s));
  }

  lemma CompactAnchorIsSafe(c: Crypto, s: State)
    requires s in Safe(c) && s.pc.CompactAnchor?
    ensures CompactStep(s) in Safe(c)
  {
    SafeMeans(c, s);
    assert Inv(c, CompactStep(s));
  }

  lemma CompactIsSafe(c: Crypto, s: State)
    requires s in Safe(c) && s.pc.Compacting()
    ensures CompactStep(s) in Safe(c)
  {
    match s.pc {
      case CompactSet(_, _) => CompactSetIsSafe(c, s);
      case CompactDelete(_, _, _) => CompactDeleteIsSafe(c, s);
      case CompactIndex(_, _) => CompactIndexIsSafe(c, s);
      case CompactStreamIds(_, _) => CompactStreamIdsIsSafe(c, s);
      case CompactLeaves(_, _) => CompactLeavesIsSafe(c, s);
      case CompactAnchor(_) => CompactAnchorIsSafe(c, s);
      case _ => CompactReadsAreSafe(c, s);
    }
  }
}
