/**
 Which events acceptance protects. Epochs behind the hot window may be gone, and so may
 those folded into the checkpoint, hot or not: the replay skips their headers, so nothing
 asks for their events.
 */
module WormHotWindow {
  import opened Bytes
  import opened WormHistory
  import opened WormHonest
  import opened WormInvariant
  import opened WormLogger
  import opened WormMachine
  import opened WormRuns
  import opened WormSoundness
  import opened WormSteps
  import opened WormStore
  import opened WormVerify
  import opened Wrappers

  /** A store over this checkpoint cell that claims `m` epochs is accepted without a header collision. */
  ghost predicate Accepts(
    c: Crypto, hist: History, signed: set<Message>, cell: CheckpointCell, m: nat, snap: Snapshot)
  {
    && snap.cell == cell && Claimed(snap) == m && VerdictOf(c, signed, snap) == INTACT
    && !Collide(c.core, SealedCores(hist), StoredCores(snap.headers))
  }

  /** Such a store without a single event of epoch `k`. */
  ghost predicate AcceptsWithout(
    c: Crypto, hist: History, signed: set<Message>, cell: CheckpointCell, m: nat, k: nat, snap: Snapshot)
    requires k < |hist.sealed| && hist.Covers(k)
  {
    Accepts(c, hist, signed, cell, m, snap) && HoldsNone(hist, AllRecords(snap.events), k)
  }

  // ----- what acceptance rules out ---------------------------------------------------------------------

  /** Acceptance without any event of a replayed epoch means the epoch is behind the hot window. */
  lemma GoneIsCold(
    c: Crypto, hist: History, signed: set<Message>, cell: CheckpointCell, m: nat, k: nat, snap: Snapshot)
    requires HistoryOk(c, hist) && SignedHonest(hist, signed) && k < m <= |hist.sealed| && hist.Covers(k)
    requires AcceptsWithout(c, hist, signed, cell, m, k, snap)
    ensures FirstEpoch(CellCheckpoint(cell)) <= m
    ensures k < FirstEpoch(CellCheckpoint(cell)) || k < m - WORM_HOT_EPOCHS
  {
    var cp, records, watermark := CellCheckpoint(cell), AllRecords(snap.events), Watermark(snap.num);
    IntactMeans(c, signed, snap);
    CleanReplayPins(c, hist, signed, cp, snap.expected, records, watermark, snap.headers, |snap.headers|);
    if FirstEpoch(cp) <= k {
      PresenceAt(c, hist, records, watermark, FirstEpoch(cp), m, k);
      SealedPartition(c, hist, k);
      PresentEmpty(records, hist.Start(k), hist.sealed[k].core.end);
    }
  }

  // ----- an accepted store without them ----------------------------------------------------------------

  /** The history when `m` epochs were sealed. */
  function FirstSealed(hist: History, m: nat): History
    requires m <= |hist.sealed|
  {
    History(hist.log, hist.sealed[..m])
  }

  lemma {:induction false} FirstSealedOk(c: Crypto, hist: History, m: nat, n: nat)
    requires n <= m <= |hist.sealed| && SealedOk(c, hist, |hist.sealed|)
    ensures SealedOk(c, FirstSealed(hist, m), n)
  {
    if n > 0 {
      FirstSealedOk(c, hist, m, n - 1);
      EpochOkAt(c, hist, |hist.sealed|, n - 1);
      var early := FirstSealed(hist, m);
      assert early.Start(n - 1) == hist.Start(n - 1) && early.Link(n - 1) == hist.Link(n - 1);
      assert early.Covers(n - 1) && early.Block(n - 1) == hist.Block(n - 1);
    }
  }

  /** The headers from number `lo` on. */
  function Headers(hist: History, lo: nat): (headers: seq<EpochEntry>)
    requires lo <= |hist.sealed|
    ensures SealedFrom(hist, headers, lo)
  {
    seq(|hist.sealed| - lo, i requires 0 <= i < |hist.sealed| - lo => EpochEntry(i, Readable(hist.sealed[lo + i])))
  }

  /** The sealed events from epoch `gone` on. */
  function EventsFrom(hist: History, gone: nat): seq<Event>
    requires gone <= |hist.sealed| && 1 <= hist.Start(gone) <= hist.Start(|hist.sealed|) <= |hist.log| + 1
  {
    hist.log[hist.Start(gone) - 1..hist.Start(|hist.sealed|) - 1]
  }

  /** What is left when the events of the first `gone` epochs are deleted, and the folded headers too. */
  ghost predicate Remaining(hist: History, cell: CheckpointCell, gone: nat, snap: Snapshot)
    requires 0 <= FirstEpoch(CellCheckpoint(cell)) <= |hist.sealed| && gone <= |hist.sealed|
    requires 1 <= hist.Start(gone) <= hist.Start(|hist.sealed|) <= |hist.log| + 1
  {
    && snap.expected == None && snap.cell == cell && snap.events == EventsFrom(hist, gone)
    && SealedFrom(hist, snap.headers, FirstEpoch(CellCheckpoint(cell)))
    && CountersOk(hist, snap.num, snap.lastSeq, snap.head)
  }

  lemma SomeRemaining(hist: History, cell: CheckpointCell, gone: nat) returns (snap: Snapshot)
    requires 0 <= FirstEpoch(CellCheckpoint(cell)) <= |hist.sealed| && gone <= |hist.sealed|
    requires 1 <= hist.Start(gone) <= hist.Start(|hist.sealed|) <= |hist.log| + 1
    ensures Remaining(hist, cell, gone, snap)
  {
    var k := |hist.sealed|;
    snap := Snapshot(None, cell, Headers(hist, FirstEpoch(CellCheckpoint(cell))), EventsFrom(hist, gone),
                     if k == 0 then None else Some(k - 1),
                     if k == 0 then None else Some(hist.sealed[k - 1].core.end),
                     if k == 0 then None else Some(hist.sealed[k - 1].hash));
  }

  /** It is accepted when every deleted epoch is folded or behind the hot window. */
  lemma RemainingIsIntact(
    c: Crypto, hist: History, signed: set<Message>, cell: CheckpointCell, gone: nat, snap: Snapshot)
    requires HistoryOk(c, hist) && AllSigned(hist, signed)
    requires CellReadable(signed, cell) && CheckpointHonest(hist, CellCheckpoint(cell))
    requires 0 <= FirstEpoch(CellCheckpoint(cell)) <= |hist.sealed|
    requires gone <= |hist.sealed| && 1 <= hist.Start(gone) <= hist.Start(|hist.sealed|) <= |hist.log| + 1
    requires gone <= FirstEpoch(CellCheckpoint(cell)) || gone + WORM_HOT_EPOCHS <= |hist.sealed|
    requires Remaining(hist, cell, gone, snap)
    ensures VerdictOf(c, signed, snap) == INTACT
  {
    EventsFromPresences(c, hist, gone, FirstEpoch(CellCheckpoint(cell)));
    RestIsIntact(c, hist, signed, snap);
  }

  /** The unfolded headers with the counters, and a buffer that passes their presence checks. */
  lemma RestIsIntact(c: Crypto, hist: History, signed: set<Message>, snap: Snapshot)
    requires HistoryOk(c, hist) && AllSigned(hist, signed) && CountersOk(hist, snap.num, snap.lastSeq, snap.head)
    requires CellReadable(signed, snap.cell) && CheckpointHonest(hist, CellCheckpoint(snap.cell))
    requires snap.expected == None && 0 <= FirstEpoch(CellCheckpoint(snap.cell)) <= |hist.sealed|
    requires SealedFrom(hist, snap.headers, FirstEpoch(CellCheckpoint(snap.cell)))
    requires Presences(c, hist, AllRecords(snap.events), |hist.sealed| - 1 - WORM_HOT_EPOCHS,
                       FirstEpoch(CellCheckpoint(snap.cell)), |hist.sealed|)
    ensures VerdictOf(c, signed, snap) == INTACT
  {
    var cp := CellCheckpoint(snap.cell);
    CountersRead(hist, snap.num, snap.lastSeq, snap.head);
    RestReplay(c, hist, signed, cp, AllRecords(snap.events), snap.headers);
    HonestTail(hist, cp, None, snap.num, snap.lastSeq, snap.head);
  }

  lemma EventsFromPresences(c: Crypto, hist: History, gone: nat, lo: nat)
    requires HistoryOk(c, hist)
    requires gone <= |hist.sealed| && 1 <= hist.Start(gone) <= hist.Start(|hist.sealed|) <= |hist.log| + 1
    requires lo < gone ==> gone + WORM_HOT_EPOCHS <= |hist.sealed|
    ensures Presences(c, hist, AllRecords(EventsFrom(hist, gone)), |hist.sealed| - 1 - WORM_HOT_EPOCHS, lo,
                      |hist.sealed|)
  {
    HonestPresences(c, hist, gone, hist.Start(|hist.sealed|) - 1, lo, |hist.sealed|);
  }

  lemma RestReplay(
    c: Crypto, hist: History, signed: set<Message>, cp: Option<Checkpoint>, records: map<int, Bytes>,
    headers: seq<EpochEntry>)
    requires HistoryOk(c, hist) && AllSigned(hist, signed) && CheckpointHonest(hist, cp)
    requires 0 <= FirstEpoch(cp) <= |hist.sealed| && SealedFrom(hist, headers, FirstEpoch(cp))
    requires Presences(c, hist, records, |hist.sealed| - 1 - WORM_HOT_EPOCHS, FirstEpoch(cp), |hist.sealed|)
    ensures Replay(c, signed, cp, None, records, |hist.sealed| - 1 - WORM_HOT_EPOCHS, headers, |headers|)
         == Good(HonestChain(hist, cp, None, |hist.sealed|))
  {
    var dropped: nat := FirstEpoch(cp);
    HonestReplay(c, hist, signed, cp, None, records, |hist.sealed| - 1 - WORM_HOT_EPOCHS, headers, dropped, dropped,
                 |headers|);
    assert Later(dropped + |headers|, cp) == |hist.sealed|;
  }

  lemma EarlyFacts(c: Crypto, hist: History, signed: set<Message>, cell: CheckpointCell, m: nat)
    requires HistoryOk(c, hist) && SignedHonest(hist, signed) && AllSigned(hist, signed) && CellReadable(signed, cell)
    requires FirstEpoch(CellCheckpoint(cell)) <= m <= |hist.sealed|
    ensures HistoryOk(c, FirstSealed(hist, m)) && AllSigned(FirstSealed(hist, m), signed)
    ensures CheckpointHonest(FirstSealed(hist, m), CellCheckpoint(cell))
    ensures FirstEpoch(CellCheckpoint(cell)) >= 0
  {
    var early := FirstSealed(hist, m);
    FirstSealedOk(c, hist, m, m);
    forall k
      ensures HeaderSigned(early, signed, k)
    {
      assert HeaderSigned(hist, signed, k);
    }
    if cell.Stored? {
      assert Genuine(hist, cell.signature);
    }
  }

  lemma RestCores(hist: History, headers: seq<EpochEntry>, lo: nat)
    requires SealedFrom(hist, headers, lo)
    ensures StoredCores(headers) <= SealedCores(hist)
  {
    forall e | e in headers
      ensures e.fields.Readable? && e.fields.header.core in SealedCores(hist)
    {
      var i :| 0 <= i < |headers| && headers[i] == e;
      assert e.fields == Readable(hist.sealed[lo + i]);
    }
  }

  lemma EarlyStarts(c: Crypto, hist: History, k: nat)
    requires HistoryOk(c, hist) && k < |hist.sealed|
    ensures hist.Covers(k) && 1 <= hist.Start(k + 1) <= hist.Start(|hist.sealed|) <= |hist.log| + 1
  {
    SealedPartition(c, hist, k);
    if k + 1 < |hist.sealed| {
      StartsIncrease(c, hist, k + 1, |hist.sealed|);
    }
    SealedPartition(c, hist, |hist.sealed| - 1);
  }

  /** Deleting the first epochs up to `k`, of all that were sealed, leaves an accepted store. */
  lemma RemainingAccepted(c: Crypto, hist: History, signed: set<Message>, cell: CheckpointCell, k: nat)
    returns (snap: Snapshot)
    requires HistoryOk(c, hist) && AllSigned(hist, signed) && k < |hist.sealed|
    requires CellReadable(signed, cell) && CheckpointHonest(hist, CellCheckpoint(cell))
    requires 0 <= FirstEpoch(CellCheckpoint(cell)) <= |hist.sealed|
    requires k < FirstEpoch(CellCheckpoint(cell)) || k < |hist.sealed| - WORM_HOT_EPOCHS
    ensures hist.Covers(k) && HoldsNone(hist, AllRecords(snap.events), k)
    ensures VerdictOf(c, signed, snap) == INTACT && snap.cell == cell && Claimed(snap) == |hist.sealed|
    ensures StoredCores(snap.headers) <= SealedCores(hist)
  {
    EarlyStarts(c, hist, k);
    snap := SomeRemaining(hist, cell, k + 1);
    RemainingIsIntact(c, hist, signed, cell, k + 1, snap);
    RemainingLacks(c, hist, k + 1, k);
    RestCores(hist, snap.headers, FirstEpoch(CellCheckpoint(cell)));
    CountersRead(hist, snap.num, snap.lastSeq, snap.head);
  }

  /** The same for any number of epochs claimed. */
  lemma DeletedIsAccepted(
    c: Crypto, hist: History, signed: set<Message>, cell: CheckpointCell, m: nat, k: nat) returns (snap: Snapshot)
    requires HistoryOk(c, hist) && SignedHonest(hist, signed) && AllSigned(hist, signed) && CellReadable(signed, cell)
    requires k < m <= |hist.sealed| && hist.Covers(k) && FirstEpoch(CellCheckpoint(cell)) <= m
    requires k < FirstEpoch(CellCheckpoint(cell)) || k < m - WORM_HOT_EPOCHS
    requires !Collide(c.core, SealedCores(hist), SealedCores(hist))
    ensures AcceptsWithout(c, hist, signed, cell, m, k, snap)
  {
    EarlyFacts(c, hist, signed, cell, m);
    snap := RemainingAccepted(c, FirstSealed(hist, m), signed, cell, k);
    SameEpoch(hist, m, k, AllRecords(snap.events));
    EarlyCores(hist, m);
    NoCollideWithin(c.core, SealedCores(hist), StoredCores(snap.headers), SealedCores(hist), SealedCores(hist));
  }

  lemma EarlyCores(hist: History, m: nat)
    requires m <= |hist.sealed|
    ensures SealedCores(FirstSealed(hist, m)) <= SealedCores(hist)
  {
    var early := FirstSealed(hist, m);
    assert forall k :: 0 <= k < m ==> early.sealed[k] == hist.sealed[k];
  }

  /** What is left has no event of the last deleted epoch. */
  lemma RemainingLacks(c: Crypto, hist: History, gone: nat, k: nat)
    requires HistoryOk(c, hist) && k < gone <= |hist.sealed| && hist.Covers(k)
    requires 1 <= hist.Start(gone) <= hist.Start(|hist.sealed|) <= |hist.log| + 1
    ensures HoldsNone(hist, AllRecords(EventsFrom(hist, gone)), k)
  {
    GoneStretch(c, hist, gone, hist.Start(|hist.sealed|) - 1, k);
    SealedPartition(c, hist, k);
    AbsentIsNone(hist, AllRecords(EventsFrom(hist, gone)), k);
  }

  lemma SameEpoch(hist: History, m: nat, k: nat, records: map<int, Bytes>)
    requires k < m <= |hist.sealed| && hist.Covers(k)
    ensures FirstSealed(hist, m).Covers(k)
    ensures HoldsNone(FirstSealed(hist, m), records, k) <==> HoldsNone(hist, records, k)
  {
    assert FirstSealed(hist, m).Start(k) == hist.Start(k);
  }

  /**
   Exactly which epochs an accepted store may have lost all events of: those folded into its
   checkpoint, and those behind the hot window. Two sealed headers that collide are set apart.
   */
  lemma DeletionUnseenIff(c: Crypto, hist: History, signed: set<Message>, cell: CheckpointCell, m: nat, k: nat)
    requires HistoryOk(c, hist) && SignedHonest(hist, signed) && AllSigned(hist, signed) && CellReadable(signed, cell)
    requires k < m <= |hist.sealed|
    ensures hist.Covers(k)
    ensures Collide(c.core, SealedCores(hist), SealedCores(hist))
      || ((exists snap :: AcceptsWithout(c, hist, signed, cell, m, k, snap))
          <==> FirstEpoch(CellCheckpoint(cell)) <= m
                 && (k < FirstEpoch(CellCheckpoint(cell)) || k < m - WORM_HOT_EPOCHS))
  {
    SealedPartition(c, hist, k);
    if snap :| AcceptsWithout(c, hist, signed, cell, m, k, snap) {
      GoneIsCold(c, hist, signed, cell, m, k, snap);
    }
    if !Collide(c.core, SealedCores(hist), SealedCores(hist)) && FirstEpoch(CellCheckpoint(cell)) <= m
      && (k < FirstEpoch(CellCheckpoint(cell)) || k < m - WORM_HOT_EPOCHS) {
      var snap := DeletedIsAccepted(c, hist, signed, cell, m, k);
    }
  }

  /** An accepted store without any event of some epoch in the hot window of `m`. */
  ghost predicate LosesHot(
    c: Crypto, hist: History, signed: set<Message>, cell: CheckpointCell, m: nat, k: nat, snap: Snapshot)
  {
    && m - WORM_HOT_EPOCHS <= k < m <= |hist.sealed| && hist.Covers(k)
    && AcceptsWithout(c, hist, signed, cell, m, k, snap)
  }

  /** So a hot epoch may vanish unseen exactly when the checkpoint lies inside the hot window. */
  lemma HotUnseenIff(c: Crypto, hist: History, signed: set<Message>, cell: CheckpointCell, m: nat)
    requires HistoryOk(c, hist) && SignedHonest(hist, signed) && AllSigned(hist, signed) && CellReadable(signed, cell)
    requires m <= |hist.sealed|
    ensures Collide(c.core, SealedCores(hist), SealedCores(hist))
      || ((exists k, snap :: LosesHot(c, hist, signed, cell, m, k, snap))
          <==> FirstEpoch(CellCheckpoint(cell)) <= m && !ClearsWindow(CellCheckpoint(cell), m))
  {
    if k, snap :| LosesHot(c, hist, signed, cell, m, k, snap) {
      GoneIsCold(c, hist, signed, cell, m, k, snap);
    }
    if !Collide(c.core, SealedCores(hist), SealedCores(hist)) && FirstEpoch(CellCheckpoint(cell)) <= m
      && !ClearsWindow(CellCheckpoint(cell), m) {
      var k: nat := FirstEpoch(CellCheckpoint(cell)) - 1;
      SealedPartition(c, hist, k);
      var snap := DeletedIsAccepted(c, hist, signed, cell, m, k);
      assert LosesHot(c, hist, signed, cell, m, k, snap);
    }
  }

  // ----- after folding everything ----------------------------------------------------------------------

  /** A compaction that keeps nothing leaves a ledger whose every event may be deleted unseen. */
  lemma EmptiedIsIntact(c: Crypto, s: State, stride: int, sid: StreamId)
    requires s in Safe(c) && s.pc.Idle? && Fresh(s.sids, sid) && ToFold(c, s, 0, stride).Some?
    ensures |s.hist.sealed| > 0
    ensures var f := AfterCompact(c, s, 0, stride);
      VerdictOf(c, f.signed, Now(f).(headers := [], events := [])) == INTACT
  {
    var f := AfterCompact(c, s, 0, stride);
    FoldedAll(c, s, stride, sid);
    SafeCounters(c, f);
    SafeSnapshot(c, f);
    var k: nat := |s.hist.sealed| - 1;
    EmptiedVerdict(c, s.hist, f.signed, Now(f), Checkpoint(k, s.hist.sealed[k].hash, s.hist.sealed[k].core.end));
  }

  lemma FoldedAll(c: Crypto, s: State, stride: int, sid: StreamId)
    requires s in Safe(c) && s.pc.Idle? && Fresh(s.sids, sid) && ToFold(c, s, 0, stride).Some?
    ensures var f, k := AfterCompact(c, s, 0, stride), |s.hist.sealed| - 1;
      && k >= 0 && f in Safe(c) && f.hist == s.hist && f.db.checkpoint.Stored?
      && f.db.checkpoint.checkpoint == Checkpoint(k, s.hist.sealed[k].hash, s.hist.sealed[k].core.end)
      && CellReadable(f.signed, f.db.checkpoint)
  {
    CompactFolds(c, s, 0, stride, sid);
  }

  /** The checkpoint of the last epoch and the counters are all a verification then asks for. */
  lemma EmptiedVerdict(c: Crypto, hist: History, signed: set<Message>, snap: Snapshot, cp: Checkpoint)
    requires |hist.sealed| > 0 && CountersOk(hist, snap.num, snap.lastSeq, snap.head)
    requires cp.epoch == |hist.sealed| - 1 && cp.hash == hist.sealed[cp.epoch].hash
    requires cp.end == hist.sealed[cp.epoch].core.end && CellReadable(signed, snap.cell)
    requires snap.cell.Stored? && snap.cell.checkpoint == cp
    requires snap.expected.Some? ==> snap.expected.value.epoch <= cp.epoch
    ensures VerdictOf(c, signed, snap.(headers := [], events := [])) == INTACT
  {
  }
}
