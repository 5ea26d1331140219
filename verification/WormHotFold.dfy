/**
 Why compaction has to keep the hot window. A compaction that folds the oldest hot epoch
 deletes the header the next trim needs; the close after it gives that trim up, and the
 epoch's locations stay.
 */
module WormHotFold {
  import opened WormInvariant
  import opened WormLogger
  import opened WormMachine
  import opened WormRows
  import opened WormRuns
  import opened WormScope
  import opened WormStore

  /** A close whose fallen epoch has no index row commits, and then trims nothing. */
  lemma GivenUp(c: Crypto, s: State, now: int, sid: StreamId)
    requires ToSeal(s.db) != [] && s.db.num.GetOr(-1) + 1 >= WORM_HOT_EPOCHS
    requires s.db.num.GetOr(-1) + 1 - WORM_HOT_EPOCHS !in s.db.index
    ensures AfterClose(c, s, now, sid).pc.Idle?
    ensures s.db.eventLoc.Keys <= AfterClose(c, s, now, sid).db.eventLoc.Keys
  {
    var header := HeaderOver(c, s.db, ToSeal(s.db), now);
    var committed := CommitStep(c, s, header, ToSeal(s.db), sid);
    assert header.core.epoch == s.db.num.GetOr(-1) + 1;
    assert s.db.num.GetOr(-1) + 1 - WORM_HOT_EPOCHS !in committed.db.index;
  }

  /** What a compaction that goes through leaves of the index. */
  lemma FoldedRows(c: Crypto, s: State, keep: int, stride: int)
    requires ToFold(c, s, keep, stride).Some?
    ensures var f, target := AfterCompact(c, s, keep, stride), s.db.num.GetOr(-1) - keep;
      && f.db.index == s.db.index - FoldedEpochs(s.db.epochs, target)
      && f.db.eventLoc == s.db.eventLoc && f.hist == s.hist && f.sids == s.sids && f.db.num == s.db.num && f.pc.Idle?
  {
  }

  /** The oldest hot epoch's row is gone after a compaction that folds hot epochs. */
  lemma OldestHotFolded(c: Crypto, s: State, keep: int, stride: int)
    requires s in Safe(c) && s.pc.Idle? && RowsExact(s) && keep < WORM_HOT_EPOCHS <= |s.hist.sealed|
    requires ToFold(c, s, keep, stride).Some? && s.db.num.GetOr(-1) - keep < |s.hist.sealed|
    ensures |s.hist.sealed| - WORM_HOT_EPOCHS !in AfterCompact(c, s, keep, stride).db.index
  {
    var target := s.db.num.GetOr(-1) - keep;
    CounterCounts(c, s);
    FoldedRows(c, s, keep, stride);
    ScanNamesIff(c, s, target, |s.hist.sealed| - WORM_HOT_EPOCHS);
  }

  lemma SealsOneMore(c: Crypto, s: State, now: int, sid: StreamId)
    requires s in Safe(c) && s.pc.Idle? && Fresh(s.sids, sid) && SealedThrough(s.hist) < |s.hist.log|
    ensures ToSeal(s.db) != [] && AfterClose(c, s, now, sid) in Safe(c)
    ensures Grows(s.hist, AfterClose(c, s, now, sid).hist)
    ensures |AfterClose(c, s, now, sid).hist.sealed| == |s.hist.sealed| + 1
  {
    FrontIsToSeal(c, s);
    CloseSeals(c, s, now, sid);
  }

  /**
   From any safe state with a tidy index, a compaction that folds hot epochs, followed by a
   close, leaves the population inexact.
   */
  lemma FoldingHotStrands(c: Crypto, s: State, keep: int, stride: int, now: int, sid: StreamId)
    requires s in Safe(c) && s.pc.Idle? && RowsExact(s) && keep < WORM_HOT_EPOCHS <= |s.hist.sealed|
    requires ToFold(c, s, keep, stride).Some? && SealedThrough(s.hist) < |s.hist.log| && Fresh(s.sids, sid)
    ensures !PopulationExact(AfterClose(c, AfterCompact(c, s, keep, stride), now, sid))
  {
    var k := |s.hist.sealed| - WORM_HOT_EPOCHS;
    var f := AfterCompact(c, s, keep, stride);
    var g := AfterClose(c, f, now, sid);
    CompactFolds(c, s, keep, stride, sid);
    FoldedRows(c, s, keep, stride);
    OldestHotFolded(c, s, keep, stride);
    CounterCounts(c, s);
    SafeHot(c, s, k);
    LocationsOutlive(c, f, now, sid, k);
    ColdIndexed(c, g, k);
  }

  /** The locations of an epoch that falls without header are all there after the close. */
  lemma LocationsOutlive(c: Crypto, f: State, now: int, sid: StreamId, k: nat)
    requires f in Safe(c) && f.pc.Idle? && Fresh(f.sids, sid) && SealedThrough(f.hist) < |f.hist.log|
    requires f.db.num.GetOr(-1) == |f.hist.sealed| - 1 && k == |f.hist.sealed| - WORM_HOT_EPOCHS && k !in f.db.index
    requires Indexed(f.hist, k, f.db.eventLoc)
    ensures var g := AfterClose(c, f, now, sid);
      g in Safe(c) && g.pc.Idle? && |g.hist.sealed| == |f.hist.sealed| + 1 && Indexed(g.hist, k, g.db.eventLoc)
  {
    SealsOneMore(c, f, now, sid);
    GivenUp(c, f, now, sid);
    IndexedStays(f.hist, AfterClose(c, f, now, sid).hist, k, f.db.eventLoc, AfterClose(c, f, now, sid).db.eventLoc);
  }

  lemma ColdIndexed(c: Crypto, g: State, k: nat)
    requires g in Safe(c) && g.pc.Idle? && k < |g.hist.sealed| - WORM_HOT_EPOCHS && Indexed(g.hist, k, g.db.eventLoc)
    ensures !PopulationExact(g)
  {
    var id := FallenLocated(c, g, k);
    LeftIsNotExact(c, g, id, k);
  }
}
