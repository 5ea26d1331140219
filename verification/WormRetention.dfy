/**
 What a close and a compaction leave behind: the newest head in the anchor file, the buffer
 and the leaf vectors of the hot epochs, and after a compaction nothing of the folded headers.
 */
module WormRetention {
  import opened Anchor
  import opened WormFold
  import opened WormHonest
  import opened WormInvariant
  import opened WormLogger
  import opened WormMachine
  import opened WormRows
  import opened WormRuns
  import opened WormStore
  import opened WormVerify
  import opened Wrappers

  // ----- a close -----------------------------------------------------------------------------------------------

  /** The header a close commits, and the state right after its head was recorded. */
  function Committed(c: Crypto, s: State, now: int, sid: StreamId): State
    requires ToSeal(s.db) != []
  {
    var header := HeaderOver(c, s.db, ToSeal(s.db), now);
    AfterRecord(CommitStep(c, s, header, ToSeal(s.db), sid), header.core.epoch, header.hash)
  }

  lemma CloseIs(c: Crypto, s: State, now: int, sid: StreamId)
    requires s in Safe(c) && ToSeal(s.db) != []
    ensures var n, r := |s.hist.sealed|, Committed(c, s, now, sid);
      && AfterClose(c, s, now, sid) == AfterTrim(r, n)
      && |r.hist.sealed| == n + 1 && r.hist.log == s.hist.log && r.hist.sealed[..n] == s.hist.sealed
      && r.db.index == s.db.index[n := Readable(r.hist.sealed[n])]
      && r.db.leaves.Keys == s.db.leaves.Keys + {n}
      && r.trimmed == s.trimmed
      && r.anchor == (if s.anchored then s.anchor + [SignedLine(n, r.hist.sealed[n].hash)] else s.anchor)
      && (s.anchored ==> r.signed >= s.signed + {AnchorMessage(n, r.hist.sealed[n].hash)})
  {
    CounterCounts(c, s);
  }

  /** A trim touches neither the anchor file, the history nor what was signed. */
  lemma TrimLeaves(s: State, epoch: int)
    ensures var f := AfterTrim(s, epoch);
      f.anchor == s.anchor && f.signed == s.signed && f.hist == s.hist && f.anchored == s.anchored
  {
  }

  /** After a close of an anchored ledger the anchor's head is the epoch just sealed. */
  lemma CloseRecords(c: Crypto, s: State, now: int, sid: StreamId)
    requires s in Safe(c) && s.pc.Idle? && Fresh(s.sids, sid) && ToSeal(s.db) != [] && s.anchored
    ensures var f, n := AfterClose(c, s, now, sid), |s.hist.sealed|;
      && |f.hist.sealed| == n + 1 && f.anchor == s.anchor + [SignedLine(n, f.hist.sealed[n].hash)]
      && Head(f.signed, f.anchor) == Some(Witness(n, f.hist.sealed[n].hash))
  {
    var f, r, n := AfterClose(c, s, now, sid), Committed(c, s, now, sid), |s.hist.sealed|;
    CloseIs(c, s, now, sid);
    TrimLeaves(r, n);
    CloseSeals(c, s, now, sid);
    NewestHead(c, f, s.anchor, n, f.hist.sealed[n].hash);
  }

  lemma NewestHead(c: Crypto, f: State, lines: seq<Line>, n: nat, hash: string)
    requires f in Safe(c) && |f.hist.sealed| == n + 1 && hash == f.hist.sealed[n].hash
    requires f.anchor == lines + [SignedLine(n, hash)] && AnchorMessage(n, hash) in f.signed
    ensures Head(f.signed, f.anchor) == Some(Witness(n, hash))
  {
    SafeMeans(c, f);
    HeadIsGenuine(f.hist, f.signed, f.anchor);
    HeadIsGenuine(f.hist, f.signed, lines);
    RecordRaisesHead(f.signed, lines, n, hash);
  }

  /** The headers a trim reads are indexed, when they are past the checkpoint. */
  lemma HeaderIndexed(c: Crypto, s: State, now: int, sid: StreamId, k: nat)
    requires s in Safe(c) && ToSeal(s.db) != [] && First(s) <= k < |s.hist.sealed|
    ensures ReadHeader(Committed(c, s, now, sid).db, k) == Some(s.hist.sealed[k])
  {
    CloseIs(c, s, now, sid);
    SafeLookup(c, s, k);
  }

  lemma TrimIs(s: State, epoch: int, k: nat)
    requires k == epoch - WORM_HOT_EPOCHS && ReadHeader(s.db, k).Some? && ReadHeader(s.db, k + 1).Some?
    requires s.trimmed <= k
    ensures var f := AfterTrim(s, epoch);
      && f.trimmed == k + 1 && f.db.leaves == s.db.leaves - {k}
      && f.db.events == From(s.db.events, ReadHeader(s.db, k + 1).value.core.first)
  {
  }

  /**
   The close after which epoch `k` is no longer hot, unless it was folded away: the buffer
   starts right after `k`, and its leaf vector is gone.
   */
  lemma CloseTrims(c: Crypto, s: State, now: int, sid: StreamId, k: nat)
    requires s in Safe(c) && s.pc.Idle? && Fresh(s.sids, sid) && ToSeal(s.db) != []
    requires k == |s.hist.sealed| - WORM_HOT_EPOCHS && First(s) <= k
    ensures var f := AfterClose(c, s, now, sid);
      && f.trimmed == k + 1 && k + 1 <= |f.hist.sealed| && 1 <= f.hist.Start(k + 1) <= |f.hist.log| + 1
      && f.db.events == f.hist.log[f.hist.Start(k + 1) - 1..]
      && f.db.leaves.Keys == s.db.leaves.Keys + {|s.hist.sealed|} - {k}
  {
    var f := AfterClose(c, s, now, sid);
    CloseIs(c, s, now, sid);
    HeaderIndexed(c, s, now, sid, k);
    HeaderIndexed(c, s, now, sid, k + 1);
    TrimmedBehind(c, s, k);
    TrimIs(Committed(c, s, now, sid), |s.hist.sealed|, k);
    CloseSeals(c, s, now, sid);
    SafeBuffered(c, f);
  }

  lemma TrimmedBehind(c: Crypto, s: State, k: nat)
    requires s in Safe(c) && k == |s.hist.sealed| - WORM_HOT_EPOCHS
    ensures s.trimmed <= k
  {
    SafeMeans(c, s);
  }

  lemma SafeBuffered(c: Crypto, f: State)
    requires f in Safe(c)
    ensures f.trimmed <= |f.hist.sealed| && 1 <= f.hist.Start(f.trimmed) <= |f.hist.log| + 1
    ensures f.db.events == f.hist.log[f.hist.Start(f.trimmed) - 1..]
  {
    SafeMeans(c, f);
    RestIsSlice(f.hist.log, f.hist.Start(f.trimmed) - 1, f.db.events);
  }

  /** While every epoch is hot a close trims nothing. */
  lemma CloseKeeps(c: Crypto, s: State, now: int, sid: StreamId)
    requires s in Safe(c) && s.pc.Idle? && ToSeal(s.db) != [] && |s.hist.sealed| < WORM_HOT_EPOCHS
    ensures var f := AfterClose(c, s, now, sid);
      f.db.events == s.db.events && f.db.leaves.Keys == s.db.leaves.Keys + {|s.hist.sealed|}
  {
    CloseIs(c, s, now, sid);
  }

  // ----- a compaction ------------------------------------------------------------------------------------------

  /** A lookup without the epochs folded just now. */
  ghost predicate LacksFolded<V>(before: map<int, V>, after: map<int, V>, dropped: nat, target: int) {
    forall k :: (k in after <==> k in before && !(dropped <= k <= target)) && (k in after ==> after[k] == before[k])
  }

  /**
   A compaction that goes through: the checkpoint is stored and signed; of the headers exactly
   those past it are left, and the rows of the others are gone from the three lookups; the
   anchor file is rotated; events, locations and counters are as before.
   */
  lemma CompactClears(c: Crypto, s: State, keep: int, stride: int, sid: StreamId)
    requires s in Safe(c) && s.pc.Idle? && Fresh(s.sids, sid) && ToFold(c, s, keep, stride).Some?
    ensures var f, cp := AfterCompact(c, s, keep, stride), ToFold(c, s, keep, stride).value;
      && f.hist == s.hist && 0 <= cp.epoch < |s.hist.sealed|
      && f.db.checkpoint == Stored(cp, CheckpointMessage(cp.epoch, cp.hash, cp.end))
      && CellReadable(f.signed, f.db.checkpoint)
      && SealedFrom(f.hist, f.db.epochs, cp.epoch + 1)
      && LacksFolded(s.db.index, f.db.index, s.dropped, cp.epoch)
      && LacksFolded(s.db.streamId, f.db.streamId, s.dropped, cp.epoch)
      && LacksFolded(s.db.leaves, f.db.leaves, s.dropped, cp.epoch)
      && f.db.events == s.db.events && f.db.eventLoc == s.db.eventLoc
      && f.db.num == s.db.num && f.db.head == s.db.head && f.db.lastSeq == s.db.lastSeq && f.db.cursor == s.db.cursor
      && f.anchor == (if s.anchored then Survivors(f.signed, s.anchor, cp.epoch, |s.anchor|) else s.anchor)
  {
    var f, cp := AfterCompact(c, s, keep, stride), ToFold(c, s, keep, stride).value;
    CompactFolds(c, s, keep, stride, sid);
    SafeMeans(c, s);
    FoldIs(c, s, keep, stride);
    SafeMeans(c, f);
    StreamIsSealed(f.hist, f.sids, f.dropped, f.db.epochs);
    ScannedGone(c, s, cp.epoch, s.db.index);
    ScannedGone(c, s, cp.epoch, s.db.streamId);
    ScannedGone(c, s, cp.epoch, s.db.leaves);
  }

  lemma FoldIs(c: Crypto, s: State, keep: int, stride: int)
    requires ToFold(c, s, keep, stride).Some?
    ensures var f, cp := AfterCompact(c, s, keep, stride), ToFold(c, s, keep, stride).value;
      var folded := FoldedEpochs(s.db.epochs, cp.epoch);
      && f.hist == s.hist && f.sids == s.sids && f.dropped == (if cp.epoch < s.dropped then s.dropped else cp.epoch + 1)
      && f.signed == s.signed + {CheckpointMessage(cp.epoch, cp.hash, cp.end)}
      && f.db == s.db.(checkpoint := Stored(cp, CheckpointMessage(cp.epoch, cp.hash, cp.end)),
                       epochs := f.db.epochs, index := s.db.index - folded, streamId := s.db.streamId - folded,
                       leaves := s.db.leaves - folded)
      && f.anchor == (if s.anchored then Survivors(f.signed, s.anchor, cp.epoch, |s.anchor|) else s.anchor)
  {
  }

  lemma ScannedGone<V>(c: Crypto, s: State, target: int, lookup: map<int, V>)
    requires s in Safe(c) && target < |s.hist.sealed|
    ensures LacksFolded(lookup, lookup - FoldedEpochs(s.db.epochs, target), s.dropped, target)
  {
    forall k
      ensures k in FoldedEpochs(s.db.epochs, target) <==> s.dropped <= k <= target
    {
      ScanNamesIff(c, s, target, k);
    }
  }
}
