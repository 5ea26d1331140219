/**
 Where tampering is found. On any reachable ledger, whatever is done to its entries and events
 from some epoch on, as long as everything before is left alone, the verification names that
 epoch; or a hash collision is exhibited.
 */
module WormTamper {
  import opened Bytes
  import opened WormFirstBad
  import opened WormHistory
  import opened WormHonest
  import opened WormIncremental
  import opened WormInvariant
  import opened WormMachine
  import opened WormOverlap
  import opened WormRuns
  import opened WormSoundness
  import opened WormStore
  import opened WormVerify
  import opened Wrappers

  /** The epoch after the checkpoint. */
  function FirstLive(s: State): int { FirstEpoch(CellCheckpoint(s.db.checkpoint)) }

  /** Entries and records before epoch `k` are as in the ledger; so are the checkpoint and the counter. */
  ghost predicate AloneBefore(s: State, snap: Snapshot, k: nat)
    requires k <= |s.hist.sealed|
  {
    && snap.cell == s.db.checkpoint && snap.num == s.db.num
    && s.dropped <= k && |snap.headers| >= k - s.dropped && |s.db.epochs| >= k - s.dropped
    && snap.headers[..k - s.dropped] == s.db.epochs[..k - s.dropped]
    && forall n :: n < s.hist.Start(k) ==> SameRecord(AllRecords(snap.events), AllRecords(s.db.events), n)
  }

  predicate SameRecord(a: map<int, Bytes>, b: map<int, Bytes>, n: int) {
    (n in a <==> n in b) && (n in a && n in b ==> a[n] == b[n])
  }

  // ----- the entries left alone ------------------------------------------------------------------------------

  /** The unfolded ones of the first headers of an honest stream, from number `dropped` on. */
  lemma {:induction false} LiveHonest(
    c: Crypto, hist: History, cp: Option<Checkpoint>, headers: seq<EpochEntry>, dropped: nat, n: nat)
    requires HistoryOk(c, hist) && n <= |headers| && dropped + n <= |hist.sealed|
    requires dropped <= FirstEpoch(cp)
    requires forall i :: 0 <= i < n ==> headers[i].fields == Readable(hist.sealed[dropped + i])
    ensures var live, m := LiveEntries(headers, cp, n), dropped + n - FirstEpoch(cp);
      |live| == (if m < 0 then 0 else m)
      && forall i :: 0 <= i < |live| ==> live[i].fields == Readable(hist.sealed[FirstEpoch(cp) + i])
  {
    if n > 0 {
      LiveHonest(c, hist, cp, headers, dropped, n - 1);
      SealedPartition(c, hist, dropped + n - 1);
    }
  }

  lemma {:induction false} LivePrefix(headers: seq<EpochEntry>, cp: Option<Checkpoint>, m: nat, n: nat)
    requires m <= n <= |headers|
    ensures LiveEntries(headers, cp, m) <= LiveEntries(headers, cp, n)
  {
    if m < n {
      LivePrefix(headers, cp, m, n - 1);
    }
  }

  lemma {:induction false} LiveIsStored(headers: seq<EpochEntry>, cp: Option<Checkpoint>, n: nat)
    requires n <= |headers|
    ensures forall e :: e in LiveEntries(headers, cp, n) ==> e in headers
  {
    if n > 0 {
      LiveIsStored(headers, cp, n - 1);
    }
  }

  lemma SamePrefix(hist: History, headers: seq<EpochEntry>, epochs: seq<EpochEntry>, dropped: nat, n: nat)
    requires SealedFrom(hist, epochs, dropped) && n <= |headers| && n <= |epochs| && headers[..n] == epochs[..n]
    ensures forall i :: 0 <= i < n ==> headers[i].fields == Readable(hist.sealed[dropped + i])
  {
    forall i | 0 <= i < n
      ensures headers[i].fields == Readable(hist.sealed[dropped + i])
    {
      assert headers[i] == headers[..n][i] == epochs[..n][i] == epochs[i];
    }
  }

  /** The first live entries of the tampered snapshot are those of the epochs up to `k`. */
  lemma LiveBefore(c: Crypto, s: State, snap: Snapshot, k: nat)
    requires s in Safe(c) && k <= |s.hist.sealed| && 0 <= FirstLive(s) <= k && AloneBefore(s, snap, k)
    ensures HistoryOk(c, s.hist) && |LiveOf(snap)| >= k - FirstLive(s)
    ensures forall i :: 0 <= i < k - FirstLive(s) ==>
      LiveOf(snap)[i].fields == Readable(s.hist.sealed[FirstLive(s) + i])
  {
    var cp, n := CellCheckpoint(snap.cell), k - s.dropped;
    SafeStream(c, s);
    SamePrefix(s.hist, snap.headers, s.db.epochs, s.dropped, n);
    LiveHonest(c, s.hist, cp, snap.headers, s.dropped, n);
    LivePrefix(snap.headers, cp, n, |snap.headers|);
  }

  lemma {:induction false} SamePresent(a: map<int, Bytes>, b: map<int, Bytes>, lo: int, hi: int)
    requires forall n :: lo <= n <= hi ==> SameRecord(a, b, n)
    ensures Present(a, lo, hi) == Present(b, lo, hi)
    decreases hi - lo
  {
    if lo <= hi {
      SamePresent(a, b, lo, hi - 1);
      assert SameRecord(a, b, hi);
    }
  }

  lemma BaseIs(c: Crypto, s: State, snap: Snapshot)
    requires s in Safe(c) && snap.cell == s.db.checkpoint
    ensures var base := BaseIn(snap);
      && base.epoch + 1 == FirstLive(s) && 0 <= FirstLive(s) <= |s.hist.sealed|
      && base.hash == s.hist.Link(FirstLive(s)) && base.end + 1 == s.hist.Start(FirstLive(s))
      && CellReadable(s.signed, snap.cell)
  {
    SafeMeans(c, s);
    SafeStream(c, s);
  }

  /** What the entries before `k` end with. */
  lemma EndsBefore(c: Crypto, s: State, snap: Snapshot, k: nat, i: nat)
    requires s in Safe(c) && k <= |s.hist.sealed| && 0 <= FirstLive(s) && FirstLive(s) + i <= k
    requires AloneBefore(s, snap, k)
    ensures i <= |LiveOf(snap)| && HashAt(BaseIn(snap), LiveOf(snap), i) == s.hist.Link(FirstLive(s) + i)
    ensures EndAt(BaseIn(snap), LiveOf(snap), i) + 1 == s.hist.Start(FirstLive(s) + i)
  {
    LiveBefore(c, s, snap, k);
    BaseIs(c, s, snap);
  }

  /** Every entry before `k` still continues the one before it. */
  lemma LinkedBefore(c: Crypto, s: State, snap: Snapshot, k: nat, i: nat)
    requires s in Safe(c) && k <= |s.hist.sealed| && 0 <= FirstLive(s) && FirstLive(s) + i < k
    requires AloneBefore(s, snap, k)
    ensures i < |LiveOf(snap)|
    ensures Linked(c, s.signed, BaseIn(snap), LiveOf(snap), AllRecords(snap.events), Watermark(snap.num), i)
  {
    var j: nat := FirstLive(s) + i;
    LiveBefore(c, s, snap, k);
    BaseIs(c, s, snap);
    EndsBefore(c, s, snap, k, i);
    SealedContinues(c, s.hist, j);
    SafePresences(c, s);
    PresenceAt(c, s.hist, AllRecords(s.db.events), Watermark(s.db.num), 0, |s.hist.sealed|, j);
    assert HeaderSigned(s.hist, s.signed, j);
    RecordsBefore(c, s, snap, k, j);
  }

  lemma RecordsBefore(c: Crypto, s: State, snap: Snapshot, k: nat, j: nat)
    requires s in Safe(c) && j < k <= |s.hist.sealed| && AloneBefore(s, snap, k) && HistoryOk(c, s.hist)
    ensures var core := s.hist.sealed[j].core;
      Present(AllRecords(snap.events), core.start, core.end) == Present(AllRecords(s.db.events), core.start, core.end)
  {
    var core := s.hist.sealed[j].core;
    StartsIncrease(c, s.hist, j, k);
    SamePresent(AllRecords(snap.events), AllRecords(s.db.events), core.start, core.end);
  }

  lemma AllLinkedBefore(c: Crypto, s: State, snap: Snapshot, k: nat)
    requires s in Safe(c) && k <= |s.hist.sealed| && 0 <= FirstLive(s) <= k && AloneBefore(s, snap, k)
    ensures k - FirstLive(s) <= |LiveOf(snap)|
    ensures LinkedUpTo(c, s.signed, BaseIn(snap), LiveOf(snap), AllRecords(snap.events), Watermark(snap.num),
                     k - FirstLive(s))
  {
    LiveBefore(c, s, snap, k);
    forall i | 0 <= i < k - FirstLive(s)
      ensures Linked(c, s.signed, BaseIn(snap), LiveOf(snap), AllRecords(snap.events), Watermark(snap.num), i)
    {
      LinkedBefore(c, s, snap, k, i);
    }
  }

  // ----- the entry changed -----------------------------------------------------------------------------------

  /** An entry that passes at `k` is the sealed one. */
  lemma LinkedIsSealed(c: Crypto, s: State, snap: Snapshot, k: nat)
    requires s in Safe(c) && 0 <= FirstLive(s) <= k < |s.hist.sealed| && snap.cell == s.db.checkpoint
    requires k - FirstLive(s) < |LiveOf(snap)|
    requires !Collide(c.core, SealedCores(s.hist), StoredCores(snap.headers))
    requires Linked(c, s.signed, BaseIn(snap), LiveOf(snap), AllRecords(snap.events), Watermark(snap.num),
                    k - FirstLive(s))
    ensures LiveOf(snap)[k - FirstLive(s)].fields == Readable(s.hist.sealed[k])
  {
    var i: nat := k - FirstLive(s);
    var entry := LiveOf(snap)[i];
    SafeMeans(c, s);
    BaseIs(c, s, snap);
    LiveIsStored(snap.headers, CellCheckpoint(snap.cell), |snap.headers|);
    assert entry in LiveOf(snap);
    var j: nat :| j < |snap.headers| && snap.headers[j] == entry;
    HeaderIsSealed(c, s.hist, s.signed, snap.headers, j, HashAt(BaseIn(snap), LiveOf(snap), i), k,
                   EndAt(BaseIn(snap), LiveOf(snap), i) + 1, AllRecords(snap.events), Watermark(snap.num));
  }

  /** The entry at `k` is the first that does not continue the chain, so `k` is reported. */
  lemma BreaksThere(c: Crypto, s: State, snap: Snapshot, k: nat)
    requires s in Safe(c) && k < |s.hist.sealed| && 0 <= FirstLive(s) <= k && AloneBefore(s, snap, k)
    requires |LiveOf(snap)| > k - FirstLive(s)
    requires !Linked(c, s.signed, BaseIn(snap), LiveOf(snap), AllRecords(snap.events), Watermark(snap.num),
                     k - FirstLive(s))
    ensures VerdictOf(c, s.signed, snap) == Verdict(false, Some(k))
  {
    var i: nat := k - FirstLive(s);
    BaseIs(c, s, snap);
    AllLinkedBefore(c, s, snap, k);
    assert BreaksAt(c, s.signed, BaseIn(snap), LiveOf(snap), AllRecords(snap.events), Watermark(snap.num), i);
    BrokenVerdict(c, s.signed, snap, i);
  }

  /** With no entry left from `k` on, the counter tells. */
  lemma EndsThere(c: Crypto, s: State, snap: Snapshot, k: nat)
    requires s in Safe(c) && k < |s.hist.sealed| && 0 <= FirstLive(s) <= k && AloneBefore(s, snap, k)
    requires |LiveOf(snap)| <= k - FirstLive(s)
    ensures VerdictOf(c, s.signed, snap) == Verdict(false, Some(if k == 0 then 0 else k - 1))
  {
    BaseIs(c, s, snap);
    AllLinkedBefore(c, s, snap, k);
    LinkedVerdict(c, s.signed, snap);
    EndsShort(c, s, snap, k);
  }

  lemma EndsShort(c: Crypto, s: State, snap: Snapshot, k: nat)
    requires s in Safe(c) && k < |s.hist.sealed| && 0 <= FirstLive(s) <= k && AloneBefore(s, snap, k)
    requires |LiveOf(snap)| <= k - FirstLive(s)
    ensures Ending(snap) == Verdict(false, Some(if k == 0 then 0 else k - 1))
  {
    LiveBefore(c, s, snap, k);
    BaseIs(c, s, snap);
    CounterCounts(c, s);
  }

  /** Where a ledger starts to be read. */
  lemma FirstIsNumber(c: Crypto, s: State)
    requires Reachable(c, s)
    ensures s in Safe(c) && 0 <= FirstLive(s) <= |s.hist.sealed| && HistoryOk(c, s.hist)
  {
    ReachableIsSafe(c, s);
    SafeStream(c, s);
  }

  /**
   Left alone before epoch `k`, and with another entry than the sealed one in its place, a
   reachable ledger is found bad at `k`; with no entry left from there, at the last one.
   */
  lemma ChangedEntryLocated(c: Crypto, s: State, snap: Snapshot, k: nat)
    requires Reachable(c, s) && k < |s.hist.sealed| && FirstLive(s) <= k && AloneBefore(s, snap, k)
    ensures |LiveOf(snap)| > k - FirstLive(s) >= 0
            && LiveOf(snap)[k - FirstLive(s)].fields != Readable(s.hist.sealed[k]) ==>
      || VerdictOf(c, s.signed, snap) == Verdict(false, Some(k))
      || Collide(c.core, SealedCores(s.hist), StoredCores(snap.headers))
    ensures |LiveOf(snap)| <= k - FirstLive(s) ==>
      VerdictOf(c, s.signed, snap) == Verdict(false, Some(if k == 0 then 0 else k - 1))
  {
    FirstIsNumber(c, s);
    if |LiveOf(snap)| <= k - FirstLive(s) {
      EndsThere(c, s, snap, k);
    } else {
      OtherEntry(c, s, snap, k);
    }
  }

  lemma OtherEntry(c: Crypto, s: State, snap: Snapshot, k: nat)
    requires s in Safe(c) && k < |s.hist.sealed| && 0 <= FirstLive(s) <= k && AloneBefore(s, snap, k)
    requires k - FirstLive(s) < |LiveOf(snap)|
    ensures LiveOf(snap)[k - FirstLive(s)].fields == Readable(s.hist.sealed[k])
      || VerdictOf(c, s.signed, snap) == Verdict(false, Some(k))
      || Collide(c.core, SealedCores(s.hist), StoredCores(snap.headers))
  {
    var i: nat := k - FirstLive(s);
    if !Linked(c, s.signed, BaseIn(snap), LiveOf(snap), AllRecords(snap.events), Watermark(snap.num), i) {
      BreaksThere(c, s, snap, k);
    } else if !Collide(c.core, SealedCores(s.hist), StoredCores(snap.headers)) {
      LinkedIsSealed(c, s, snap, k);
    }
  }

  // ----- a record changed ------------------------------------------------------------------------------------

  /** The sealed entry passes only with its records, or with none behind the hot window. */
  lemma LinkedHolds(c: Crypto, s: State, snap: Snapshot, k: nat)
    requires Merkled(c) && s in Safe(c) && HistoryOk(c, s.hist) && k < |s.hist.sealed| && s.hist.Covers(k)
    requires snap.num == s.db.num && PresenceOk(c, s.hist.sealed[k].core, AllRecords(snap.events), Watermark(snap.num))
    ensures Holds(s.hist, AllRecords(snap.events), k)
      || (HoldsNone(s.hist, AllRecords(snap.events), k) && k < |s.hist.sealed| - WORM_HOT_EPOCHS)
      || RecordsCollide(c, s.hist, AllRecords(snap.events), k)
  {
    CounterCounts(c, s);
    PresenceMeans(c, s.hist, AllRecords(snap.events), Watermark(snap.num), k);
  }

  /**
   Left alone before epoch `k`, and with its entry, a reachable ledger in which the records of
   `k` are no longer those it was sealed over is found bad at `k`, unless they are all gone and
   `k` is behind the hot window.
   */
  lemma ChangedRecordLocated(c: Crypto, s: State, snap: Snapshot, k: nat)
    requires Merkled(c) && Reachable(c, s) && k < |s.hist.sealed| && FirstLive(s) <= k && AloneBefore(s, snap, k)
    requires |LiveOf(snap)| > k - FirstLive(s) >= 0
    requires LiveOf(snap)[k - FirstLive(s)].fields == Readable(s.hist.sealed[k])
    ensures s.hist.Covers(k)
    ensures !Holds(s.hist, AllRecords(snap.events), k)
            && !(HoldsNone(s.hist, AllRecords(snap.events), k) && k < |s.hist.sealed| - WORM_HOT_EPOCHS) ==>
      || VerdictOf(c, s.signed, snap) == Verdict(false, Some(k))
      || RecordsCollide(c, s.hist, AllRecords(snap.events), k)
  {
    FirstIsNumber(c, s);
    SealedPartition(c, s.hist, k);
    OtherRecords(c, s, snap, k);
  }

  lemma OtherRecords(c: Crypto, s: State, snap: Snapshot, k: nat)
    requires Merkled(c) && s in Safe(c) && HistoryOk(c, s.hist) && k < |s.hist.sealed| && s.hist.Covers(k)
    requires 0 <= FirstLive(s) <= k && AloneBefore(s, snap, k) && k - FirstLive(s) < |LiveOf(snap)|
    requires LiveOf(snap)[k - FirstLive(s)].fields == Readable(s.hist.sealed[k])
    ensures Holds(s.hist, AllRecords(snap.events), k)
      || (HoldsNone(s.hist, AllRecords(snap.events), k) && k < |s.hist.sealed| - WORM_HOT_EPOCHS)
      || VerdictOf(c, s.signed, snap) == Verdict(false, Some(k))
      || RecordsCollide(c, s.hist, AllRecords(snap.events), k)
  {
    var i: nat := k - FirstLive(s);
    if Linked(c, s.signed, BaseIn(snap), LiveOf(snap), AllRecords(snap.events), Watermark(snap.num), i) {
      LinkedHolds(c, s, snap, k);
    } else {
      BreaksThere(c, s, snap, k);
    }
  }
}
