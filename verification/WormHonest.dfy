/**
 No false tamper, for one snapshot: what an undisturbed ledger holds always verifies,
 however far retention, compaction, emits and the anchor have got.
 */
module WormHonest {
  import opened Bytes
  import opened WormHistory
  import opened WormSoundness
  import opened WormStore
  import opened WormVerify
  import opened Wrappers

  /** Retention may only have dropped whole epochs behind the hot window. */
  predicate TrimmedOk(hist: History, trimmed: nat) {
    trimmed <= |hist.sealed| && (trimmed == 0 || trimmed + WORM_HOT_EPOCHS <= |hist.sealed|)
  }

  /** Deleted headers are all folded into the checkpoint. */
  predicate DroppedOk(hist: History, cp: Option<Checkpoint>, dropped: nat) {
    dropped <= FirstEpoch(cp) <= |hist.sealed|
  }

  predicate CountersOk(hist: History, num: Option<int>, lastSeq: Option<int>, head: Option<string>) {
    var k := |hist.sealed|;
    if k == 0 then num == None && lastSeq == None && head == None
    else num == Some(k - 1) && lastSeq == Some(hist.sealed[k - 1].core.end) && head == Some(hist.sealed[k - 1].hash)
  }

  /** The entries are the sealed headers from number `dropped` on. */
  ghost predicate SealedFrom(hist: History, headers: seq<EpochEntry>, dropped: nat) {
    && dropped + |headers| == |hist.sealed|
    && forall i :: 0 <= i < |headers| ==> headers[i].fields == Readable(hist.sealed[dropped + i])
  }

  /** Every committed header was signed. */
  ghost predicate AllSigned(hist: History, signed: set<Message>) {
    forall k :: HeaderSigned(hist, signed, k)
  }

  ghost predicate HeaderSigned(hist: History, signed: set<Message>, k: int) {
    0 <= k < |hist.sealed| ==> EpochMessage(hist.sealed[k].hash) in signed
  }

  /** What a verification of an undisturbed ledger reads, with `n` events emitted when it reads the buffer. */
  ghost predicate HonestSnapshot(
    hist: History, signed: set<Message>, snap: Snapshot, trimmed: nat, dropped: nat, n: nat)
  {
    var cp := CellCheckpoint(snap.cell);
    && AllSigned(hist, signed)
    && CellReadable(signed, snap.cell) && CheckpointHonest(hist, cp)
    && TrimmedOk(hist, trimmed) && DroppedOk(hist, cp, dropped)
    && CountersOk(hist, snap.num, snap.lastSeq, snap.head)
    && SealedFrom(hist, snap.headers, dropped)
    && 1 <= hist.Start(trimmed) <= hist.Start(|hist.sealed|) <= n + 1 && n <= |hist.log|
    && snap.events == hist.log[hist.Start(trimmed) - 1..n]
    && (snap.expected.Some? ==> Genuine(hist, AnchorMessage(snap.expected.value.epoch, snap.expected.value.hash)))
  }

  // ----- the buffer ----------------------------------------------------------------------

  /** The map read from a stretch lo..n of the log is that stretch. */
  lemma {:induction false} RecordsOfStretch(log: seq<Event>, lo: nat, n: nat, m: nat)
    requires LogOk(log, |log|) && lo + m <= n <= |log|
    ensures forall s :: s in RecordMap(log[lo..n], m) <==> lo < s <= lo + m
    ensures forall s :: lo < s <= lo + m ==> RecordMap(log[lo..n], m)[s] == log[s - 1].record
  {
    if m > 0 {
      RecordsOfStretch(log, lo, n, m - 1);
      assert log[lo..n][m - 1] == log[lo + m - 1];
      LogSeq(log, |log|, lo + m - 1);
    }
  }

  lemma {:induction false} PresentAll(records: map<int, Bytes>, log: seq<Event>, lo: int, hi: int)
    requires 1 <= lo <= hi + 1 && hi <= |log|
    requires forall s :: lo <= s <= hi ==> s in records && records[s] == log[s - 1].record
    ensures Present(records, lo, hi) == Records(log[lo - 1..hi])
    decreases hi - lo
  {
    if lo <= hi {
      PresentAll(records, log, lo, hi - 1);
      assert log[lo - 1..hi] == log[lo - 1..hi - 1] + [log[hi - 1]];
    }
  }

  lemma {:induction false} PresentEmpty(records: map<int, Bytes>, lo: int, hi: int)
    requires forall s :: lo <= s <= hi ==> s !in records
    ensures Present(records, lo, hi) == []
    decreases hi - lo
  {
    if lo <= hi {
      PresentEmpty(records, lo, hi - 1);
    }
  }

  /** A stretch of the log holds the records of every range inside it. */
  lemma StretchHolds(log: seq<Event>, lo: nat, n: nat, start: int, end: int)
    requires LogOk(log, |log|) && lo < start <= end <= n <= |log|
    ensures Present(AllRecords(log[lo..n]), start, end) == Records(log[start - 1..end])
  {
    RecordsOfStretch(log, lo, n, n - lo);
    PresentAll(AllRecords(log[lo..n]), log, start, end);
  }

  /** Each sealed epoch is wholly there, or wholly trimmed and behind the hot window. */
  lemma HonestPresence(c: Crypto, hist: History, trimmed: nat, n: nat, k: nat)
    requires HistoryOk(c, hist) && k < |hist.sealed| && trimmed <= |hist.sealed|
    requires k < trimmed ==> k + WORM_HOT_EPOCHS < |hist.sealed|
    requires 1 <= hist.Start(trimmed) <= hist.Start(|hist.sealed|) <= n + 1 && n <= |hist.log|
    ensures PresenceOk(c, hist.sealed[k].core, AllRecords(hist.log[hist.Start(trimmed) - 1..n]),
                       |hist.sealed| - 1 - WORM_HOT_EPOCHS)
  {
    var lo := hist.Start(trimmed) - 1;
    var records := AllRecords(hist.log[lo..n]);
    if k < trimmed {
      GoneStretch(c, hist, trimmed, n, k);
    } else {
      HeldStretch(c, hist, trimmed, n, k);
      SealedRoot(c, hist, k);
    }
    SealedPartition(c, hist, k);
  }

  /** The records of a trimmed epoch are all gone from the buffer. */
  lemma GoneStretch(c: Crypto, hist: History, trimmed: nat, n: nat, k: nat)
    requires HistoryOk(c, hist) && k < trimmed <= |hist.sealed|
    requires 1 <= hist.Start(trimmed) <= n + 1 && n <= |hist.log|
    ensures Present(AllRecords(hist.log[hist.Start(trimmed) - 1..n]), hist.sealed[k].core.start,
                    hist.sealed[k].core.end) == []
  {
    var lo := hist.Start(trimmed) - 1;
    SealedPartition(c, hist, k);
    StartsIncrease(c, hist, k, trimmed);
    RecordsOfStretch(hist.log, lo, n, n - lo);
    PresentEmpty(AllRecords(hist.log[lo..n]), hist.Start(k), hist.sealed[k].core.end);
  }

  /** The records of an epoch that was not trimmed are all in the buffer, in order. */
  lemma HeldStretch(c: Crypto, hist: History, trimmed: nat, n: nat, k: nat)
    requires HistoryOk(c, hist) && trimmed <= k < |hist.sealed|
    requires 1 <= hist.Start(trimmed) <= hist.Start(|hist.sealed|) <= n + 1 && n <= |hist.log|
    ensures hist.Covers(k)
    ensures Present(AllRecords(hist.log[hist.Start(trimmed) - 1..n]), hist.sealed[k].core.start,
                    hist.sealed[k].core.end)
         == Records(hist.Block(k))
  {
    var lo := hist.Start(trimmed) - 1;
    SealedPartition(c, hist, k);
    StartsIncrease(c, hist, k, |hist.sealed|);
    if trimmed < k {
      StartsIncrease(c, hist, trimmed, k);
    }
    StretchHolds(hist.log, lo, n, hist.Start(k), hist.sealed[k].core.end);
  }

  /** From number `lo` on, if what was trimmed from there is behind the hot window. */
  lemma {:induction false} HonestPresences(c: Crypto, hist: History, trimmed: nat, n: nat, lo: nat, hi: nat)
    requires HistoryOk(c, hist) && trimmed <= |hist.sealed| && hi <= |hist.sealed|
    requires lo < trimmed ==> trimmed + WORM_HOT_EPOCHS <= |hist.sealed|
    requires 1 <= hist.Start(trimmed) <= hist.Start(|hist.sealed|) <= n + 1 && n <= |hist.log|
    ensures Presences(c, hist, AllRecords(hist.log[hist.Start(trimmed) - 1..n]),
                      |hist.sealed| - 1 - WORM_HOT_EPOCHS, lo, hi)
  {
    if lo < hi {
      HonestPresences(c, hist, trimmed, n, lo, hi - 1);
      HonestPresence(c, hist, trimmed, n, hi - 1);
      var records := AllRecords(hist.log[hist.Start(trimmed) - 1..n]);
      assert PresenceOk(c, hist.sealed[hi - 1].core, records, |hist.sealed| - 1 - WORM_HOT_EPOCHS);
    }
  }

  // ----- the replay ------------------------------------------------------------------------

  /** The running variables after the sealed epochs below `next` were followed. */
  function HonestChain(hist: History, cp: Option<Checkpoint>, expected: Option<Witness>, next: nat): Chain
    requires next <= |hist.sealed| && 0 <= FirstEpoch(cp) <= next
  {
    var first := FirstEpoch(cp);
    Chain(hist.Link(next), hist.Start(next), next,
          if expected.Some? && 0 <= expected.value.epoch
            && (if cp.Some? then cp.value.epoch else 0) <= expected.value.epoch < next
          then Some(hist.sealed[expected.value.epoch].hash) else None,
          next - first)
  }

  lemma HonestStart(hist: History, cp: Option<Checkpoint>, expected: Option<Witness>)
    requires CheckpointHonest(hist, cp) && FirstEpoch(cp) <= |hist.sealed|
    ensures StartChain(cp, expected) == HonestChain(hist, cp, expected, FirstEpoch(cp))
  {
  }

  function Later(k: nat, cp: Option<Checkpoint>): (n: nat)
    requires 0 <= FirstEpoch(cp)
    ensures n >= k && n >= FirstEpoch(cp)
  {
    if k <= FirstEpoch(cp) then FirstEpoch(cp) else k
  }

  /** Epoch `k` continues the chain where the epochs before it end. */
  predicate Continues(c: Crypto, hist: History, k: nat)
    requires k < |hist.sealed|
  {
    var h := hist.sealed[k];
    && h.core.epoch == k && 1 <= h.core.start == hist.Start(k) <= h.core.end
    && h.core.count == h.core.end - h.core.start + 1 <= WORM_MAX_EPOCH_LEAVES
    && h.core.prev == hist.Link(k) && h.hash == c.core(h.core) && h.signature == EpochMessage(h.hash)
  }

  lemma SealedContinues(c: Crypto, hist: History, k: nat)
    requires HistoryOk(c, hist) && k < |hist.sealed|
    ensures Continues(c, hist, k)
  {
    SealedPartition(c, hist, k);
    SealedHeader(c, hist, k);
  }

  /** One sealed header is skipped when folded and followed otherwise. */
  lemma HonestOne(
    c: Crypto, hist: History, signed: set<Message>, cp: Option<Checkpoint>,
    expected: Option<Witness>, records: map<int, Bytes>, watermark: int, k: nat)
    requires k < |hist.sealed| && Continues(c, hist, k) && EpochMessage(hist.sealed[k].hash) in signed
    requires 0 <= FirstEpoch(cp) <= |hist.sealed| && PresenceOk(c, hist.sealed[k].core, records, watermark)
    ensures ReplayOne(c, signed, cp, expected, records, watermark, Readable(hist.sealed[k]),
                      HonestChain(hist, cp, expected, Later(k, cp)))
         == Good(HonestChain(hist, cp, expected, Later(k + 1, cp)))
  {
  }

  lemma HonestStep(
    c: Crypto, hist: History, signed: set<Message>, cp: Option<Checkpoint>, expected: Option<Witness>,
    records: map<int, Bytes>, watermark: int, headers: seq<EpochEntry>, n: nat, k: nat)
    requires HistoryOk(c, hist) && k < |hist.sealed| && EpochMessage(hist.sealed[k].hash) in signed
    requires 0 <= FirstEpoch(cp) <= |hist.sealed| && PresenceOk(c, hist.sealed[k].core, records, watermark)
    requires 0 < n <= |headers| && headers[n - 1].fields == Readable(hist.sealed[k])
    requires Replay(c, signed, cp, expected, records, watermark, headers, n - 1)
        == Good(HonestChain(hist, cp, expected, Later(k, cp)))
    ensures Replay(c, signed, cp, expected, records, watermark, headers, n)
        == Good(HonestChain(hist, cp, expected, Later(k + 1, cp)))
  {
    SealedContinues(c, hist, k);
    HonestOne(c, hist, signed, cp, expected, records, watermark, k);
  }

  /** Replaying what is left of the stream follows every sealed epoch after the checkpoint. */
  lemma {:induction false} HonestReplay(
    c: Crypto, hist: History, signed: set<Message>, cp: Option<Checkpoint>, expected: Option<Witness>,
    records: map<int, Bytes>, watermark: int, headers: seq<EpochEntry>, lo: nat,
    dropped: nat, n: nat)
    requires HistoryOk(c, hist) && AllSigned(hist, signed)
    requires CheckpointHonest(hist, cp) && lo <= dropped && DroppedOk(hist, cp, dropped)
    requires SealedFrom(hist, headers, dropped) && n <= |headers|
    requires Presences(c, hist, records, watermark, lo, |hist.sealed|)
    ensures Replay(c, signed, cp, expected, records, watermark, headers, n)
         == Good(HonestChain(hist, cp, expected, Later(dropped + n, cp)))
  {
    if n == 0 {
      HonestStart(hist, cp, expected);
    } else {
      HonestReplay(c, hist, signed, cp, expected, records, watermark, headers, lo, dropped, n - 1);
      PresenceAt(c, hist, records, watermark, lo, |hist.sealed|, dropped + n - 1);
      assert HeaderSigned(hist, signed, dropped + n - 1);
      HonestStep(c, hist, signed, cp, expected, records, watermark, headers, n, dropped + n - 1);
    }
  }

  lemma HonestTail(
    hist: History, cp: Option<Checkpoint>, expected: Option<Witness>, num: Option<int>, lastSeq: Option<int>,
      head: Option<string>)
    requires CheckpointHonest(hist, cp) && FirstEpoch(cp) <= |hist.sealed| && CountersOk(hist, num, lastSeq, head)
    requires expected.Some? ==> Genuine(hist, AnchorMessage(expected.value.epoch, expected.value.hash))
    ensures TailVerdict(cp, expected, num.GetOr(-1), lastSeq.GetOr(0), head.GetOr(GENESIS),
                        HonestChain(hist, cp, expected, |hist.sealed|)) == INTACT
  {
  }

  /** No false tamper: an honest snapshot verifies as intact. */
  lemma HonestSnapshotIntact(
    c: Crypto, hist: History, signed: set<Message>, snap: Snapshot, trimmed: nat, dropped: nat, n: nat)
    requires HistoryOk(c, hist) && HonestSnapshot(hist, signed, snap, trimmed, dropped, n)
    ensures VerdictOf(c, signed, snap) == INTACT
  {
    var cp, records := CellCheckpoint(snap.cell), AllRecords(snap.events);
    var watermark := Watermark(snap.num);
    HonestPresences(c, hist, trimmed, n, 0, |hist.sealed|);
    assert Presences(c, hist, records, watermark, 0, |hist.sealed|);
    HonestReplay(c, hist, signed, cp, snap.expected, records, watermark, snap.headers, 0, dropped, |snap.headers|);
    HonestTail(hist, cp, snap.expected, snap.num, snap.lastSeq, snap.head);
  }
}
