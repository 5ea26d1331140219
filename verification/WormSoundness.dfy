/**
 What an accepted store must be. The store is arbitrary here; only the signatures are
 bound to the honest history. Acceptance then pins headers, counters and hot events to
 that history, or shows a hash collision between something sealed and something stored.
 */
module WormSoundness {
  import opened Bytes
  import opened Merkle
  import opened WormHistory
  import opened WormStore
  import opened WormVerify
  import opened Wrappers

  function SealedCores(hist: History): set<Core> {
    set k | 0 <= k < |hist.sealed| :: hist.sealed[k].core
  }

  function StoredCores(headers: seq<EpochEntry>): set<Core> {
    set e | e in headers && e.fields.Readable? :: e.fields.header.core
  }

  /** A header that passes its checks is the sealed header of its number. */
  lemma HeaderIsSealed(
    c: Crypto, hist: History, signed: set<Message>, headers: seq<EpochEntry>, i: nat,
    prev: string, epoch: int, start: int, records: map<int, Bytes>, watermark: int)
    requires HistoryOk(c, hist) && SignedHonest(hist, signed)
    requires !Collide(c.core, SealedCores(hist), StoredCores(headers))
    requires i < |headers| && HeaderOk(c, signed, headers[i].fields, prev, epoch, start, records, watermark)
    ensures 0 <= epoch < |hist.sealed| && headers[i].fields == Readable(hist.sealed[epoch])
  {
    var h := headers[i].fields.header;
    assert Genuine(hist, h.signature);
    var k: nat :| k < |hist.sealed| && hist.sealed[k].hash == h.hash;
    SealedPartition(c, hist, k);
    SealedHeader(c, hist, k);
    assert headers[i] in headers;
    EqualDigests(c.core, SealedCores(hist), StoredCores(headers), hist.sealed[k].core, h.core);
  }

  /** The entries a replay checks: those not folded into the checkpoint. */
  function Live(headers: seq<EpochEntry>, cp: Option<Checkpoint>, n: nat): seq<Fields>
    requires n <= |headers|
  {
    if n == 0 then []
    else if cp.Some? && Folded(headers[n - 1], cp.value.epoch) then Live(headers, cp, n - 1)
    else Live(headers, cp, n - 1) + [headers[n - 1].fields]
  }

  /** The first epoch a replay from this checkpoint expects. */
  function FirstEpoch(cp: Option<Checkpoint>): int {
    if cp.Some? then cp.value.epoch + 1 else 0
  }

  /** An absent checkpoint, or the honest one for its epoch. */
  ghost predicate CheckpointHonest(hist: History, cp: Option<Checkpoint>) {
    cp.Some? ==> Genuine(hist, CheckpointMessage(cp.value.epoch, cp.value.hash, cp.value.end))
  }

  /** Every epoch in lo..hi passes the presence check. */
  ghost predicate Presences(
    c: Crypto, hist: History, records: map<int, Bytes>, watermark: int, lo: nat, hi: nat)
    requires hi <= |hist.sealed|
    decreases hi
  {
    lo < hi ==>
      Presences(c, hist, records, watermark, lo, hi - 1) && PresenceOk(c, hist.sealed[hi - 1].core, records, watermark)
  }

  lemma {:induction false} PresenceAt(
    c: Crypto, hist: History, records: map<int, Bytes>, watermark: int, lo: nat, hi: nat, k: nat)
    requires lo <= k < hi <= |hist.sealed| && Presences(c, hist, records, watermark, lo, hi)
    ensures PresenceOk(c, hist.sealed[k].core, records, watermark)
  {
    if k < hi - 1 {
      PresenceAt(c, hist, records, watermark, lo, hi - 1, k);
    }
  }

  /** The entries checked so far are exactly the sealed headers first..next. */
  ghost predicate LiveAre(
    hist: History, cp: Option<Checkpoint>, headers: seq<EpochEntry>, n: nat, first: int, next: int)
    requires n <= |headers| && 0 <= first && next <= |hist.sealed|
  {
    && |Live(headers, cp, n)| == next - first
    && forall k: nat :: first <= k < next ==> Live(headers, cp, n)[k - first] == Readable(hist.sealed[k])
  }

  /** What a clean replay of the first `n` headers establishes. */
  ghost predicate ReplayPins(
    c: Crypto, hist: History, cp: Option<Checkpoint>, expected: Option<Witness>,
    records: map<int, Bytes>, watermark: int, headers: seq<EpochEntry>, n: nat, chain: Chain)
    requires n <= |headers|
  {
    var first := FirstEpoch(cp);
    && 0 <= first <= chain.next <= |hist.sealed| && chain.surviving == chain.next - first
    && chain.prev == hist.Link(chain.next) && chain.start == hist.Start(chain.next)
    && LiveAre(hist, cp, headers, n, first, chain.next)
    && Presences(c, hist, records, watermark, first, chain.next)
    && (expected.Some? && first <= expected.value.epoch < chain.next ==>
          chain.witnessed == Some(hist.sealed[expected.value.epoch].hash))
  }

  lemma LiveFollow(hist: History, cp: Option<Checkpoint>, headers: seq<EpochEntry>, n: nat, next: nat)
    requires 0 <= FirstEpoch(cp) <= next < |hist.sealed| && n < |headers|
    requires LiveAre(hist, cp, headers, n, FirstEpoch(cp), next)
    requires headers[n].fields == Readable(hist.sealed[next]) && hist.sealed[next].core.epoch == next
    ensures !(cp.Some? && Folded(headers[n], cp.value.epoch))
    ensures LiveAre(hist, cp, headers, n + 1, FirstEpoch(cp), next + 1)
  {
    assert Live(headers, cp, n + 1) == Live(headers, cp, n) + [headers[n].fields];
  }

  lemma PinsFollow(
    c: Crypto, hist: History, cp: Option<Checkpoint>, expected: Option<Witness>,
    records: map<int, Bytes>, watermark: int, headers: seq<EpochEntry>, n: nat, chain: Chain)
    requires n < |headers| && ReplayPins(c, hist, cp, expected, records, watermark, headers, n, chain)
    requires chain.next < |hist.sealed| && headers[n].fields == Readable(hist.sealed[chain.next])
    requires hist.sealed[chain.next].core.epoch == chain.next
    requires PresenceOk(c, hist.sealed[chain.next].core, records, watermark)
    ensures ReplayPins(c, hist, cp, expected, records, watermark, headers, n + 1,
                       Advance(chain, hist.sealed[chain.next], expected))
  {
    LiveFollow(hist, cp, headers, n, chain.next);
  }

  lemma PinsSkip(
    c: Crypto, hist: History, cp: Option<Checkpoint>, expected: Option<Witness>,
    records: map<int, Bytes>, watermark: int, headers: seq<EpochEntry>, n: nat, chain: Chain)
    requires n < |headers| && ReplayPins(c, hist, cp, expected, records, watermark, headers, n, chain)
    requires cp.Some? && Folded(headers[n], cp.value.epoch)
    ensures ReplayPins(c, hist, cp, expected, records, watermark, headers, n + 1, chain)
  {
    assert Live(headers, cp, n + 1) == Live(headers, cp, n);
  }

  lemma CleanStep(
    c: Crypto, hist: History, signed: set<Message>, cp: Option<Checkpoint>, expected: Option<Witness>,
    records: map<int, Bytes>, watermark: int, headers: seq<EpochEntry>, n: nat, chain: Chain)
    requires HistoryOk(c, hist) && SignedHonest(hist, signed)
    requires !Collide(c.core, SealedCores(hist), StoredCores(headers))
    requires n < |headers| && ReplayPins(c, hist, cp, expected, records, watermark, headers, n, chain)
    requires ReplayOne(c, signed, cp, expected, records, watermark, headers[n].fields, chain).Good?
    ensures ReplayPins(c, hist, cp, expected, records, watermark, headers, n + 1,
                       ReplayOne(c, signed, cp, expected, records, watermark, headers[n].fields, chain).chain)
  {
    if cp.Some? && Folded(headers[n], cp.value.epoch) {
      PinsSkip(c, hist, cp, expected, records, watermark, headers, n, chain);
    } else {
      HeaderIsSealed(c, hist, signed, headers, n, chain.prev, chain.next, chain.start, records, watermark);
      SealedPartition(c, hist, chain.next);
      PinsFollow(c, hist, cp, expected, records, watermark, headers, n, chain);
    }
  }

  lemma PinsStart(
    c: Crypto, hist: History, cp: Option<Checkpoint>, expected: Option<Witness>,
    records: map<int, Bytes>, watermark: int, headers: seq<EpochEntry>)
    requires CheckpointHonest(hist, cp)
    ensures ReplayPins(c, hist, cp, expected, records, watermark, headers, 0, StartChain(cp, expected))
  {
  }

  lemma {:induction false} CleanReplayPins(
    c: Crypto, hist: History, signed: set<Message>, cp: Option<Checkpoint>, expected: Option<Witness>,
    records: map<int, Bytes>, watermark: int, headers: seq<EpochEntry>, n: nat)
    requires HistoryOk(c, hist) && SignedHonest(hist, signed) && CheckpointHonest(hist, cp)
    requires !Collide(c.core, SealedCores(hist), StoredCores(headers))
    requires n <= |headers| && Replay(c, signed, cp, expected, records, watermark, headers, n).Good?
    ensures ReplayPins(c, hist, cp, expected, records, watermark, headers, n,
                       Replay(c, signed, cp, expected, records, watermark, headers, n).chain)
  {
    if n == 0 {
      PinsStart(c, hist, cp, expected, records, watermark, headers);
    } else {
      CleanReplayPins(c, hist, signed, cp, expected, records, watermark, headers, n - 1);
      CleanStep(c, hist, signed, cp, expected, records, watermark, headers, n - 1,
                Replay(c, signed, cp, expected, records, watermark, headers, n - 1).chain);
    }
  }

  // ----- the events of a replayed epoch ------------------------------------------------------

  /** The records of epoch `k` as sealed. */
  function SealedRecords(hist: History, k: nat): seq<Bytes>
    requires k < |hist.sealed| && hist.Covers(k)
  {
    Records(hist.Block(k))
  }

  /** The store holds exactly the sealed records of epoch `k`, in order. */
  ghost predicate Holds(hist: History, records: map<int, Bytes>, k: nat)
    requires k < |hist.sealed| && hist.Covers(k)
  {
    forall s :: hist.Start(k) <= s <= hist.sealed[k].core.end ==> s in records && records[s] == hist.log[s - 1].record
  }

  /** The store holds no record of epoch `k` at all. */
  ghost predicate HoldsNone(hist: History, records: map<int, Bytes>, k: nat)
    requires k < |hist.sealed| && hist.Covers(k)
  {
    forall s :: hist.Start(k) <= s <= hist.sealed[k].core.end ==> s !in records
  }

  lemma {:induction false} PresentBound(records: map<int, Bytes>, lo: int, hi: int)
    requires lo <= hi + 1
    ensures |Present(records, lo, hi)| <= hi - lo + 1
    decreases hi - lo
  {
    if lo <= hi {
      PresentBound(records, lo, hi - 1);
    }
  }

  /** A full count means every number is there, in order. */
  lemma {:induction false} PresentFull(records: map<int, Bytes>, lo: int, hi: int, s: int)
    requires lo <= s <= hi && |Present(records, lo, hi)| == hi - lo + 1
    ensures s in records && records[s] == Present(records, lo, hi)[s - lo]
    decreases hi - lo
  {
    PresentBound(records, lo, hi - 1);
    if s < hi {
      PresentFull(records, lo, hi - 1, s);
    }
  }

  lemma {:induction false} PresentNone(records: map<int, Bytes>, lo: int, hi: int, s: int)
    requires lo <= s <= hi && Present(records, lo, hi) == []
    ensures s !in records
    decreases hi - lo
  {
    if s < hi {
      PresentNone(records, lo, hi - 1, s);
    }
  }

  /** The trees over two record lists collide. */
  ghost predicate TreesCollide(c: Crypto, mine: seq<Bytes>, theirs: seq<Bytes>)
    requires mine != []
  {
    Collide(c.tree, TreeInputs(c.tree, mine), TreeInputs(c.tree, Effective(theirs)))
  }

  lemma SameRootSameRecords(c: Crypto, mine: seq<Bytes>, theirs: seq<Bytes>)
    requires Merkled(c) && mine != [] && |mine| == |theirs| && c.root(mine) == c.root(theirs)
    ensures mine == theirs || TreesCollide(c, mine, theirs)
  {
    HexInjective(RootOf(c.tree, LeafDigests(c.tree, mine)), RootOf(c.tree, LeafDigests(c.tree, theirs)));
    CountAndRootDetermine(c.tree, mine, theirs);
  }

  lemma PresentIsHeld(hist: History, records: map<int, Bytes>, k: nat)
    requires k < |hist.sealed| && hist.Covers(k)
    requires Present(records, hist.Start(k), hist.sealed[k].core.end) == SealedRecords(hist, k)
    ensures Holds(hist, records, k)
  {
    var lo, hi := hist.Start(k), hist.sealed[k].core.end;
    forall s | lo <= s <= hi
      ensures s in records && records[s] == hist.log[s - 1].record
    {
      PresentFull(records, lo, hi, s);
      assert SealedRecords(hist, k)[s - lo] == hist.Block(k)[s - lo].record;
    }
  }

  lemma AbsentIsNone(hist: History, records: map<int, Bytes>, k: nat)
    requires k < |hist.sealed| && hist.Covers(k)
    requires Present(records, hist.Start(k), hist.sealed[k].core.end) == []
    ensures HoldsNone(hist, records, k)
  {
    forall s | hist.Start(k) <= s <= hist.sealed[k].core.end
      ensures s !in records
    {
      PresentNone(records, hist.Start(k), hist.sealed[k].core.end, s);
    }
  }

  /** The stored records of epoch `k` collide with the sealed ones inside the Merkle tree. */
  ghost predicate RecordsCollide(c: Crypto, hist: History, records: map<int, Bytes>, k: nat)
    requires k < |hist.sealed| && hist.Covers(k)
  {
    TreesCollide(c, SealedRecords(hist, k), Present(records, hist.Start(k), hist.sealed[k].core.end))
  }

  /** A presence check that passes on a sealed core finds the sealed records, or none in a trimmable epoch. */
  lemma PresenceMeans(c: Crypto, hist: History, records: map<int, Bytes>, watermark: int, k: nat)
    requires Merkled(c) && HistoryOk(c, hist) && k < |hist.sealed| && hist.Covers(k)
    requires PresenceOk(c, hist.sealed[k].core, records, watermark)
    ensures Holds(hist, records, k) || (HoldsNone(hist, records, k) && k <= watermark)
      || RecordsCollide(c, hist, records, k)
  {
    SealedPartition(c, hist, k);
    var present := Present(records, hist.Start(k), hist.sealed[k].core.end);
    if present == [] {
      AbsentIsNone(hist, records, k);
    } else {
      SealedRoot(c, hist, k);
      SameRootSameRecords(c, SealedRecords(hist, k), present);
      if SealedRecords(hist, k) == present {
        PresentIsHeld(hist, records, k);
      }
    }
  }

  // ----- the theorem --------------------------------------------------------------------------

  /** A header core, or a record of some sealed epoch, collides with what the store holds. */
  ghost predicate StoreCollides(c: Crypto, hist: History, snap: Snapshot) {
    || Collide(c.core, SealedCores(hist), StoredCores(snap.headers))
    || exists k: nat :: k < |hist.sealed| && hist.Covers(k) && RecordsCollide(c, hist, AllRecords(snap.events), k)
  }

  /** Where an accepted store stands: the number of epochs it claims. */
  function Claimed(snap: Snapshot): int { snap.num.GetOr(-1) + 1 }

  /** The checkpoint, live headers and counters are exactly those of the honest history at `m` epochs. */
  ghost predicate ChainPinned(hist: History, snap: Snapshot, m: nat)
    requires m <= |hist.sealed|
  {
    var cp := CellCheckpoint(snap.cell);
    && CheckpointHonest(hist, cp) && 0 <= FirstEpoch(cp) <= m
    && LiveAre(hist, cp, snap.headers, |snap.headers|, FirstEpoch(cp), m)
    && snap.lastSeq.GetOr(0) == hist.Start(m) - 1
    && (m > 0 ==> snap.head.GetOr(GENESIS) == hist.Link(m))
  }

  /** Of `m` claimed epochs, number `k` is held exactly as sealed, or is behind the hot window and wholly gone. */
  ghost predicate EpochPinned(hist: History, records: map<int, Bytes>, k: nat, m: nat)
    requires k < |hist.sealed|
  {
    hist.Covers(k) && (Holds(hist, records, k) || (HoldsNone(hist, records, k) && k < m - WORM_HOT_EPOCHS))
  }

  /** Every epoch after the checkpoint is so held. */
  ghost predicate EventsPinned(hist: History, snap: Snapshot, m: nat)
    requires m <= |hist.sealed|
  {
    forall k: nat :: FirstEpoch(CellCheckpoint(snap.cell)) <= k < m ==> EpochPinned(hist, AllRecords(snap.events), k, m)
  }

  /** The hot epochs of `m` are held exactly as sealed, when the checkpoint lies behind them. */
  ghost predicate HotPinned(hist: History, snap: Snapshot, m: nat)
    requires m <= |hist.sealed|
  {
    ClearsWindow(CellCheckpoint(snap.cell), m) ==>
      forall k: nat :: m - WORM_HOT_EPOCHS <= k < m ==> HeldAt(hist, AllRecords(snap.events), k)
  }

  /** No epoch in the hot window of `m` is folded. */
  predicate ClearsWindow(cp: Option<Checkpoint>, m: nat) {
    FirstEpoch(cp) <= 0 || FirstEpoch(cp) <= m - WORM_HOT_EPOCHS
  }

  ghost predicate HeldAt(hist: History, records: map<int, Bytes>, k: nat)
    requires k < |hist.sealed|
  {
    hist.Covers(k) && Holds(hist, records, k)
  }

  /** The chain reaches the witnessed epoch, with the witnessed hash unless the checkpoint subsumes it. */
  ghost predicate WitnessReached(hist: History, snap: Snapshot, m: nat)
    requires m <= |hist.sealed|
  {
    snap.expected.Some? ==>
      var w := snap.expected.value;
      w.epoch < m && (w.epoch >= FirstEpoch(CellCheckpoint(snap.cell)) && w.epoch >= 0 ==>
                      hist.sealed[w.epoch].hash == w.hash)
  }

  /** What the tail checks add to a clean replay. */
  lemma IntactMeans(c: Crypto, signed: set<Message>, snap: Snapshot)
    requires VerdictOf(c, signed, snap) == INTACT
    ensures CellReadable(signed, snap.cell) && ReplayAll(c, signed, snap).Good?
    ensures var chain, cp := ReplayAll(c, signed, snap).chain, CellCheckpoint(snap.cell);
      (cp.None? && chain.surviving == 0 ==>
       snap.num.GetOr(-1) == -1 && snap.lastSeq.GetOr(0) == 0 && snap.expected.None?)
      && (cp.Some? || chain.surviving > 0 ==>
            && chain.next == Claimed(snap) && chain.start - 1 == snap.lastSeq.GetOr(0)
            && chain.prev == snap.head.GetOr(GENESIS)
            && (snap.expected.Some? ==>
                  && snap.expected.value.epoch < chain.next
                  && (snap.expected.value.epoch >= (if cp.Some? then cp.value.epoch + 1 else 0) ==>
                        chain.witnessed == Some(snap.expected.value.hash))))
  {
  }

  lemma NoRecordsCollide(c: Crypto, hist: History, snap: Snapshot, k: nat)
    requires !StoreCollides(c, hist, snap) && k < |hist.sealed| && hist.Covers(k)
    ensures !RecordsCollide(c, hist, AllRecords(snap.events), k)
  {
  }

  lemma EpochOfReplay(c: Crypto, hist: History, snap: Snapshot, m: nat, k: nat)
    requires Merkled(c) && HistoryOk(c, hist) && !StoreCollides(c, hist, snap)
    requires m == Claimed(snap) && k < |hist.sealed|
    requires PresenceOk(c, hist.sealed[k].core, AllRecords(snap.events), Watermark(snap.num))
    ensures EpochPinned(hist, AllRecords(snap.events), k, m)
  {
    SealedPartition(c, hist, k);
    PresenceMeans(c, hist, AllRecords(snap.events), Watermark(snap.num), k);
    NoRecordsCollide(c, hist, snap, k);
  }

  lemma HotOfEvents(hist: History, snap: Snapshot, m: nat)
    requires m <= |hist.sealed| && EventsPinned(hist, snap, m)
    ensures HotPinned(hist, snap, m)
  {
    if ClearsWindow(CellCheckpoint(snap.cell), m) {
      forall k: nat | m - WORM_HOT_EPOCHS <= k < m
        ensures HeldAt(hist, AllRecords(snap.events), k)
      {
        assert EpochPinned(hist, AllRecords(snap.events), k, m);
      }
    }
  }

  lemma EventsOfReplay(c: Crypto, hist: History, snap: Snapshot, m: nat)
    requires Merkled(c) && HistoryOk(c, hist) && !StoreCollides(c, hist, snap)
    requires m == Claimed(snap) <= |hist.sealed| && 0 <= FirstEpoch(CellCheckpoint(snap.cell))
    requires Presences(c, hist, AllRecords(snap.events), Watermark(snap.num), FirstEpoch(CellCheckpoint(snap.cell)), m)
    ensures EventsPinned(hist, snap, m)
  {
    forall k: nat | FirstEpoch(CellCheckpoint(snap.cell)) <= k < m
      ensures EpochPinned(hist, AllRecords(snap.events), k, m)
    {
      PresenceAt(c, hist, AllRecords(snap.events), Watermark(snap.num), FirstEpoch(CellCheckpoint(snap.cell)), m, k);
      EpochOfReplay(c, hist, snap, m, k);
    }
  }

  /**
   Whatever the store holds, a verdict of intact means it is the honest history up to the
   epoch it claims, at or beyond the witnessed head, unless a hash collision is in it.
   */
  lemma AcceptedStoreIsHonest(c: Crypto, hist: History, signed: set<Message>, snap: Snapshot)
    requires Merkled(c) && HistoryOk(c, hist) && SignedHonest(hist, signed)
    requires VerdictOf(c, signed, snap) == INTACT
    ensures StoreCollides(c, hist, snap)
      || (0 <= Claimed(snap) <= |hist.sealed|
          && ChainPinned(hist, snap, Claimed(snap))
          && EventsPinned(hist, snap, Claimed(snap))
          && HotPinned(hist, snap, Claimed(snap))
          && WitnessReached(hist, snap, Claimed(snap)))
  {
    if !StoreCollides(c, hist, snap) {
      var cp, records := CellCheckpoint(snap.cell), AllRecords(snap.events);
      IntactMeans(c, signed, snap);
      CleanReplayPins(c, hist, signed, cp, snap.expected, records, Watermark(snap.num), snap.headers, |snap.headers|);
      EventsOfReplay(c, hist, snap, Claimed(snap));
      HotOfEvents(hist, snap, Claimed(snap));
    }
  }
}
