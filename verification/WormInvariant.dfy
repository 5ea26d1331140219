/**
 What every reachable ledger state satisfies, stated key by key against the honest
 history, and how those statements survive the history growing.
 */
module WormInvariant {
  import opened Bytes
  import opened Merkle
  import opened WormHistory
  import opened WormHonest
  import opened WormMachine
  import opened WormSoundness
  import opened WormStore
  import opened WormVerify
  import opened Wrappers

  /** The highest sequence number ever sealed. */
  function SealedThrough(hist: History): int { hist.Start(|hist.sealed|) - 1 }

  // ----- one predicate per key ---------------------------------------------------------

  /** The events are those of the log from position `n` on. */
  ghost predicate IsRest(log: seq<Event>, n: int, events: seq<Event>) {
    && 0 <= n && |events| == |log| - n
    && forall i :: 0 <= i < |events| ==> events[i] == log[n + i]
  }

  lemma RestIsSlice(log: seq<Event>, n: nat, events: seq<Event>)
    requires IsRest(log, n, events)
    ensures n <= |log| && events == log[n..] == log[n..|log|]
  {
  }

  /** The buffer is the log from the first untrimmed epoch on. */
  ghost predicate BufferOk(hist: History, trimmed: nat, events: seq<Event>) {
    && TrimmedOk(hist, trimmed)
    && IsRest(hist.log, hist.Start(trimmed) - 1, events)
  }

  /** Epochs-stream ids grow. */
  ghost predicate SidsOk(sids: seq<StreamId>, n: nat)
    requires n <= |sids|
  {
    n > 1 ==> SidsOk(sids, n - 1) && sids[n - 2] < sids[n - 1]
  }

  /** The epochs stream is every header from number `dropped` on, under its own id. */
  ghost predicate StreamOk(hist: History, sids: seq<StreamId>, dropped: nat, epochs: seq<EpochEntry>) {
    && |sids| == |hist.sealed| && SidsOk(sids, |sids|)
    && dropped + |epochs| == |hist.sealed|
    && forall i :: StreamEntryOk(hist, sids, dropped, epochs, i)
  }

  ghost predicate StreamEntryOk(hist: History, sids: seq<StreamId>, dropped: nat, epochs: seq<EpochEntry>, i: int)
    requires |sids| == |hist.sealed| == dropped + |epochs|
  {
    0 <= i < |epochs| ==> epochs[i] == EpochEntry(sids[dropped + i], Readable(hist.sealed[dropped + i]))
  }

  predicate CursorOk(hist: History, cursor: Option<StreamId>) {
    var k := |hist.sealed|;
    cursor == if k == 0 then None else Some(hist.sealed[k - 1].core.last)
  }

  /** The checkpoint cell is absent or holds a genuine, signed checkpoint. */
  ghost predicate CellOk(hist: History, signed: set<Message>, cell: CheckpointCell) {
    CellReadable(signed, cell) && CheckpointHonest(hist, CellCheckpoint(cell))
  }

  /** The header index is right where it has entries and has one for every epoch from `first` on. */
  ghost predicate IndexOk(hist: History, first: int, index: map<int, Fields>) {
    forall k :: IndexEntryOk(hist, first, index, k)
  }

  ghost predicate IndexEntryOk(hist: History, first: int, index: map<int, Fields>, k: int) {
    if k in index then 0 <= k < |hist.sealed| && index[k] == Readable(hist.sealed[k])
    else !(0 <= k < |hist.sealed| && first <= k)
  }

  ghost predicate StreamIdsOk(sids: seq<StreamId>, first: int, streamId: map<int, StreamId>) {
    forall k :: StreamIdEntryOk(sids, first, streamId, k)
  }

  ghost predicate StreamIdEntryOk(sids: seq<StreamId>, first: int, streamId: map<int, StreamId>, k: int) {
    if k in streamId then 0 <= k < |sids| && streamId[k] == sids[k]
    else !(0 <= k < |sids| && first <= k)
  }

  /** The stored leaf vector of epoch `k` is that of its own records. */
  ghost predicate LeavesAre(c: Crypto, hist: History, k: int, vector: seq<Bytes>) {
    0 <= k < |hist.sealed| && hist.Covers(k) && vector == LeafDigests(c.tree, SealedRecords(hist, k))
  }

  /** Leaf vectors are right, and there is one for every hot epoch from `first` on. */
  ghost predicate LeavesOk(c: Crypto, hist: History, first: int, leaves: map<int, seq<Bytes>>) {
    forall k :: LeavesEntryOk(c, hist, first, leaves, k)
  }

  ghost predicate LeavesEntryOk(c: Crypto, hist: History, first: int, leaves: map<int, seq<Bytes>>, k: int) {
    if k in leaves then LeavesAre(c, hist, k, leaves[k])
    else !(0 <= k < |hist.sealed| && first <= k && |hist.sealed| - WORM_HOT_EPOCHS <= k)
  }

  /** A location entry names the epoch, position and stream id of its own event. */
  ghost predicate LocationIs(hist: History, id: string, loc: Location) {
    && 0 <= loc.epoch < |hist.sealed| && hist.Covers(loc.epoch)
    && 0 <= loc.index < |hist.Block(loc.epoch)|
    && hist.Block(loc.epoch)[loc.index].id == id && hist.Block(loc.epoch)[loc.index].sid == loc.sid
  }

  /** Event `e`, if it is in the block, has a location entry. */
  ghost predicate Findable(block: seq<Event>, eventLoc: map<string, Location>, e: Event) {
    e in block ==> e.id in eventLoc
  }

  /** Every event of epoch `k` has a location entry. */
  ghost predicate Indexed(hist: History, k: nat, eventLoc: map<string, Location>) {
    k < |hist.sealed| && hist.Covers(k) && forall e :: Findable(hist.Block(k), eventLoc, e)
  }

  /** Locations are right, and every event of a hot epoch has one. */
  ghost predicate LocationsOk(hist: History, eventLoc: map<string, Location>) {
    && (forall id :: LocationEntryOk(hist, eventLoc, id))
    && (forall k: nat :: HotIndexed(hist, eventLoc, k))
  }

  ghost predicate LocationEntryOk(hist: History, eventLoc: map<string, Location>, id: string) {
    id in eventLoc ==> LocationIs(hist, id, eventLoc[id])
  }

  ghost predicate HotIndexed(hist: History, eventLoc: map<string, Location>, k: nat) {
    k < |hist.sealed| && |hist.sealed| - WORM_HOT_EPOCHS <= k ==> Indexed(hist, k, eventLoc)
  }

  ghost predicate SignedOk(hist: History, signed: set<Message>) {
    SignedHonest(hist, signed) && AllSigned(hist, signed)
  }

  /** The events side: the log, its counter, the buffer, and what was signed and checkpointed over it. */
  ghost predicate EventsOk(c: Crypto, db: Redis, hist: History, signed: set<Message>, trimmed: nat) {
    && HistoryOk(c, hist) && db.seqNo == |hist.log|
    && SignedOk(hist, signed)
    && BufferOk(hist, trimmed, db.events)
    && CellOk(hist, signed, db.checkpoint)
  }

  /** The epochs side: the header stream and the four linkage counters. */
  ghost predicate EpochsOk(db: Redis, hist: History, sids: seq<StreamId>, dropped: nat) {
    && dropped <= FirstEpoch(CellCheckpoint(db.checkpoint)) && StreamOk(hist, sids, dropped, db.epochs)
    && CountersOk(hist, db.num, db.lastSeq, db.head) && CursorOk(hist, db.cursor)
  }

  /** The lookup hashes that proofs and trims read. */
  ghost predicate LookupsOk(c: Crypto, db: Redis, hist: History, sids: seq<StreamId>, first: int) {
    && IndexOk(hist, first, db.index)
    && StreamIdsOk(sids, first, db.streamId)
    && LeavesOk(c, hist, first, db.leaves)
    && LocationsOk(hist, db.eventLoc)
  }

  /** The whole store. */
  ghost predicate StoreOk(
    c: Crypto, db: Redis, hist: History, sids: seq<StreamId>, signed: set<Message>, trimmed: nat, dropped: nat)
  {
    && EventsOk(c, db, hist, signed, trimmed)
    && EpochsOk(db, hist, sids, dropped)
    && LookupsOk(c, db, hist, sids, FirstEpoch(CellCheckpoint(db.checkpoint)))
  }

  // ----- the lock holder -------------------------------------------------------------------

  /** The pending events are a non-empty stretch of the log right after the last sealed one. */
  ghost predicate PendingOk(hist: History, pending: seq<Event>) {
    var from := SealedThrough(hist);
    && 0 < |pending| <= WORM_MAX_EPOCH_LEAVES
    && 0 <= from && from + |pending| <= |hist.log|
    && pending == hist.log[from..from + |pending|]
  }

  ghost predicate FallenOk(hist: History, fallen: int) {
    0 <= fallen == |hist.sealed| - 1 - WORM_HOT_EPOCHS
  }

  ghost predicate IdsOfEpoch(hist: History, k: int, ids: set<string>) {
    0 <= k < |hist.sealed| && hist.Covers(k) && forall id :: id in ids ==> exists e :: e in hist.Block(k) && e.id == id
  }

  ghost predicate GoalOk(cell: CheckpointCell, goal: Goal) {
    goal.Fold? ==> FirstEpoch(CellCheckpoint(cell)) <= goal.target
  }

  ghost predicate WitnessHonest(hist: History, expected: Option<Witness>) {
    expected.Some? ==> Genuine(hist, AnchorMessage(expected.value.epoch, expected.value.hash))
  }

  /** Events read some time ago: the buffer as it was, with everything sealed still in it. */
  ghost predicate EventsRead(hist: History, trimmed: nat, events: seq<Event>)
    requires trimmed <= |hist.sealed|
  {
    var lo := hist.Start(trimmed) - 1;
    && 0 <= lo && SealedThrough(hist) <= lo + |events| <= |hist.log|
    && events == hist.log[lo..lo + |events|]
  }

  /** A snapshot in the making agrees with the store on every key read so far. */
  ghost predicate SnapshotOk(db: Redis, hist: History, trimmed: nat, stage: nat, snap: Snapshot)
    requires trimmed <= |hist.sealed|
  {
    && (stage >= 1 ==> WitnessHonest(hist, snap.expected))
    && (stage >= 2 ==> snap.cell == db.checkpoint)
    && (stage >= 3 ==> snap.headers == db.epochs)
    && (stage >= 4 ==> EventsRead(hist, trimmed, snap.events))
    && (stage >= 5 ==> snap.num == db.num)
    && (stage >= 6 ==> snap.lastSeq == db.lastSeq)
  }

  /** The checkpoint is at `target`, and only epochs up to it are about to be dropped. */
  ghost predicate FoldingOk(hist: History, cell: CheckpointCell, target: int, folded: set<int>) {
    && 0 <= target < |hist.sealed| && FirstEpoch(CellCheckpoint(cell)) == target + 1
    && forall k :: k in folded ==> k <= target
  }

  ghost predicate PcOk(s: State)
    requires s.trimmed <= |s.hist.sealed|
  {
    var k := |s.hist.sealed|;
    match s.pc
    case Idle => true
    case GetLastSeq => true
    case GetCursor(lastSeq) => lastSeq == SealedThrough(s.hist)
    case ReadPending(lastSeq, cursor) => lastSeq == SealedThrough(s.hist) && cursor == s.db.cursor
    case GetHead(pending) => PendingOk(s.hist, pending)
    case GetNum(pending, prev) => PendingOk(s.hist, pending) && prev == s.hist.Link(k)
    case Commit(pending, prev, epoch) => PendingOk(s.hist, pending) && prev == s.hist.Link(k) && epoch == k
    case RecordAnchor(epoch, hash) => 0 <= epoch == k - 1 && hash == s.hist.sealed[epoch].hash
    case ReadFallen(fallen) => FallenOk(s.hist, fallen)
    case ReadSegment(fallen, header) => FallenOk(s.hist, fallen) && header == s.hist.sealed[fallen]
    case DropFallenLocations(fallen, ids) => FallenOk(s.hist, fallen) && IdsOfEpoch(s.hist, fallen, ids)
    case DropFallenLeaves(fallen) => FallenOk(s.hist, fallen)
    case ReadKeepFrom(fallen) => FallenOk(s.hist, fallen)
    case TrimBuffer(fallen, minId) => FallenOk(s.hist, fallen) && minId == s.hist.sealed[fallen + 1].core.first
    case Verifying(goal, stage, snap) => GoalOk(s.db.checkpoint, goal)
      && SnapshotOk(s.db, s.hist, s.trimmed, stage, snap)
    case Verified(goal, verdict) => GoalOk(s.db.checkpoint, goal) && verdict == INTACT
    case CompactGetNum(keep, stride) => true
    case CompactGetCheckpoint(target, stride) => true
    case CompactSet(header, target) =>
      0 <= target < k && FirstEpoch(CellCheckpoint(s.db.checkpoint)) <= target && header == s.hist.sealed[target]
    case CompactScan(target) => FoldingOk(s.hist, s.db.checkpoint, target, {})
    case CompactDelete(target, sids, folded) =>
      FoldingOk(s.hist, s.db.checkpoint, target, folded) && sids == FoldedSids(s.db.epochs, target)
    case CompactIndex(target, folded) => FoldingOk(s.hist, s.db.checkpoint, target, folded)
    case CompactStreamIds(target, folded) => FoldingOk(s.hist, s.db.checkpoint, target, folded)
    case CompactLeaves(target, folded) => FoldingOk(s.hist, s.db.checkpoint, target, folded)
    case CompactAnchor(target) => true
  }

  /** The invariant of the machine. */
  ghost predicate Inv(c: Crypto, s: State) {
    StoreOk(c, s.db, s.hist, s.sids, s.signed, s.trimmed, s.dropped) && PcOk(s)
  }

  /** Mentioning a state here is what unfolds the invariant of it; see SafeMeans. */
  ghost predicate Named(s: State) { true }

  /** The states that satisfy it. */
  ghost function Safe(c: Crypto): iset<State> { iset s | HoldsOf(c, s) }

  ghost predicate HoldsOf(c: Crypto, s: State) {
    forall t {:trigger Named(t)} :: Named(t) && t == s ==> Inv(c, t)
  }

  lemma InitialSafe(c: Crypto, anchored: bool)
    ensures Initial(anchored) in Safe(c)
  {
    EmptyEvents(c);
    EmptyEpochs(c);
    var s := Initial(anchored);
    assert StoreOk(c, s.db, s.hist, s.sids, s.signed, s.trimmed, s.dropped);
    StoreIsSafe(c, s);
  }

  lemma StoreIsSafe(c: Crypto, s: State)
    requires StoreOk(c, s.db, s.hist, s.sids, s.signed, s.trimmed, s.dropped) && s.pc.Idle?
    ensures s in Safe(c)
  {
  }

  lemma EmptyEvents(c: Crypto)
    ensures EventsOk(c, EMPTY_DB, History([], []), {}, 0)
  {
    EmptyBuffer(History([], []));
  }

  lemma EmptyBuffer(hist: History)
    requires hist.log == [] && hist.sealed == []
    ensures BufferOk(hist, 0, [])
  {
  }

  lemma EmptyEpochs(c: Crypto)
    ensures EpochsOk(EMPTY_DB, History([], []), [], 0)
    ensures LookupsOk(c, EMPTY_DB, History([], []), [], FirstEpoch(CellCheckpoint(EMPTY_DB.checkpoint)))
  {
  }

  /** A step that only reads is safe when what it remembers is right. */
  lemma ReadIsSafe(c: Crypto, s: State, pc: Pc)
    requires s in Safe(c) && s.trimmed <= |s.hist.sealed| && PcOk(s.(pc := pc))
    ensures s.(pc := pc) in Safe(c)
  {
    SafeMeans(c, s);
  }

  /** What a safe state says about the store and the lock holder. */
  lemma SafeMeans(c: Crypto, s: State)
    requires s in Safe(c)
    ensures StoreOk(c, s.db, s.hist, s.sids, s.signed, s.trimmed, s.dropped)
    ensures s.trimmed <= |s.hist.sealed| && PcOk(s)
  {
    assert Named(s);
  }

  // ----- growing the history -----------------------------------------------------------------

  ghost predicate Grows(hist: History, hist': History) {
    hist.log <= hist'.log && hist.sealed <= hist'.sealed
  }

  lemma BlockGrows(hist: History, hist': History, k: nat)
    requires Grows(hist, hist') && k < |hist.sealed| && hist.Covers(k)
    ensures hist'.Covers(k) && hist'.Block(k) == hist.Block(k)
  {
    assert hist'.Start(k) == hist.Start(k);
  }

  lemma {:induction false} SealedOkGrows(c: Crypto, hist: History, hist': History, n: nat)
    requires Grows(hist, hist') && n <= |hist.sealed| && SealedOk(c, hist, n)
    ensures SealedOk(c, hist', n)
  {
    if n > 0 {
      SealedOkGrows(c, hist, hist', n - 1);
      BlockGrows(hist, hist', n - 1);
      assert hist'.Link(n - 1) == hist.Link(n - 1);
    }
  }

  lemma GenuineGrows(hist: History, hist': History, m: Message)
    requires Grows(hist, hist') && Genuine(hist, m)
    ensures Genuine(hist', m)
  {
    if m.EpochMessage? {
      var k: nat :| k < |hist.sealed| && hist.sealed[k].hash == m.hash;
      assert hist'.sealed[k] == hist.sealed[k];
    }
  }

  lemma SignedHonestGrows(hist: History, hist': History, signed: set<Message>)
    requires Grows(hist, hist') && SignedHonest(hist, signed)
    ensures SignedHonest(hist', signed)
  {
    forall m | m in signed
      ensures Genuine(hist', m)
    {
      GenuineGrows(hist, hist', m);
    }
  }

  lemma LocationGrows(hist: History, hist': History, id: string, loc: Location)
    requires Grows(hist, hist') && LocationIs(hist, id, loc)
    ensures LocationIs(hist', id, loc)
  {
    BlockGrows(hist, hist', loc.epoch);
  }

  lemma LeavesGrow(c: Crypto, hist: History, hist': History, k: int, vector: seq<Bytes>)
    requires Grows(hist, hist') && LeavesAre(c, hist, k, vector)
    ensures LeavesAre(c, hist', k, vector)
  {
    BlockGrows(hist, hist', k);
  }
}
