/**
 Inclusion proofs of the ledger. The four reads behind a proof take no lock, so each may see
 a different moment of a run; what comes out still verifies against the signed header, and
 every event of a hot, unfolded epoch gets a proof.
 */
module WormProofs {
  import opened Bytes
  import opened Merkle
  import opened WormHistory
  import opened WormHonest
  import opened WormInvariant
  import opened WormMachine
  import opened WormRuns
  import opened WormSoundness
  import opened WormSteps
  import opened WormStore
  import opened WormTrim
  import opened Wrappers

  datatype InclusionProof = InclusionProof(
    id: string, epoch: int, index: nat, record: Bytes, path: seq<Step>, root: string, hash: string,
      signature: Signature)

  function ReadLeaves(db: Redis, epoch: int): Option<seq<Bytes>> {
    if epoch in db.leaves then Some(db.leaves[epoch]) else None
  }

  /** What the four reads amount to. */
  function ProofOf(
    c: Crypto, id: string, location: Option<Location>, header: Option<Header>, leaves: Option<seq<Bytes>>,
      entries: seq<Event>)
    : Option<InclusionProof>
  {
    if location.None? || header.None? || leaves.None? || entries == [] then None
    else
      var Location(epoch, index, _) := location.value;
      var Header(core, hash, signature) := header.value;
      if |leaves.value| != core.count || index < 0 || index >= |leaves.value| then None
      else Some(InclusionProof(id, epoch, index, entries[0].record, Path(c.tree, leaves.value, index), core.root, hash,
                               signature))
  }

  function ReadLocation(db: Redis, id: string): Option<Location> {
    if id in db.eventLoc then Some(db.eventLoc[id]) else None
  }

  /** The proof for `id`, its four reads made at four moments. */
  function Proven(c: Crypto, id: string, db1: Redis, db2: Redis, db3: Redis, db4: Redis): Option<InclusionProof> {
    var location := ReadLocation(db1, id);
    if location.None? then None
    else
      var Location(epoch, _, sid) := location.value;
      ProofOf(c, id, location, ReadHeader(db2, epoch), ReadLeaves(db3, epoch), Between(db4.events, sid, sid))
  }

  /** `inclusion_proof`, each read against the store as it is at that moment. */
  method ProveInclusion(c: Crypto, id: string, db1: Redis, db2: Redis, db3: Redis, db4: Redis)
    returns (proof: Option<InclusionProof>)
    ensures proof == Proven(c, id, db1, db2, db3, db4)
  {
    if id !in db1.eventLoc {
      return None;
    }
    var Location(epoch, index, sid) := db1.eventLoc[id];
    var header := ReadHeader(db2, epoch);
    if header.None? {
      return None;
    }
    var stored := ReadLeaves(db3, epoch);
    if stored.None? {
      return None;
    }
    var leaves := stored.value;
    if |leaves| != header.value.core.count {
      return None;
    }
    if index < 0 || index >= |leaves| {
      return None;
    }
    var entries := Between(db4.events, sid, sid);
    if entries == [] {
      return None;
    }
    var path := Merkle.InclusionProof(c.tree, leaves, index);
    proof := Some(InclusionProof(id, epoch, index, entries[0].record, path,
                                 header.value.core.root, header.value.hash, header.value.signature));
  }

  // ----- soundness ------------------------------------------------------------------------------

  /** The proof shows the logged event of that id in its sealed epoch, against the signed root. */
  ghost predicate Shows(c: Crypto, hist: History, signed: set<Message>, p: InclusionProof) {
    && 0 <= p.epoch < |hist.sealed| && hist.Covers(p.epoch) && p.index < |hist.Block(p.epoch)|
    && hist.Block(p.epoch)[p.index].id == p.id && hist.Block(p.epoch)[p.index].record == p.record
    && p.root == hist.sealed[p.epoch].core.root && p.hash == hist.sealed[p.epoch].hash
    && p.signature == EpochMessage(p.hash) && p.signature in signed
    && Hex(Climb(c.tree, c.tree(Leaf(p.record)), p.path)) == p.root
    && |p.path| == Height(|hist.Block(p.epoch)|)
  }

  /** The buffer holds only the event that was emitted under a stream id. */
  lemma EventOfSid(c: Crypto, hist: History, trimmed: nat, events: seq<Event>, i: nat, e: Event)
    requires LogOk(hist.log, |hist.log|) && BufferOk(hist, trimmed, events) && i < |hist.log|
    requires e in Between(events, hist.log[i].sid, hist.log[i].sid)
    ensures e == hist.log[i]
  {
    var sid := hist.log[i].sid;
    SelectSound(events, IsBetween(sid, sid), e);
    var j :| 0 <= j < |events| && events[j] == e;
    LogOrder(hist.log, hist.Start(trimmed) - 1 + j, i);
  }

  /** The path over the sealed leaf vector climbs from the record to the sealed root. */
  lemma SealedPathVerifies(c: Crypto, hist: History, k: nat, index: nat)
    requires Merkled(c) && HistoryOk(c, hist) && k < |hist.sealed| && hist.Covers(k) && index < |hist.Block(k)|
    ensures var leaves := LeafDigests(c.tree, SealedRecords(hist, k));
      && |leaves| == hist.sealed[k].core.count
      && Hex(Climb(c.tree, c.tree(Leaf(hist.Block(k)[index].record)), Path(c.tree, leaves, index)))
          == hist.sealed[k].core.root
      && |Path(c.tree, leaves, index)| == Height(|hist.Block(k)|)
  {
    var records := SealedRecords(hist, k);
    SealedPartition(c, hist, k);
    SealedRoot(c, hist, k);
    PathVerifies(c.tree, LeafDigests(c.tree, records), index);
  }

  lemma HeaderShown(c: Crypto, hist: History, signed: set<Message>, k: nat)
    requires HistoryOk(c, hist) && AllSigned(hist, signed) && k < |hist.sealed|
    ensures hist.sealed[k].signature == EpochMessage(hist.sealed[k].hash) && hist.sealed[k].signature in signed
  {
    SealedHeader(c, hist, k);
    assert HeaderSigned(hist, signed, k);
  }

  lemma LoggedAs(hist: History, id: string, loc: Location)
    requires LocationIs(hist, id, loc)
    ensures var at := hist.Start(loc.epoch) - 1 + loc.index;
      0 <= at < |hist.log| && hist.Block(loc.epoch)[loc.index] == hist.log[at] && hist.log[at].sid == loc.sid
  {
  }

  /** The record fetched by a located stream id is the located event's. */
  lemma RecordRead(c: Crypto, hist: History, id: string, loc: Location, trimmed: nat, events: seq<Event>)
    requires HistoryOk(c, hist) && LocationIs(hist, id, loc) && BufferOk(hist, trimmed, events)
    ensures var entries := Between(events, loc.sid, loc.sid);
      entries != [] ==> entries[0] == hist.Block(loc.epoch)[loc.index]
  {
    var entries := Between(events, loc.sid, loc.sid);
    if entries != [] {
      LoggedAs(hist, id, loc);
      EventOfSid(c, hist, trimmed, events, hist.Start(loc.epoch) - 1 + loc.index, entries[0]);
    }
  }

  lemma ProvenShows(c: Crypto, hist: History, signed: set<Message>, id: string, loc: Location, entries: seq<Event>)
    requires Merkled(c) && HistoryOk(c, hist) && AllSigned(hist, signed) && LocationIs(hist, id, loc)
    requires entries != [] ==> entries[0] == hist.Block(loc.epoch)[loc.index]
    ensures var k := loc.epoch;
      var p := ProofOf(c, id, Some(loc), Some(hist.sealed[k]), Some(LeafDigests(c.tree, SealedRecords(hist, k))),
                       entries);
      p.Some? ==> p.value.id == id && Shows(c, hist, signed, p.value)
  {
    SealedPathVerifies(c, hist, loc.epoch, loc.index);
    HeaderShown(c, hist, signed, loc.epoch);
  }

  /** Of a safe state: its history, and what its lookups say about one epoch and one id. */
  lemma SafeLookups(c: Crypto, s: State, k: int, id: string)
    requires s in Safe(c)
    ensures HistoryOk(c, s.hist) && AllSigned(s.hist, s.signed) && BufferOk(s.hist, s.trimmed, s.db.events)
    ensures LocationEntryOk(s.hist, s.db.eventLoc, id)
    ensures IndexEntryOk(s.hist, First(s), s.db.index, k) && LeavesEntryOk(c, s.hist, First(s), s.db.leaves, k)
  {
    SafeMeans(c, s);
  }

  /** Lookups made earlier in a run still describe the later history. */
  lemma ReadsAgree(c: Crypto, s1: State, s2: State, s3: State, s4: State, id: string)
    requires s1 in Safe(c) && s2 in Safe(c) && s3 in Safe(c) && s4 in Safe(c)
    requires Extends(s1, s4) && Extends(s2, s4) && Extends(s3, s4)
    ensures ReadLocation(s1.db, id).Some? ==>
      var loc := ReadLocation(s1.db, id).value;
      var header, leaves := ReadHeader(s2.db, loc.epoch), ReadLeaves(s3.db, loc.epoch);
      && LocationIs(s4.hist, id, loc)
      && (header.Some? ==> header.value == s4.hist.sealed[loc.epoch])
      && (leaves.Some? ==> leaves.value == LeafDigests(c.tree, SealedRecords(s4.hist, loc.epoch)))
  {
    if id in s1.db.eventLoc {
      var loc := s1.db.eventLoc[id];
      SafeLookups(c, s1, loc.epoch, id);
      LocationGrows(s1.hist, s4.hist, id, loc);
      HeaderAgrees(c, s2, s4, loc.epoch);
      LeavesAgree(c, s3, s4, loc.epoch);
    }
  }

  lemma HeaderAgrees(c: Crypto, s2: State, s4: State, k: nat)
    requires s2 in Safe(c) && Extends(s2, s4) && k < |s4.hist.sealed|
    ensures var header := ReadHeader(s2.db, k); header.Some? ==> header.value == s4.hist.sealed[k]
  {
    SafeLookups(c, s2, k, "");
  }

  lemma LeavesAgree(c: Crypto, s3: State, s4: State, k: nat)
    requires s3 in Safe(c) && s4 in Safe(c) && Extends(s3, s4) && k < |s4.hist.sealed| && s4.hist.Covers(k)
    ensures var leaves := ReadLeaves(s3.db, k); leaves.Some? ==>
      leaves.value == LeafDigests(c.tree, SealedRecords(s4.hist, k))
  {
    SafeLookups(c, s3, k, "");
    if k in s3.db.leaves {
      LeavesGrow(c, s3.hist, s4.hist, k, s3.db.leaves[k]);
    }
  }

  lemma ProofVerifies(c: Crypto, s1: State, s2: State, s3: State, s4: State, id: string)
    requires Merkled(c) && s1 in Safe(c) && s2 in Safe(c) && s3 in Safe(c) && s4 in Safe(c)
    requires Extends(s1, s4) && Extends(s2, s4) && Extends(s3, s4)
    ensures var p := Proven(c, id, s1.db, s2.db, s3.db, s4.db);
      p.Some? ==> p.value.id == id && Shows(c, s4.hist, s4.signed, p.value)
  {
    ReadsAgree(c, s1, s2, s3, s4, id);
    if id in s1.db.eventLoc {
      SafeLookups(c, s4, 0, id);
      var loc := s1.db.eventLoc[id];
      RecordRead(c, s4.hist, id, loc, s4.trimmed, s4.db.events);
      ProvenShows(c, s4.hist, s4.signed, id, loc, Between(s4.db.events, loc.sid, loc.sid));
    }
  }

  lemma Moment(c: Crypto, states: seq<State>, actions: seq<Action>, i: nat, j: nat)
    requires Run(c, states, actions) && states[0] in Safe(c) && i <= j <= |actions|
    ensures states[i] in Safe(c) && Extends(states[i], states[j])
  {
    RunIsSafe(c, states, actions, i);
    RunExtends(c, states, actions, i, j);
  }

  /** Any proof returned verifies and is about the event asked for, however its reads were spread over a run. */
  lemma ProofsVerify(
    c: Crypto, states: seq<State>, actions: seq<Action>, i1: nat, i2: nat, i3: nat, i4: nat, id: string)
    requires Merkled(c) && Run(c, states, actions) && states[0] in Safe(c)
    requires i1 <= i2 <= i3 <= i4 <= |actions|
    ensures var p := Proven(c, id, states[i1].db, states[i2].db, states[i3].db, states[i4].db);
      p.Some? ==> p.value.id == id && Shows(c, states[i4].hist, states[i4].signed, p.value)
  {
    Moment(c, states, actions, i1, i4);
    Moment(c, states, actions, i2, i4);
    Moment(c, states, actions, i3, i4);
    Moment(c, states, actions, i4, i4);
    ProofVerifies(c, states[i1], states[i2], states[i3], states[i4], id);
  }

  // ----- completeness -----------------------------------------------------------------------------

  lemma {:induction false} SelectComplete(es: seq<Event>, keep: Event -> bool, e: Event)
    requires e in es && keep(e)
    ensures e in Select(es, keep)
  {
    if e != es[0] {
      SelectComplete(es[1..], keep, e);
    }
  }

  /** Epoch `k` is sealed, inside the hot window and not folded into a checkpoint. */
  predicate Provable(s: State, k: nat) {
    k < |s.hist.sealed| && |s.hist.sealed| - WORM_HOT_EPOCHS <= k && First(s) <= k
  }

  /** Two positions of sealed epochs that hold one event id are one position. */
  lemma SamePlace(c: Crypto, hist: History, k: nat, i: nat, loc: Location)
    requires HistoryOk(c, hist) && k < |hist.sealed| && hist.Covers(k) && i < |hist.Block(k)|
    requires LocationIs(hist, hist.Block(k)[i].id, loc)
    ensures loc.epoch == k && loc.index == i
  {
    var j: nat, at: nat := loc.epoch, loc.index;
    var x, y := hist.Start(k) - 1 + i, hist.Start(j) - 1 + at;
    assert hist.Block(k)[i] == hist.log[x] && hist.Block(j)[at] == hist.log[y];
    LogIds(hist.log, |hist.log|, x, y);
    if j < k {
      StartsIncrease(c, hist, j, k);
    } else if k < j {
      StartsIncrease(c, hist, k, j);
    }
  }

  /** The event is in the buffer of a state whose hot window still covers its epoch. */
  lemma HotEventHeld(c: Crypto, s: State, k: nat, i: nat)
    requires s in Safe(c) && Provable(s, k) && s.hist.Covers(k) && i < |s.hist.Block(k)|
    ensures var e := s.hist.Block(k)[i]; Between(s.db.events, e.sid, e.sid) != []
  {
    SafeLookups(c, s, k, "");
    var e := s.hist.Block(k)[i];
    StartsOrdered(c, s.hist, s.trimmed, k);
    var at := s.hist.Start(k) - 1 + i - (s.hist.Start(s.trimmed) - 1);
    assert s.db.events[at] == e;
    SelectComplete(s.db.events, IsBetween(e.sid, e.sid), e);
  }

  /** An event of a provable epoch is located, at its own position. */
  lemma HotEventLocated(c: Crypto, s: State, k: nat, i: nat)
    requires s in Safe(c) && Provable(s, k) && s.hist.Covers(k) && i < |s.hist.Block(k)|
    ensures var e := s.hist.Block(k)[i];
      ReadLocation(s.db, e.id) == Some(Location(k, i, e.sid))
  {
    var e := s.hist.Block(k)[i];
    SafeMeans(c, s);
    assert HotIndexed(s.hist, s.db.eventLoc, k);
    assert Findable(s.hist.Block(k), s.db.eventLoc, e);
    assert LocationEntryOk(s.hist, s.db.eventLoc, e.id);
    SamePlace(c, s.hist, k, i, s.db.eventLoc[e.id]);
  }

  lemma HotHeaderRead(c: Crypto, s: State, k: nat)
    requires s in Safe(c) && Provable(s, k)
    ensures ReadHeader(s.db, k) == Some(s.hist.sealed[k]) && s.hist.Covers(k)
    ensures ReadLeaves(s.db, k) == Some(LeafDigests(c.tree, SealedRecords(s.hist, k)))
  {
    SafeLookups(c, s, k, "");
  }

  /** Provable at the last moment of a run and sealed at an earlier one, an epoch was provable in between. */
  lemma ProvableBefore(c: Crypto, states: seq<State>, actions: seq<Action>, i: nat, j: nat, k: nat)
    requires Run(c, states, actions) && states[0] in Safe(c) && i <= j <= |actions|
    requires k < |states[i].hist.sealed| && Provable(states[j], k)
    ensures Provable(states[i], k) && states[i] in Safe(c)
    ensures Extends(states[i], states[j])
  {
    RunIsSafe(c, states, actions, i);
    RunExtends(c, states, actions, i, j);
    RunAdvances(c, states, actions, i, j);
  }

  lemma EventIsProven(c: Crypto, s1: State, s2: State, s3: State, s4: State, k: nat, i: nat)
    requires s1 in Safe(c) && s2 in Safe(c) && s3 in Safe(c) && s4 in Safe(c) && Merkled(c)
    requires Provable(s1, k) && Provable(s2, k) && Provable(s3, k) && Provable(s4, k)
    requires Extends(s1, s4) && Extends(s2, s4) && Extends(s3, s4)
    requires s4.hist.Covers(k) && i < |s4.hist.Block(k)|
    ensures Proven(c, s4.hist.Block(k)[i].id, s1.db, s2.db, s3.db, s4.db).Some?
  {
    HotHeaderRead(c, s1, k);
    HotHeaderRead(c, s2, k);
    HotHeaderRead(c, s3, k);
    BlockGrows(s1.hist, s4.hist, k);
    BlockGrows(s3.hist, s4.hist, k);
    HotEventLocated(c, s1, k, i);
    HotEventHeld(c, s4, k, i);
    SafeCounters(c, s4);
    SealedPathVerifies(c, s4.hist, k, i);
  }

  /** Every event of an epoch that is still provable at the last read gets its proof. */
  lemma ProvableEventsAreProven(
    c: Crypto, states: seq<State>, actions: seq<Action>, i1: nat, i2: nat, i3: nat, i4: nat, k: nat, i: nat)
    requires Merkled(c) && Run(c, states, actions) && states[0] in Safe(c)
    requires i1 <= i2 <= i3 <= i4 <= |actions|
    requires k < |states[i1].hist.sealed| && Provable(states[i4], k)
    requires states[i4].hist.Covers(k) && i < |states[i4].hist.Block(k)|
    ensures Proven(c, states[i4].hist.Block(k)[i].id, states[i1].db, states[i2].db, states[i3].db, states[i4].db).Some?
  {
    ProvableBefore(c, states, actions, i1, i4, k);
    RunExtends(c, states, actions, i1, i2);
    RunExtends(c, states, actions, i1, i3);
    ProvableBefore(c, states, actions, i2, i4, k);
    ProvableBefore(c, states, actions, i3, i4, k);
    RunIsSafe(c, states, actions, i4);
    EventIsProven(c, states[i1], states[i2], states[i3], states[i4], k, i);
  }
}
