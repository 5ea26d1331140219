/**
 Which events have a location entry. Whenever the lock is free the location hash holds exactly
 the events of the hot epochs, unless the removal of a fallen epoch's locations was cut short;
 then those locations stay for good.
 */
module WormScope {
  import opened Bytes
  import opened WormHistory
  import opened WormInvariant
  import opened WormMachine
  import opened WormProofs
  import opened WormRuns
  import opened WormSteps
  import opened WormStore
  import opened WormTrim

  // ----- what every run keeps ------------------------------------------------------------------------

  /** Between a commit and the end of its trim. */
  predicate Late(pc: Pc) { pc.RecordAnchor? || pc.Trimming() }

  /** Between a commit and the removal of the fallen epoch's locations. */
  predicate Behind(pc: Pc) { pc.RecordAnchor? || pc.ReadFallen? || pc.ReadSegment? || pc.DropFallenLocations? }

  /** Trimming stays behind the hot window. */
  predicate TrimBounded(s: State) {
    s.trimmed == 0 || s.trimmed <= |s.hist.sealed| - WORM_HOT_EPOCHS - (if Late(s.pc) then 1 else 0)
  }

  /** The ids about to be dropped are all those of the fallen epoch. */
  ghost predicate DropsAll(s: State) {
    s.pc.DropFallenLocations? && 0 <= s.pc.fallen < |s.hist.sealed| && s.hist.Covers(s.pc.fallen) ==>
      forall e :: Dropped(s.hist.Block(s.pc.fallen), s.pc.ids, e)
  }

  ghost predicate Dropped(block: seq<Event>, ids: set<string>, e: Event) { e in block ==> e.id in ids }

  /** Until they are dropped, the fallen epoch's events all have their locations. */
  ghost predicate FallenIndexed(s: State) {
    Behind(s.pc) && |s.hist.sealed| > WORM_HOT_EPOCHS ==>
      Indexed(s.hist, |s.hist.sealed| - 1 - WORM_HOT_EPOCHS, s.db.eventLoc)
  }

  ghost predicate Sound(s: State) { TrimBounded(s) && DropsAll(s) && FallenIndexed(s) }

  lemma IndexedStays(
    hist: History, hist': History, k: nat, eventLoc: map<string, Location>, eventLoc': map<string, Location>)
    requires Indexed(hist, k, eventLoc) && Grows(hist, hist') && eventLoc.Keys <= eventLoc'.Keys
    ensures Indexed(hist', k, eventLoc')
  {
    BlockGrows(hist, hist', k);
    forall e
      ensures Findable(hist'.Block(k), eventLoc', e)
    {
      assert Findable(hist.Block(k), eventLoc, e);
    }
  }

  lemma EmitSound(c: Crypto, s: State, sid: StreamId, id: string, record: Bytes)
    requires s in Safe(c) && Sound(s)
    ensures Sound(EmitStep(s, sid, id, record))
  {
    var s' := EmitStep(s, sid, id, record);
    if s.pc.DropFallenLocations? {
      SafeDrop(c, s);
      BlockGrows(s.hist, s'.hist, s.pc.fallen);
    }
    if Behind(s.pc) && |s.hist.sealed| > WORM_HOT_EPOCHS {
      IndexedStays(s.hist, s'.hist, |s.hist.sealed| - 1 - WORM_HOT_EPOCHS, s.db.eventLoc, s'.db.eventLoc);
    }
  }

  /** A commit makes the oldest hot epoch the fallen one, with all its locations. */
  lemma CommitSound(c: Crypto, s: State, now: int, sid: StreamId)
    requires s in Safe(c) && s.pc.Commit? && Sound(s)
    ensures Sound(CloseStep(c, s, now, sid))
  {
    SafeCommit(c, s);
    CommitIs(c, s, s.pc.pending, now, sid);
    var n, s' := |s.hist.sealed|, CloseStep(c, s, now, sid);
    assert s'.db.eventLoc == s.db.eventLoc + Located(n, s.pc.pending, |s.pc.pending|);
    if n >= WORM_HOT_EPOCHS {
      SafeHot(c, s, n - WORM_HOT_EPOCHS);
      IndexedStays(s.hist, s'.hist, n - WORM_HOT_EPOCHS, s.db.eventLoc, s'.db.eventLoc);
    }
  }

  lemma SafeHot(c: Crypto, s: State, k: nat)
    requires s in Safe(c) && k < |s.hist.sealed| && |s.hist.sealed| - WORM_HOT_EPOCHS <= k
    ensures Indexed(s.hist, k, s.db.eventLoc)
  {
    SafeMeans(c, s);
    assert HotIndexed(s.hist, s.db.eventLoc, k);
  }

  /** Short of the commit a close changes no location and starts no drop. */
  lemma CloseTouches(c: Crypto, s: State, now: int, sid: StreamId)
    requires s.pc.Closing() && !s.pc.Commit?
    ensures var s' := CloseStep(c, s, now, sid);
      && s'.db == s.db && s'.hist == s.hist && s'.trimmed == s.trimmed && !s'.pc.DropFallenLocations?
      && (Late(s'.pc) ==> Late(s.pc)) && (Behind(s'.pc) ==> Behind(s.pc))
  {
  }

  lemma CloseSound(c: Crypto, s: State, now: int, sid: StreamId)
    requires s in Safe(c) && s.pc.Closing() && Sound(s)
    ensures Sound(CloseStep(c, s, now, sid))
  {
    if s.pc.Commit? {
      CommitSound(c, s, now, sid);
    } else {
      CloseTouches(c, s, now, sid);
    }
  }

  /** Once all its ids are known, they are dropped. */
  lemma SegmentSound(c: Crypto, s: State)
    requires s in Safe(c) && s.pc.ReadSegment? && Sound(s)
    ensures Sound(TrimStep(s))
  {
    SegmentHasAll(c, s);
  }

  lemma TrimSound(c: Crypto, s: State)
    requires s in Safe(c) && s.pc.Trimming() && Sound(s)
    ensures Sound(TrimStep(s))
  {
    if s.pc.ReadSegment? {
      SegmentSound(c, s);
    } else if s.pc.TrimBuffer? {
      SafeFallen(c, s);
    }
  }

  lemma ElseSound(c: Crypto, s: State, a: Action)
    requires Sound(s) && Enabled(s, a) && !a.Emit?
    requires a.Progress? ==> s.pc.Verifying? || s.pc.Verified? || s.pc.Compacting()
    ensures Sound(Apply(c, s, a))
  {
  }

  lemma StepSound(c: Crypto, s: State, a: Action)
    requires s in Safe(c) && Enabled(s, a) && Sound(s)
    ensures Sound(Apply(c, s, a))
  {
    if a.Emit? {
      EmitSound(c, s, a.sid, a.id, a.record);
    } else if a.Progress? && s.pc.Closing() {
      CloseSound(c, s, a.now, a.sid);
    } else if a.Progress? && s.pc.Trimming() {
      TrimSound(c, s);
    } else {
      ElseSound(c, s, a);
    }
  }

  lemma NextSound(c: Crypto, states: seq<State>, actions: seq<Action>, i: nat)
    requires Run(c, states, actions) && i < |actions| && states[i] in Safe(c) && Sound(states[i])
    ensures Sound(states[i + 1])
  {
    assert StepAt(c, states, actions, i);
    StepSound(c, states[i], actions[i]);
  }

  lemma {:induction false} RunSound(c: Crypto, states: seq<State>, actions: seq<Action>, anchored: bool, i: nat)
    requires Run(c, states, actions) && states[0] == Initial(anchored) && i <= |actions|
    ensures states[i] in Safe(c) && Sound(states[i])
  {
    InitialSafe(c, anchored);
    RunIsSafe(c, states, actions, i);
    if i > 0 {
      RunSound(c, states, actions, anchored, i - 1);
      NextSound(c, states, actions, i - 1);
    }
  }

  // ----- the fallen epoch's ids -----------------------------------------------------------------------------

  /** The events of the fallen epoch are all still in the buffer, so their ids are all read. */
  lemma SegmentHasAll(c: Crypto, s: State)
    requires s in Safe(c) && s.pc.ReadSegment? && TrimBounded(s)
    ensures 0 <= s.pc.fallen < |s.hist.sealed| && s.hist.Covers(s.pc.fallen)
    ensures var ids := Ids(Between(s.db.events, s.pc.header.core.first, s.pc.header.core.last));
      forall e :: Dropped(s.hist.Block(s.pc.fallen), ids, e)
  {
    SafeBounds(c, s);
    var f: nat, events := s.pc.fallen, s.db.events;
    var first, last := s.pc.header.core.first, s.pc.header.core.last;
    StartsIncrease(c, s.hist, f, f + 1);
    StartsOrdered(c, s.hist, s.trimmed, f);
    forall e
      ensures Dropped(s.hist.Block(f), Ids(Between(events, first, last)), e)
    {
      if e in s.hist.Block(f) {
        SegmentHas(c, s.hist, s.trimmed, events, f, e);
      }
    }
  }

  lemma StillBuffered(hist: History, trimmed: nat, events: seq<Event>, i: nat)
    requires BufferOk(hist, trimmed, events) && hist.Start(trimmed) - 1 <= i < |hist.log|
    ensures hist.log[i] in events
  {
    assert events[i - (hist.Start(trimmed) - 1)] == hist.log[i];
  }

  lemma SegmentHas(c: Crypto, hist: History, trimmed: nat, events: seq<Event>, f: nat, e: Event)
    requires HistoryOk(c, hist) && BufferOk(hist, trimmed, events) && f < |hist.sealed| && hist.Covers(f)
    requires hist.Start(trimmed) <= hist.Start(f) && e in hist.Block(f)
    ensures e in Between(events, hist.sealed[f].core.first, hist.sealed[f].core.last)
  {
    var i := BlockPosition(hist, f, e);
    WithinBounds(c, hist, f, i);
    StillBuffered(hist, trimmed, events, i);
    BetweenHas(events, hist.sealed[f].core.first, hist.sealed[f].core.last, e);
  }

  /** The events of an epoch lie between the two stream ids its header names. */
  lemma WithinBounds(c: Crypto, hist: History, f: nat, i: nat)
    requires HistoryOk(c, hist) && f < |hist.sealed| && hist.Covers(f)
    requires hist.Start(f) - 1 <= i < hist.sealed[f].core.end
    ensures hist.sealed[f].core.first <= hist.log[i].sid <= hist.sealed[f].core.last
  {
    SealedBounds(c, hist, f);
    LogOrder(hist.log, hist.Start(f) - 1, i);
    LogOrder(hist.log, i, hist.sealed[f].core.end - 1);
  }

  lemma {:induction false} BetweenHas(events: seq<Event>, lo: StreamId, hi: StreamId, e: Event)
    requires e in events && lo <= e.sid <= hi
    ensures e in Between(events, lo, hi)
  {
    if e != events[0] {
      BetweenHas(events[1..], lo, hi, e);
    }
  }

  /** What a safe state in the middle of a trim knows. */
  lemma SafeBounds(c: Crypto, s: State)
    requires s in Safe(c) && s.pc.ReadSegment?
    ensures HistoryOk(c, s.hist) && BufferOk(s.hist, s.trimmed, s.db.events)
    ensures s.hist.Start(|s.hist.sealed|) <= |s.hist.log| + 1
    ensures FallenOk(s.hist, s.pc.fallen) && s.pc.header == s.hist.sealed[s.pc.fallen]
  {
    SafeMeans(c, s);
    SealedThroughBounds(c, s.hist, s.trimmed);
  }

  /** With its ids read, no location of the fallen epoch outlives the drop. */
  lemma FallenGone(c: Crypto, s: State, ids: set<string>, id: string)
    requires s in Safe(c) && s.pc.Trimming() && HotOnly(s, id) && FallenOk(s.hist, s.pc.fallen)
    requires s.hist.Covers(s.pc.fallen)
    requires forall e :: Dropped(s.hist.Block(s.pc.fallen), ids, e)
    ensures id in s.db.eventLoc && id !in ids ==> s.db.eventLoc[id].epoch >= |s.hist.sealed| - WORM_HOT_EPOCHS
  {
    SafeLocation(c, s, id);
    if id in s.db.eventLoc && id !in ids && s.db.eventLoc[id].epoch == s.pc.fallen {
      var e := s.hist.Block(s.pc.fallen)[s.db.eventLoc[id].index];
      assert Dropped(s.hist.Block(s.pc.fallen), ids, e);
    }
  }

  lemma SafeLocation(c: Crypto, s: State, id: string)
    requires s in Safe(c)
    ensures LocationEntryOk(s.hist, s.db.eventLoc, id)
  {
    SafeMeans(c, s);
  }

  /** The locations left after dropping the fallen epoch's ids are those of hot epochs. */
  lemma LeftAreHot(c: Crypto, s: State, ids: set<string>)
    requires s in Safe(c) && s.pc.Trimming() && AllHot(s) && FallenOk(s.hist, s.pc.fallen) && s.hist.Covers(s.pc.fallen)
    requires forall e :: Dropped(s.hist.Block(s.pc.fallen), ids, e)
    ensures forall id :: HotLocation(s, ids, id)
  {
    forall id
      ensures HotLocation(s, ids, id)
    {
      assert HotOnly(s, id);
      FallenGone(c, s, ids, id);
    }
  }

  ghost predicate HotLocation(s: State, ids: set<string>, id: string) {
    id in s.db.eventLoc && id !in ids ==> s.db.eventLoc[id].epoch >= |s.hist.sealed| - WORM_HOT_EPOCHS
  }

  lemma SafeDrop(c: Crypto, s: State)
    requires s in Safe(c) && s.pc.DropFallenLocations?
    ensures FallenOk(s.hist, s.pc.fallen) && s.hist.Covers(s.pc.fallen)
  {
    SafeMeans(c, s);
  }

  lemma SafeFallen(c: Crypto, s: State)
    requires s in Safe(c) && (s.pc.DropFallenLeaves? || s.pc.ReadKeepFrom? || s.pc.TrimBuffer?)
    ensures FallenOk(s.hist, s.pc.fallen)
  {
    SafeMeans(c, s);
  }

  lemma SafeRecord(c: Crypto, s: State)
    requires s in Safe(c) && s.pc.RecordAnchor?
    ensures s.pc.epoch == |s.hist.sealed| - 1
  {
    SafeMeans(c, s);
  }

  lemma SafeCommit(c: Crypto, s: State)
    requires s in Safe(c) && s.pc.Commit?
    ensures HistoryOk(c, s.hist) && PendingOk(s.hist, s.pc.pending) && s.db.num.GetOr(-1) < |s.hist.sealed|
    ensures s.pc == Commit(s.pc.pending, s.hist.Link(|s.hist.sealed|), |s.hist.sealed|)
  {
    SafeMeans(c, s);
    CountersRead(s.hist, s.db.num, s.db.lastSeq, s.db.head);
  }

  // ----- nothing but the hot window -----------------------------------------------------------------------------

  /** The oldest epoch that may have locations. */
  function Horizon(s: State): nat {
    var h := |s.hist.sealed| - WORM_HOT_EPOCHS - (if Behind(s.pc) then 1 else 0);
    if h < 0 then 0 else h
  }

  ghost predicate HotOnly(s: State, id: string) {
    id in s.db.eventLoc ==> s.db.eventLoc[id].epoch >= Horizon(s)
  }

  ghost predicate AllHot(s: State) { forall id :: HotOnly(s, id) }

  /** The header of the fallen epoch is not indexed, so the trim that has come to it gives up. */
  predicate Unheaded(s: State) { s.pc.ReadFallen? && ReadHeader(s.db, s.pc.fallen).None? }

  /** A step after which nobody is left to remove the fallen epoch's locations. */
  predicate Strands(s: State, a: Action) {
    |s.hist.sealed| > WORM_HOT_EPOCHS && ((a.Crash? && Behind(s.pc)) || (a.Progress? && Unheaded(s)))
  }

  lemma HotOnlyStays(s: State, s': State)
    requires AllHot(s) && s'.db.eventLoc == s.db.eventLoc && Horizon(s') <= Horizon(s)
    ensures AllHot(s')
  {
    forall id
      ensures HotOnly(s', id)
    {
      assert HotOnly(s, id);
    }
  }

  /** A new epoch moves the horizon on by one only after its trim, and its own locations are beyond it. */
  lemma CommitHot(c: Crypto, s: State, now: int, sid: StreamId)
    requires s in Safe(c) && s.pc.Commit? && AllHot(s)
    ensures AllHot(CloseStep(c, s, now, sid))
  {
    SafeCommit(c, s);
    var pending, k := s.pc.pending, |s.hist.sealed|;
    CommitIs(c, s, pending, now, sid);
    var s' := CloseStep(c, s, now, sid);
    var located := Located(k, pending, |pending|);
    assert s'.db.eventLoc == s.db.eventLoc + located;
    forall id
      ensures HotOnly(s', id)
    {
      assert HotOnly(s, id);
      if id in located {
        LocatedSound(k, pending, |pending|, id);
      }
    }
  }

  lemma CloseHot(c: Crypto, s: State, now: int, sid: StreamId)
    requires s in Safe(c) && s.pc.Closing() && AllHot(s)
    ensures AllHot(CloseStep(c, s, now, sid))
  {
    if s.pc.Commit? {
      CommitHot(c, s, now, sid);
    } else {
      CloseTouches(c, s, now, sid);
      if s.pc.RecordAnchor? {
        SafeRecord(c, s);
        assert CloseStep(c, s, now, sid).pc == AfterAnchor(s.pc.epoch);
      }
      HotOnlyStays(s, CloseStep(c, s, now, sid));
    }
  }

  lemma SegmentHot(c: Crypto, s: State)
    requires s in Safe(c) && s.pc.ReadSegment? && Sound(s) && AllHot(s)
    ensures AllHot(TrimStep(s))
  {
    var s', ids := TrimStep(s), Ids(Between(s.db.events, s.pc.header.core.first, s.pc.header.core.last));
    SafeBounds(c, s);
    SegmentHasAll(c, s);
    LeftAreHot(c, s, ids);
    forall id
      ensures HotOnly(s', id)
    {
      assert HotOnly(s, id) && HotLocation(s, ids, id);
    }
  }

  lemma DropHot(c: Crypto, s: State)
    requires s in Safe(c) && s.pc.DropFallenLocations? && Sound(s) && AllHot(s)
    ensures AllHot(TrimStep(s))
  {
    SafeDrop(c, s);
    LeftAreHot(c, s, s.pc.ids);
    forall id
      ensures HotOnly(TrimStep(s), id)
    {
      assert HotOnly(s, id) && HotLocation(s, s.pc.ids, id);
    }
  }

  lemma TrimHot(c: Crypto, s: State)
    requires s in Safe(c) && s.pc.Trimming() && !Unheaded(s) && Sound(s) && AllHot(s)
    ensures AllHot(TrimStep(s))
  {
    if s.pc.ReadSegment? {
      SegmentHot(c, s);
    } else if s.pc.DropFallenLocations? {
      DropHot(c, s);
    } else {
      HotOnlyStays(s, TrimStep(s));
    }
  }

  lemma ElseHot(c: Crypto, s: State, a: Action)
    requires Enabled(s, a) && AllHot(s) && !Strands(s, a)
    requires a.Progress? ==> s.pc.Verifying? || s.pc.Verified? || s.pc.Compacting()
    ensures AllHot(Apply(c, s, a))
  {
    HotOnlyStays(s, Apply(c, s, a));
  }

  lemma StepHot(c: Crypto, s: State, a: Action)
    requires s in Safe(c) && Enabled(s, a) && Sound(s) && AllHot(s) && !Strands(s, a)
    ensures AllHot(Apply(c, s, a))
  {
    if a.Progress? && s.pc.Closing() {
      CloseHot(c, s, a.now, a.sid);
    } else if a.Progress? && s.pc.Trimming() {
      if s.pc.ReadFallen? {
        FallenIsOld(c, s);
      }
      TrimHot(c, s);
    } else {
      ElseHot(c, s, a);
    }
  }

  lemma FallenIsOld(c: Crypto, s: State)
    requires s in Safe(c) && s.pc.ReadFallen?
    ensures FallenOk(s.hist, s.pc.fallen)
  {
    SafeMeans(c, s);
  }

  lemma NextHot(c: Crypto, states: seq<State>, actions: seq<Action>, i: nat)
    requires Run(c, states, actions) && i < |actions| && states[i] in Safe(c) && Sound(states[i])
    requires AllHot(states[i]) && !Strands(states[i], actions[i])
    ensures AllHot(states[i + 1])
  {
    assert StepAt(c, states, actions, i);
    StepHot(c, states[i], actions[i]);
  }

  /** No step of the run up to `i` stranded anything. */
  ghost predicate NothingStranded(states: seq<State>, actions: seq<Action>, i: nat)
    requires i <= |actions| < |states|
  {
    forall j :: 0 <= j < i ==> !Strands(states[j], actions[j])
  }

  lemma {:induction false} RunHot(c: Crypto, states: seq<State>, actions: seq<Action>, anchored: bool, i: nat)
    requires Run(c, states, actions) && states[0] == Initial(anchored) && i <= |actions|
    requires NothingStranded(states, actions, i)
    ensures AllHot(states[i])
  {
    if i > 0 {
      RunHot(c, states, actions, anchored, i - 1);
      RunSound(c, states, actions, anchored, i - 1);
      NextHot(c, states, actions, i - 1);
    }
  }

  // ----- what a stranding step leaves behind ---------------------------------------------------------------

  /** Epoch `k` has left the hot window and no trim for it is under way. */
  ghost predicate Passed(s: State, k: int) {
    0 <= k && k < |s.hist.sealed| - WORM_HOT_EPOCHS - (if Late(s.pc) then 1 else 0)
  }

  /** A location of a passed epoch, and none of the ids about to be dropped is its. */
  ghost predicate LeftBehind(s: State, id: string, k: int) {
    id in s.db.eventLoc && s.db.eventLoc[id].epoch == k && Passed(s, k)
    && (s.pc.DropFallenLocations? ==> id !in s.pc.ids)
  }

  /** Committing a new epoch gives no other event a location of its own, and takes none away. */
  lemma CommitLeavesIt(c: Crypto, s: State, now: int, sid: StreamId, id: string, k: int)
    requires s in Safe(c) && Enabled(s, Progress(now, sid)) && s.pc.Commit? && LeftBehind(s, id, k)
    ensures LeftBehind(CloseStep(c, s, now, sid), id, k)
  {
    SafeCommit(c, s);
    SafeLocation(c, s, id);
    var pending, n := s.pc.pending, |s.hist.sealed|;
    CommitIs(c, s, pending, now, sid);
    if id in Located(n, pending, |pending|) {
      LocatedSound(n, pending, |pending|, id);
      PendingIsNew(c, s.hist, pending, Located(n, pending, |pending|)[id].index, id, s.db.eventLoc[id]);
    }
  }

  /** A pending event shares no id with a sealed one. */
  lemma PendingIsNew(c: Crypto, hist: History, pending: seq<Event>, i: int, id: string, loc: Location)
    requires HistoryOk(c, hist) && PendingOk(hist, pending) && LocationIs(hist, id, loc) && 0 <= i < |pending|
    ensures pending[i].id != id
  {
    StartsIncrease(c, hist, loc.epoch, |hist.sealed|);
    var x, y := hist.Start(loc.epoch) - 1 + loc.index, SealedThrough(hist) + i;
    assert hist.Block(loc.epoch)[loc.index] == hist.log[x] && pending[i] == hist.log[y];
    if pending[i].id == id {
      LogIds(hist.log, |hist.log|, x, y);
    }
  }

  /** The ids read for the fallen epoch are none of an earlier epoch's. */
  lemma SegmentLeavesIt(c: Crypto, s: State, id: string, k: int)
    requires s in Safe(c) && s.pc.ReadSegment? && LeftBehind(s, id, k)
    ensures LeftBehind(TrimStep(s), id, k)
  {
    SafeBounds(c, s);
    SafeLocation(c, s, id);
    var f: nat, header := s.pc.fallen, s.pc.header;
    SegmentIds(c, s.hist, s.trimmed, s.db.events, f);
    var ids, loc := Ids(Between(s.db.events, header.core.first, header.core.last)), s.db.eventLoc[id];
    if id in ids {
      var e :| e in s.hist.Block(f) && e.id == id;
      var d := s.hist.Block(loc.epoch)[loc.index];
      assert d in s.hist.Block(loc.epoch);
      BlocksShareNoId(c, s.hist, loc.epoch, f, d, e);
    }
  }

  lemma TrimLeavesIt(c: Crypto, s: State, id: string, k: int)
    requires s in Safe(c) && s.pc.Trimming() && LeftBehind(s, id, k)
    ensures LeftBehind(TrimStep(s), id, k)
  {
    if s.pc.ReadSegment? {
      SegmentLeavesIt(c, s, id, k);
    }
  }

  lemma CloseLeavesIt(c: Crypto, s: State, now: int, sid: StreamId, id: string, k: int)
    requires s in Safe(c) && Enabled(s, Progress(now, sid)) && s.pc.Closing() && LeftBehind(s, id, k)
    ensures LeftBehind(CloseStep(c, s, now, sid), id, k)
  {
    if s.pc.Commit? {
      CommitLeavesIt(c, s, now, sid, id, k);
    } else {
      CloseTouches(c, s, now, sid);
    }
  }

  lemma OtherLeavesIt(c: Crypto, s: State, a: Action, id: string, k: int)
    requires LeftBehind(s, id, k) && Enabled(s, a)
    requires a.Progress? ==> s.pc.Verifying? || s.pc.Verified? || s.pc.Compacting()
    ensures LeftBehind(Apply(c, s, a), id, k)
  {
  }

  lemma StepLeavesIt(c: Crypto, s: State, a: Action, id: string, k: int)
    requires s in Safe(c) && Enabled(s, a) && LeftBehind(s, id, k)
    ensures LeftBehind(Apply(c, s, a), id, k)
  {
    if a.Progress? && s.pc.Closing() {
      CloseLeavesIt(c, s, a.now, a.sid, id, k);
    } else if a.Progress? && s.pc.Trimming() {
      TrimLeavesIt(c, s, id, k);
    } else {
      OtherLeavesIt(c, s, a, id, k);
    }
  }

  lemma NextLeavesIt(c: Crypto, states: seq<State>, actions: seq<Action>, id: string, k: int, i: nat)
    requires Run(c, states, actions) && i < |actions| && states[i] in Safe(c) && LeftBehind(states[i], id, k)
    ensures LeftBehind(states[i + 1], id, k)
  {
    assert StepAt(c, states, actions, i);
    StepLeavesIt(c, states[i], actions[i], id, k);
  }

  /** A location left behind stays for the rest of every run. */
  lemma {:induction false} LeftBehindForGood(
    c: Crypto, states: seq<State>, actions: seq<Action>, id: string, k: int, j: nat, i: nat)
    requires Run(c, states, actions) && states[0] in Safe(c) && j <= i <= |actions| && LeftBehind(states[j], id, k)
    ensures LeftBehind(states[i], id, k)
    decreases i
  {
    if j < i {
      LeftBehindForGood(c, states, actions, id, k, j, i - 1);
      RunIsSafe(c, states, actions, i - 1);
      NextLeavesIt(c, states, actions, id, k, i - 1);
    }
  }

  /** The first event of the fallen epoch has its location, in that epoch. */
  lemma FallenLocated(c: Crypto, s: State, k: nat) returns (id: string)
    requires s in Safe(c) && k < |s.hist.sealed| && Indexed(s.hist, k, s.db.eventLoc)
    ensures id in s.db.eventLoc && s.db.eventLoc[id].epoch == k
  {
    var e := s.hist.Block(k)[0];
    id := e.id;
    assert Findable(s.hist.Block(k), s.db.eventLoc, e);
    SafeLocation(c, s, id);
    SafeCounters(c, s);
    SamePlace(c, s.hist, k, 0, s.db.eventLoc[id]);
  }

  /** After a stranding step the lock is free, and a location of the fallen epoch is left behind. */
  lemma StrandingLeavesBehind(c: Crypto, s: State, a: Action) returns (id: string)
    requires s in Safe(c) && Sound(s) && Enabled(s, a) && Strands(s, a)
    ensures Apply(c, s, a).pc.Idle?
    ensures LeftBehind(Apply(c, s, a), id, |s.hist.sealed| - 1 - WORM_HOT_EPOCHS)
  {
    id := FallenLocated(c, s, |s.hist.sealed| - 1 - WORM_HOT_EPOCHS);
    assert Apply(c, s, a) == s.(pc := Idle);
  }

  // ----- the population -----------------------------------------------------------------------------------

  /** The event is one of a hot epoch. */
  ghost predicate InHotEpoch(hist: History, id: string) {
    exists k: nat, e :: k < |hist.sealed| && |hist.sealed| - WORM_HOT_EPOCHS <= k && hist.Covers(k)
      && e in hist.Block(k) && e.id == id
  }

  lemma HotHasLocation(c: Crypto, s: State, k: nat, e: Event)
    requires s in Safe(c) && k < |s.hist.sealed| && |s.hist.sealed| - WORM_HOT_EPOCHS <= k && s.hist.Covers(k)
    requires e in s.hist.Block(k)
    ensures e.id in s.db.eventLoc
  {
    SafeMeans(c, s);
    assert HotIndexed(s.hist, s.db.eventLoc, k);
    assert Findable(s.hist.Block(k), s.db.eventLoc, e);
  }

  lemma LocatedIsHot(hist: History, id: string, loc: Location)
    requires LocationIs(hist, id, loc) && loc.epoch >= |hist.sealed| - WORM_HOT_EPOCHS
    ensures InHotEpoch(hist, id)
  {
    var k: nat, e := loc.epoch, hist.Block(loc.epoch)[loc.index];
    assert e in hist.Block(k) && e.id == id;
  }

  lemma LocatedIsCold(c: Crypto, hist: History, id: string, loc: Location)
    requires HistoryOk(c, hist) && LocationIs(hist, id, loc) && loc.epoch < |hist.sealed| - WORM_HOT_EPOCHS
    ensures !InHotEpoch(hist, id)
  {
    var d := hist.Block(loc.epoch)[loc.index];
    if InHotEpoch(hist, id) {
      var k: nat, e :| k < |hist.sealed| && |hist.sealed| - WORM_HOT_EPOCHS <= k && hist.Covers(k) && e in hist.Block(k)
        && e.id == id;
      BlocksShareNoId(c, hist, loc.epoch, k, d, e);
    }
  }

  /** The location entries are exactly those of the events of hot epochs. */
  ghost predicate PopulationExact(s: State) { forall id :: LocatedIff(s, id) }

  ghost predicate LocatedIff(s: State, id: string) { id in s.db.eventLoc <==> InHotEpoch(s.hist, id) }

  lemma HotIsExact(c: Crypto, s: State)
    requires s in Safe(c) && s.pc.Idle? && AllHot(s)
    ensures PopulationExact(s)
  {
    forall id
      ensures LocatedIff(s, id)
    {
      SafeLocation(c, s, id);
      assert HotOnly(s, id);
      if id in s.db.eventLoc {
        LocatedIsHot(s.hist, id, s.db.eventLoc[id]);
      }
      if InHotEpoch(s.hist, id) {
        var k: nat, e :| k < |s.hist.sealed| && |s.hist.sealed| - WORM_HOT_EPOCHS <= k && s.hist.Covers(k)
          && e in s.hist.Block(k) && e.id == id;
        HotHasLocation(c, s, k, e);
      }
    }
  }

  lemma LeftIsNotExact(c: Crypto, s: State, id: string, k: int)
    requires s in Safe(c) && s.pc.Idle? && LeftBehind(s, id, k)
    ensures !PopulationExact(s)
  {
    SafeLocation(c, s, id);
    SafeCounters(c, s);
    LocatedIsCold(c, s.hist, id, s.db.eventLoc[id]);
    assert !LocatedIff(s, id);
  }

  /**
   In every run from an empty ledger, whenever nobody holds the lock, the location entries are
   exactly those of the events of hot epochs if and only if no step so far stranded any.
   */
  lemma PopulationExactIff(c: Crypto, states: seq<State>, actions: seq<Action>, anchored: bool, i: nat)
    requires Run(c, states, actions) && states[0] == Initial(anchored) && i <= |actions| && states[i].pc.Idle?
    ensures PopulationExact(states[i]) <==> NothingStranded(states, actions, i)
  {
    RunSound(c, states, actions, anchored, i);
    if NothingStranded(states, actions, i) {
      RunHot(c, states, actions, anchored, i);
      HotIsExact(c, states[i]);
    } else {
      var j: nat :| j < i && Strands(states[j], actions[j]);
      StrandedStays(c, states, actions, anchored, j, i);
    }
  }

  lemma StrandedStays(c: Crypto, states: seq<State>, actions: seq<Action>, anchored: bool, j: nat, i: nat)
    requires Run(c, states, actions) && states[0] == Initial(anchored) && j < i <= |actions|
    requires Strands(states[j], actions[j]) && states[i].pc.Idle?
    ensures !PopulationExact(states[i])
  {
    RunSound(c, states, actions, anchored, 0);
    RunSound(c, states, actions, anchored, j);
    RunSound(c, states, actions, anchored, i);
    assert StepAt(c, states, actions, j);
    var id := StrandingLeavesBehind(c, states[j], actions[j]);
    LeftBehindForGood(c, states, actions, id, |states[j].hist.sealed| - 1 - WORM_HOT_EPOCHS, j + 1, i);
    LeftIsNotExact(c, states[i], id, |states[j].hist.sealed| - 1 - WORM_HOT_EPOCHS);
  }

  // ----- compactions that keep the hot window --------------------------------------------------------------

  /** A fallen epoch without header was folded into the checkpoint while it was still hot. */
  lemma UnheadedWasFolded(c: Crypto, s: State)
    requires s in Safe(c) && Unheaded(s)
    ensures s.pc.fallen < First(s)
  {
    SafeMeans(c, s);
    assert IndexEntryOk(s.hist, First(s), s.db.index, s.pc.fallen);
  }

  predicate KeepsWindow(a: Action) { a.BeginCompact? ==> a.keep >= WORM_HOT_EPOCHS }

  /** The epoch a compaction under way is to fold up to. */
  function Target(pc: Pc): int {
    match pc
    case CompactGetCheckpoint(target, _) => target
    case Verifying(Fold(target), _, _) => target
    case Verified(Fold(target), _) => target
    case CompactSet(_, target) => target
    case _ => -1
  }

  /** Folding stays behind the hot window. */
  predicate FoldsBehind(s: State) {
    var hot, late := |s.hist.sealed| - WORM_HOT_EPOCHS, if Late(s.pc) then 1 else 0;
    && (First(s) <= 0 || First(s) <= hot - late)
    && (Target(s.pc) < 0 || Target(s.pc) < hot)
    && (s.pc.CompactGetNum? ==> s.pc.keep >= WORM_HOT_EPOCHS)
  }

  lemma CommitFolds(c: Crypto, s: State, now: int, sid: StreamId)
    requires s in Safe(c) && s.pc.Commit? && FoldsBehind(s)
    ensures FoldsBehind(CloseStep(c, s, now, sid))
  {
    SafeCommit(c, s);
    CommitIs(c, s, s.pc.pending, now, sid);
  }

  lemma CloseFolds(c: Crypto, s: State, now: int, sid: StreamId)
    requires s in Safe(c) && s.pc.Closing() && FoldsBehind(s)
    ensures FoldsBehind(CloseStep(c, s, now, sid))
  {
    if s.pc.Commit? {
      CommitFolds(c, s, now, sid);
    } else {
      CloseTouches(c, s, now, sid);
      ClosePc(c, s, now, sid);
    }
  }

  lemma ClosePc(c: Crypto, s: State, now: int, sid: StreamId)
    requires s.pc.Closing() && !s.pc.Commit?
    ensures Target(CloseStep(c, s, now, sid).pc) < 0 && !CloseStep(c, s, now, sid).pc.CompactGetNum?
  {
  }

  lemma GetNumFolds(c: Crypto, s: State)
    requires s in Safe(c) && s.pc.CompactGetNum? && FoldsBehind(s)
    ensures FoldsBehind(CompactStep(s))
  {
    CounterCounts(c, s);
  }

  lemma CompactFoldsBehind(s: State)
    requires s.pc.Compacting() && !s.pc.CompactGetNum? && FoldsBehind(s)
    ensures FoldsBehind(CompactStep(s))
  {
  }

  lemma ElseFolds(c: Crypto, s: State, a: Action)
    requires FoldsBehind(s) && Enabled(s, a) && KeepsWindow(a)
    requires a.Progress? ==> s.pc.Verifying? || s.pc.Verified? || s.pc.Trimming()
    ensures FoldsBehind(Apply(c, s, a))
  {
  }

  lemma StepFolds(c: Crypto, s: State, a: Action)
    requires s in Safe(c) && Enabled(s, a) && KeepsWindow(a) && FoldsBehind(s)
    ensures FoldsBehind(Apply(c, s, a))
  {
    if a.Progress? && s.pc.Closing() {
      CloseFolds(c, s, a.now, a.sid);
    } else if a.Progress? && s.pc.CompactGetNum? {
      GetNumFolds(c, s);
    } else if a.Progress? && s.pc.Compacting() {
      CompactFoldsBehind(s);
    } else {
      ElseFolds(c, s, a);
    }
  }

  lemma NextFolds(c: Crypto, states: seq<State>, actions: seq<Action>, i: nat)
    requires Run(c, states, actions) && i < |actions| && states[i] in Safe(c) && KeepsWindow(actions[i])
    requires FoldsBehind(states[i])
    ensures FoldsBehind(states[i + 1])
  {
    assert StepAt(c, states, actions, i);
    StepFolds(c, states[i], actions[i]);
  }

  lemma {:induction false} RunFolds(c: Crypto, states: seq<State>, actions: seq<Action>, anchored: bool, i: nat)
    requires Run(c, states, actions) && states[0] == Initial(anchored) && i <= |actions|
    requires forall j :: 0 <= j < |actions| ==> KeepsWindow(actions[j])
    ensures FoldsBehind(states[i])
  {
    if i > 0 {
      RunFolds(c, states, actions, anchored, i - 1);
      RunSound(c, states, actions, anchored, i - 1);
      NextFolds(c, states, actions, i - 1);
    }
  }

  /** A crash while the fallen epoch's locations are still there. */
  predicate CrashesBehind(s: State, a: Action) { a.Crash? && Behind(s.pc) && |s.hist.sealed| > WORM_HOT_EPOCHS }

  lemma KeptIsHeaded(c: Crypto, s: State, a: Action)
    requires s in Safe(c) && FoldsBehind(s)
    ensures Strands(s, a) <==> CrashesBehind(s, a)
  {
    if Unheaded(s) {
      UnheadedWasFolded(c, s);
      FallenIsOld(c, s);
    }
  }

  /**
   When every compaction keeps the hot window, the population is exact if and only if nobody
   crashed between a commit and the removal of the fallen epoch's locations.
   */
  lemma KeptPopulationExactIff(c: Crypto, states: seq<State>, actions: seq<Action>, anchored: bool, i: nat)
    requires Run(c, states, actions) && states[0] == Initial(anchored) && i <= |actions| && states[i].pc.Idle?
    requires forall j :: 0 <= j < |actions| ==> KeepsWindow(actions[j])
    ensures PopulationExact(states[i]) <==> forall j :: 0 <= j < i ==> !CrashesBehind(states[j], actions[j])
  {
    PopulationExactIff(c, states, actions, anchored, i);
    forall j | 0 <= j < i
      ensures Strands(states[j], actions[j]) <==> CrashesBehind(states[j], actions[j])
    {
      RunSound(c, states, actions, anchored, j);
      RunFolds(c, states, actions, anchored, j);
      KeptIsHeaded(c, states[j], actions[j]);
    }
  }
}
