/**
 Emits and closes keep the invariant of the ledger machine.
 */
module WormSteps {
  import opened Bytes
  import opened Merkle
  import opened WormHistory
  import opened WormHonest
  import opened WormInvariant
  import opened WormMachine
  import opened WormSoundness
  import opened WormStore
  import opened WormVerify
  import opened Wrappers

  // ----- emit ------------------------------------------------------------------------------

  function WithEvent(hist: History, e: Event): History { hist.(log := hist.log + [e]) }

  lemma EmitKeepsHistory(c: Crypto, hist: History, e: Event)
    requires HistoryOk(c, hist)
    requires e.seqNo == |hist.log| + 1
    requires hist.log != [] ==> hist.log[|hist.log| - 1].sid < e.sid
    requires forall i :: 0 <= i < |hist.log| ==> hist.log[i].id != e.id
    ensures HistoryOk(c, WithEvent(hist, e)) && Grows(hist, WithEvent(hist, e))
  {
    var hist' := WithEvent(hist, e);
    LogOkPrefix(hist.log, hist'.log, |hist.log|);
    SealedOkGrows(c, hist, hist', |hist.sealed|);
  }

  lemma EmitKeepsBuffer(hist: History, trimmed: nat, events: seq<Event>, e: Event)
    requires BufferOk(hist, trimmed, events)
    ensures BufferOk(WithEvent(hist, e), trimmed, events + [e])
  {
  }

  lemma EmitKeepsLeaves(c: Crypto, hist: History, first: int, leaves: map<int, seq<Bytes>>, e: Event)
    requires LeavesOk(c, hist, first, leaves)
    ensures LeavesOk(c, WithEvent(hist, e), first, leaves)
  {
    forall k
      ensures LeavesEntryOk(c, WithEvent(hist, e), first, leaves, k)
    {
      assert LeavesEntryOk(c, hist, first, leaves, k);
      if k in leaves {
        LeavesGrow(c, hist, WithEvent(hist, e), k, leaves[k]);
      }
    }
  }

  lemma EmitKeepsLocations(hist: History, eventLoc: map<string, Location>, e: Event)
    requires LocationsOk(hist, eventLoc)
    ensures LocationsOk(WithEvent(hist, e), eventLoc)
  {
    var hist' := WithEvent(hist, e);
    forall id
      ensures LocationEntryOk(hist', eventLoc, id)
    {
      assert LocationEntryOk(hist, eventLoc, id);
      if id in eventLoc {
        LocationGrows(hist, hist', id, eventLoc[id]);
      }
    }
    forall k: nat
      ensures HotIndexed(hist', eventLoc, k)
    {
      assert HotIndexed(hist, eventLoc, k);
      if Indexed(hist, k, eventLoc) {
        IndexedGrows(hist, hist', k, eventLoc, map[]);
        assert eventLoc + map[] == eventLoc;
      }
    }
  }

  lemma EmitKeepsSigned(hist: History, signed: set<Message>, e: Event)
    requires SignedOk(hist, signed)
    ensures SignedOk(WithEvent(hist, e), signed)
  {
    SignedHonestGrows(hist, WithEvent(hist, e), signed);
    forall k
      ensures HeaderSigned(WithEvent(hist, e), signed, k)
    {
      assert HeaderSigned(hist, signed, k);
    }
  }

  lemma EmitKeepsIndex(hist: History, first: int, index: map<int, Fields>, e: Event)
    requires IndexOk(hist, first, index)
    ensures IndexOk(WithEvent(hist, e), first, index)
  {
    forall k
      ensures IndexEntryOk(WithEvent(hist, e), first, index, k)
    {
      assert IndexEntryOk(hist, first, index, k);
    }
  }

  lemma EmitKeepsStream(hist: History, sids: seq<StreamId>, dropped: nat, epochs: seq<EpochEntry>, e: Event)
    requires StreamOk(hist, sids, dropped, epochs)
    ensures StreamOk(WithEvent(hist, e), sids, dropped, epochs)
  {
    forall i
      ensures StreamEntryOk(WithEvent(hist, e), sids, dropped, epochs, i)
    {
      assert StreamEntryOk(hist, sids, dropped, epochs, i);
    }
  }

  lemma EmitKeepsPending(hist: History, pending: seq<Event>, e: Event)
    requires PendingOk(hist, pending)
    ensures PendingOk(WithEvent(hist, e), pending)
  {
    var from := SealedThrough(hist);
    assert WithEvent(hist, e).log[from..from + |pending|] == hist.log[from..from + |pending|];
  }

  lemma EmitKeepsSnapshot(
    hist: History, trimmed: nat, db: Redis, db': Redis, stage: nat, snap: Snapshot, e: Event)
    requires trimmed <= |hist.sealed| && SnapshotOk(db, hist, trimmed, stage, snap)
    requires db' == db.(seqNo := db'.seqNo, events := db'.events)
    ensures SnapshotOk(db', WithEvent(hist, e), trimmed, stage, snap)
  {
    var hist' := WithEvent(hist, e);
    if stage >= 1 && snap.expected.Some? {
      GenuineGrows(hist, hist', AnchorMessage(snap.expected.value.epoch, snap.expected.value.hash));
    }
    if stage >= 4 {
      var lo := hist.Start(trimmed) - 1;
      assert hist'.log[lo..lo + |snap.events|] == hist.log[lo..lo + |snap.events|];
    }
  }

  lemma EmitKeepsPc(s: State, s': State, e: Event)
    requires s.trimmed <= |s.hist.sealed| && PcOk(s)
    requires s' == s.(db := s'.db, hist := WithEvent(s.hist, e))
    requires s'.db == s.db.(seqNo := s'.db.seqNo, events := s'.db.events)
    ensures PcOk(s')
  {
    match s.pc {
      case GetHead(pending) => EmitKeepsPending(s.hist, pending, e);
      case GetNum(pending, prev) => EmitKeepsPending(s.hist, pending, e);
      case Commit(pending, prev, epoch) => EmitKeepsPending(s.hist, pending, e);
      case DropFallenLocations(fallen, ids) => BlockGrows(s.hist, s'.hist, fallen);
      case Verifying(goal, stage, snap) => EmitKeepsSnapshot(s.hist, s.trimmed, s.db, s'.db, stage, snap, e);
      case _ =>
    }
  }

  lemma EmitKeepsEvents(c: Crypto, db: Redis, hist: History, signed: set<Message>, trimmed: nat, e: Event)
    requires EventsOk(c, db, hist, signed, trimmed) && e.seqNo == db.seqNo + 1
    requires hist.log != [] ==> hist.log[|hist.log| - 1].sid < e.sid
    requires forall i :: 0 <= i < |hist.log| ==> hist.log[i].id != e.id
    ensures EventsOk(c, db.(seqNo := e.seqNo, events := db.events + [e]), WithEvent(hist, e), signed, trimmed)
  {
    EmitKeepsHistory(c, hist, e);
    EmitKeepsBuffer(hist, trimmed, db.events, e);
    EmitKeepsSigned(hist, signed, e);
  }

  lemma EmitKeepsStore(c: Crypto, s: State, e: Event)
    requires StoreOk(c, s.db, s.hist, s.sids, s.signed, s.trimmed, s.dropped)
    requires e.seqNo == s.db.seqNo + 1
    requires s.hist.log != [] ==> s.hist.log[|s.hist.log| - 1].sid < e.sid
    requires forall i :: 0 <= i < |s.hist.log| ==> s.hist.log[i].id != e.id
    ensures StoreOk(c, s.db.(seqNo := e.seqNo, events := s.db.events + [e]), WithEvent(s.hist, e),
                    s.sids, s.signed, s.trimmed, s.dropped)
  {
    EmitKeepsEvents(c, s.db, s.hist, s.signed, s.trimmed, e);
    EmitKeepsStream(s.hist, s.sids, s.dropped, s.db.epochs, e);
    EmitKeepsLookups(c, s.db, s.hist, s.sids, FirstEpoch(CellCheckpoint(s.db.checkpoint)), e);
  }

  lemma EmitKeepsLookups(c: Crypto, db: Redis, hist: History, sids: seq<StreamId>, first: int, e: Event)
    requires LookupsOk(c, db, hist, sids, first)
    ensures LookupsOk(c, db.(seqNo := e.seqNo, events := db.events + [e]), WithEvent(hist, e), sids, first)
  {
    EmitKeepsLeaves(c, hist, first, db.leaves, e);
    EmitKeepsLocations(hist, db.eventLoc, e);
    EmitKeepsIndex(hist, first, db.index, e);
  }

  lemma EmitIs(s: State, e: Event)
    requires e.seqNo == s.db.seqNo + 1
    ensures EmitStep(s, e.sid, e.id, e.record)
         == s.(db := s.db.(seqNo := e.seqNo, events := s.db.events + [e]), hist := WithEvent(s.hist, e))
  {
  }

  lemma EmitIsSafe(c: Crypto, s: State, sid: StreamId, id: string, record: Bytes)
    requires s in Safe(c) && Enabled(s, Emit(sid, id, record))
    ensures EmitStep(s, sid, id, record) in Safe(c)
  {
    var e := Event(sid, s.db.seqNo + 1, id, record);
    SafeMeans(c, s);
    EmitIs(s, e);
    EmitKeepsStore(c, s, e);
    EmitKeepsPc(s, EmitStep(s, sid, id, record), e);
  }

  // ----- reading stretches of the buffer ---------------------------------------------------------

  /** A filter that holds exactly on positions a..b keeps that slice. */
  lemma {:induction false} SelectSlice(es: seq<Event>, keep: Event -> bool, a: nat, b: nat)
    requires a <= b <= |es|
    requires forall i :: 0 <= i < |es| ==> (keep(es[i]) <==> a <= i < b)
    ensures Select(es, keep) == es[a..b]
  {
    if es != [] {
      var rest := es[1..];
      assert keep(es[0]) <==> a == 0 < b;
      if a > 0 {
        SelectSlice(rest, keep, a - 1, b - 1);
      } else if b > 0 {
        SelectSlice(rest, keep, 0, b - 1);
        assert es[0..b] == [es[0]] + rest[0..b - 1];
      } else {
        SelectSlice(rest, keep, 0, 0);
      }
    }
  }

  lemma {:induction false} SelectSound(es: seq<Event>, keep: Event -> bool, e: Event)
    requires e in Select(es, keep)
    ensures e in es && keep(e)
  {
    if e in Select(es[1..], keep) {
      SelectSound(es[1..], keep, e);
    }
  }

  lemma {:induction false} SortedIsSorted(es: seq<Event>)
    requires forall i, j :: 0 <= i < j < |es| ==> es[i].seqNo < es[j].seqNo
    ensures SortBySeq(es) == es
  {
    if |es| > 1 {
      SortedIsSorted(es[1..]);
      assert es[1..][0] == es[1];
    }
  }

  /** Stream ids order the log as positions do. */
  lemma LogOrder(log: seq<Event>, i: nat, j: nat)
    requires LogOk(log, |log|) && i < |log| && j < |log|
    ensures log[i].sid < log[j].sid <==> i < j
    ensures log[i].sid == log[j].sid <==> i == j
  {
    if i < j {
      LogSids(log, |log|, i, j);
    } else if j < i {
      LogSids(log, |log|, j, i);
    }
  }

  lemma SealedThroughBounds(c: Crypto, hist: History, trimmed: nat)
    requires HistoryOk(c, hist) && trimmed <= |hist.sealed|
    ensures 1 <= hist.Start(trimmed) <= hist.Start(|hist.sealed|) <= |hist.log| + 1
  {
    if trimmed < |hist.sealed| {
      StartsIncrease(c, hist, trimmed, |hist.sealed|);
    } else if 0 < trimmed {
      StartsIncrease(c, hist, trimmed - 1, trimmed);
    }
  }

  /** A stream id in the log splits it there. */
  lemma SidSplits(log: seq<Event>, end: nat, i: nat)
    requires LogOk(log, |log|) && 0 < end <= |log| && i < |log|
    ensures log[i].sid > log[end - 1].sid <==> end <= i
  {
    LogOrder(log, i, end - 1);
  }

  lemma SealedLast(c: Crypto, hist: History, k: nat)
    requires HistoryOk(c, hist) && k < |hist.sealed|
    ensures 0 < hist.sealed[k].core.end <= |hist.log|
    ensures hist.sealed[k].core.last == hist.log[hist.sealed[k].core.end - 1].sid
  {
    SealedPartition(c, hist, k);
    SealedBounds(c, hist, k);
  }

  /** The tail after the cursor is the unsealed part of the log. */
  lemma TailIsUnsealed(c: Crypto, hist: History, trimmed: nat, db: Redis)
    requires HistoryOk(c, hist) && BufferOk(hist, trimmed, db.events) && CursorOk(hist, db.cursor)
    ensures IsRest(hist.log, SealedThrough(hist), ReadTail(db, db.cursor))
  {
    SealedThroughBounds(c, hist, trimmed);
    if |hist.sealed| > 0 {
      SealedLast(c, hist, |hist.sealed| - 1);
      AfterCut(hist.log, hist.Start(trimmed) - 1, db.events, SealedThrough(hist));
    }
  }

  /** XRANGE after a sid that splits the stream at position `a`. */
  lemma AfterSlice(es: seq<Event>, sid: StreamId, a: nat)
    requires a <= |es| && forall i :: 0 <= i < |es| ==> (es[i].sid > sid <==> a <= i)
    ensures After(es, sid) == es[a..]
  {
    SelectSlice(es, IsAfter(sid), a, |es|);
  }

  /** What comes after an event of the log is the log from there. */
  lemma AfterCut(log: seq<Event>, lo: nat, events: seq<Event>, end: nat)
    requires LogOk(log, |log|) && IsRest(log, lo, events) && lo <= end <= |log| && 0 < end
    ensures IsRest(log, end, After(events, log[end - 1].sid))
  {
    forall i | 0 <= i < |events|
      ensures events[i].sid > log[end - 1].sid <==> end - lo <= i
    {
      SidSplits(log, end, lo + i);
    }
    AfterSlice(events, log[end - 1].sid, end - lo);
  }

  /** Filtering and sorting leave the unsealed tail as it is. */
  lemma TailStays(hist: History, from: nat, tail: seq<Event>)
    requires LogOk(hist.log, |hist.log|) && IsRest(hist.log, from, tail)
    ensures SortBySeq(Above(tail, from)) == tail
  {
    forall i | 0 <= i < |tail|
      ensures tail[i].seqNo == from + i + 1
    {
      LogSeq(hist.log, |hist.log|, from + i);
    }
    InOrderStays(tail, from);
  }

  lemma InOrderStays(tail: seq<Event>, from: nat)
    requires forall i :: 0 <= i < |tail| ==> tail[i].seqNo == from + i + 1
    ensures SortBySeq(Above(tail, from)) == tail
  {
    SelectSlice(tail, IsAbove(from), 0, |tail|);
    assert tail[0..|tail|] == tail;
    SortedIsSorted(tail);
  }

  /** What a close seals is the front of the unsealed log, up to the leaf cap. */
  lemma PendingIsFront(c: Crypto, hist: History, trimmed: nat, db: Redis)
    requires HistoryOk(c, hist) && BufferOk(hist, trimmed, db.events) && CursorOk(hist, db.cursor)
    ensures var pending := Pending(db, SealedThrough(hist), db.cursor);
      if |hist.log| == SealedThrough(hist) then pending == [] else PendingOk(hist, pending)
  {
    TailIsUnsealed(c, hist, trimmed, db);
    var tail := ReadTail(db, db.cursor);
    TailStays(hist, SealedThrough(hist), tail);
    FrontOfTail(hist, tail);
  }

  lemma FrontOfTail(hist: History, tail: seq<Event>)
    requires IsRest(hist.log, SealedThrough(hist), tail)
    ensures if |hist.log| == SealedThrough(hist) then Capped(tail) == [] else PendingOk(hist, Capped(tail))
  {
    var from := SealedThrough(hist);
    assert Capped(tail) == hist.log[from..from + |Capped(tail)|];
  }

  // ----- sealing an epoch -------------------------------------------------------------------

  function WithEpoch(hist: History, h: Header): History { hist.(sealed := hist.sealed + [h]) }

  /** The header a close builds over the pending events. */
  function Sealing(c: Crypto, hist: History, pending: seq<Event>, now: int): Header
    requires pending != []
  {
    NewHeader(c, pending, hist.Link(|hist.sealed|), |hist.sealed|, now)
  }

  lemma SealExtends(c: Crypto, hist: History, pending: seq<Event>, now: int)
    requires HistoryOk(c, hist) && PendingOk(hist, pending)
    ensures var hist', k := WithEpoch(hist, Sealing(c, hist, pending, now)), |hist.sealed|;
      Grows(hist, hist') && hist'.Covers(k) && hist'.Block(k) == pending
  {
    var hist', k := WithEpoch(hist, Sealing(c, hist, pending, now)), |hist.sealed|;
    assert hist'.Start(k) == hist.Start(k);
    var from := SealedThrough(hist);
    assert pending[|pending| - 1] == hist.log[from + |pending| - 1];
    LogSeq(hist.log, |hist.log|, from + |pending| - 1);
  }

  lemma SealKeepsHistory(c: Crypto, hist: History, pending: seq<Event>, now: int)
    requires HistoryOk(c, hist) && PendingOk(hist, pending)
    ensures HistoryOk(c, WithEpoch(hist, Sealing(c, hist, pending, now)))
  {
    var hist', k := WithEpoch(hist, Sealing(c, hist, pending, now)), |hist.sealed|;
    SealExtends(c, hist, pending, now);
    SealedOkGrows(c, hist, hist', k);
    assert hist'.Link(k) == hist.Link(k);
    assert hist'.EpochOk(c, k);
  }

  lemma SealKeepsBuffer(hist: History, h: Header, trimmed: nat, events: seq<Event>)
    requires BufferOk(hist, trimmed, events)
    ensures BufferOk(WithEpoch(hist, h), trimmed, events)
  {
    assert WithEpoch(hist, h).Start(trimmed) == hist.Start(trimmed);
  }

  lemma SealKeepsSigned(hist: History, h: Header, signed: set<Message>)
    requires SignedOk(hist, signed)
    ensures SignedOk(WithEpoch(hist, h), signed + {EpochMessage(h.hash)})
  {
    var hist' := WithEpoch(hist, h);
    var signed' := signed + {EpochMessage(h.hash)};
    SignedHonestGrows(hist, hist', signed);
    assert hist'.sealed[|hist.sealed|] == h;
    assert Genuine(hist', EpochMessage(h.hash));
    forall m | m in signed'
      ensures Genuine(hist', m)
    {
    }
    forall k
      ensures HeaderSigned(hist', signed', k)
    {
      assert HeaderSigned(hist, signed, k);
    }
  }

  lemma SealKeepsCell(hist: History, h: Header, signed: set<Message>, cell: CheckpointCell)
    requires CellOk(hist, signed, cell)
    ensures CellOk(WithEpoch(hist, h), signed + {EpochMessage(h.hash)}, cell)
  {
    if cell.Stored? {
      var cp := cell.checkpoint;
      GenuineGrows(hist, WithEpoch(hist, h), CheckpointMessage(cp.epoch, cp.hash, cp.end));
    }
  }

  lemma SealKeepsStream(
    hist: History, h: Header, sids: seq<StreamId>, sid: StreamId, dropped: nat, epochs: seq<EpochEntry>)
    requires StreamOk(hist, sids, dropped, epochs) && (sids != [] ==> sids[|sids| - 1] < sid)
    ensures StreamOk(WithEpoch(hist, h), sids + [sid], dropped, epochs + [EpochEntry(sid, Readable(h))])
  {
    var hist', sids', epochs' := WithEpoch(hist, h), sids + [sid], epochs + [EpochEntry(sid, Readable(h))];
    SidsGrow(sids, sids', |sids|);
    forall i
      ensures StreamEntryOk(hist', sids', dropped, epochs', i)
    {
      assert StreamEntryOk(hist, sids, dropped, epochs, i);
    }
  }

  lemma {:induction false} SidsGrow(sids: seq<StreamId>, longer: seq<StreamId>, n: nat)
    requires sids <= longer && n <= |sids| && SidsOk(sids, n)
    ensures SidsOk(longer, n)
  {
    if n > 0 {
      SidsGrow(sids, longer, n - 1);
    }
  }

  lemma SealKeepsLeaves(
    c: Crypto, hist: History, pending: seq<Event>, now: int, first: int, leaves: map<int, seq<Bytes>>)
    requires HistoryOk(c, hist) && PendingOk(hist, pending) && LeavesOk(c, hist, first, leaves)
    ensures LeavesOk(c, WithEpoch(hist, Sealing(c, hist, pending, now)), first,
                     leaves[|hist.sealed| := LeafDigests(c.tree, Records(pending))])
  {
    var hist', k := WithEpoch(hist, Sealing(c, hist, pending, now)), |hist.sealed|;
    SealExtends(c, hist, pending, now);
    var leaves' := leaves[k := LeafDigests(c.tree, Records(pending))];
    forall j
      ensures LeavesEntryOk(c, hist', first, leaves', j)
    {
      assert LeavesEntryOk(c, hist, first, leaves, j);
      if j != k && j in leaves {
        LeavesGrow(c, hist, hist', j, leaves[j]);
      }
    }
  }

  lemma {:induction false} LocatedSound(epoch: int, pending: seq<Event>, n: nat, id: string)
    requires n <= |pending| && id in Located(epoch, pending, n)
    ensures var loc := Located(epoch, pending, n)[id];
      loc.epoch == epoch && 0 <= loc.index < n && pending[loc.index].id == id && pending[loc.index].sid == loc.sid
  {
    if id != pending[n - 1].id {
      LocatedSound(epoch, pending, n - 1, id);
    }
  }

  lemma {:induction false} LocatedComplete(epoch: int, pending: seq<Event>, n: nat, i: nat)
    requires i < n <= |pending|
    ensures pending[i].id in Located(epoch, pending, n)
  {
    if i < n - 1 {
      LocatedComplete(epoch, pending, n - 1, i);
    }
  }

  lemma SealLocates(c: Crypto, hist: History, pending: seq<Event>, now: int, id: string)
    requires HistoryOk(c, hist) && PendingOk(hist, pending) && id in Located(|hist.sealed|, pending, |pending|)
    ensures LocationIs(WithEpoch(hist, Sealing(c, hist, pending, now)), id,
                       Located(|hist.sealed|, pending, |pending|)[id])
  {
    SealExtends(c, hist, pending, now);
    LocatedSound(|hist.sealed|, pending, |pending|, id);
  }

  lemma IndexedGrows(
    hist: History, hist': History, j: nat, eventLoc: map<string, Location>, more: map<string, Location>)
    requires Grows(hist, hist') && j < |hist.sealed| && Indexed(hist, j, eventLoc)
    ensures Indexed(hist', j, eventLoc + more)
  {
    BlockGrows(hist, hist', j);
    forall e
      ensures Findable(hist'.Block(j), eventLoc + more, e)
    {
      assert Findable(hist.Block(j), eventLoc, e);
    }
  }

  lemma NewlyIndexed(c: Crypto, hist: History, pending: seq<Event>, now: int, eventLoc: map<string, Location>)
    requires HistoryOk(c, hist) && PendingOk(hist, pending)
    ensures Indexed(WithEpoch(hist, Sealing(c, hist, pending, now)), |hist.sealed|,
                    eventLoc + Located(|hist.sealed|, pending, |pending|))
  {
    SealExtends(c, hist, pending, now);
    forall e
      ensures Findable(pending, eventLoc + Located(|hist.sealed|, pending, |pending|), e)
    {
      if e in pending {
        var i :| 0 <= i < |pending| && pending[i] == e;
        LocatedComplete(|hist.sealed|, pending, |pending|, i);
      }
    }
  }

  lemma LocationKept(
    c: Crypto, hist: History, pending: seq<Event>, now: int, eventLoc: map<string, Location>, id: string)
    requires HistoryOk(c, hist) && PendingOk(hist, pending)
    requires LocationEntryOk(hist, eventLoc, id)
    ensures LocationEntryOk(WithEpoch(hist, Sealing(c, hist, pending, now)),
                            eventLoc + Located(|hist.sealed|, pending, |pending|), id)
  {
    if id in Located(|hist.sealed|, pending, |pending|) {
      SealLocates(c, hist, pending, now, id);
    } else if id in eventLoc {
      LocationGrows(hist, WithEpoch(hist, Sealing(c, hist, pending, now)), id, eventLoc[id]);
    }
  }

  lemma SealKeepsLocations(c: Crypto, hist: History, pending: seq<Event>, now: int, eventLoc: map<string, Location>)
    requires HistoryOk(c, hist) && PendingOk(hist, pending) && LocationsOk(hist, eventLoc)
    ensures LocationsOk(WithEpoch(hist, Sealing(c, hist, pending, now)),
                        eventLoc + Located(|hist.sealed|, pending, |pending|))
  {
    var hist', k := WithEpoch(hist, Sealing(c, hist, pending, now)), |hist.sealed|;
    var located := Located(k, pending, |pending|);
    forall id
      ensures LocationEntryOk(hist', eventLoc + located, id)
    {
      assert LocationEntryOk(hist, eventLoc, id);
      LocationKept(c, hist, pending, now, eventLoc, id);
    }
    forall j: nat
      ensures HotIndexed(hist', eventLoc + located, j)
    {
      assert HotIndexed(hist, eventLoc, j);
      if Indexed(hist, j, eventLoc) {
        IndexedGrows(hist, hist', j, eventLoc, located);
      } else if j == k {
        NewlyIndexed(c, hist, pending, now, eventLoc);
      }
    }
  }

  lemma SealKeepsIndex(hist: History, h: Header, first: int, index: map<int, Fields>)
    requires IndexOk(hist, first, index)
    ensures IndexOk(WithEpoch(hist, h), first, index[|hist.sealed| := Readable(h)])
  {
    var index' := index[|hist.sealed| := Readable(h)];
    forall k
      ensures IndexEntryOk(WithEpoch(hist, h), first, index', k)
    {
      assert IndexEntryOk(hist, first, index, k);
    }
  }

  lemma SealKeepsStreamIds(sids: seq<StreamId>, sid: StreamId, first: int, streamId: map<int, StreamId>)
    requires StreamIdsOk(sids, first, streamId)
    ensures StreamIdsOk(sids + [sid], first, streamId[|sids| := sid])
  {
    var streamId' := streamId[|sids| := sid];
    forall k
      ensures StreamIdEntryOk(sids + [sid], first, streamId', k)
    {
      assert StreamIdEntryOk(sids, first, streamId, k);
    }
  }

  /** The store after the commit script took effect. */
  function Sealed(c: Crypto, db: Redis, hist: History, pending: seq<Event>, now: int, sid: StreamId): Redis
    requires pending != []
  {
    CommitScript(db, sid, Sealing(c, hist, pending, now), LeafDigests(c.tree, Records(pending)),
                 Located(|hist.sealed|, pending, |pending|))
  }

  lemma SealedFields(c: Crypto, db: Redis, hist: History, pending: seq<Event>, now: int, sid: StreamId)
    requires pending != [] && db.num.GetOr(-1) < |hist.sealed|
    ensures var db', h := Sealed(c, db, hist, pending, now, sid), Sealing(c, hist, pending, now);
      && db'.seqNo == db.seqNo && db'.events == db.events && db'.checkpoint == db.checkpoint
      && db'.epochs == db.epochs + [EpochEntry(sid, Readable(h))]
      && db'.num == Some(|hist.sealed|) && db'.head == Some(h.hash) && db'.lastSeq == Some(h.core.end)
      && db'.cursor == Some(h.core.last)
  {
  }

  lemma CommitKeepsEvents(c: Crypto, s: State, pending: seq<Event>, now: int, sid: StreamId)
    requires EventsOk(c, s.db, s.hist, s.signed, s.trimmed) && PendingOk(s.hist, pending)
    requires s.db.num.GetOr(-1) < |s.hist.sealed|
    ensures var h := Sealing(c, s.hist, pending, now);
      EventsOk(c, Sealed(c, s.db, s.hist, pending, now, sid), WithEpoch(s.hist, h), s.signed + {h.signature}, s.trimmed)
  {
    var h := Sealing(c, s.hist, pending, now);
    SealedFields(c, s.db, s.hist, pending, now, sid);
    SealKeepsHistory(c, s.hist, pending, now);
    SealKeepsBuffer(s.hist, h, s.trimmed, s.db.events);
    SealKeepsSigned(s.hist, h, s.signed);
    SealKeepsCell(s.hist, h, s.signed, s.db.checkpoint);
  }

  lemma CommitKeepsEpochs(c: Crypto, s: State, pending: seq<Event>, now: int, sid: StreamId)
    requires EpochsOk(s.db, s.hist, s.sids, s.dropped) && PendingOk(s.hist, pending)
    requires s.sids != [] ==> s.sids[|s.sids| - 1] < sid
    ensures EpochsOk(Sealed(c, s.db, s.hist, pending, now, sid), WithEpoch(s.hist, Sealing(c, s.hist, pending, now)),
                     s.sids + [sid], s.dropped)
  {
    var h := Sealing(c, s.hist, pending, now);
    SealedFields(c, s.db, s.hist, pending, now, sid);
    SealKeepsStream(s.hist, h, s.sids, sid, s.dropped, s.db.epochs);
  }

  lemma CommitKeepsLookups(
    c: Crypto, db: Redis, hist: History, sids: seq<StreamId>, first: int, pending: seq<Event>, now: int,
    sid: StreamId)
    requires HistoryOk(c, hist) && PendingOk(hist, pending) && db.num.GetOr(-1) < |hist.sealed| == |sids|
    requires LookupsOk(c, db, hist, sids, first)
    ensures LookupsOk(c, Sealed(c, db, hist, pending, now, sid), WithEpoch(hist, Sealing(c, hist, pending, now)),
                      sids + [sid], first)
  {
    var h := Sealing(c, hist, pending, now);
    SealKeepsIndex(hist, h, first, db.index);
    SealKeepsStreamIds(sids, sid, first, db.streamId);
    SealKeepsLeaves(c, hist, pending, now, first, db.leaves);
    SealKeepsLocations(c, hist, pending, now, db.eventLoc);
  }

  /** The head, number and last-sequence counters the close reads are those of the last sealed epoch. */
  lemma CountersRead(hist: History, num: Option<int>, lastSeq: Option<int>, head: Option<string>)
    requires CountersOk(hist, num, lastSeq, head)
    ensures num.GetOr(-1) == |hist.sealed| - 1
    ensures lastSeq.GetOr(0) == SealedThrough(hist)
    ensures head.GetOr(GENESIS) == hist.Link(|hist.sealed|)
  {
  }

  /** Signing a genuine message keeps the signed set honest. */
  lemma SigningKeeps(hist: History, signed: set<Message>, m: Message)
    requires SignedOk(hist, signed) && Genuine(hist, m)
    ensures SignedOk(hist, signed + {m})
  {
    forall x | x in signed + {m}
      ensures Genuine(hist, x)
    {
    }
    forall k
      ensures HeaderSigned(hist, signed + {m}, k)
    {
      assert HeaderSigned(hist, signed, k);
    }
  }

  /** Recording an anchor line signs a sealed head. */
  lemma RecordKeepsStore(c: Crypto, s: State, epoch: int, hash: string)
    requires StoreOk(c, s.db, s.hist, s.sids, s.signed, s.trimmed, s.dropped)
    requires 0 <= epoch < |s.hist.sealed| && hash == s.hist.sealed[epoch].hash
    ensures StoreOk(c, s.db, s.hist, s.sids, s.signed + {AnchorMessage(epoch, hash)}, s.trimmed, s.dropped)
  {
    SigningKeeps(s.hist, s.signed, AnchorMessage(epoch, hash));
  }

  lemma CommitKeepsStore(c: Crypto, s: State, pending: seq<Event>, now: int, sid: StreamId)
    requires StoreOk(c, s.db, s.hist, s.sids, s.signed, s.trimmed, s.dropped) && PendingOk(s.hist, pending)
    requires s.db.num.GetOr(-1) < |s.hist.sealed| && (s.sids != [] ==> s.sids[|s.sids| - 1] < sid)
    ensures var h, db := Sealing(c, s.hist, pending, now), Sealed(c, s.db, s.hist, pending, now, sid);
      StoreOk(c, db, WithEpoch(s.hist, h), s.sids + [sid], s.signed + {h.signature}, s.trimmed, s.dropped)
  {
    CommitKeepsEvents(c, s, pending, now, sid);
    CommitKeepsEpochs(c, s, pending, now, sid);
    CommitKeepsLookups(c, s.db, s.hist, s.sids, FirstEpoch(CellCheckpoint(s.db.checkpoint)), pending, now, sid);
  }

  lemma CommitIsSafe(c: Crypto, s: State, now: int, sid: StreamId)
    requires s in Safe(c) && Enabled(s, Progress(now, sid)) && s.pc.Commit?
    ensures CloseStep(c, s, now, sid) in Safe(c)
  {
    SafeMeans(c, s);
    CountersRead(s.hist, s.db.num, s.db.lastSeq, s.db.head);
    CommitIs(c, s, s.pc.pending, now, sid);
    SealedIsSafe(c, s, s.pc.pending, now, sid);
  }

  lemma CommitKeepsSafeStore(c: Crypto, s: State, pending: seq<Event>, now: int, sid: StreamId)
    requires s in Safe(c) && PendingOk(s.hist, pending)
    requires s.db.num.GetOr(-1) < |s.hist.sealed| && (s.sids != [] ==> s.sids[|s.sids| - 1] < sid)
    ensures var h, db := Sealing(c, s.hist, pending, now), Sealed(c, s.db, s.hist, pending, now, sid);
      StoreOk(c, db, WithEpoch(s.hist, h), s.sids + [sid], s.signed + {h.signature}, s.trimmed, s.dropped)
  {
    SafeMeans(c, s);
    CommitKeepsStore(c, s, pending, now, sid);
  }

  lemma SealedIsSafe(c: Crypto, s: State, pending: seq<Event>, now: int, sid: StreamId)
    requires s in Safe(c) && PendingOk(s.hist, pending)
    requires s.db.num.GetOr(-1) < |s.hist.sealed| && (s.sids != [] ==> s.sids[|s.sids| - 1] < sid)
    ensures var h := Sealing(c, s.hist, pending, now);
      s.(db := Sealed(c, s.db, s.hist, pending, now, sid), hist := WithEpoch(s.hist, h), sids := s.sids + [sid],
         signed := s.signed + {h.signature}, pc := RecordAnchor(|s.hist.sealed|, h.hash)) in Safe(c)
  {
    CommitKeepsSafeStore(c, s, pending, now, sid);
    var h := Sealing(c, s.hist, pending, now);
    AnchoringIsSafe(c, s, Sealed(c, s.db, s.hist, pending, now, sid), WithEpoch(s.hist, h), s.sids + [sid],
                    s.signed + {h.signature});
  }

  lemma AnchoringIsSafe(c: Crypto, s: State, db: Redis, hist: History, sids: seq<StreamId>, signed: set<Message>)
    requires StoreOk(c, db, hist, sids, signed, s.trimmed, s.dropped) && 0 < |hist.sealed|
    ensures var k := |hist.sealed| - 1;
      s.(db := db, hist := hist, sids := sids, signed := signed, pc := RecordAnchor(k, hist.sealed[k].hash)) in Safe(c)
  {
  }

  /** The commit guard lets the next epoch's header through. */
  lemma CommitIs(c: Crypto, s: State, pending: seq<Event>, now: int, sid: StreamId)
    requires pending != [] && s.db.num.GetOr(-1) < |s.hist.sealed|
    requires s.pc == Commit(pending, s.hist.Link(|s.hist.sealed|), |s.hist.sealed|)
    ensures var h := Sealing(c, s.hist, pending, now);
      CloseStep(c, s, now, sid)
        == s.(db := Sealed(c, s.db, s.hist, pending, now, sid), hist := WithEpoch(s.hist, h), sids := s.sids + [sid],
              signed := s.signed + {h.signature}, pc := RecordAnchor(|s.hist.sealed|, h.hash))
  {
  }

  lemma ReadPendingIsSafe(c: Crypto, s: State, now: int, sid: StreamId)
    requires s in Safe(c) && s.pc.ReadPending?
    ensures CloseStep(c, s, now, sid) in Safe(c)
  {
    SafeMeans(c, s);
    PendingIsFront(c, s.hist, s.trimmed, s.db);
    ReadIsSafe(c, s, CloseStep(c, s, now, sid).pc);
  }

  lemma CounterReadsAreSafe(c: Crypto, s: State, now: int, sid: StreamId)
    requires s in Safe(c) && (s.pc.GetLastSeq? || s.pc.GetCursor? || s.pc.GetHead? || s.pc.GetNum?)
    ensures CloseStep(c, s, now, sid) in Safe(c)
  {
    SafeMeans(c, s);
    CountersRead(s.hist, s.db.num, s.db.lastSeq, s.db.head);
    ReadIsSafe(c, s, CloseStep(c, s, now, sid).pc);
  }

  lemma RecordIsSafe(c: Crypto, s: State, now: int, sid: StreamId)
    requires s in Safe(c) && s.pc.RecordAnchor?
    ensures CloseStep(c, s, now, sid) in Safe(c)
  {
    SafeMeans(c, s);
    RecordKeepsStore(c, s, s.pc.epoch, s.pc.hash);
    assert Inv(c, CloseStep(c, s, now, sid));
  }

  lemma CloseIsSafe(c: Crypto, s: State, now: int, sid: StreamId)
    requires s in Safe(c) && Enabled(s, Progress(now, sid))
    requires s.pc.Closing()
    ensures CloseStep(c, s, now, sid) in Safe(c)
  {
    match s.pc {
      case ReadPending(_, _) => ReadPendingIsSafe(c, s, now, sid);
      case Commit(_, _, _) => CommitIsSafe(c, s, now, sid);
      case RecordAnchor(_, _) => RecordIsSafe(c, s, now, sid);
      case _ => CounterReadsAreSafe(c, s, now, sid);
    }
  }
}
