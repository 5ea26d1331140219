/**
 Retention trims keep the invariant of the ledger machine. Crashes may skip trims; the next
 one that completes catches the buffer up, and no hot epoch ever loses an entry.
 */
module WormTrim {
  import opened Bytes
  import opened WormHistory
  import opened WormInvariant
  import opened WormMachine
  import opened WormSoundness
  import opened WormSteps
  import opened WormStore
  import opened WormVerify

  // ----- what a trim reads ---------------------------------------------------------------------

  /** An index entry, when there is one, is the sealed header. */
  lemma IndexRead(hist: History, first: int, db: Redis, epoch: int)
    requires IndexOk(hist, first, db.index)
    ensures ReadHeader(db, epoch).Some? ==>
      0 <= epoch < |hist.sealed| && ReadHeader(db, epoch).value == hist.sealed[epoch]
  {
    assert IndexEntryOk(hist, first, db.index, epoch);
  }

  /** Within the stream-id bounds of a sealed epoch lie only its own events. */
  lemma BetweenIsBlock(c: Crypto, hist: History, k: nat, i: nat)
    requires HistoryOk(c, hist) && k < |hist.sealed| && i < |hist.log| && hist.Covers(k)
    ensures IsBetween(hist.sealed[k].core.first, hist.sealed[k].core.last)(hist.log[i]) ==> hist.log[i] in hist.Block(k)
  {
    var start, end := hist.Start(k), hist.sealed[k].core.end;
    SealedBounds(c, hist, k);
    LogOrder(hist.log, i, start - 1);
    LogOrder(hist.log, i, end - 1);
    if start - 1 <= i < end {
      assert hist.log[i] == hist.Block(k)[i - (start - 1)];
    }
  }

  lemma SegmentEvent(c: Crypto, hist: History, trimmed: nat, events: seq<Event>, k: nat, e: Event)
    requires HistoryOk(c, hist) && BufferOk(hist, trimmed, events) && k < |hist.sealed| && hist.Covers(k)
    requires e in Between(events, hist.sealed[k].core.first, hist.sealed[k].core.last)
    ensures e in hist.Block(k)
  {
    SelectSound(events, IsBetween(hist.sealed[k].core.first, hist.sealed[k].core.last), e);
    var i :| 0 <= i < |events| && events[i] == e;
    BetweenIsBlock(c, hist, k, hist.Start(trimmed) - 1 + i);
  }

  lemma SegmentIds(c: Crypto, hist: History, trimmed: nat, events: seq<Event>, k: nat)
    requires HistoryOk(c, hist) && BufferOk(hist, trimmed, events) && k < |hist.sealed|
    ensures IdsOfEpoch(hist, k, Ids(Between(events, hist.sealed[k].core.first, hist.sealed[k].core.last)))
  {
    StartsIncrease(c, hist, k, k + 1);
    var segment := Between(events, hist.sealed[k].core.first, hist.sealed[k].core.last);
    forall id | id in Ids(segment)
      ensures exists e :: e in hist.Block(k) && e.id == id
    {
      var e :| e in segment && e.id == id;
      SegmentEvent(c, hist, trimmed, events, k, e);
    }
  }

  // ----- what a trim drops ----------------------------------------------------------------------

  /** Where in the log an event of epoch `k` is. */
  lemma BlockPosition(hist: History, k: nat, e: Event) returns (i: nat)
    requires k < |hist.sealed| && hist.Covers(k) && e in hist.Block(k)
    ensures hist.Start(k) - 1 <= i < hist.sealed[k].core.end && hist.log[i] == e
  {
    var x :| 0 <= x < |hist.Block(k)| && hist.Block(k)[x] == e;
    i := hist.Start(k) - 1 + x;
  }

  /** Events of different epochs have different ids. */
  lemma BlocksShareNoId(c: Crypto, hist: History, j: nat, k: nat, d: Event, e: Event)
    requires HistoryOk(c, hist) && j < k < |hist.sealed| && hist.Covers(j) && hist.Covers(k)
    requires d in hist.Block(j) && e in hist.Block(k)
    ensures d.id != e.id
  {
    StartsIncrease(c, hist, j, k);
    var x := BlockPosition(hist, j, d);
    var y := BlockPosition(hist, k, e);
    if d.id == e.id {
      LogIds(hist.log, |hist.log|, x, y);
    }
  }

  lemma DroppingKeepsIndexed(
    c: Crypto, hist: History, eventLoc: map<string, Location>, fallen: nat, ids: set<string>, k: nat)
    requires HistoryOk(c, hist) && fallen < k < |hist.sealed| && IdsOfEpoch(hist, fallen, ids)
    requires Indexed(hist, k, eventLoc)
    ensures Indexed(hist, k, eventLoc - ids)
  {
    forall e
      ensures Findable(hist.Block(k), eventLoc - ids, e)
    {
      assert Findable(hist.Block(k), eventLoc, e);
      if e in hist.Block(k) && e.id in ids {
        var d :| d in hist.Block(fallen) && d.id == e.id;
        BlocksShareNoId(c, hist, fallen, k, d, e);
      }
    }
  }

  lemma DroppingKeepsLocations(c: Crypto, hist: History, eventLoc: map<string, Location>, fallen: int, ids: set<string>)
    requires HistoryOk(c, hist) && LocationsOk(hist, eventLoc) && FallenOk(hist, fallen)
    requires IdsOfEpoch(hist, fallen, ids)
    ensures LocationsOk(hist, eventLoc - ids)
  {
    var eventLoc' := eventLoc - ids;
    forall id
      ensures LocationEntryOk(hist, eventLoc', id)
    {
      assert LocationEntryOk(hist, eventLoc, id);
    }
    forall k: nat
      ensures HotIndexed(hist, eventLoc', k)
    {
      assert HotIndexed(hist, eventLoc, k);
      if k < |hist.sealed| && fallen < k {
        DroppingKeepsIndexed(c, hist, eventLoc, fallen, ids, k);
      }
    }
  }

  lemma DroppingKeepsLeaves(c: Crypto, hist: History, first: int, leaves: map<int, seq<Bytes>>, fallen: int)
    requires LeavesOk(c, hist, first, leaves) && FallenOk(hist, fallen)
    ensures LeavesOk(c, hist, first, leaves - {fallen})
  {
    var leaves' := leaves - {fallen};
    forall k
      ensures LeavesEntryOk(c, hist, first, leaves', k)
    {
      assert LeavesEntryOk(c, hist, first, leaves, k);
    }
  }

  /** XTRIM MINID at a sid that splits the stream at position `a`. */
  lemma FromSlice(es: seq<Event>, sid: StreamId, a: nat)
    requires a <= |es| && forall i :: 0 <= i < |es| ==> (es[i].sid >= sid <==> a <= i)
    ensures From(es, sid) == es[a..]
  {
    SelectSlice(es, IsFrom(sid), a, |es|);
  }

  /** Trimming at position `cut` of the log leaves the log from the later of `lo` and `cut`. */
  lemma TrimLog(log: seq<Event>, lo: nat, events: seq<Event>, cut: nat)
    requires LogOk(log, |log|) && IsRest(log, lo, events) && cut < |log|
    ensures IsRest(log, if cut < lo then lo else cut, From(events, log[cut].sid))
  {
    var a := if cut < lo then 0 else cut - lo;
    forall i | 0 <= i < |events|
      ensures events[i].sid >= log[cut].sid <==> a <= i
    {
      assert events[i] == log[lo + i];
      SidCuts(log, cut, lo + i);
    }
    FromSlice(events, log[cut].sid, a);
  }

  lemma SidCuts(log: seq<Event>, cut: nat, i: nat)
    requires LogOk(log, |log|) && cut < |log| && i < |log|
    ensures log[i].sid >= log[cut].sid <==> cut <= i
  {
    LogOrder(log, i, cut);
  }

  lemma StartsOrdered(c: Crypto, hist: History, j: nat, k: nat)
    requires HistoryOk(c, hist) && j <= k <= |hist.sealed| && hist.Start(|hist.sealed|) <= |hist.log| + 1
    ensures 1 <= hist.Start(j) <= hist.Start(k) <= |hist.log| + 1
  {
    if j < k {
      StartsIncrease(c, hist, j, k);
    } else if 0 < k {
      StartsIncrease(c, hist, k - 1, k);
    }
  }

  function Max(a: nat, b: nat): nat { if a < b then b else a }

  /** Trimming to the start of epoch `keep` leaves the log from the later of it and the old start. */
  lemma TrimToEpoch(c: Crypto, hist: History, trimmed: nat, events: seq<Event>, keep: nat)
    requires HistoryOk(c, hist) && trimmed <= |hist.sealed| && keep < |hist.sealed|
    requires IsRest(hist.log, hist.Start(trimmed) - 1, events)
    ensures IsRest(hist.log, hist.Start(Max(trimmed, keep)) - 1, From(events, hist.sealed[keep].core.first))
  {
    SealedThroughBounds(c, hist, trimmed);
    StartsIncrease(c, hist, keep, keep + 1);
    SealedBounds(c, hist, keep);
    TrimLog(hist.log, hist.Start(trimmed) - 1, events, hist.Start(keep) - 1);
    if trimmed < keep {
      StartsOrdered(c, hist, trimmed, keep);
    } else {
      StartsOrdered(c, hist, keep, trimmed);
    }
  }

  /** Dropping everything below the epoch after the fallen one. */
  lemma TrimKeepsBuffer(c: Crypto, hist: History, trimmed: nat, events: seq<Event>, fallen: nat)
    requires HistoryOk(c, hist) && BufferOk(hist, trimmed, events) && FallenOk(hist, fallen)
    ensures BufferOk(hist, Max(trimmed, fallen + 1), From(events, hist.sealed[fallen + 1].core.first))
  {
    TrimToEpoch(c, hist, trimmed, events, fallen + 1);
  }

  // ----- the steps -------------------------------------------------------------------------------

  lemma FallenReadIsSafe(c: Crypto, s: State)
    requires s in Safe(c) && s.pc.ReadFallen?
    ensures TrimStep(s) in Safe(c)
  {
    SafeMeans(c, s);
    IndexRead(s.hist, FirstEpoch(CellCheckpoint(s.db.checkpoint)), s.db, s.pc.fallen);
    ReadIsSafe(c, s, TrimStep(s).pc);
  }

  lemma KeepFromReadIsSafe(c: Crypto, s: State)
    requires s in Safe(c) && s.pc.ReadKeepFrom?
    ensures TrimStep(s) in Safe(c)
  {
    SafeMeans(c, s);
    IndexRead(s.hist, FirstEpoch(CellCheckpoint(s.db.checkpoint)), s.db, s.pc.fallen + 1);
    ReadIsSafe(c, s, TrimStep(s).pc);
  }

  lemma SegmentReadIsSafe(c: Crypto, s: State)
    requires s in Safe(c) && s.pc.ReadSegment?
    ensures TrimStep(s) in Safe(c)
  {
    SafeMeans(c, s);
    SegmentIds(c, s.hist, s.trimmed, s.db.events, s.pc.fallen);
    ReadIsSafe(c, s, TrimStep(s).pc);
  }

  lemma DropLocationsIsSafe(c: Crypto, s: State)
    requires s in Safe(c) && s.pc.DropFallenLocations?
    ensures TrimStep(s) in Safe(c)
  {
    SafeMeans(c, s);
    DroppingKeepsLocations(c, s.hist, s.db.eventLoc, s.pc.fallen, s.pc.ids);
    assert Inv(c, TrimStep(s));
  }

  lemma DropLeavesIsSafe(c: Crypto, s: State)
    requires s in Safe(c) && s.pc.DropFallenLeaves?
    ensures TrimStep(s) in Safe(c)
  {
    SafeMeans(c, s);
    DroppingKeepsLeaves(c, s.hist, FirstEpoch(CellCheckpoint(s.db.checkpoint)), s.db.leaves, s.pc.fallen);
    assert Inv(c, TrimStep(s));
  }

  lemma TrimBufferIsSafe(c: Crypto, s: State)
    requires s in Safe(c) && s.pc.TrimBuffer?
    ensures TrimStep(s) in Safe(c)
  {
    SafeMeans(c, s);
    TrimKeepsStore(c, s.db, s.hist, s.sids, s.signed, s.trimmed, s.dropped, s.pc.fallen);
    var s' := TrimStep(s);
    assert s'.trimmed == Max(s.trimmed, s.pc.fallen + 1);
    assert Inv(c, s');
  }

  lemma TrimKeepsStore(
    c: Crypto, db: Redis, hist: History, sids: seq<StreamId>, signed: set<Message>, trimmed: nat, dropped: nat,
      fallen: nat)
    requires StoreOk(c, db, hist, sids, signed, trimmed, dropped) && FallenOk(hist, fallen)
    ensures StoreOk(c, TrimEvents(db, hist.sealed[fallen + 1].core.first), hist, sids, signed, Max(trimmed, fallen + 1),
                    dropped)
  {
    TrimKeepsBuffer(c, hist, trimmed, db.events, fallen);
  }

  lemma TrimIsSafe(c: Crypto, s: State)
    requires s in Safe(c) && s.pc.Trimming()
    ensures TrimStep(s) in Safe(c)
  {
    match s.pc {
      case ReadFallen(_) => FallenReadIsSafe(c, s);
      case ReadSegment(_, _) => SegmentReadIsSafe(c, s);
      case DropFallenLocations(_, _) => DropLocationsIsSafe(c, s);
      case DropFallenLeaves(_) => DropLeavesIsSafe(c, s);
      case TrimBuffer(_, _) => TrimBufferIsSafe(c, s);
      case _ => KeepFromReadIsSafe(c, s);
    }
  }
}
