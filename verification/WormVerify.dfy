/**
 The chain verifier of `audit/worm_logger.py`: the per-header checks, the replay loop with
 its running variables, and the tail checks against counters and anchor. The methods are
 the code's loops; the functions beside them are what they are proved to compute.
 */
module WormVerify {
  import opened Bytes
  import opened WormStore
  import opened Wrappers

  /** A witnessed head: the highest signed line of the anchor file, or a caller's checkpoint. */
  datatype Witness = Witness(epoch: int, hash: string)

  /** What one verification reads, in the order it reads it. */
  datatype Snapshot = Snapshot(
    expected: Option<Witness>,
    cell: CheckpointCell,
    headers: seq<EpochEntry>,
    events: seq<Event>,
    num: Option<int>,
    lastSeq: Option<int>,
    head: Option<string>)

  /** `(intact, first_bad)`. */
  datatype Verdict = Verdict(intact: bool, bad: Option<int>)

  const INTACT := Verdict(true, None)

  // ----- the buffer as a map -----------------------------------------------------------

  /** seq -> record; a later entry with the same number replaces an earlier one. */
  function RecordMap(events: seq<Event>, n: nat): map<int, Bytes>
    requires n <= |events|
  {
    if n == 0 then map[] else RecordMap(events, n - 1)[events[n - 1].seqNo := events[n - 1].record]
  }

  function AllRecords(events: seq<Event>): map<int, Bytes> { RecordMap(events, |events|) }

  method ReadAllRecords(events: seq<Event>) returns (out: map<int, Bytes>)
    ensures out == AllRecords(events)
  {
    out := map[];
    for i := 0 to |events|
      invariant out == RecordMap(events, i)
    {
      out := out[events[i].seqNo := events[i].record];
    }
  }

  /** The records present for sequence numbers lo..hi, in order. */
  function Present(records: map<int, Bytes>, lo: int, hi: int): seq<Bytes>
    decreases hi - lo
  {
    if hi < lo then []
    else if hi in records then Present(records, lo, hi - 1) + [records[hi]]
    else Present(records, lo, hi - 1)
  }

  // ----- one header --------------------------------------------------------------------

  /** All of the epoch's events are present with the signed root, or none is and it may be trimmed. */
  predicate PresenceOk(c: Crypto, core: Core, records: map<int, Bytes>, watermark: int) {
    var present := Present(records, core.start, core.end);
    if |present| == core.count && core.end - core.start + 1 == core.count
    then c.root(present) == core.root
    else present == [] && core.epoch <= watermark
  }

  predicate HeaderOk(
    c: Crypto, signed: set<Message>, f: Fields, prev: string, epoch: int, start: int,
    records: map<int, Bytes>, watermark: int)
  {
    && f.Readable?
    && var h := f.header;
    && h.core.prev == prev
    && h.core.epoch == epoch && h.core.start == start
    && PresenceOk(c, h.core, records, watermark)
    && c.core(h.core) == h.hash
    && h.signature == EpochMessage(h.hash) && h.signature in signed
  }

  /** The five checks of one header, in the source's order; None on any tamper. */
  method VerifyHeaderFields(
    c: Crypto, signed: set<Message>, f: Fields, expectedPrev: string, expectedEpoch: int, expectedStart: int,
    records: map<int, Bytes>, watermark: int)
    returns (checked: Option<(int, int, string)>)
    requires Merkled(c)
    ensures checked.Some? <==> HeaderOk(c, signed, f, expectedPrev, expectedEpoch, expectedStart, records, watermark)
    ensures checked.Some? ==> checked.value == (f.header.core.epoch, f.header.core.end, f.header.hash)
  {
    if f.Unreadable? {
      return None;
    }
    var core := f.header.core;
    if core.prev != expectedPrev {
      return None;
    }
    if core.epoch != expectedEpoch || core.start != expectedStart {
      return None;
    }
    var span := core.end - core.start + 1;
    var present: seq<Bytes> := [];
    var s := core.start;
    while s <= core.end
      invariant core.start <= s && (s <= core.end + 1 || s == core.start)
      invariant present == Present(records, core.start, s - 1)
    {
      if s in records {
        present := present + [records[s]];
      }
      s := s + 1;
    }
    assert present == Present(records, core.start, core.end);
    if |present| == core.count && span == core.count {
      var _, root := HashEpochLeaves(c, present);
      if root != core.root {
        return None;
      }
    } else if |present| != 0 {
      return None;
    } else if core.epoch > watermark {
      return None;
    }
    var recomputed := c.core(core);
    if recomputed != f.header.hash {
      return None;
    }
    if f.header.signature != EpochMessage(f.header.hash) || f.header.signature !in signed {
      return None;
    }
    checked := Some((core.epoch, core.end, f.header.hash));
  }

  // ----- the replay ----------------------------------------------------------------------

  /** The running variables of the replay loop. */
  datatype Chain = Chain(prev: string, start: int, next: int, witnessed: Option<string>, surviving: nat)

  datatype Replayed = Bad(at: int) | Good(chain: Chain)

  /** Where a replay starts: at genesis, or just after the signed checkpoint. */
  function StartChain(cp: Option<Checkpoint>, expected: Option<Witness>): Chain {
    match cp
    case None => Chain(GENESIS, 1, 0, None, 0)
    case Some(p) =>
      Chain(p.hash, p.end + 1, p.epoch + 1,
            if expected.Some? && expected.value.epoch == p.epoch then Some(p.hash) else None, 0)
  }

  function Advance(chain: Chain, h: Header, expected: Option<Witness>): Chain {
    Chain(h.hash, h.core.end + 1, chain.next + 1,
          if expected.Some? && h.core.epoch == expected.value.epoch then Some(h.hash) else chain.witnessed,
          chain.surviving + 1)
  }

  /** One entry is either skipped as folded into the checkpoint, bad, or checked and followed. */
  function ReplayOne(
    c: Crypto, signed: set<Message>, cp: Option<Checkpoint>, expected: Option<Witness>,
    records: map<int, Bytes>, watermark: int, f: Fields, chain: Chain): Replayed
  {
    if cp.Some? && EpochField(f).None? then Bad(chain.next)
    else if cp.Some? && EpochField(f).value <= cp.value.epoch then Good(chain)
    else if HeaderOk(c, signed, f, chain.prev, chain.next, chain.start, records, watermark)
    then Good(Advance(chain, f.header, expected))
    else Bad(chain.next)
  }

  /** The first `n` headers replayed. */
  function Replay(
    c: Crypto, signed: set<Message>, cp: Option<Checkpoint>, expected: Option<Witness>,
    records: map<int, Bytes>, watermark: int, headers: seq<EpochEntry>, n: nat): Replayed
    requires n <= |headers|
  {
    if n == 0 then Good(StartChain(cp, expected))
    else
      match Replay(c, signed, cp, expected, records, watermark, headers, n - 1)
      case Bad(at) => Bad(at)
      case Good(chain) => ReplayOne(c, signed, cp, expected, records, watermark, headers[n - 1].fields, chain)
  }

  /** The counter and anchor cross-checks after a clean replay. */
  function TailVerdict(
    cp: Option<Checkpoint>, expected: Option<Witness>, num: int, lastSeq: int, head: string, chain: Chain): Verdict
  {
    var cpEpoch := if cp.Some? then cp.value.epoch else -1;
    var seen := chain.next - 1;
    var failPos := if seen >= 0 then seen else 0;
    if cp.None? && chain.surviving == 0 then
      if num != -1 || lastSeq != 0 || expected.Some? then Verdict(false, Some(0)) else INTACT
    else if seen != num || chain.start - 1 != lastSeq || chain.prev != head then Verdict(false, Some(failPos))
    else if expected.Some? && expected.value.epoch > seen then Verdict(false, Some(failPos))
    else if expected.Some? && expected.value.epoch > cpEpoch && chain.witnessed != Some(expected.value.hash) then
      Verdict(false, Some(if expected.value.epoch >= 0 then expected.value.epoch else 0))
    else INTACT
  }

  /** Whether a stored checkpoint's signature verifies; an absent one is no checkpoint. */
  predicate CellReadable(signed: set<Message>, cell: CheckpointCell) {
    match cell
    case Absent => true
    case Garbled => false
    case Stored(cp, sig) => sig == CheckpointMessage(cp.epoch, cp.hash, cp.end) && sig in signed
  }

  function CellCheckpoint(cell: CheckpointCell): Option<Checkpoint> {
    if cell.Stored? then Some(cell.checkpoint) else None
  }

  /** The highest epoch whose events retention may have dropped. */
  function Watermark(num: Option<int>): int { num.GetOr(-1) - WORM_HOT_EPOCHS }

  function ReplayAll(c: Crypto, signed: set<Message>, snap: Snapshot): Replayed {
    Replay(c, signed, CellCheckpoint(snap.cell), snap.expected, AllRecords(snap.events),
           Watermark(snap.num), snap.headers, |snap.headers|)
  }

  /** The verdict on everything one verification read. */
  function VerdictOf(c: Crypto, signed: set<Message>, snap: Snapshot): Verdict {
    if !CellReadable(signed, snap.cell) then Verdict(false, Some(0))
    else
      match ReplayAll(c, signed, snap)
      case Bad(at) => Verdict(false, Some(at))
      case Good(chain) =>
        TailVerdict(CellCheckpoint(snap.cell), snap.expected, snap.num.GetOr(-1), snap.lastSeq.GetOr(0),
                    snap.head.GetOr(GENESIS), chain)
  }

  lemma ReplayNext(
    c: Crypto, signed: set<Message>, cp: Option<Checkpoint>, expected: Option<Witness>,
    records: map<int, Bytes>, watermark: int, headers: seq<EpochEntry>, i: nat, chain: Chain)
    requires i < |headers| && Replay(c, signed, cp, expected, records, watermark, headers, i) == Good(chain)
    ensures Replay(c, signed, cp, expected, records, watermark, headers, i + 1)
         == ReplayOne(c, signed, cp, expected, records, watermark, headers[i].fields, chain)
  {
  }

  /** The replay loop, with the source's running variables. */
  method ReplayHeaders(
    c: Crypto, signed: set<Message>, supercp: Option<Checkpoint>, expected: Option<Witness>,
    records: map<int, Bytes>, watermark: int, headers: seq<EpochEntry>)
    returns (replayed: Replayed)
    requires Merkled(c)
    ensures replayed == Replay(c, signed, supercp, expected, records, watermark, headers, |headers|)
  {
    var expectedPrev, expectedStart, nextEpoch := GENESIS, 1, 0;
    var anchorWitnessed: Option<string> := None;
    if supercp.Some? {
      var cp := supercp.value;
      expectedPrev, expectedStart, nextEpoch := cp.hash, cp.end + 1, cp.epoch + 1;
      if expected.Some? && expected.value.epoch == cp.epoch {
        anchorWitnessed := Some(cp.hash);
      }
    }
    var surviving := 0;
    for i := 0 to |headers|
      invariant surviving >= 0
      invariant Replay(c, signed, supercp, expected, records, watermark, headers, i)
             == Good(Chain(expectedPrev, expectedStart, nextEpoch, anchorWitnessed, surviving))
    {
      var fields := headers[i].fields;
      ReplayNext(c, signed, supercp, expected, records, watermark, headers, i,
                 Chain(expectedPrev, expectedStart, nextEpoch, anchorWitnessed, surviving));
      ReplayBadStays(c, signed, supercp, expected, records, watermark, headers, i + 1, |headers|);
      if supercp.Some? {
        var hepoch := EpochField(fields);
        if hepoch.None? {
          return Bad(nextEpoch);
        }
        if hepoch.value <= supercp.value.epoch {
          continue;
        }
      }
      var checked := VerifyHeaderFields(c, signed, fields, expectedPrev, nextEpoch, expectedStart, records, watermark);
      if checked.None? {
        return Bad(nextEpoch);
      }
      var (epoch, endSeq, hash) := checked.value;
      expectedPrev, expectedStart := hash, endSeq + 1;
      if expected.Some? && epoch == expected.value.epoch {
        anchorWitnessed := Some(hash);
      }
      nextEpoch := nextEpoch + 1;
      surviving := surviving + 1;
    }
    replayed := Good(Chain(expectedPrev, expectedStart, nextEpoch, anchorWitnessed, surviving));
  }

  /** The counter and anchor checks, in the source's order. */
  method CheckTail(
    supercp: Option<Checkpoint>, expected: Option<Witness>, kNum: int, kLastSeq: int, kHead: string, chain: Chain)
    returns (verdict: Verdict)
    ensures verdict == TailVerdict(supercp, expected, kNum, kLastSeq, kHead, chain)
  {
    var cpEpoch := if supercp.Some? then supercp.value.epoch else -1;
    var lastEpochSeen, coveredEndSeq, computedHead := chain.next - 1, chain.start - 1, chain.prev;
    if supercp.None? && chain.surviving == 0 {
      if kNum != -1 || kLastSeq != 0 {
        return Verdict(false, Some(0));
      }
      if expected.Some? {
        return Verdict(false, Some(0));
      }
      return INTACT;
    }
    var failPos := if lastEpochSeen >= 0 then lastEpochSeen else 0;
    if lastEpochSeen != kNum {
      return Verdict(false, Some(failPos));
    }
    if coveredEndSeq != kLastSeq {
      return Verdict(false, Some(failPos));
    }
    if computedHead != kHead {
      return Verdict(false, Some(failPos));
    }
    if expected.Some? {
      var Witness(expEpoch, expHash) := expected.value;
      if expEpoch > lastEpochSeen {
        return Verdict(false, Some(failPos));
      }
      if expEpoch > cpEpoch && (chain.witnessed.None? || chain.witnessed.value != expHash) {
        return Verdict(false, Some(if expEpoch >= 0 then expEpoch else 0));
      }
    }
    verdict := INTACT;
  }

  method VerifyEpoch(c: Crypto, signed: set<Message>, snap: Snapshot) returns (verdict: Verdict)
    requires Merkled(c)
    ensures verdict == VerdictOf(c, signed, snap)
  {
    if !CellReadable(signed, snap.cell) {
      return Verdict(false, Some(0));
    }
    var supercp := CellCheckpoint(snap.cell);
    var records := ReadAllRecords(snap.events);
    var kNum, kLastSeq, kHead := snap.num.GetOr(-1), snap.lastSeq.GetOr(0), snap.head.GetOr(GENESIS);
    var replayed := ReplayHeaders(c, signed, supercp, snap.expected, records, kNum - WORM_HOT_EPOCHS, snap.headers);
    if replayed.Bad? {
      return Verdict(false, Some(replayed.at));
    }
    verdict := CheckTail(supercp, snap.expected, kNum, kLastSeq, kHead, replayed.chain);
  }

  /** A replay that went bad stays bad at the same epoch. */
  lemma {:induction false} ReplayBadStays(
    c: Crypto, signed: set<Message>, cp: Option<Checkpoint>, expected: Option<Witness>,
    records: map<int, Bytes>, watermark: int, headers: seq<EpochEntry>, m: nat, n: nat)
    requires m <= n <= |headers|
    ensures var early := Replay(c, signed, cp, expected, records, watermark, headers, m);
      early.Bad? ==> Replay(c, signed, cp, expected, records, watermark, headers, n) == early
  {
    if m < n {
      ReplayBadStays(c, signed, cp, expected, records, watermark, headers, m, n - 1);
    }
  }
}
