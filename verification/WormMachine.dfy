/**
 The ledger as a step machine: one step per Redis command, Lua script or anchor-file
 write. At most one process holds the epoch lock and works through a close, a retention
 trim, a compaction or a verification; emits take no lock and happen between any two of
 its steps; the lock holder may crash before any of them.
 */
module WormMachine {
  import opened Anchor
  import opened Bytes
  import opened Merkle
  import opened WormHistory
  import opened WormStore
  import opened WormVerify
  import opened Wrappers

  /** Why a verification runs: to report, or before folding epochs up to `target`. */
  datatype Goal = Report | Fold(target: int)

  /** What the lock holder does next, with what it has read so far. */
  datatype Pc =
    | Idle
    // close_epoch
    | GetLastSeq
    | GetCursor(lastSeq: int)
    | ReadPending(lastSeq: int, cursor: Option<StreamId>)
    | GetHead(pending: seq<Event>)
    | GetNum(pending: seq<Event>, prev: string)
    | Commit(pending: seq<Event>, prev: string, epoch: int)
    | RecordAnchor(epoch: int, hash: string)
    // _trim_retention
    | ReadFallen(fallen: int)
    | ReadSegment(fallen: int, header: Header)
    | DropFallenLocations(fallen: int, ids: set<string>)
    | DropFallenLeaves(fallen: int)
    | ReadKeepFrom(fallen: int)
    | TrimBuffer(fallen: int, minId: StreamId)
    // verify_chain and the verification inside compact
    | Verifying(goal: Goal, stage: nat, snap: Snapshot)
    | Verified(goal: Goal, verdict: Verdict)
    // compact and _trim_compacted_headers
    | CompactGetNum(keep: int, stride: int)
    | CompactGetCheckpoint(target: int, stride: int)
    | CompactSet(header: Header, target: int)
    | CompactScan(target: int)
    | CompactDelete(target: int, sids: set<StreamId>, folded: set<int>)
    | CompactIndex(target: int, folded: set<int>)
    | CompactStreamIds(target: int, folded: set<int>)
    | CompactLeaves(target: int, folded: set<int>)
    | CompactAnchor(target: int)
  {
    predicate Closing() {
      GetLastSeq? || GetCursor? || ReadPending? || GetHead? || GetNum? || Commit? || RecordAnchor?
    }

    predicate Compacting() {
      !Idle? && !Closing() && !Trimming() && !Verifying? && !Verified?
    }

    predicate Trimming() {
      ReadFallen? || ReadSegment? || DropFallenLocations? || DropFallenLeaves? || ReadKeepFrom? || TrimBuffer?
    }
  }

  /**
   A ledger. `anchored` says whether an anchor file is configured. The last five fields
   are history: what was emitted and sealed, the epochs-stream id of every header ever
   appended, what was signed, and how far trimming and header deletion have got.
   */
  datatype State = State(
    db: Redis, anchored: bool, anchor: seq<Line>, pc: Pc,
    hist: History, sids: seq<StreamId>, signed: set<Message>, trimmed: nat, dropped: nat)

  const EMPTY_DB := Redis(0, [], [], map[], map[], map[], map[], None, None, None, None, Absent)
  const EMPTY_SNAPSHOT := Snapshot(None, Absent, [], [], None, None, None)

  function Initial(anchored: bool): State {
    State(EMPTY_DB, anchored, [], Idle, History([], []), [], {}, 0, 0)
  }

  datatype Action =
    | Emit(sid: StreamId, id: string, record: Bytes)
    | BeginClose
    | BeginVerify
    | BeginCompact(keep: int, stride: int)
    | Progress(now: int, sid: StreamId)
    | Crash

  /** Redis ids only grow, event ids are fresh, and one operation holds the lock at a time. */
  ghost predicate Enabled(s: State, a: Action) {
    match a
    case Emit(sid, id, record) =>
      (s.hist.log != [] ==> s.hist.log[|s.hist.log| - 1].sid < sid)
      && forall i :: 0 <= i < |s.hist.log| ==> s.hist.log[i].id != id
    case BeginClose => s.pc.Idle?
    case BeginVerify => s.pc.Idle?
    case BeginCompact(keep, stride) => s.pc.Idle?
    case Progress(now, sid) => !s.pc.Idle? && (s.sids != [] ==> s.sids[|s.sids| - 1] < sid)
    case Crash => true
  }

  function Apply(c: Crypto, s: State, a: Action): State {
    match a
    case Emit(sid, id, record) => EmitStep(s, sid, id, record)
    case BeginClose => s.(pc := GetLastSeq)
    case BeginVerify => s.(pc := Verifying(Report, 0, EMPTY_SNAPSHOT))
    case BeginCompact(keep, stride) => s.(pc := CompactGetNum(keep, stride))
    case Progress(now, sid) => ProgressStep(c, s, now, sid)
    case Crash => s.(pc := Idle)
  }

  function EmitStep(s: State, sid: StreamId, id: string, record: Bytes): State {
    s.(db := EmitScript(s.db, sid, id, record),
       hist := s.hist.(log := s.hist.log + [Event(sid, s.db.seqNo + 1, id, record)]))
  }

  function ProgressStep(c: Crypto, s: State, now: int, sid: StreamId): State {
    if s.pc.Idle? then s
    else if s.pc.Closing() then CloseStep(c, s, now, sid)
    else if s.pc.Trimming() then TrimStep(s)
    else if s.pc.Verifying? then VerifyStep(c, s, s.pc.goal, s.pc.stage, s.pc.snap)
    else if s.pc.Verified? then VerifiedStep(s, s.pc.goal, s.pc.verdict)
    else CompactStep(s)
  }

  /** The sorted, capped unsealed tail a close works on. */
  function Pending(db: Redis, lastSeq: int, cursor: Option<StreamId>): seq<Event> {
    Capped(SortBySeq(Above(ReadTail(db, cursor), lastSeq)))
  }

  /** The next command of close_epoch. */
  function CloseStep(c: Crypto, s: State, now: int, sid: StreamId): State {
    match s.pc
    case GetLastSeq => s.(pc := GetCursor(s.db.lastSeq.GetOr(0)))
    case GetCursor(lastSeq) => s.(pc := ReadPending(lastSeq, s.db.cursor))
    case ReadPending(lastSeq, cursor) =>
      var pending := Pending(s.db, lastSeq, cursor);
      s.(pc := if pending == [] then Idle else GetHead(pending))
    case GetHead(pending) => s.(pc := GetNum(pending, s.db.head.GetOr(GENESIS)))
    case GetNum(pending, prev) => s.(pc := Commit(pending, prev, s.db.num.GetOr(-1) + 1))
    case Commit(pending, prev, epoch) =>
      if pending == [] then s.(pc := Idle) else CommitStep(c, s, NewHeader(c, pending, prev, epoch, now), pending, sid)
    case RecordAnchor(epoch, hash) =>
      if s.anchored then
        s.(anchor := s.anchor + [SignedLine(epoch, hash)], signed := s.signed + {AnchorMessage(epoch, hash)},
           pc := AfterAnchor(epoch))
      else s.(pc := AfterAnchor(epoch))
    case _ => s
  }

  /** The close-commit script. When its guard refuses, nothing is appended but the close goes on. */
  function CommitStep(c: Crypto, s: State, header: Header, pending: seq<Event>, sid: StreamId): State {
    var epoch := header.core.epoch;
    var refused := s.db.num.GetOr(-1) >= epoch;
    s.(db := CommitScript(s.db, sid, header, LeafDigests(c.tree, Records(pending)), Located(epoch, pending, |pending|)),
       hist := if refused then s.hist else s.hist.(sealed := s.hist.sealed + [header]),
       sids := if refused then s.sids else s.sids + [sid],
       signed := s.signed + {header.signature},
       pc := RecordAnchor(epoch, header.hash))
  }

  /** Retention starts when an epoch has fallen out of the hot window. */
  function AfterAnchor(epoch: int): Pc {
    if epoch - WORM_HOT_EPOCHS < 0 then Idle else ReadFallen(epoch - WORM_HOT_EPOCHS)
  }

  /** The next command of _trim_retention. */
  function TrimStep(s: State): State {
    match s.pc
    case ReadFallen(fallen) =>
      var header := ReadHeader(s.db, fallen);
      s.(pc := if header.None? then Idle else ReadSegment(fallen, header.value))
    case ReadSegment(fallen, header) =>
      var ids := Ids(Between(s.db.events, header.core.first, header.core.last));
      s.(pc := if ids == {} then DropFallenLeaves(fallen) else DropFallenLocations(fallen, ids))
    case DropFallenLocations(fallen, ids) => s.(db := DropLocations(s.db, ids), pc := DropFallenLeaves(fallen))
    case DropFallenLeaves(fallen) => s.(db := DropLeaves(s.db, {fallen}), pc := ReadKeepFrom(fallen))
    case ReadKeepFrom(fallen) =>
      var keep := ReadHeader(s.db, fallen + 1);
      s.(pc := if keep.None? then Idle else TrimBuffer(fallen, keep.value.core.first))
    case TrimBuffer(fallen, minId) =>
      s.(db := TrimEvents(s.db, minId), trimmed := if fallen < s.trimmed then s.trimmed else fallen + 1, pc := Idle)
    case _ => s
  }

  /** The next read of a verification, then its verdict. */
  function VerifyStep(c: Crypto, s: State, goal: Goal, stage: nat, snap: Snapshot): State {
    if stage == 0 then
      s.(pc := Verifying(goal, 1, snap.(expected := if s.anchored then Head(s.signed, s.anchor) else None)))
    else if stage == 1 then s.(pc := Verifying(goal, 2, snap.(cell := s.db.checkpoint)))
    else if stage == 2 then s.(pc := Verifying(goal, 3, snap.(headers := s.db.epochs)))
    else if stage == 3 then s.(pc := Verifying(goal, 4, snap.(events := s.db.events)))
    else if stage == 4 then s.(pc := Verifying(goal, 5, snap.(num := s.db.num)))
    else if stage == 5 then s.(pc := Verifying(goal, 6, snap.(lastSeq := s.db.lastSeq)))
    else s.(pc := Verified(goal, VerdictOf(c, s.signed, snap.(head := s.db.head))))
  }

  /** A report ends there; a compaction goes on only over an intact chain whose target header is indexed. */
  function VerifiedStep(s: State, goal: Goal, verdict: Verdict): State {
    match goal
    case Report => s.(pc := Idle)
    case Fold(target) =>
      var header := ReadHeader(s.db, target);
      s.(pc := if !verdict.intact || header.None? then Idle else CompactSet(header.value, target))
  }

  /** The next command of compact, outside its verification. */
  function CompactStep(s: State): State {
    match s.pc
    case CompactGetNum(keep, stride) =>
      var num := s.db.num.GetOr(-1);
      s.(pc := if num < 0 || num - keep < 0 then Idle else CompactGetCheckpoint(num - keep, stride))
    case CompactGetCheckpoint(target, stride) =>
      var floor := if s.db.checkpoint.Stored? then s.db.checkpoint.checkpoint.epoch else -1;
      s.(pc := if !CellReadable(s.signed, s.db.checkpoint) || target <= floor || target - floor < stride
               then Idle else Verifying(Fold(target), 0, EMPTY_SNAPSHOT))
    case CompactSet(header, target) =>
      s.(db := SetCheckpoint(s.db, Checkpoint(target, header.hash, header.core.end)),
         signed := s.signed + {CheckpointMessage(target, header.hash, header.core.end)},
         pc := CompactScan(target))
    case CompactScan(target) =>
      s.(pc := CompactDelete(target, FoldedSids(s.db.epochs, target), FoldedEpochs(s.db.epochs, target)))
    case CompactDelete(target, sids, folded) =>
      s.(db := DeleteEntries(s.db, sids), dropped := if target < s.dropped then s.dropped else target + 1,
         pc := CompactIndex(target, folded))
    case CompactIndex(target, folded) => s.(db := DropIndex(s.db, folded), pc := CompactStreamIds(target, folded))
    case CompactStreamIds(target, folded) => s.(db := DropStreamIds(s.db, folded), pc := CompactLeaves(target, folded))
    case CompactLeaves(target, folded) => s.(db := DropLeaves(s.db, folded), pc := CompactAnchor(target))
    case CompactAnchor(target) =>
      s.(anchor := if s.anchored then Survivors(s.signed, s.anchor, target, |s.anchor|) else s.anchor, pc := Idle)
    case _ => s
  }

  // ----- runs ---------------------------------------------------------------------------

  /** `states` is a run of the machine under `actions`, starting anywhere. */
  ghost predicate Run(c: Crypto, states: seq<State>, actions: seq<Action>) {
    && |states| == |actions| + 1
    && forall i :: 0 <= i < |actions| ==> StepAt(c, states, actions, i)
  }

  /** Action `i` of a run was possible and leads on to the next state. */
  ghost predicate StepAt(c: Crypto, states: seq<State>, actions: seq<Action>, i: int)
    requires |states| == |actions| + 1 && 0 <= i < |actions|
  {
    Enabled(states[i], actions[i]) && states[i + 1] == Apply(c, states[i], actions[i])
  }

  /** A state some run from an empty ledger reaches. */
  ghost predicate Reachable(c: Crypto, s: State) {
    exists anchored, states, actions :: Run(c, states, actions) && states[0] == Initial(anchored)
      && states[|actions|] == s
  }
}
