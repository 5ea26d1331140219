/**
 The logger object: its operations as the command sequences the source sends, over fields
 it updates in place. Each operation is shown to be one way of running the step machine
 (one in which nothing interleaves and nothing crashes), so what holds over all runs holds
 after it; what it achieves from a safe state is stated beside that.
 */
module WormLogger {
  import opened Anchor
  import opened Bytes
  import opened WormHistory
  import opened WormHonest
  import opened WormInvariant
  import opened WormMachine
  import opened WormRuns
  import opened WormSteps
  import opened WormStore
  import opened WormVerify
  import opened Wrappers

  // ----- executions -------------------------------------------------------------------------------

  /** The machine gets from `s` to `s'` by these actions. */
  ghost predicate Executes(c: Crypto, s: State, actions: seq<Action>, s': State) {
    if actions == [] then s == s'
    else
      var n := |actions| - 1;
      exists mid :: Executes(c, s, actions[..n], mid) && Enabled(mid, actions[n]) && s' == Apply(c, mid, actions[n])
  }

  /** The states the machine can be brought to from `s`. */
  ghost function Outcomes(c: Crypto, s: State): iset<State> { iset s' | ReachesNamed(c, s, s') }

  ghost predicate ReachesNamed(c: Crypto, s: State, s': State) {
    forall t {:trigger Named(t)} :: Named(t) && t == s' ==> Reaches(c, s, t)
  }

  ghost predicate Reaches(c: Crypto, s: State, s': State) { exists actions :: Executes(c, s, actions, s') }

  lemma Following(c: Crypto, s: State, mid: State, a: Action)
    requires mid in Outcomes(c, s) && Enabled(mid, a)
    ensures Apply(c, mid, a) in Outcomes(c, s)
  {
    assert Named(mid);
    var actions :| Executes(c, s, actions, mid);
    var more := actions + [a];
    assert more[..|more| - 1] == actions && more[|more| - 1] == a;
    assert Executes(c, s, more[..|more| - 1], mid);
    assert Executes(c, s, more, Apply(c, mid, a));
  }

  lemma Begin(c: Crypto, s: State, a: Action)
    requires Enabled(s, a)
    ensures Apply(c, s, a) in Outcomes(c, s)
  {
    assert Executes(c, s, [], s);
    Following(c, s, s, a);
  }

  lemma {:induction false} ExecutionIsSafe(c: Crypto, s: State, actions: seq<Action>, s': State)
    requires s in Safe(c) && Executes(c, s, actions, s')
    ensures s' in Safe(c)
  {
    if actions != [] {
      var n := |actions| - 1;
      var mid :| Executes(c, s, actions[..n], mid) && Enabled(mid, actions[n]) && s' == Apply(c, mid, actions[n]);
      ExecutionIsSafe(c, s, actions[..n], mid);
      StepIsSafe(c, mid, actions[n]);
    }
  }

  /** An operation run from a safe state ends in a safe state. */
  lemma OutcomesAreSafe(c: Crypto, s: State, s': State)
    requires s in Safe(c) && s' in Outcomes(c, s)
    ensures s' in Safe(c)
  {
    assert Named(s');
    var actions :| Executes(c, s, actions, s');
    ExecutionIsSafe(c, s, actions, s');
  }

  /** A stream id above every one in use. */
  ghost predicate Fresh(sids: seq<StreamId>, sid: StreamId) { sids != [] ==> sids[|sids| - 1] < sid }

  lemma FollowClose(c: Crypto, s: State, mid: State, now: int, sid: StreamId)
    requires mid in Outcomes(c, s) && mid.pc.Closing() && Fresh(mid.sids, sid)
    ensures CloseStep(c, mid, now, sid) in Outcomes(c, s)
  {
    Following(c, s, mid, Progress(now, sid));
  }

  lemma FollowTrim(c: Crypto, s: State, mid: State, sid: StreamId)
    requires mid in Outcomes(c, s) && mid.pc.Trimming() && Fresh(mid.sids, sid)
    ensures TrimStep(mid) in Outcomes(c, s)
  {
    Following(c, s, mid, Progress(0, sid));
  }

  // ----- whole operations, uninterrupted ----------------------------------------------------------------

  /** The store without the locations and leaf vector of the fallen epoch. */
  function Unlocated(db: Redis, fallen: int): Redis {
    var header := ReadHeader(db, fallen);
    if header.None? then db
    else
      var ids := Ids(Between(db.events, header.value.core.first, header.value.core.last));
      db.(eventLoc := db.eventLoc - ids, leaves := db.leaves - {fallen})
  }

  /** What a trim that ran to its end leaves. */
  function AfterTrim(s: State, epochNum: int): State {
    var fallen := epochNum - WORM_HOT_EPOCHS;
    if fallen < 0 then s.(pc := Idle)
    else if ReadHeader(s.db, fallen).None? then s.(pc := Idle)
    else KeptFrom(s.(db := Unlocated(s.db, fallen)), fallen)
  }

  /** The second half: from the leaf vector on. */
  lemma TrimHalf(c: Crypto, s0: State, s: State, fallen: nat, sid: StreamId)
    requires s.(pc := DropFallenLeaves(fallen)) in Outcomes(c, s0) && Fresh(s.sids, sid)
    ensures KeptFrom(s.(db := DropLeaves(s.db, {fallen})), fallen) in Outcomes(c, s0)
  {
    FollowTrim(c, s0, s.(pc := DropFallenLeaves(fallen)), sid);
    KeepFromRuns(c, s0, s.(db := DropLeaves(s.db, {fallen})), fallen, sid);
  }

  /** Trimming the buffer to the epoch after the fallen one, when its header is indexed. */
  function KeptFrom(s: State, fallen: int): State {
    var keep := ReadHeader(s.db, fallen + 1);
    if keep.None? then s.(pc := Idle)
    else s.(db := TrimEvents(s.db, keep.value.core.first),
            trimmed := if fallen < s.trimmed then s.trimmed else fallen + 1, pc := Idle)
  }

  lemma KeepFromRuns(c: Crypto, s0: State, s: State, fallen: nat, sid: StreamId)
    requires s.(pc := ReadKeepFrom(fallen)) in Outcomes(c, s0) && Fresh(s.sids, sid)
    ensures KeptFrom(s, fallen) in Outcomes(c, s0)
  {
    FollowTrim(c, s0, s.(pc := ReadKeepFrom(fallen)), sid);
    var keep := ReadHeader(s.db, fallen + 1);
    if keep.Some? {
      FollowTrim(c, s0, s.(pc := TrimBuffer(fallen, keep.value.core.first)), sid);
    }
  }

  lemma TrimRuns(c: Crypto, s0: State, s: State, epochNum: int, sid: StreamId)
    requires s.(pc := AfterAnchor(epochNum)) in Outcomes(c, s0) && Fresh(s.sids, sid)
    ensures AfterTrim(s, epochNum) in Outcomes(c, s0)
  {
    var fallen := epochNum - WORM_HOT_EPOCHS;
    if fallen >= 0 {
      FollowTrim(c, s0, s.(pc := ReadFallen(fallen)), sid);
      var header := ReadHeader(s.db, fallen);
      if header.None? {
        assert s.(pc := Idle) == AfterTrim(s, epochNum);
      } else {
        FollowTrim(c, s0, s.(pc := ReadSegment(fallen, header.value)), sid);
        var ids := Ids(Between(s.db.events, header.value.core.first, header.value.core.last));
        var s1 := s.(db := DropLocations(s.db, ids));
        if ids == {} {
          assert s.db.eventLoc - {} == s.db.eventLoc;
        } else {
          FollowTrim(c, s0, s.(pc := DropFallenLocations(fallen, ids)), sid);
        }
        TrimHalf(c, s0, s1, fallen, sid);
      }
    }
  }

  // ----- a whole close ------------------------------------------------------------------------------------

  /** What the reads of a close find to seal, and the header built over it. */
  function ToSeal(db: Redis): seq<Event> { Pending(db, db.lastSeq.GetOr(0), db.cursor) }

  function HeaderOver(c: Crypto, db: Redis, pending: seq<Event>, now: int): Header
    requires pending != []
  {
    NewHeader(c, pending, db.head.GetOr(GENESIS), db.num.GetOr(-1) + 1, now)
  }

  /** The head line appended to the anchor file, when there is one. */
  function AfterRecord(s: State, epoch: int, hash: string): State {
    if s.anchored
    then s.(anchor := s.anchor + [SignedLine(epoch, hash)],
            signed := s.signed + {AnchorMessage(epoch, hash)}, pc := Idle)
    else s.(pc := Idle)
  }

  function AfterClose(c: Crypto, s: State, now: int, sid: StreamId): State {
    var pending := ToSeal(s.db);
    if pending == [] then s.(pc := Idle)
    else
      var header := HeaderOver(c, s.db, pending, now);
      AfterTrim(AfterRecord(CommitStep(c, s, header, pending, sid), header.core.epoch, header.hash), header.core.epoch)
  }

  /** The reads of a close, up to the commit. */
  lemma CloseReads(c: Crypto, s: State, now: int, sid: StreamId)
    requires s.pc.Idle? && Fresh(s.sids, sid)
    ensures var pending := ToSeal(s.db);
      s.(pc := if pending == [] then Idle else GetHead(pending)) in Outcomes(c, s)
  {
    Begin(c, s, BeginClose);
    FollowClose(c, s, s.(pc := GetLastSeq), now, sid);
    FollowClose(c, s, s.(pc := GetCursor(s.db.lastSeq.GetOr(0))), now, sid);
    FollowClose(c, s, s.(pc := ReadPending(s.db.lastSeq.GetOr(0), s.db.cursor)), now, sid);
  }

  lemma CounterReads(c: Crypto, s: State, now: int, sid: StreamId, pending: seq<Event>)
    requires s.(pc := GetHead(pending)) in Outcomes(c, s) && Fresh(s.sids, sid)
    ensures s.(pc := Commit(pending, s.db.head.GetOr(GENESIS), s.db.num.GetOr(-1) + 1)) in Outcomes(c, s)
  {
    FollowClose(c, s, s.(pc := GetHead(pending)), now, sid);
    FollowClose(c, s, s.(pc := GetNum(pending, s.db.head.GetOr(GENESIS))), now, sid);
  }

  lemma RecordRuns(c: Crypto, s0: State, s: State, epoch: int, hash: string, sid: StreamId)
    requires s in Outcomes(c, s0) && s.pc == RecordAnchor(epoch, hash) && Fresh(s.sids, sid)
    ensures AfterTrim(AfterRecord(s, epoch, hash), epoch) in Outcomes(c, s0)
  {
    FollowClose(c, s0, s, 0, sid);
    TrimRuns(c, s0, AfterRecord(s, epoch, hash), epoch, sid);
  }

  lemma CommitRuns(
    c: Crypto, s0: State, s: State, pending: seq<Event>, prev: string, epoch: int, now: int, sid: StreamId)
    requires s.(pc := Commit(pending, prev, epoch)) in Outcomes(c, s0) && pending != [] && Fresh(s.sids, sid)
    ensures var header := NewHeader(c, pending, prev, epoch, now);
      CommitStep(c, s, header, pending, sid) in Outcomes(c, s0)
  {
    FollowClose(c, s0, s.(pc := Commit(pending, prev, epoch)), now, sid);
  }

  lemma FreshAfter(sids: seq<StreamId>, sid: StreamId)
    requires Fresh(sids, sid)
    ensures Fresh(sids, sid + 1) && Fresh(sids + [sid], sid + 1)
  {
  }

  lemma CommitLeaves(c: Crypto, s: State, header: Header, pending: seq<Event>, sid: StreamId)
    ensures var committed := CommitStep(c, s, header, pending, sid);
      committed.pc == RecordAnchor(header.core.epoch, header.hash)
      && (committed.sids == s.sids || committed.sids == s.sids + [sid])
  {
  }

  lemma HeaderRuns(c: Crypto, s: State, pending: seq<Event>, now: int, sid: StreamId)
    requires s.(pc := GetHead(pending)) in Outcomes(c, s) && pending != [] && Fresh(s.sids, sid)
    ensures CommitStep(c, s, HeaderOver(c, s.db, pending, now), pending, sid) in Outcomes(c, s)
  {
    CounterReads(c, s, now, sid, pending);
    CommitRuns(c, s, s, pending, s.db.head.GetOr(GENESIS), s.db.num.GetOr(-1) + 1, now, sid);
  }

  lemma SealRuns(c: Crypto, s: State, pending: seq<Event>, now: int, sid: StreamId)
    requires s.(pc := GetHead(pending)) in Outcomes(c, s) && pending != [] && Fresh(s.sids, sid)
    ensures var header := HeaderOver(c, s.db, pending, now);
      AfterTrim(AfterRecord(CommitStep(c, s, header, pending, sid), header.core.epoch, header.hash),
                header.core.epoch) in Outcomes(c, s)
  {
    var header := HeaderOver(c, s.db, pending, now);
    HeaderRuns(c, s, pending, now, sid);
    CommitLeaves(c, s, header, pending, sid);
    FreshAfter(s.sids, sid);
    RecordRuns(c, s, CommitStep(c, s, header, pending, sid), header.core.epoch, header.hash, sid + 1);
  }

  /** A close, started idle, is a run of the machine; its stream id is the one the epochs stream assigns. */
  lemma CloseRuns(c: Crypto, s: State, now: int, sid: StreamId)
    requires s.pc.Idle? && Fresh(s.sids, sid)
    ensures AfterClose(c, s, now, sid) in Outcomes(c, s)
  {
    CloseReads(c, s, now, sid);
    if ToSeal(s.db) != [] {
      SealRuns(c, s, ToSeal(s.db), now, sid);
    }
  }

  /** The next stretch to seal: the front of the unsealed log, up to the leaf cap. */
  function Front(hist: History): seq<Event>
    requires 0 <= SealedThrough(hist) <= |hist.log|
  {
    Capped(hist.log[SealedThrough(hist)..])
  }

  lemma FrontIsToSeal(c: Crypto, s: State)
    requires s in Safe(c)
    ensures 0 <= SealedThrough(s.hist) <= |s.hist.log| && ToSeal(s.db) == Front(s.hist)
    ensures ToSeal(s.db) != [] ==>
      forall now :: HeaderOver(c, s.db, ToSeal(s.db), now) == Sealing(c, s.hist, Front(s.hist), now)
  {
    SafeTail(c, s);
    CountersRead(s.hist, s.db.num, s.db.lastSeq, s.db.head);
  }

  lemma SafeTail(c: Crypto, s: State)
    requires s in Safe(c)
    ensures CountersOk(s.hist, s.db.num, s.db.lastSeq, s.db.head)
    ensures 0 <= SealedThrough(s.hist) <= |s.hist.log|
    ensures Pending(s.db, SealedThrough(s.hist), s.db.cursor) == Front(s.hist)
  {
    SafeMeans(c, s);
    TailIsUnsealed(c, s.hist, s.trimmed, s.db);
    TailStays(s.hist, SealedThrough(s.hist), ReadTail(s.db, s.db.cursor));
    RestIsSlice(s.hist.log, SealedThrough(s.hist), ReadTail(s.db, s.db.cursor));
  }

  /** From `hist` to `hist'` exactly the next stretch of the log was sealed, or nothing when all of it was. */
  ghost predicate SealsNext(c: Crypto, hist: History, hist': History, now: int) {
    var from := SealedThrough(hist);
    0 <= from <= |hist.log|
    && hist' == if from == |hist.log| then hist else WithEpoch(hist, Sealing(c, hist, Front(hist), now))
  }

  lemma CloseHistory(c: Crypto, s: State, now: int, sid: StreamId)
    requires ToSeal(s.db) != [] ==> s.db.num.GetOr(-1) < HeaderOver(c, s.db, ToSeal(s.db), now).core.epoch
    ensures AfterClose(c, s, now, sid).hist
         == if ToSeal(s.db) == [] then s.hist else WithEpoch(s.hist, HeaderOver(c, s.db, ToSeal(s.db), now))
  {
  }

  /** A close from any safe state seals exactly the next stretch of the log. */
  lemma CloseSeals(c: Crypto, s: State, now: int, sid: StreamId)
    requires s in Safe(c) && s.pc.Idle? && Fresh(s.sids, sid)
    ensures AfterClose(c, s, now, sid) in Safe(c) && SealsNext(c, s.hist, AfterClose(c, s, now, sid).hist, now)
  {
    CloseRuns(c, s, now, sid);
    OutcomesAreSafe(c, s, AfterClose(c, s, now, sid));
    FrontIsToSeal(c, s);
    CloseHistory(c, s, now, sid);
  }

  // ----- a whole verification, a whole compaction ------------------------------------------------------------

  lemma FollowCompact(c: Crypto, s: State, mid: State, sid: StreamId)
    requires mid in Outcomes(c, s) && mid.pc.Compacting() && Fresh(mid.sids, sid)
    ensures CompactStep(mid) in Outcomes(c, s)
  {
    Following(c, s, mid, Progress(0, sid));
  }

  lemma FollowRead(c: Crypto, s0: State, s: State, goal: Goal, stage: nat, snap: Snapshot, sid: StreamId)
    requires s.(pc := Verifying(goal, stage, snap)) in Outcomes(c, s0) && Fresh(s.sids, sid)
    ensures VerifyStep(c, s, goal, stage, snap) in Outcomes(c, s0)
  {
    Following(c, s0, s.(pc := Verifying(goal, stage, snap)), Progress(0, sid));
  }

  lemma FollowVerdict(c: Crypto, s0: State, s: State, goal: Goal, verdict: Verdict, sid: StreamId)
    requires s.(pc := Verified(goal, verdict)) in Outcomes(c, s0) && Fresh(s.sids, sid)
    ensures VerifiedStep(s, goal, verdict) in Outcomes(c, s0)
  {
    Following(c, s0, s.(pc := Verified(goal, verdict)), Progress(0, sid));
  }

  /** The reads of a verification that nothing interleaves add up to the store as it stands. */
  lemma VerificationRuns(c: Crypto, s0: State, s: State, goal: Goal, sid: StreamId)
    requires s.(pc := Verifying(goal, 0, EMPTY_SNAPSHOT)) in Outcomes(c, s0) && Fresh(s.sids, sid)
    ensures s.(pc := Verified(goal, VerdictOf(c, s.signed, Now(s)))) in Outcomes(c, s0)
  {
    var snap := EMPTY_SNAPSHOT;
    FollowRead(c, s0, s, goal, 0, snap, sid);
    snap := snap.(expected := Now(s).expected);
    FollowRead(c, s0, s, goal, 1, snap, sid);
    snap := snap.(cell := s.db.checkpoint);
    FollowRead(c, s0, s, goal, 2, snap, sid);
    snap := snap.(headers := s.db.epochs);
    FollowRead(c, s0, s, goal, 3, snap, sid);
    snap := snap.(events := s.db.events);
    LastReads(c, s0, s, goal, snap, sid);
  }

  lemma LastReads(c: Crypto, s0: State, s: State, goal: Goal, snap: Snapshot, sid: StreamId)
    requires s.(pc := Verifying(goal, 4, snap)) in Outcomes(c, s0) && Fresh(s.sids, sid)
    requires snap == Snapshot(Now(s).expected, s.db.checkpoint, s.db.epochs, s.db.events, None, None, None)
    ensures s.(pc := Verified(goal, VerdictOf(c, s.signed, Now(s)))) in Outcomes(c, s0)
  {
    FollowRead(c, s0, s, goal, 4, snap, sid);
    var withNum := snap.(num := s.db.num);
    FollowRead(c, s0, s, goal, 5, withNum, sid);
    var withLast := withNum.(lastSeq := s.db.lastSeq);
    FollowRead(c, s0, s, goal, 6, withLast, sid);
    assert withLast.(head := s.db.head) == Now(s);
  }

  /** The epoch a compaction folds up to, when its guards let it try. */
  function FoldTarget(db: Redis, signed: set<Message>, keep: int, stride: int): Option<int> {
    var num := db.num.GetOr(-1);
    var floor := if db.checkpoint.Stored? then db.checkpoint.checkpoint.epoch else -1;
    if num < 0 || num - keep < 0 || !CellReadable(signed, db.checkpoint) || num - keep <= floor
      || num - keep - floor < stride then None
    else Some(num - keep)
  }

  /** The checkpoint it signs: over an intact ledger whose target header is indexed. */
  function ToFold(c: Crypto, s: State, keep: int, stride: int): Option<Checkpoint> {
    var target := FoldTarget(s.db, s.signed, keep, stride);
    if target.None? || !VerdictOf(c, s.signed, Now(s)).intact || ReadHeader(s.db, target.value).None? then None
    else
      var header := ReadHeader(s.db, target.value).value;
      Some(Checkpoint(target.value, header.hash, header.core.end))
  }

  /** Every header and lookup up to the target deleted, and the anchor rotated. */
  function AfterFold(s: State, target: int): State {
    s.(db := WithoutFolded(s.db, target),
       dropped := if target < s.dropped then s.dropped else target + 1,
       anchor := if s.anchored then Survivors(s.signed, s.anchor, target, |s.anchor|) else s.anchor,
       pc := Idle)
  }

  function WithoutFolded(db: Redis, target: int): Redis {
    var folded := FoldedEpochs(db.epochs, target);
    db.(epochs := Without(db.epochs, FoldedSids(db.epochs, target)),
        index := db.index - folded, streamId := db.streamId - folded, leaves := db.leaves - folded)
  }

  function AfterCompact(c: Crypto, s: State, keep: int, stride: int): State {
    var cp := ToFold(c, s, keep, stride);
    if cp.None? then s.(pc := Idle)
    else AfterFold(s.(db := SetCheckpoint(s.db, cp.value), signed := WithCheckpoint(s.signed, cp.value)),
                   cp.value.epoch)
  }

  lemma NumGuard(c: Crypto, s: State, keep: int, stride: int, sid: StreamId)
    requires s.pc.Idle? && Fresh(s.sids, sid)
    ensures var num := s.db.num.GetOr(-1);
      s.(pc := if num < 0 || num - keep < 0 then Idle else CompactGetCheckpoint(num - keep, stride)) in Outcomes(c, s)
  {
    Begin(c, s, BeginCompact(keep, stride));
    FollowCompact(c, s, s.(pc := CompactGetNum(keep, stride)), sid);
  }

  lemma CompactGuards(c: Crypto, s: State, keep: int, stride: int, sid: StreamId)
    requires s.pc.Idle? && Fresh(s.sids, sid)
    ensures var target := FoldTarget(s.db, s.signed, keep, stride);
      s.(pc := if target.None? then Idle else Verifying(Fold(target.value), 0, EMPTY_SNAPSHOT)) in Outcomes(c, s)
  {
    NumGuard(c, s, keep, stride, sid);
    var num := s.db.num.GetOr(-1);
    if num >= 0 && num - keep >= 0 {
      FollowCompact(c, s, s.(pc := CompactGetCheckpoint(num - keep, stride)), sid);
    }
  }

  lemma FoldVerified(c: Crypto, s: State, keep: int, stride: int, sid: StreamId)
    requires s.pc.Idle? && Fresh(s.sids, sid)
    ensures var cp := ToFold(c, s, keep, stride);
      s.(pc := if cp.None? then Idle
         else CompactSet(ReadHeader(s.db, cp.value.epoch).value, cp.value.epoch)) in Outcomes(c, s)
  {
    CompactGuards(c, s, keep, stride, sid);
    var target := FoldTarget(s.db, s.signed, keep, stride);
    if target.Some? {
      VerificationRuns(c, s, s, Fold(target.value), sid);
      FollowVerdict(c, s, s, Fold(target.value), VerdictOf(c, s.signed, Now(s)), sid);
    }
  }

  lemma HeadersAndIndex(
    c: Crypto, s0: State, s: State, target: int, sids: set<StreamId>, folded: set<int>, sid: StreamId)
    requires s.(pc := CompactDelete(target, sids, folded)) in Outcomes(c, s0) && Fresh(s.sids, sid)
    ensures s.(db := DropIndex(DeleteEntries(s.db, sids), folded),
               dropped := if target < s.dropped then s.dropped else target + 1,
               pc := CompactStreamIds(target, folded)) in Outcomes(c, s0)
  {
    FollowCompact(c, s0, s.(pc := CompactDelete(target, sids, folded)), sid);
    var deleted := s.(db := DeleteEntries(s.db, sids), dropped := if target < s.dropped then s.dropped else target + 1);
    FollowCompact(c, s0, deleted.(pc := CompactIndex(target, folded)), sid);
  }

  lemma DeleteRuns(c: Crypto, s0: State, s: State, target: int, sid: StreamId)
    requires s.(pc := CompactScan(target)) in Outcomes(c, s0) && Fresh(s.sids, sid)
    ensures var folded, sids := FoldedEpochs(s.db.epochs, target), FoldedSids(s.db.epochs, target);
      s.(db := DropIndex(DeleteEntries(s.db, sids), folded),
         dropped := if target < s.dropped then s.dropped else target + 1,
         pc := CompactStreamIds(target, folded)) in Outcomes(c, s0)
  {
    FollowCompact(c, s0, s.(pc := CompactScan(target)), sid);
    HeadersAndIndex(c, s0, s, target, FoldedSids(s.db.epochs, target), FoldedEpochs(s.db.epochs, target), sid);
  }

  lemma LeavesAndAnchor(c: Crypto, s0: State, s: State, target: int, folded: set<int>, sid: StreamId)
    requires s.(pc := CompactLeaves(target, folded)) in Outcomes(c, s0) && Fresh(s.sids, sid)
    ensures s.(db := DropLeaves(s.db, folded),
               anchor := if s.anchored then Survivors(s.signed, s.anchor, target, |s.anchor|) else s.anchor,
               pc := Idle) in Outcomes(c, s0)
  {
    FollowCompact(c, s0, s.(pc := CompactLeaves(target, folded)), sid);
    FollowCompact(c, s0, s.(db := DropLeaves(s.db, folded), pc := CompactAnchor(target)), sid);
  }

  lemma RotateRuns(c: Crypto, s0: State, s: State, target: int, folded: set<int>, sid: StreamId)
    requires s.(pc := CompactStreamIds(target, folded)) in Outcomes(c, s0) && Fresh(s.sids, sid)
    ensures s.(db := DropLeaves(DropStreamIds(s.db, folded), folded),
               anchor := if s.anchored then Survivors(s.signed, s.anchor, target, |s.anchor|) else s.anchor,
               pc := Idle) in Outcomes(c, s0)
  {
    FollowCompact(c, s0, s.(pc := CompactStreamIds(target, folded)), sid);
    LeavesAndAnchor(c, s0, s.(db := DropStreamIds(s.db, folded)), target, folded, sid);
  }

  function WithCheckpoint(signed: set<Message>, cp: Checkpoint): set<Message> {
    signed + {CheckpointMessage(cp.epoch, cp.hash, cp.end)}
  }

  lemma SetRuns(c: Crypto, s0: State, s: State, header: Header, target: int, sid: StreamId)
    requires s.(pc := CompactSet(header, target)) in Outcomes(c, s0) && Fresh(s.sids, sid)
    ensures var cp := Checkpoint(target, header.hash, header.core.end);
      s.(db := SetCheckpoint(s.db, cp), signed := WithCheckpoint(s.signed, cp),
         pc := CompactScan(target)) in Outcomes(c, s0)
  {
    FollowCompact(c, s0, s.(pc := CompactSet(header, target)), sid);
  }

  /** From the scan on: the headers, their lookups, the anchor lines. */
  lemma FoldRuns(c: Crypto, s0: State, s: State, cp: Checkpoint, sid: StreamId)
    requires s.(pc := CompactScan(cp.epoch)) in Outcomes(c, s0) && Fresh(s.sids, sid)
    ensures AfterFold(s, cp.epoch) in Outcomes(c, s0)
  {
    var folded := FoldedEpochs(s.db.epochs, cp.epoch);
    DeleteRuns(c, s0, s, cp.epoch, sid);
    var deleted := s.(db := DropIndex(DeleteEntries(s.db, FoldedSids(s.db.epochs, cp.epoch)), folded),
                      dropped := if cp.epoch < s.dropped then s.dropped else cp.epoch + 1);
    RotateRuns(c, s0, deleted, cp.epoch, folded, sid);
  }

  /** A compaction, started idle, is a run of the machine. */
  lemma CompactRuns(c: Crypto, s: State, keep: int, stride: int, sid: StreamId)
    requires s.pc.Idle? && Fresh(s.sids, sid)
    ensures AfterCompact(c, s, keep, stride) in Outcomes(c, s)
  {
    FoldVerified(c, s, keep, stride, sid);
    var fold := ToFold(c, s, keep, stride);
    if fold.Some? {
      SetRuns(c, s, s, ReadHeader(s.db, fold.value.epoch).value, fold.value.epoch, sid);
      FoldRuns(c, s, s.(db := SetCheckpoint(s.db, fold.value), signed := WithCheckpoint(s.signed, fold.value)),
               fold.value, sid);
    }
  }

  /**
   From a safe state a compaction signs the sealed head of the epoch `keep` before the last,
   exactly when there is such an epoch, past the last checkpoint by at least the stride.
   */
  lemma CompactFolds(c: Crypto, s: State, keep: int, stride: int, sid: StreamId)
    requires s in Safe(c) && s.pc.Idle? && Fresh(s.sids, sid)
    ensures AfterCompact(c, s, keep, stride) in Safe(c)
    ensures var target, last := |s.hist.sealed| - 1 - keep, First(s) - 1;
      ToFold(c, s, keep, stride)
        == if last < target && 0 <= target < |s.hist.sealed| && target - last >= stride
           then Some(Checkpoint(target, s.hist.sealed[target].hash, s.hist.sealed[target].core.end)) else None
  {
    CounterCounts(c, s);
    SafeMeans(c, s);
    CompactRuns(c, s, keep, stride, sid);
    OutcomesAreSafe(c, s, AfterCompact(c, s, keep, stride));
    SafeVerdict(c, s);
    var target := FoldTarget(s.db, s.signed, keep, stride);
    if target.Some? {
      SafeLookup(c, s, target.value);
    }
  }

  lemma SafeLookup(c: Crypto, s: State, k: int)
    requires s in Safe(c)
    ensures IndexEntryOk(s.hist, First(s), s.db.index, k)
  {
    SafeMeans(c, s);
  }

  // ----- loops of the operations --------------------------------------------------------------------

  lemma {:induction false} SelectAppend(es: seq<Event>, keep: Event -> bool, n: nat)
    requires n < |es|
    ensures Select(es[..n + 1], keep) == Select(es[..n], keep) + (if keep(es[n]) then [es[n]] else [])
  {
    if n == 0 {
      assert es[..1] == [es[0]] && Select(es[..1][1..], keep) == [];
    } else {
      SelectAppend(es[1..], keep, n - 1);
      assert es[..n + 1][1..] == es[1..][..n] && es[..n][1..] == es[1..][..n - 1];
    }
  }

  /** The loop that keeps the entries above the last sealed sequence number. */
  method KeepAbove(entries: seq<Event>, lastSeq: int) returns (pending: seq<Event>)
    ensures pending == Above(entries, lastSeq)
  {
    pending := [];
    for i := 0 to |entries|
      invariant pending == Above(entries[..i], lastSeq)
    {
      SelectAppend(entries, IsAbove(lastSeq), i);
      if entries[i].seqNo > lastSeq {
        pending := pending + [entries[i]];
      }
    }
    assert entries[..|entries|] == entries;
  }

  /** The loop that builds the location map of a close. */
  method LocateAll(epoch: int, pending: seq<Event>) returns (locations: map<string, Location>)
    ensures locations == Located(epoch, pending, |pending|)
  {
    locations := map[];
    for i := 0 to |pending|
      invariant locations == Located(epoch, pending, i)
    {
      locations := locations[pending[i].id := Location(epoch, i, pending[i].sid)];
    }
  }

  /** The loop that marks headers for deletion. */
  method ScanFolded(entries: seq<EpochEntry>, target: int) returns (sids: set<StreamId>, epochs: set<int>)
    ensures sids == FoldedSids(entries, target) && epochs == FoldedEpochs(entries, target)
  {
    sids, epochs := {}, {};
    for i := 0 to |entries|
      invariant sids == FoldedSids(entries[..i], target) && epochs == FoldedEpochs(entries[..i], target)
    {
      assert entries[..i + 1] == entries[..i] + [entries[i]];
      var epoch := EpochField(entries[i].fields);
      if epoch.Some? && epoch.value <= target {
        sids, epochs := sids + {entries[i].sid}, epochs + {epoch.value};
      }
    }
    assert entries[..|entries|] == entries;
  }

  // ----- the object ------------------------------------------------------------------------------------

  class Logger {
    const c: Crypto
    const anchored: bool
    const anchor: AnchorStore
    var db: Redis
    var signed: set<Message>
    ghost var hist: History
    ghost var sids: seq<StreamId>
    ghost var trimmed: nat
    ghost var dropped: nat

    constructor (c: Crypto, anchored: bool)
      requires Merkled(c)
      ensures fresh(anchor) && this.c == c && Merkled(this.c) && At(Idle) == Initial(anchored)
    {
      this.c, this.anchored := c, anchored;
      anchor := new AnchorStore();
      db, signed := EMPTY_DB, {};
      hist, sids, trimmed, dropped := History([], []), [], 0, 0;
    }

    /** The machine state, with the lock holder about to do `pc`. */
    ghost function At(pc: Pc): State
      reads this, anchor
    {
      State(db, anchored, anchor.lines, pc, hist, sids, signed, trimmed, dropped)
    }

    /** The atomic emit script. */
    method Emit(sid: StreamId, id: string, record: Bytes) returns (seqNo: int)
      requires Enabled(At(Idle), Action.Emit(sid, id, record))
      modifies this
      ensures At(Idle) == Apply(c, old(At(Idle)), Action.Emit(sid, id, record))
      ensures seqNo == old(db.seqNo) + 1 && db.events == old(db.events) + [Event(sid, seqNo, id, record)]
    {
      db := EmitScript(db, sid, id, record);
      seqNo := db.seqNo;
      hist := hist.(log := hist.log + [Event(sid, seqNo, id, record)]);
    }

    /** `_trim_retention` after epoch `epochNum` was closed. */
    method TrimRetention(epochNum: int)
      modifies this`db, this`trimmed
      ensures At(Idle) == AfterTrim(old(At(Idle)), epochNum)
    {
      var fellOut := epochNum - WORM_HOT_EPOCHS;
      if fellOut < 0 {
        return;
      }
      var header := ReadHeader(db, fellOut);
      if header.None? {
        return;
      }
      var eventIds := Ids(Between(db.events, header.value.core.first, header.value.core.last));
      if eventIds != {} {
        db := DropLocations(db, eventIds);
      }
      db := DropLeaves(db, {fellOut});
      var keepFrom := ReadHeader(db, fellOut + 1);
      if keepFrom.Some? {
        db := TrimEvents(db, keepFrom.value.core.first);
        trimmed := if fellOut < trimmed then trimmed else fellOut + 1;
      }
    }

    /** `close_epoch`: seal the next stretch of the unsealed tail, if any, mirror the head and trim. */
    method CloseEpoch(now: int, sid: StreamId) returns (closed: Option<Header>)
      requires Merkled(c)
      modifies this, anchor
      ensures At(Idle) == AfterClose(c, old(At(Idle)), now, sid)
      ensures closed.Some? <==> ToSeal(old(db)) != []
      ensures closed.Some? ==> closed.value == HeaderOver(c, old(db), ToSeal(old(db)), now)
    {
      var lastSeq, cursor := db.lastSeq.GetOr(0), db.cursor;
      var entries := ReadTail(db, cursor);
      var pending := KeepAbove(entries, lastSeq);
      pending := SortBySeq(pending);
      if pending == [] {
        return None;
      }
      pending := Capped(pending);
      var leaves, root := HashEpochLeaves(c, Records(pending));
      var prev, epochNum := db.head.GetOr(GENESIS), db.num.GetOr(-1) + 1;
      var core := Core(epochNum, pending[0].seqNo, pending[|pending| - 1].seqNo, |pending|, now, root, prev,
                       pending[0].sid, pending[|pending| - 1].sid);
      var hash := c.core(core);
      var header := Header(core, hash, EpochMessage(hash));
      var locations := LocateAll(epochNum, pending);
      ghost var before := At(Idle);
      signed := signed + {header.signature};
      var refused := db.num.GetOr(-1) >= epochNum;
      db := CommitScript(db, sid, header, leaves, locations);
      if !refused {
        hist, sids := hist.(sealed := hist.sealed + [header]), sids + [sid];
      }
      assert At(RecordAnchor(epochNum, hash)) == CommitStep(c, before, header, pending, sid);
      if anchored {
        signed := signed + {AnchorMessage(epochNum, hash)};
        anchor.Record(epochNum, hash);
      }
      assert At(Idle) == AfterRecord(CommitStep(c, before, header, pending, sid), epochNum, hash);
      TrimRetention(epochNum);
      closed := Some(header);
    }

    /** `verify_chain`, in the epoch model, with no head given. */
    method VerifyChain() returns (verdict: Verdict)
      requires Merkled(c)
      ensures verdict == VerdictOf(c, signed, Now(At(Idle)))
    {
      var expected: Option<Witness> := None;
      if anchored {
        expected := anchor.ReadHead(signed);
      }
      verdict := VerifyEpoch(c, signed,
                             Snapshot(expected, db.checkpoint, db.epochs, db.events, db.num, db.lastSeq, db.head));
    }

    /** `_trim_compacted_headers`. */
    method TrimCompactedHeaders(target: int)
      modifies this`db, this`dropped
      ensures db == WithoutFolded(old(db), target)
      ensures dropped == if target < old(dropped) then old(dropped) else target + 1
    {
      var delSids, delEpochs := ScanFolded(db.epochs, target);
      db := DeleteEntries(db, delSids);
      db := DropIndex(db, delEpochs);
      db := DropStreamIds(db, delEpochs);
      db := DropLeaves(db, delEpochs);
      dropped := if target < dropped then dropped else target + 1;
    }

    /** `compact`: fold a prefix that verifies right now into a signed checkpoint, then drop its headers. */
    method Compact(keepEpochs: int, minStride: int) returns (folded: Option<Checkpoint>)
      requires Merkled(c)
      modifies this, anchor
      ensures folded == ToFold(c, old(At(Idle)), keepEpochs, minStride)
      ensures At(Idle) == AfterCompact(c, old(At(Idle)), keepEpochs, minStride)
    {
      ghost var start := At(Idle);
      var num := db.num.GetOr(-1);
      if num < 0 {
        return None;
      }
      var target := num - keepEpochs;
      if target < 0 {
        return None;
      }
      if !CellReadable(signed, db.checkpoint) {
        return None;
      }
      var floor := if db.checkpoint.Stored? then db.checkpoint.checkpoint.epoch else -1;
      if target <= floor || target - floor < minStride {
        return None;
      }
      assert FoldTarget(db, signed, keepEpochs, minStride) == Some(target);
      var verdict := VerifyChain();
      if !verdict.intact {
        return None;
      }
      var header := ReadHeader(db, target);
      if header.None? {
        return None;
      }
      var cp := Checkpoint(target, header.value.hash, header.value.core.end);
      assert ToFold(c, start, keepEpochs, minStride) == Some(cp);
      signed := signed + {CheckpointMessage(cp.epoch, cp.hash, cp.end)};
      db := SetCheckpoint(db, cp);
      ghost var written := At(Idle);
      TrimCompactedHeaders(target);
      if anchored {
        anchor.CompactFile(signed, target);
      }
      assert At(Idle) == AfterFold(written, target);
      folded := Some(cp);
    }
  }
}
