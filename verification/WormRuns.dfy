/**
 What holds over whole runs of the ledger machine: no reachable state is ever called
 tampered with, sealed epochs partition the sequence numbers, and nothing committed is
 ever rewritten.
 */
module WormRuns {
  import opened WormFold
  import opened WormHistory
  import opened WormHonest
  import opened WormInvariant
  import opened WormMachine
  import opened WormSoundness
  import opened WormSteps
  import opened WormStore
  import opened WormTrim
  import opened WormVerify
  import opened Wrappers

  lemma ProgressIsSafe(c: Crypto, s: State, now: int, sid: StreamId)
    requires s in Safe(c) && Enabled(s, Progress(now, sid))
    ensures ProgressStep(c, s, now, sid) in Safe(c)
  {
    if s.pc.Closing() {
      CloseIsSafe(c, s, now, sid);
    } else if s.pc.Trimming() {
      TrimIsSafe(c, s);
    } else if s.pc.Verifying? {
      VerifyIsSafe(c, s, s.pc.goal, s.pc.stage, s.pc.snap);
    } else if s.pc.Verified? {
      VerifiedIsSafe(c, s, s.pc.goal, s.pc.verdict);
    } else {
      CompactIsSafe(c, s);
    }
  }

  /** Taking the lock, letting it go and crashing change no key. */
  lemma LockIsSafe(c: Crypto, s: State, a: Action)
    requires s in Safe(c) && (a.BeginClose? || a.BeginVerify? || a.BeginCompact? || a.Crash?)
    ensures Apply(c, s, a) in Safe(c)
  {
    SafeMeans(c, s);
    ReadIsSafe(c, s, Apply(c, s, a).pc);
  }

  lemma StepIsSafe(c: Crypto, s: State, a: Action)
    requires s in Safe(c) && Enabled(s, a)
    ensures Apply(c, s, a) in Safe(c)
  {
    match a {
      case Emit(sid, id, record) => EmitIsSafe(c, s, sid, id, record);
      case Progress(now, sid) => ProgressIsSafe(c, s, now, sid);
      case _ => LockIsSafe(c, s, a);
    }
  }

  lemma NextIsSafe(c: Crypto, states: seq<State>, actions: seq<Action>, i: nat)
    requires Run(c, states, actions) && i < |actions| && states[i] in Safe(c)
    ensures states[i + 1] in Safe(c)
  {
    assert StepAt(c, states, actions, i);
    StepIsSafe(c, states[i], actions[i]);
  }

  lemma {:induction false} RunIsSafe(c: Crypto, states: seq<State>, actions: seq<Action>, i: nat)
    requires Run(c, states, actions) && i <= |actions| && states[0] in Safe(c)
    ensures states[i] in Safe(c)
  {
    if i > 0 {
      RunIsSafe(c, states, actions, i - 1);
      NextIsSafe(c, states, actions, i - 1);
    }
  }

  lemma ReachableIsSafe(c: Crypto, s: State)
    requires Reachable(c, s)
    ensures s in Safe(c)
  {
    var anchored, states, actions :| Run(c, states, actions) && states[0] == Initial(anchored)
      && states[|actions|] == s;
    InitialSafe(c, anchored);
    RunIsSafe(c, states, actions, |actions|);
  }

  // ----- no false tamper -----------------------------------------------------------------------

  /** Everything a verification reads, as the store and the anchor file stand. */
  function Now(s: State): Snapshot {
    Snapshot(if s.anchored then Anchor.Head(s.signed, s.anchor) else None,
             s.db.checkpoint, s.db.epochs, s.db.events, s.db.num, s.db.lastSeq, s.db.head)
  }

  lemma SafeSnapshot(c: Crypto, s: State)
    requires s in Safe(c)
    ensures s.trimmed <= |s.hist.sealed| && SnapshotOk(s.db, s.hist, s.trimmed, 6, Now(s))
  {
    SafeMeans(c, s);
    HeadIsGenuine(s.hist, s.signed, s.anchor);
    SealedThroughBounds(c, s.hist, s.trimmed);
  }

  lemma SafeVerdict(c: Crypto, s: State)
    requires s in Safe(c)
    ensures VerdictOf(c, s.signed, Now(s)) == INTACT
  {
    SafeMeans(c, s);
    SafeSnapshot(c, s);
    VerdictIsIntact(c, s, Now(s));
  }

  /**
   No reachable state is called tampered with: neither a verification that read it at one
   instant, nor one whose reads were spread over the run with emits in between.
   */
  lemma NoFalseTamper(c: Crypto, s: State)
    requires Reachable(c, s)
    ensures VerdictOf(c, s.signed, Now(s)) == INTACT
    ensures s.pc.Verified? ==> s.pc.verdict == INTACT
  {
    ReachableIsSafe(c, s);
    SafeMeans(c, s);
    SafeVerdict(c, s);
  }

  // ----- the partition --------------------------------------------------------------------------

  lemma SafeCounters(c: Crypto, s: State)
    requires s in Safe(c)
    ensures HistoryOk(c, s.hist) && s.db.seqNo == |s.hist.log|
    ensures CountersOk(s.hist, s.db.num, s.db.lastSeq, s.db.head) && CursorOk(s.hist, s.db.cursor)
  {
    SafeMeans(c, s);
  }

  lemma LastCounters(hist: History, db: Redis)
    requires |hist.sealed| > 0 && CountersOk(hist, db.num, db.lastSeq, db.head) && CursorOk(hist, db.cursor)
    ensures LinkedTo(db, |hist.sealed| - 1, hist.sealed[|hist.sealed| - 1])
  {
  }

  /** The four linkage counters are those of header `h` of epoch `n`. */
  predicate LinkedTo(db: Redis, n: int, h: Header) {
    db.num == Some(n) && db.head == Some(h.hash) && db.lastSeq == Some(h.core.end) && db.cursor == Some(h.core.last)
  }

  /** Epoch `k` takes up the sequence numbers right after the one before, within the leaf cap. */
  predicate InPartition(hist: History, k: nat)
    requires k < |hist.sealed|
  {
    var core := hist.sealed[k].core;
    && core.epoch == k && core.start == (if k == 0 then 1 else hist.sealed[k - 1].core.end + 1)
    && core.start <= core.end <= |hist.log|
    && core.count == core.end - core.start + 1 <= WORM_MAX_EPOCH_LEAVES
  }

  lemma SealedInPartition(c: Crypto, hist: History, k: nat)
    requires HistoryOk(c, hist) && k < |hist.sealed|
    ensures InPartition(hist, k)
  {
    SealedPartition(c, hist, k);
  }

  /**
   In every reachable state the sealed epochs cut 1..last_seq into consecutive ranges of at
   most the leaf cap, one after the other, and the four linkage counters are those of the last one.
   */
  lemma EpochsPartition(c: Crypto, s: State)
    requires Reachable(c, s)
    ensures s.db.seqNo == |s.hist.log| && forall k: nat :: k < |s.hist.sealed| ==> InPartition(s.hist, k)
    ensures var n := |s.hist.sealed|;
      if n == 0 then s.db.num == None && s.db.head == None && s.db.lastSeq == None && s.db.cursor == None
      else LinkedTo(s.db, n - 1, s.hist.sealed[n - 1])
  {
    ReachableIsSafe(c, s);
    SafeCounters(c, s);
    forall k: nat | k < |s.hist.sealed|
      ensures InPartition(s.hist, k)
    {
      SealedInPartition(c, s.hist, k);
    }
    if |s.hist.sealed| > 0 {
      LastCounters(s.hist, s.db);
    }
  }

  // ----- nothing committed is rewritten ------------------------------------------------------------

  /** A later state: more emitted, more sealed, under the same stream ids. */
  ghost predicate Extends(s: State, s': State) {
    Grows(s.hist, s'.hist) && s.sids <= s'.sids && s.signed <= s'.signed
  }

  lemma StepExtends(c: Crypto, s: State, a: Action)
    ensures Extends(s, Apply(c, s, a))
  {
  }

  lemma ExtendsOnward(s: State, s': State, s'': State)
    requires Extends(s, s') && Extends(s', s'')
    ensures Extends(s, s'')
  {
  }

  lemma NextExtends(c: Crypto, states: seq<State>, actions: seq<Action>, i: nat)
    requires Run(c, states, actions) && i < |actions|
    ensures Extends(states[i], states[i + 1])
  {
    assert StepAt(c, states, actions, i);
    StepExtends(c, states[i], actions[i]);
  }

  lemma {:induction false} RunExtends(c: Crypto, states: seq<State>, actions: seq<Action>, i: nat, j: nat)
    requires Run(c, states, actions) && i <= j <= |actions|
    ensures Extends(states[i], states[j])
  {
    if i < j {
      RunExtends(c, states, actions, i, j - 1);
      NextExtends(c, states, actions, j - 1);
      ExtendsOnward(states[i], states[j - 1], states[j]);
    }
  }

  /** Of a safe state, the stream entry of epoch `k` is the sealed header under its own id. */
  lemma StreamEntry(c: Crypto, s: State, e: EpochEntry)
    requires s in Safe(c) && e in s.db.epochs
    ensures |s.sids| == |s.hist.sealed| && EpochField(e.fields).Some?
    ensures var k := EpochField(e.fields).value;
      0 <= k < |s.hist.sealed| && e == EpochEntry(s.sids[k], Readable(s.hist.sealed[k]))
  {
    SafeMeans(c, s);
    var i :| 0 <= i < |s.db.epochs| && s.db.epochs[i] == e;
    assert StreamEntryOk(s.hist, s.sids, s.dropped, s.db.epochs, i);
    SealedNumber(c, s.hist, s.dropped + i);
  }

  lemma SealedNumber(c: Crypto, hist: History, k: nat)
    requires HistoryOk(c, hist) && k < |hist.sealed|
    ensures hist.sealed[k].core.epoch == k
  {
    SealedPartition(c, hist, k);
  }

  /**
   The committed prefix is never rewritten: two headers of one epoch number, seen at any two
   moments of a run, are the same entry, and the epoch counter never goes back.
   */
  lemma CommittedIsFixed(
    c: Crypto, states: seq<State>, actions: seq<Action>, i: nat, j: nat, e: EpochEntry, e': EpochEntry)
    requires Run(c, states, actions) && states[0] in Safe(c) && i <= j <= |actions|
    requires e in states[i].db.epochs && e' in states[j].db.epochs && EpochField(e.fields) == EpochField(e'.fields)
    ensures e == e'
    ensures states[i].db.num.GetOr(-1) <= states[j].db.num.GetOr(-1)
  {
    RunIsSafe(c, states, actions, i);
    RunIsSafe(c, states, actions, j);
    RunExtends(c, states, actions, i, j);
    StreamEntry(c, states[i], e);
    StreamEntry(c, states[j], e');
    CounterCounts(c, states[i]);
    CounterCounts(c, states[j]);
  }

  lemma CounterCounts(c: Crypto, s: State)
    requires s in Safe(c)
    ensures s.db.num.GetOr(-1) == |s.hist.sealed| - 1
  {
    SafeCounters(c, s);
    CountersRead(s.hist, s.db.num, s.db.lastSeq, s.db.head);
  }

  /** Where replays start, by the checkpoint. */
  function First(s: State): int { FirstEpoch(CellCheckpoint(s.db.checkpoint)) }

  /** The checkpoint only moves forward. */
  lemma StepAdvances(c: Crypto, s: State, a: Action)
    requires s in Safe(c)
    ensures First(s) <= First(Apply(c, s, a))
  {
    SafeMeans(c, s);
  }

  lemma NextAdvances(c: Crypto, states: seq<State>, actions: seq<Action>, i: nat)
    requires Run(c, states, actions) && i < |actions| && states[i] in Safe(c)
    ensures First(states[i]) <= First(states[i + 1])
  {
    assert StepAt(c, states, actions, i);
    StepAdvances(c, states[i], actions[i]);
  }

  lemma {:induction false} RunAdvances(c: Crypto, states: seq<State>, actions: seq<Action>, i: nat, j: nat)
    requires Run(c, states, actions) && states[0] in Safe(c) && i <= j <= |actions|
    ensures First(states[i]) <= First(states[j])
  {
    if i < j {
      RunAdvances(c, states, actions, i, j - 1);
      RunIsSafe(c, states, actions, j - 1);
      NextAdvances(c, states, actions, j - 1);
    }
  }
}
