/**
 Why a close needs its lock. The commit guard compares epoch numbers only, so a closer that
 read its tail before another one committed can still get a header in. The chain it leaves
 verifies exactly when its events start right after the last sealed one.
 */
module WormOverlap {
  import opened Anchor
  import opened Bytes
  import opened WormFold
  import opened WormHistory
  import opened WormHonest
  import opened WormIncremental
  import opened WormInvariant
  import opened WormMachine
  import opened WormRuns
  import opened WormSoundness
  import opened WormSteps
  import opened WormStore
  import opened WormVerify
  import opened Wrappers

  /** A non-empty stretch of the log within the leaf cap, from position `a` on. */
  predicate Stretch(hist: History, pending: seq<Event>, a: nat) {
    0 < |pending| <= WORM_MAX_EPOCH_LEAVES && a + |pending| <= |hist.log| && pending == hist.log[a..a + |pending|]
  }

  /** The state after a header over `pending` was committed as the next epoch. */
  function AfterCommit(c: Crypto, s: State, pending: seq<Event>, now: int, sid: StreamId): State
    requires pending != []
  {
    var h := Sealing(c, s.hist, pending, now);
    s.(db := Sealed(c, s.db, s.hist, pending, now, sid), signed := s.signed + {h.signature})
  }

  ghost predicate AllContinue(c: Crypto, hist: History) {
    forall k: nat :: k < |hist.sealed| ==> Continues(c, hist, k)
  }

  lemma HistoryContinues(c: Crypto, hist: History)
    requires HistoryOk(c, hist)
    ensures AllContinue(c, hist)
  {
    forall k: nat | k < |hist.sealed|
      ensures Continues(c, hist, k)
    {
      SealedContinues(c, hist, k);
    }
  }

  /** While a replay over headers of the honest stream is good, it stands where the history stands. */
  lemma {:induction false} StreamStand(
    c: Crypto, hist: History, signed: set<Message>, cp: Option<Checkpoint>, expected: Option<Witness>,
    records: map<int, Bytes>, watermark: int, headers: seq<EpochEntry>, dropped: nat, n: nat)
    requires AllContinue(c, hist) && CheckpointHonest(hist, cp) && DroppedOk(hist, cp, dropped)
    requires n <= |headers| && dropped + n <= |hist.sealed|
    requires forall i :: 0 <= i < n ==> headers[i].fields == Readable(hist.sealed[dropped + i])
    requires Replay(c, signed, cp, expected, records, watermark, headers, n).Good?
    ensures var chain := Replay(c, signed, cp, expected, records, watermark, headers, n).chain;
      chain.next == Later(dropped + n, cp) <= |hist.sealed| && chain.start == hist.Start(chain.next)
  {
    if n == 0 {
      HonestStart(hist, cp, expected);
    } else {
      StreamStand(c, hist, signed, cp, expected, records, watermark, headers, dropped, n - 1);
      assert Continues(c, hist, dropped + n - 1);
      StandOne(c, hist, signed, cp, expected, records, watermark, dropped + n - 1,
               Replay(c, signed, cp, expected, records, watermark, headers, n - 1).chain);
    }
  }

  lemma StandOne(
    c: Crypto, hist: History, signed: set<Message>, cp: Option<Checkpoint>, expected: Option<Witness>,
    records: map<int, Bytes>, watermark: int, k: nat, chain: Chain)
    requires k < |hist.sealed| && Continues(c, hist, k) && 0 <= FirstEpoch(cp) <= |hist.sealed|
    requires chain.next == Later(k, cp) && chain.start == hist.Start(chain.next)
    requires ReplayOne(c, signed, cp, expected, records, watermark, Readable(hist.sealed[k]), chain).Good?
    ensures var after := ReplayOne(c, signed, cp, expected, records, watermark, Readable(hist.sealed[k]), chain).chain;
      after.next == Later(k + 1, cp) <= |hist.sealed| && after.start == hist.Start(after.next)
  {
  }

  lemma FrontIsSealed(hist: History, headers: seq<EpochEntry>, dropped: nat)
    requires headers != [] && SealedFrom(hist, headers[..|headers| - 1], dropped)
    ensures forall i :: 0 <= i < |headers| - 1 ==> headers[i].fields == Readable(hist.sealed[dropped + i])
  {
    forall i | 0 <= i < |headers| - 1
      ensures headers[i].fields == Readable(hist.sealed[dropped + i])
    {
      assert headers[..|headers| - 1][i] == headers[i];
    }
  }

  /** A header that starts anywhere but after the last sealed event is refused. */
  lemma MisplacedIsRefused(
    c: Crypto, hist: History, signed: set<Message>, snap: Snapshot, dropped: nat, h: Header)
    requires AllContinue(c, hist) && CheckpointHonest(hist, CellCheckpoint(snap.cell))
    requires DroppedOk(hist, CellCheckpoint(snap.cell), dropped)
    requires |snap.headers| > 0 && SealedFrom(hist, snap.headers[..|snap.headers| - 1], dropped)
    requires snap.headers[|snap.headers| - 1].fields == Readable(h)
    requires h.core.epoch == |hist.sealed| && h.core.start != hist.Start(|hist.sealed|)
    ensures VerdictOf(c, signed, snap) != INTACT
  {
    var n, cp := |snap.headers| - 1, CellCheckpoint(snap.cell);
    var records, watermark := AllRecords(snap.events), Watermark(snap.num);
    var replayed := Replay(c, signed, cp, snap.expected, records, watermark, snap.headers, n);
    FrontIsSealed(hist, snap.headers, dropped);
    if replayed.Good? {
      StreamStand(c, hist, signed, cp, snap.expected, records, watermark, snap.headers, dropped, n);
      MisplacedHeader(c, signed, cp, snap.expected, records, watermark, h, replayed.chain);
    }
    BadReplayIsTamper(c, signed, snap);
  }

  /** A header past the checkpoint that starts elsewhere than the chain stands ends the replay. */
  lemma MisplacedHeader(
    c: Crypto, signed: set<Message>, cp: Option<Checkpoint>, expected: Option<Witness>,
    records: map<int, Bytes>, watermark: int, h: Header, chain: Chain)
    requires FirstEpoch(cp) <= h.core.epoch && (chain.next == h.core.epoch ==> h.core.start != chain.start)
    ensures ReplayOne(c, signed, cp, expected, records, watermark, Readable(h), chain).Bad?
  {
  }

  lemma BadReplayIsTamper(c: Crypto, signed: set<Message>, snap: Snapshot)
    requires Replay(c, signed, CellCheckpoint(snap.cell), snap.expected, AllRecords(snap.events), Watermark(snap.num),
                    snap.headers, |snap.headers|).Bad?
    ensures VerdictOf(c, signed, snap) != INTACT
  {
  }

  /** What a safe state gives a verification of its stream with one more header. */
  lemma SafeStream(c: Crypto, s: State)
    requires s in Safe(c)
    ensures HistoryOk(c, s.hist) && CheckpointHonest(s.hist, CellCheckpoint(s.db.checkpoint))
    ensures DroppedOk(s.hist, CellCheckpoint(s.db.checkpoint), s.dropped) && SealedFrom(s.hist, s.db.epochs, s.dropped)
    ensures s.db.num.GetOr(-1) == |s.hist.sealed| - 1
  {
    SafeMeans(c, s);
    StreamIsSealed(s.hist, s.sids, s.dropped, s.db.epochs);
    CountersRead(s.hist, s.db.num, s.db.lastSeq, s.db.head);
  }

  lemma StretchStart(c: Crypto, hist: History, pending: seq<Event>, a: nat, now: int)
    requires HistoryOk(c, hist) && Stretch(hist, pending, a)
    ensures Sealing(c, hist, pending, now).core.start == a + 1
  {
    assert pending[0] == hist.log[a];
    LogSeq(hist.log, |hist.log|, a);
  }

  lemma PlacedIsAccepted(c: Crypto, s: State, pending: seq<Event>, a: nat, now: int, sid: StreamId)
    requires s in Safe(c) && Stretch(s.hist, pending, a) && a == SealedThrough(s.hist)
    requires s.sids != [] ==> s.sids[|s.sids| - 1] < sid
    ensures VerdictOf(c, AfterCommit(c, s, pending, now, sid).signed, Now(AfterCommit(c, s, pending, now, sid)))
        == INTACT
  {
    var k := |s.hist.sealed|;
    SafeMeans(c, s);
    var closing := s.(pc := Commit(pending, s.hist.Link(k), k));
    ReadIsSafe(c, s, closing.pc);
    CommitIsSafe(c, closing, now, sid);
    CountersRead(s.hist, s.db.num, s.db.lastSeq, s.db.head);
    CommitIs(c, closing, pending, now, sid);
    var sealed := CloseStep(c, closing, now, sid);
    SafeVerdict(c, sealed);
    assert Now(sealed) == Now(AfterCommit(c, s, pending, now, sid));
  }

  lemma MisplacedCommitRefused(c: Crypto, s: State, pending: seq<Event>, a: nat, now: int, sid: StreamId)
    requires s in Safe(c) && Stretch(s.hist, pending, a) && a != SealedThrough(s.hist)
    ensures VerdictOf(c, AfterCommit(c, s, pending, now, sid).signed, Now(AfterCommit(c, s, pending, now, sid)))
        != INTACT
  {
    SafeStream(c, s);
    HistoryContinues(c, s.hist);
    StretchStart(c, s.hist, pending, a, now);
    SealedFields(c, s.db, s.hist, pending, now, sid);
    var snap := Now(AfterCommit(c, s, pending, now, sid));
    assert snap.headers[..|snap.headers| - 1] == s.db.epochs;
    MisplacedIsRefused(c, s.hist, AfterCommit(c, s, pending, now, sid).signed, snap, s.dropped,
                       Sealing(c, s.hist, pending, now));
  }

  /**
   A commit of any stretch of the log as the next epoch, its tail read whenever it was,
   leaves a chain that verifies if and only if the stretch starts right after the last
   sealed event. The guard in the script does not check that; holding the lock ensures it.
   */
  lemma CommitIntactIff(c: Crypto, s: State, pending: seq<Event>, a: nat, now: int, sid: StreamId)
    requires Reachable(c, s) && Stretch(s.hist, pending, a)
    requires s.sids != [] ==> s.sids[|s.sids| - 1] < sid
    ensures VerdictOf(c, AfterCommit(c, s, pending, now, sid).signed, Now(AfterCommit(c, s, pending, now, sid)))
        == INTACT
      <==> a == SealedThrough(s.hist)
  {
    ReachableIsSafe(c, s);
    if a == SealedThrough(s.hist) {
      PlacedIsAccepted(c, s, pending, a, now, sid);
    } else {
      MisplacedCommitRefused(c, s, pending, a, now, sid);
    }
  }

  // ----- the anchor line of a refused commit ---------------------------------------------------------------

  /** A closer whose commit the guard refused still signs and records the hash it computed. */
  function AfterRefused(s: State, epoch: int, hash: string): State {
    s.(anchor := s.anchor + [SignedLine(epoch, hash)],
       signed := s.signed + {EpochMessage(hash), AnchorMessage(epoch, hash)})
  }

  /** Signing a line that is not yet in the file, or was signed before, changes nothing read from the file. */
  lemma {:induction false} SigningKeepsHead(
    signed: set<Message>, more: set<Message>, lines: seq<Line>, epoch: int, hash: string, n: nat)
    requires n <= |lines| && more == signed + {EpochMessage(hash), AnchorMessage(epoch, hash)}
    requires SignedLine(epoch, hash) in lines ==> AnchorMessage(epoch, hash) in signed
    ensures HeadOf(more, lines, n) == HeadOf(signed, lines, n)
  {
    if n > 0 {
      SigningKeepsHead(signed, more, lines, epoch, hash, n - 1);
      assert lines[n - 1] in lines;
    }
  }

  /** Against a witnessed head the chain reaches, the ledger verifies iff the head is folded or the one sealed. */
  lemma WitnessIntactIff(c: Crypto, s: State, signed: set<Message>, w: Witness)
    requires s in Safe(c) && s.signed <= signed && 0 <= w.epoch < |s.hist.sealed|
    ensures VerdictOf(c, signed, Now(s).(expected := Some(w))) == INTACT
       <==> w.epoch < FirstEpoch(CellCheckpoint(s.db.checkpoint)) || w.hash == s.hist.sealed[w.epoch].hash
  {
    var snap := Now(s).(expected := Some(w));
    WitnessReplay(c, s, signed, w);
    SafeStream(c, s);
    SafeMeans(c, s);
    WitnessTail(s.hist, CellCheckpoint(snap.cell), w, snap.num, snap.lastSeq, snap.head);
  }

  lemma WitnessReplay(c: Crypto, s: State, signed: set<Message>, w: Witness)
    requires s in Safe(c) && s.signed <= signed
    ensures DroppedOk(s.hist, CellCheckpoint(s.db.checkpoint), s.dropped)
    ensures ReplayAll(c, signed, Now(s).(expected := Some(w)))
         == Good(HonestChain(s.hist, CellCheckpoint(s.db.checkpoint), Some(w), |s.hist.sealed|))
  {
    var hist, cp := s.hist, CellCheckpoint(s.db.checkpoint);
    SafeStream(c, s);
    SafePresences(c, s);
    forall k
      ensures HeaderSigned(hist, signed, k)
    {
      assert HeaderSigned(hist, s.signed, k);
    }
    HonestReplay(c, hist, signed, cp, Some(w), AllRecords(s.db.events), Watermark(s.db.num), s.db.epochs, 0, s.dropped,
                 |s.db.epochs|);
    assert Later(s.dropped + |s.db.epochs|, cp) == |hist.sealed|;
  }

  lemma WitnessTail(
    hist: History, cp: Option<Checkpoint>, w: Witness, num: Option<int>, lastSeq: Option<int>, head: Option<string>)
    requires CheckpointHonest(hist, cp) && FirstEpoch(cp) <= |hist.sealed| && CountersOk(hist, num, lastSeq, head)
    requires 0 <= w.epoch < |hist.sealed|
    ensures TailVerdict(cp, Some(w), num.GetOr(-1), lastSeq.GetOr(0), head.GetOr(GENESIS),
                        HonestChain(hist, cp, Some(w), |hist.sealed|)) == INTACT
       <==> w.epoch < FirstEpoch(cp) || w.hash == hist.sealed[w.epoch].hash
  {
  }

  /**
   The line a refused commit records does no harm exactly when the file already reaches that
   epoch, the checkpoint does, or the hash is the one that was sealed. The guard refuses a
   number that is already sealed.
   */
  lemma RefusedRecordIntactIff(c: Crypto, s: State, epoch: nat, hash: string)
    requires Reachable(c, s) && s.anchored && epoch < |s.hist.sealed|
    requires SignedLine(epoch, hash) in s.anchor ==> AnchorMessage(epoch, hash) in s.signed
    ensures VerdictOf(c, AfterRefused(s, epoch, hash).signed, Now(AfterRefused(s, epoch, hash))) == INTACT
       <==> Head(s.signed, s.anchor).GetOr(Witness(-1, "")).epoch >= epoch
              || epoch < FirstEpoch(CellCheckpoint(s.db.checkpoint)) || hash == s.hist.sealed[epoch].hash
  {
    var r, head := AfterRefused(s, epoch, hash), Head(s.signed, s.anchor);
    ReachableIsSafe(c, s);
    SafeMeans(c, s);
    HeadIsGenuine(s.hist, s.signed, s.anchor);
    SigningKeepsHead(s.signed, r.signed, s.anchor, epoch, hash, |s.anchor|);
    RecordRaisesHead(r.signed, s.anchor, epoch, hash);
    var after := if head.Some? && head.value.epoch >= epoch then head.value else Witness(epoch, hash);
    assert Now(r) == Now(s).(expected := Some(after));
    WitnessIntactIff(c, s, r.signed, after);
  }
}
