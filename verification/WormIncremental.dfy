/**
 The incremental verifier: it replays only the headers after a trusted epoch. On every
 reachable state it agrees with the full verifier about any genuine trusted head, and on an
 arbitrary store its acceptance pins every replayed header to the honest history.
 */
module WormIncremental {
  import opened Bytes
  import opened WormFold
  import opened WormHistory
  import opened WormHonest
  import opened WormInvariant
  import opened WormMachine
  import opened WormRuns
  import opened WormSoundness
  import opened WormSteps
  import opened WormStore
  import opened WormVerify
  import opened Wrappers

  // ----- the verifier --------------------------------------------------------------------------

  /** Replaying `n` headers from a given stand, skipping nothing. */
  function Resume(
    c: Crypto, signed: set<Message>, expected: Option<Witness>, records: map<int, Bytes>, watermark: int,
    start: Chain, headers: seq<EpochEntry>, n: nat): Replayed
    requires n <= |headers|
  {
    if n == 0 then Good(start)
    else
      match Resume(c, signed, expected, records, watermark, start, headers, n - 1)
      case Bad(at) => Bad(at)
      case Good(chain) => ReplayOne(c, signed, None, expected, records, watermark, headers[n - 1].fields, chain)
  }

  /** XRANGE with one stream id as both bounds, and with it as an exclusive lower bound. */
  function EntryAt(entries: seq<EpochEntry>, sid: StreamId): Option<Fields> {
    if entries == [] then None
    else if entries[0].sid == sid then Some(entries[0].fields)
    else EntryAt(entries[1..], sid)
  }

  function EntriesAfter(entries: seq<EpochEntry>, sid: StreamId): seq<EpochEntry> {
    if entries == [] then []
    else (if entries[0].sid > sid then [entries[0]] else []) + EntriesAfter(entries[1..], sid)
  }

  function EndField(f: Fields): Option<int> {
    match f
    case Unreadable(_, end, _) => end
    case Readable(h) => Some(h.core.end)
  }

  function HashField(f: Fields): Option<string> {
    match f
    case Unreadable(_, _, hash) => hash
    case Readable(h) => Some(h.hash)
  }

  /** The header found under the trusted epoch's id names that epoch and hash, and has some end. */
  predicate Reanchors(f: Fields, trusted: Witness) {
    EpochField(f) == Some(trusted.epoch) && EndField(f).Some? && HashField(f) == Some(trusted.hash)
  }

  /** The stand the replay resumes from, as though the trusted head were a checkpoint. */
  function Standing(trusted: Witness, end: int, expected: Option<Witness>): Chain {
    StartChain(Some(Checkpoint(trusted.epoch, trusted.hash, end)), expected)
  }

  function ResumedTail(
    trusted: Witness, expected: Option<Witness>, num: int, lastSeq: int, head: string, chain: Chain): Verdict {
    var seen := chain.next - 1;
    if seen != num || chain.start - 1 != lastSeq || chain.prev != head then Verdict(false, Some(seen))
    else if expected.Some? && expected.value.epoch > seen then Verdict(false, Some(seen))
    else if expected.Some? && expected.value.epoch > trusted.epoch && chain.witnessed != Some(expected.value.hash)
    then Verdict(false, Some(expected.value.epoch))
    else INTACT
  }

  /** Whether the full verifier takes over: nothing is trusted, or a signed checkpoint covers it. */
  predicate Defers(cell: CheckpointCell, trusted: Witness) {
    trusted.epoch < 0 || trusted.epoch < FirstEpoch(CellCheckpoint(cell))
  }

  /** The verdict given a trusted head and the stream id the index holds for its epoch. */
  function IncrementalVerdict(
    c: Crypto, signed: set<Message>, snap: Snapshot, trusted: Witness, sid: Option<StreamId>): Verdict
  {
    var no := Verdict(false, Some(trusted.epoch));
    if trusted.epoch < 0 then VerdictOf(c, signed, snap)
    else if !CellReadable(signed, snap.cell) then no
    else if Defers(snap.cell, trusted) then VerdictOf(c, signed, snap)
    else if sid.None? || snap.num.GetOr(-1) < trusted.epoch then no
    else
      var entry, suffix := EntryAt(snap.headers, sid.value), EntriesAfter(snap.headers, sid.value);
      if entry.None? || !Reanchors(entry.value, trusted) then no
      else
        match Resume(c, signed, snap.expected, AllRecords(snap.events), Watermark(snap.num),
                     Standing(trusted, EndField(entry.value).value, snap.expected), suffix, |suffix|)
        case Bad(at) => Verdict(false, Some(at))
        case Good(chain) =>
          ResumedTail(trusted, snap.expected, snap.num.GetOr(-1), snap.lastSeq.GetOr(0), snap.head.GetOr(GENESIS),
                      chain)
  }

  lemma {:induction false} ResumeBadStays(
    c: Crypto, signed: set<Message>, expected: Option<Witness>, records: map<int, Bytes>, watermark: int,
    start: Chain, headers: seq<EpochEntry>, m: nat, n: nat)
    requires m <= n <= |headers|
    ensures var early := Resume(c, signed, expected, records, watermark, start, headers, m);
      early.Bad? ==> Resume(c, signed, expected, records, watermark, start, headers, n) == early
  {
    if m < n {
      ResumeBadStays(c, signed, expected, records, watermark, start, headers, m, n - 1);
    }
  }

  lemma ResumeNext(
    c: Crypto, signed: set<Message>, expected: Option<Witness>, records: map<int, Bytes>, watermark: int,
    start: Chain, headers: seq<EpochEntry>, i: nat, chain: Chain)
    requires i < |headers| && Resume(c, signed, expected, records, watermark, start, headers, i) == Good(chain)
    ensures var f := headers[i].fields;
      Resume(c, signed, expected, records, watermark, start, headers, i + 1)
        == if HeaderOk(c, signed, f, chain.prev, chain.next, chain.start, records, watermark)
           then Good(Advance(chain, f.header, expected)) else Bad(chain.next)
  {
  }

  /** The suffix loop, with the source's running variables. */
  method ResumeHeaders(
    c: Crypto, signed: set<Message>, expected: Option<Witness>, records: map<int, Bytes>, watermark: int,
    trusted: Witness, cpEnd: int, suffix: seq<EpochEntry>)
    returns (replayed: Replayed)
    requires Merkled(c)
    ensures replayed == Resume(c, signed, expected, records, watermark, Standing(trusted, cpEnd, expected), suffix,
                               |suffix|)
  {
    var expectedPrev, expectedStart, nextEpoch := trusted.hash, cpEnd + 1, trusted.epoch + 1;
    var anchorWitnessed: Option<string> := None;
    if expected.Some? && expected.value.epoch == trusted.epoch {
      anchorWitnessed := Some(trusted.hash);
    }
    for i := 0 to |suffix|
      invariant Resume(c, signed, expected, records, watermark, Standing(trusted, cpEnd, expected), suffix, i)
             == Good(Chain(expectedPrev, expectedStart, nextEpoch, anchorWitnessed, i))
    {
      ResumeNext(c, signed, expected, records, watermark, Standing(trusted, cpEnd, expected), suffix, i,
                 Chain(expectedPrev, expectedStart, nextEpoch, anchorWitnessed, i));
      ResumeBadStays(c, signed, expected, records, watermark, Standing(trusted, cpEnd, expected), suffix, i + 1,
                     |suffix|);
      var checked := VerifyHeaderFields(c, signed, suffix[i].fields, expectedPrev, nextEpoch, expectedStart, records,
                                        watermark);
      if checked.None? {
        return Bad(nextEpoch);
      }
      var (epoch, endSeq, hash) := checked.value;
      expectedPrev, expectedStart := hash, endSeq + 1;
      if expected.Some? && epoch == expected.value.epoch {
        anchorWitnessed := Some(hash);
      }
      nextEpoch := nextEpoch + 1;
    }
    replayed := Good(Chain(expectedPrev, expectedStart, nextEpoch, anchorWitnessed, |suffix|));
  }

  method CheckResumedTail(
    trusted: Witness, expected: Option<Witness>, kNum: int, kLastSeq: int, kHead: string, chain: Chain)
    returns (verdict: Verdict)
    ensures verdict == ResumedTail(trusted, expected, kNum, kLastSeq, kHead, chain)
  {
    var lastEpochSeen := chain.next - 1;
    if lastEpochSeen != kNum {
      return Verdict(false, Some(lastEpochSeen));
    }
    if chain.start - 1 != kLastSeq {
      return Verdict(false, Some(lastEpochSeen));
    }
    if chain.prev != kHead {
      return Verdict(false, Some(lastEpochSeen));
    }
    if expected.Some? {
      var Witness(expEpoch, expHash) := expected.value;
      if expEpoch > lastEpochSeen {
        return Verdict(false, Some(lastEpochSeen));
      }
      if expEpoch > trusted.epoch && (chain.witnessed.None? || chain.witnessed.value != expHash) {
        return Verdict(false, Some(expEpoch));
      }
    }
    verdict := INTACT;
  }

  method VerifyEpochIncremental(
    c: Crypto, signed: set<Message>, snap: Snapshot, trusted: Witness, sid: Option<StreamId>)
    returns (verdict: Verdict)
    requires Merkled(c)
    ensures verdict == IncrementalVerdict(c, signed, snap, trusted, sid)
  {
    if trusted.epoch < 0 {
      verdict := VerifyEpoch(c, signed, snap);
      return;
    }
    if !CellReadable(signed, snap.cell) {
      return Verdict(false, Some(trusted.epoch));
    }
    if snap.cell.Stored? && snap.cell.checkpoint.epoch >= trusted.epoch {
      verdict := VerifyEpoch(c, signed, snap);
      return;
    }
    if sid.None? {
      return Verdict(false, Some(trusted.epoch));
    }
    var records := ReadAllRecords(snap.events);
    var kNum, kLastSeq, kHead := snap.num.GetOr(-1), snap.lastSeq.GetOr(0), snap.head.GetOr(GENESIS);
    if kNum < trusted.epoch {
      return Verdict(false, Some(trusted.epoch));
    }
    var entry := EntryAt(snap.headers, sid.value);
    if entry.None? || EpochField(entry.value) != Some(trusted.epoch) || EndField(entry.value).None?
       || HashField(entry.value) != Some(trusted.hash) {
      return Verdict(false, Some(trusted.epoch));
    }
    var replayed := ResumeHeaders(c, signed, snap.expected, records, kNum - WORM_HOT_EPOCHS, trusted,
                                  EndField(entry.value).value, EntriesAfter(snap.headers, sid.value));
    if replayed.Bad? {
      return Verdict(false, Some(replayed.at));
    }
    verdict := CheckResumedTail(trusted, snap.expected, kNum, kLastSeq, kHead, replayed.chain);
  }

  // ----- resuming is replaying from the trusted head as a checkpoint ------------------------------

  /** A resumed replay that stays good met no header of a trusted epoch, and counted up by one each. */
  lemma {:induction false} ResumeIsReplay(
    c: Crypto, signed: set<Message>, expected: Option<Witness>, records: map<int, Bytes>, watermark: int,
    cp: Checkpoint, headers: seq<EpochEntry>, n: nat)
    requires n <= |headers|
    requires Resume(c, signed, expected, records, watermark, StartChain(Some(cp), expected), headers, n).Good?
    ensures var resumed := Resume(c, signed, expected, records, watermark, StartChain(Some(cp), expected), headers, n);
      && Replay(c, signed, Some(cp), expected, records, watermark, headers, n) == resumed
      && resumed.chain.next == cp.epoch + 1 + n
  {
    if n > 0 {
      ResumeIsReplay(c, signed, expected, records, watermark, cp, headers, n - 1);
    }
  }

  /** Conversely, a good replay that skipped nothing is the resumed one. */
  lemma {:induction false} ReplayIsResume(
    c: Crypto, signed: set<Message>, expected: Option<Witness>, records: map<int, Bytes>, watermark: int,
    cp: Checkpoint, headers: seq<EpochEntry>, n: nat)
    requires n <= |headers| && forall i :: 0 <= i < |headers| ==> !Folded(headers[i], cp.epoch)
    ensures Resume(c, signed, expected, records, watermark, StartChain(Some(cp), expected), headers, n)
         == Replay(c, signed, Some(cp), expected, records, watermark, headers, n)
  {
    if n > 0 {
      ReplayIsResume(c, signed, expected, records, watermark, cp, headers, n - 1);
    }
  }

  // ----- on an arbitrary store ----------------------------------------------------------------------

  /** Every header of a good resumed replay passed its checks. */
  lemma {:induction false} ResumedHeaderOk(
    c: Crypto, signed: set<Message>, expected: Option<Witness>, records: map<int, Bytes>, watermark: int,
    cp: Checkpoint, headers: seq<EpochEntry>, i: nat)
    requires i < |headers|
    requires Resume(c, signed, expected, records, watermark, StartChain(Some(cp), expected), headers, |headers|).Good?
    ensures Resume(c, signed, expected, records, watermark, StartChain(Some(cp), expected), headers, i).Good?
    ensures var chain := Resume(c, signed, expected, records, watermark, StartChain(Some(cp), expected), headers,
                                i).chain;
      chain.next == cp.epoch + 1 + i
        && HeaderOk(c, signed, headers[i].fields, chain.prev, chain.next, chain.start, records, watermark)
  {
    var start := StartChain(Some(cp), expected);
    ResumeBadStays(c, signed, expected, records, watermark, start, headers, i, |headers|);
    ResumeBadStays(c, signed, expected, records, watermark, start, headers, i + 1, |headers|);
    ResumeIsReplay(c, signed, expected, records, watermark, cp, headers, i);
    ResumeNext(c, signed, expected, records, watermark, start, headers, i,
               Resume(c, signed, expected, records, watermark, start, headers, i).chain);
  }

  /** Every replayed header is the honestly sealed one of its number. */
  lemma ResumedHeaderIsSealed(
    c: Crypto, hist: History, signed: set<Message>, expected: Option<Witness>, records: map<int, Bytes>, watermark: int,
    cp: Checkpoint, headers: seq<EpochEntry>, i: nat)
    requires HistoryOk(c, hist) && SignedHonest(hist, signed)
    requires !Collide(c.core, SealedCores(hist), StoredCores(headers))
    requires i < |headers|
    requires Resume(c, signed, expected, records, watermark, StartChain(Some(cp), expected), headers, |headers|).Good?
    ensures 0 <= cp.epoch + 1 + i < |hist.sealed| && headers[i].fields == Readable(hist.sealed[cp.epoch + 1 + i])
  {
    ResumedHeaderOk(c, signed, expected, records, watermark, cp, headers, i);
    var chain := Resume(c, signed, expected, records, watermark, StartChain(Some(cp), expected), headers, i).chain;
    HeaderIsSealed(c, hist, signed, headers, i, chain.prev, chain.next, chain.start, records, watermark);
  }

  /** The first replayed header vouches for the trusted head: its hash and its end are the honest ones. */
  lemma StandingIsGenuine(
    c: Crypto, hist: History, signed: set<Message>, expected: Option<Witness>, records: map<int, Bytes>, watermark: int,
    cp: Checkpoint, headers: seq<EpochEntry>)
    requires HistoryOk(c, hist) && SignedHonest(hist, signed)
    requires !Collide(c.core, SealedCores(hist), StoredCores(headers))
    requires headers != [] && 0 <= cp.epoch
    requires Resume(c, signed, expected, records, watermark, StartChain(Some(cp), expected), headers, |headers|).Good?
    ensures CheckpointHonest(hist, Some(cp))
  {
    ResumedHeaderOk(c, signed, expected, records, watermark, cp, headers, 0);
    ResumedHeaderIsSealed(c, hist, signed, expected, records, watermark, cp, headers, 0);
    var k: nat := cp.epoch + 1;
    SealedPartition(c, hist, k);
    SealedHeader(c, hist, k);
  }

  /**
   The store as the resumed replay saw it: the trusted head in place of a checkpoint, the suffix
   in place of the stream.
   */
  function Resumed(snap: Snapshot, cp: Checkpoint, suffix: seq<EpochEntry>): Snapshot {
    snap.(cell := Stored(cp, CheckpointMessage(cp.epoch, cp.hash, cp.end)), headers := suffix)
  }

  /** What the tail checks add to a resumed replay. */
  lemma ResumedTailMeans(
    trusted: Witness, expected: Option<Witness>, num: int, lastSeq: int, head: string, chain: Chain)
    requires ResumedTail(trusted, expected, num, lastSeq, head, chain) == INTACT
    ensures chain.next - 1 == num && chain.start - 1 == lastSeq && chain.prev == head
    ensures expected.Some? ==> expected.value.epoch < chain.next
    ensures expected.Some? && expected.value.epoch > trusted.epoch ==> chain.witnessed == Some(expected.value.hash)
  {
  }

  /** An accepted resumed replay over at least one header pins chain, counters, hot events and witness. */
  lemma ResumedPins(
    c: Crypto, hist: History, signed: set<Message>, snap: Snapshot, trusted: Witness, end: int,
    suffix: seq<EpochEntry>)
    requires Merkled(c) && HistoryOk(c, hist) && SignedHonest(hist, signed) && 0 <= trusted.epoch && suffix != []
    requires !StoreCollides(c, hist, Resumed(snap, Checkpoint(trusted.epoch, trusted.hash, end), suffix))
    requires var replayed := Resume(c, signed, snap.expected, AllRecords(snap.events), Watermark(snap.num),
                                    Standing(trusted, end, snap.expected), suffix, |suffix|);
      replayed.Good? && ResumedTail(trusted, snap.expected, snap.num.GetOr(-1), snap.lastSeq.GetOr(0),
                                    snap.head.GetOr(GENESIS), replayed.chain) == INTACT
    ensures var snap', m := Resumed(snap, Checkpoint(trusted.epoch, trusted.hash, end), suffix), Claimed(snap);
      0 <= m <= |hist.sealed| && ChainPinned(hist, snap', m) && EventsPinned(hist, snap', m)
        && WitnessReached(hist, snap', m)
  {
    var cp := Checkpoint(trusted.epoch, trusted.hash, end);
    var records, watermark := AllRecords(snap.events), Watermark(snap.num);
    StandingIsGenuine(c, hist, signed, snap.expected, records, watermark, cp, suffix);
    ResumeIsReplay(c, signed, snap.expected, records, watermark, cp, suffix, |suffix|);
    var chain := Replay(c, signed, Some(cp), snap.expected, records, watermark, suffix, |suffix|).chain;
    CleanReplayPins(c, hist, signed, Some(cp), snap.expected, records, watermark, suffix, |suffix|);
    ResumedTailMeans(trusted, snap.expected, snap.num.GetOr(-1), snap.lastSeq.GetOr(0), snap.head.GetOr(GENESIS),
                     chain);
    EventsOfReplay(c, hist, Resumed(snap, cp, suffix), Claimed(snap));
  }

  /**
   Accepting incrementally, when the full verifier does not take over, means: the header found
   for the trusted epoch carries the trusted hash, and if any header follows it, every one of
   them is the honestly sealed header of its number, the trusted hash and the end read beside
   it are honest too, and chain, counters, hot events and witness are pinned as by a full
   verification. If none follows, the counters repeat what that one header says.
   */
  lemma IncrementalAcceptance(
    c: Crypto, hist: History, signed: set<Message>, snap: Snapshot, trusted: Witness, sid: Option<StreamId>)
    requires Merkled(c) && HistoryOk(c, hist) && SignedHonest(hist, signed) && !Defers(snap.cell, trusted)
    requires IncrementalVerdict(c, signed, snap, trusted, sid) == INTACT
    ensures sid.Some? && EntryAt(snap.headers, sid.value).Some?
    ensures Reanchors(EntryAt(snap.headers, sid.value).value, trusted)
    ensures var suffix, end := EntriesAfter(snap.headers, sid.value),
      EndField(EntryAt(snap.headers, sid.value).value).value;
      var snap', m := Resumed(snap, Checkpoint(trusted.epoch, trusted.hash, end), suffix), Claimed(snap);
      if suffix == [] then
        m == trusted.epoch + 1 && snap.lastSeq.GetOr(0) == end && snap.head.GetOr(GENESIS) == trusted.hash
      else
        StoreCollides(c, hist, snap')
        || (&& m == trusted.epoch + 1 + |suffix| <= |hist.sealed|
            && (forall i :: 0 <= i < |suffix| ==> suffix[i].fields == Readable(hist.sealed[trusted.epoch + 1 + i]))
            && ChainPinned(hist, snap', m) && EventsPinned(hist, snap', m) && WitnessReached(hist, snap', m))
  {
    var suffix, end := EntriesAfter(snap.headers, sid.value), EndField(EntryAt(snap.headers, sid.value).value).value;
    var cp := Checkpoint(trusted.epoch, trusted.hash, end);
    var records, watermark := AllRecords(snap.events), Watermark(snap.num);
    var chain := Resume(c, signed, snap.expected, records, watermark, Standing(trusted, end, snap.expected), suffix,
                        |suffix|).chain;
    ResumedTailMeans(trusted, snap.expected, snap.num.GetOr(-1), snap.lastSeq.GetOr(0), snap.head.GetOr(GENESIS),
                     chain);
    ResumeIsReplay(c, signed, snap.expected, records, watermark, cp, suffix, |suffix|);
    if suffix != [] && !StoreCollides(c, hist, Resumed(snap, cp, suffix)) {
      ResumedPins(c, hist, signed, snap, trusted, end, suffix);
      forall i | 0 <= i < |suffix|
        ensures suffix[i].fields == Readable(hist.sealed[trusted.epoch + 1 + i])
      {
        ResumedHeaderIsSealed(c, hist, signed, snap.expected, records, watermark, cp, suffix, i);
      }
    }
  }

  /** With nothing after it, the trusted epoch's end is taken on faith: any end is accepted. */
  lemma EndIsTakenOnFaith(c: Crypto, signed: set<Message>, trusted: Witness, end: int)
    requires 0 <= trusted.epoch
    ensures var entry := EpochEntry(0, Unreadable(Some(trusted.epoch), Some(end), Some(trusted.hash)));
      var snap := Snapshot(None, Absent, [entry], [], Some(trusted.epoch), Some(end), Some(trusted.hash));
      IncrementalVerdict(c, signed, snap, trusted, Some(0)) == INTACT
  {
    var entry := EpochEntry(0, Unreadable(Some(trusted.epoch), Some(end), Some(trusted.hash)));
    assert EntriesAfter([entry], 0) == [] && EntryAt([entry], 0) == Some(entry.fields);
  }

  // ----- on every reachable state ---------------------------------------------------------------------

  lemma {:induction false} EntryAtPosition(entries: seq<EpochEntry>, i: nat)
    requires i < |entries| && forall j :: 0 <= j < i ==> entries[j].sid != entries[i].sid
    ensures EntryAt(entries, entries[i].sid) == Some(entries[i].fields)
  {
    if i > 0 {
      EntryAtPosition(entries[1..], i - 1);
    }
  }

  lemma {:induction false} EntriesAfterPosition(entries: seq<EpochEntry>, sid: StreamId, a: nat)
    requires a <= |entries| && forall j :: 0 <= j < |entries| ==> (entries[j].sid > sid <==> a <= j)
    ensures EntriesAfter(entries, sid) == entries[a..]
  {
    if entries != [] {
      assert entries[0].sid > sid <==> a == 0;
      if a > 0 {
        EntriesAfterPosition(entries[1..], sid, a - 1);
        assert entries[1..][a - 1..] == entries[a..];
      } else {
        EntriesAfterPosition(entries[1..], sid, 0);
        assert entries == [entries[0]] + entries[1..];
      }
    }
  }

  lemma StreamOrder(hist: History, sids: seq<StreamId>, dropped: nat, epochs: seq<EpochEntry>, i: nat, j: nat)
    requires StreamOk(hist, sids, dropped, epochs) && i < |epochs| && j < |epochs|
    ensures epochs[j].sid > epochs[i].sid <==> i < j
    ensures epochs[j].sid == epochs[i].sid <==> i == j
    ensures epochs[i] == EpochEntry(sids[dropped + i], Readable(hist.sealed[dropped + i]))
  {
    assert StreamEntryOk(hist, sids, dropped, epochs, i) && StreamEntryOk(hist, sids, dropped, epochs, j);
    if i < j {
      SidsIncrease(sids, |sids|, dropped + i, dropped + j);
    } else if j < i {
      SidsIncrease(sids, |sids|, dropped + j, dropped + i);
    }
  }

  /** Under the id of epoch `k` the stream holds its header, and after it the headers from `k + 1` on. */
  lemma StreamSplits(hist: History, sids: seq<StreamId>, dropped: nat, epochs: seq<EpochEntry>, k: nat)
    requires StreamOk(hist, sids, dropped, epochs) && dropped <= k < |hist.sealed|
    ensures EntryAt(epochs, sids[k]) == Some(Readable(hist.sealed[k]))
    ensures EntriesAfter(epochs, sids[k]) == epochs[k + 1 - dropped..]
    ensures SealedFrom(hist, epochs[k + 1 - dropped..], k + 1)
  {
    var i := k - dropped;
    StreamOrder(hist, sids, dropped, epochs, i, i);
    forall j | 0 <= j < |epochs|
      ensures epochs[j].sid > sids[k] <==> i + 1 <= j
      ensures epochs[j].sid == sids[k] <==> i == j
    {
      StreamOrder(hist, sids, dropped, epochs, i, j);
    }
    EntryAtPosition(epochs, i);
    EntriesAfterPosition(epochs, sids[k], i + 1);
    var suffix := epochs[i + 1..];
    forall j | 0 <= j < |suffix|
      ensures suffix[j].fields == Readable(hist.sealed[k + 1 + j])
    {
      StreamOrder(hist, sids, dropped, epochs, i + 1 + j, i + 1 + j);
    }
  }

  /** The trusted head is the one sealed under its number. */
  predicate TrustedIsSealed(hist: History, trusted: Witness) {
    0 <= trusted.epoch < |hist.sealed| && hist.sealed[trusted.epoch].hash == trusted.hash
  }

  lemma SuffixIsLater(c: Crypto, hist: History, k: nat, suffix: seq<EpochEntry>)
    requires HistoryOk(c, hist) && SealedFrom(hist, suffix, k + 1)
    ensures forall i :: 0 <= i < |suffix| ==> !Folded(suffix[i], k)
  {
    forall i | 0 <= i < |suffix|
      ensures !Folded(suffix[i], k)
    {
      SealedPartition(c, hist, k + 1 + i);
    }
  }

  lemma HonestSuffix(
    c: Crypto, hist: History, signed: set<Message>, expected: Option<Witness>, records: map<int, Bytes>, watermark: int,
    k: nat, suffix: seq<EpochEntry>)
    requires HistoryOk(c, hist) && AllSigned(hist, signed) && k < |hist.sealed| && SealedFrom(hist, suffix, k + 1)
    requires Presences(c, hist, records, watermark, 0, |hist.sealed|)
    ensures var cp := Checkpoint(k, hist.sealed[k].hash, hist.sealed[k].core.end);
      Replay(c, signed, Some(cp), expected, records, watermark, suffix, |suffix|)
        == Good(HonestChain(hist, Some(cp), expected, |hist.sealed|))
  {
    var cp := Some(Checkpoint(k, hist.sealed[k].hash, hist.sealed[k].core.end));
    assert Later(k + 1 + |suffix|, cp) == |hist.sealed|;
    HonestReplay(c, hist, signed, cp, expected, records, watermark, suffix, 0, k + 1, |suffix|);
  }

  /** Resuming from a sealed head over the honest rest of the stream follows it to the end. */
  lemma HonestResume(
    c: Crypto, hist: History, signed: set<Message>, expected: Option<Witness>, records: map<int, Bytes>, watermark: int,
    k: nat, suffix: seq<EpochEntry>)
    requires HistoryOk(c, hist) && AllSigned(hist, signed) && k < |hist.sealed| && SealedFrom(hist, suffix, k + 1)
    requires Presences(c, hist, records, watermark, 0, |hist.sealed|)
    ensures var cp := Checkpoint(k, hist.sealed[k].hash, hist.sealed[k].core.end);
      Resume(c, signed, expected, records, watermark, StartChain(Some(cp), expected), suffix, |suffix|)
        == Good(HonestChain(hist, Some(cp), expected, |hist.sealed|))
  {
    SuffixIsLater(c, hist, k, suffix);
    HonestSuffix(c, hist, signed, expected, records, watermark, k, suffix);
    ReplayIsResume(c, signed, expected, records, watermark,
                   Checkpoint(k, hist.sealed[k].hash, hist.sealed[k].core.end), suffix, |suffix|);
  }

  lemma HonestResumedTail(
    hist: History, cp: Checkpoint, expected: Option<Witness>, num: Option<int>, lastSeq: Option<int>,
    head: Option<string>)
    requires CheckpointHonest(hist, Some(cp)) && CountersOk(hist, num, lastSeq, head) && WitnessHonest(hist, expected)
    ensures ResumedTail(Witness(cp.epoch, cp.hash), expected, num.GetOr(-1), lastSeq.GetOr(0), head.GetOr(GENESIS),
                        HonestChain(hist, Some(cp), expected, |hist.sealed|)) == INTACT
  {
  }

  /** The stream id the index holds for an epoch. */
  function IndexedSid(db: Redis, epoch: int): Option<StreamId> {
    if epoch in db.streamId then Some(db.streamId[epoch]) else None
  }

  lemma SealedTrustAccepted(c: Crypto, s: State, trusted: Witness)
    requires s in Safe(c) && !Defers(s.db.checkpoint, trusted) && TrustedIsSealed(s.hist, trusted)
    ensures IncrementalVerdict(c, s.signed, Now(s), trusted, IndexedSid(s.db, trusted.epoch)) == INTACT
  {
    var k: nat, snap := trusted.epoch, Now(s);
    SafeCell(c, s);
    SafeCounters(c, s);
    TrustedEntry(c, s, k);
    ResumedVerdict(c, s, k);
    CountersRead(s.hist, s.db.num, s.db.lastSeq, s.db.head);
    ResumedIsVerdict(c, s.signed, snap, trusted, s.sids[k], Readable(s.hist.sealed[k]));
  }

  /** The verdict is the resumed replay's, once the trusted header is found. */
  lemma ResumedIsVerdict(c: Crypto, signed: set<Message>, snap: Snapshot, trusted: Witness, sid: StreamId, f: Fields)
    requires 0 <= trusted.epoch <= snap.num.GetOr(-1) && CellReadable(signed, snap.cell) && !Defers(snap.cell, trusted)
    requires EntryAt(snap.headers, sid) == Some(f) && Reanchors(f, trusted)
    requires var suffix := EntriesAfter(snap.headers, sid);
      var resumed := Resume(c, signed, snap.expected, AllRecords(snap.events), Watermark(snap.num),
                            Standing(trusted, EndField(f).value, snap.expected), suffix, |suffix|);
      && resumed.Good?
      && ResumedTail(trusted, snap.expected, snap.num.GetOr(-1), snap.lastSeq.GetOr(0),
                     snap.head.GetOr(GENESIS), resumed.chain) == INTACT
    ensures IncrementalVerdict(c, signed, snap, trusted, Some(sid)) == INTACT
  {
  }

  /** Where the trusted header of a safe state is found. */
  lemma TrustedEntry(c: Crypto, s: State, k: nat)
    requires s in Safe(c) && First(s) <= k < |s.hist.sealed|
    ensures |s.sids| == |s.hist.sealed| && IndexedSid(s.db, k) == Some(s.sids[k])
    ensures EntryAt(s.db.epochs, s.sids[k]) == Some(Readable(s.hist.sealed[k]))
    ensures Reanchors(Readable(s.hist.sealed[k]), Witness(k, s.hist.sealed[k].hash))
    ensures SealedFrom(s.hist, EntriesAfter(s.db.epochs, s.sids[k]), k + 1)
  {
    SafeMeans(c, s);
    assert StreamIdEntryOk(s.sids, First(s), s.db.streamId, k);
    StreamSplits(s.hist, s.sids, s.dropped, s.db.epochs, k);
    SealedPartition(c, s.hist, k);
  }

  lemma SafeBuffer(c: Crypto, s: State)
    requires s in Safe(c)
    ensures HistoryOk(c, s.hist) && SignedOk(s.hist, s.signed) && BufferOk(s.hist, s.trimmed, s.db.events)
    ensures CountersOk(s.hist, s.db.num, s.db.lastSeq, s.db.head)
  {
    SafeMeans(c, s);
  }

  /** Every sealed epoch passes the presence check against the buffer of a safe state. */
  lemma SafePresences(c: Crypto, s: State)
    requires s in Safe(c)
    ensures HistoryOk(c, s.hist) && AllSigned(s.hist, s.signed)
    ensures Presences(c, s.hist, AllRecords(s.db.events), Watermark(s.db.num), 0, |s.hist.sealed|)
  {
    SafeBuffer(c, s);
    CountersRead(s.hist, s.db.num, s.db.lastSeq, s.db.head);
    BufferPresences(c, s.hist, s.trimmed, s.db.events);
  }

  lemma BufferPresences(c: Crypto, hist: History, trimmed: nat, events: seq<Event>)
    requires HistoryOk(c, hist) && BufferOk(hist, trimmed, events)
    ensures Presences(c, hist, AllRecords(events), |hist.sealed| - 1 - WORM_HOT_EPOCHS, 0, |hist.sealed|)
  {
    SealedThroughBounds(c, hist, trimmed);
    assert events == hist.log[hist.Start(trimmed) - 1..|hist.log|];
    HonestPresences(c, hist, trimmed, |hist.log|, 0, |hist.sealed|);
  }

  lemma SafeWitness(c: Crypto, s: State)
    requires s in Safe(c)
    ensures CountersOk(s.hist, s.db.num, s.db.lastSeq, s.db.head) && WitnessHonest(s.hist, Now(s).expected)
  {
    SafeBuffer(c, s);
    HeadIsGenuine(s.hist, s.signed, s.anchor);
  }

  lemma ResumedVerdict(c: Crypto, s: State, k: nat)
    requires s in Safe(c) && First(s) <= k < |s.hist.sealed| == |s.sids|
    requires SealedFrom(s.hist, EntriesAfter(s.db.epochs, s.sids[k]), k + 1)
    ensures var snap, head, suffix := Now(s), s.hist.sealed[k], EntriesAfter(s.db.epochs, s.sids[k]);
      var resumed := Resume(c, s.signed, snap.expected, AllRecords(snap.events), Watermark(snap.num),
                            Standing(Witness(k, head.hash), head.core.end, snap.expected), suffix, |suffix|);
      && resumed.Good?
      && ResumedTail(Witness(k, head.hash), snap.expected, snap.num.GetOr(-1), snap.lastSeq.GetOr(0),
                     snap.head.GetOr(GENESIS), resumed.chain) == INTACT
  {
    SafePresences(c, s);
    SafeWitness(c, s);
    HonestResume(c, s.hist, s.signed, Now(s).expected, AllRecords(s.db.events), Watermark(s.db.num), k,
                 EntriesAfter(s.db.epochs, s.sids[k]));
    var cp := Checkpoint(k, s.hist.sealed[k].hash, s.hist.sealed[k].core.end);
    HonestResumedTail(s.hist, cp, Now(s).expected, s.db.num, s.db.lastSeq, s.db.head);
  }

  lemma OtherTrustRefused(c: Crypto, s: State, trusted: Witness)
    requires s in Safe(c) && !Defers(s.db.checkpoint, trusted) && !TrustedIsSealed(s.hist, trusted)
    ensures IncrementalVerdict(c, s.signed, Now(s), trusted, IndexedSid(s.db, trusted.epoch)) != INTACT
  {
    SafeMeans(c, s);
    var k: nat := trusted.epoch;
    assert StreamIdEntryOk(s.sids, First(s), s.db.streamId, k);
    if k < |s.hist.sealed| {
      StreamSplits(s.hist, s.sids, s.dropped, s.db.epochs, k);
    }
  }

  /**
   On a reachable state the full verifier always accepts, and the incremental one agrees
   exactly when it defers to it or the trusted head is the one sealed under that number.
   */
  lemma IncrementalAgreesIff(c: Crypto, s: State, trusted: Witness)
    requires Reachable(c, s)
    ensures VerdictOf(c, s.signed, Now(s)) == INTACT
    ensures IncrementalVerdict(c, s.signed, Now(s), trusted, IndexedSid(s.db, trusted.epoch))
        == VerdictOf(c, s.signed, Now(s))
      <==> Defers(s.db.checkpoint, trusted) || TrustedIsSealed(s.hist, trusted)
  {
    ReachableIsSafe(c, s);
    SafeVerdict(c, s);
    SafeCell(c, s);
    if Defers(s.db.checkpoint, trusted) {
    } else if TrustedIsSealed(s.hist, trusted) {
      SealedTrustAccepted(c, s, trusted);
    } else {
      OtherTrustRefused(c, s, trusted);
    }
  }

  lemma SafeCell(c: Crypto, s: State)
    requires s in Safe(c)
    ensures CellReadable(s.signed, s.db.checkpoint)
  {
    SafeMeans(c, s);
  }
}
