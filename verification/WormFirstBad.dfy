/**
 Where a verification says the ledger is bad. The verdict is read off the stored entries: the
 first entry after the checkpoint that does not continue the one before it, or whose events
 are not those it was sealed over, gives the number reported; only when there is none do the
 counters and the anchor decide.
 */
module WormFirstBad {
  import opened Bytes
  import opened WormIncremental
  import opened WormStore
  import opened WormVerify
  import opened Wrappers

  // ----- entries that continue one another ---------------------------------------------------------------

  /** The entries after the checkpoint. */
  function LiveEntries(headers: seq<EpochEntry>, cp: Option<Checkpoint>, n: nat): seq<EpochEntry>
    requires n <= |headers|
  {
    if n == 0 then []
    else if cp.Some? && Folded(headers[n - 1], cp.value.epoch) then LiveEntries(headers, cp, n - 1)
    else LiveEntries(headers, cp, n - 1) + [headers[n - 1]]
  }

  /** What the first entry continues: the checkpoint, or the genesis link. */
  function BaseOf(cp: Option<Checkpoint>): Checkpoint { cp.GetOr(Checkpoint(-1, GENESIS, 0)) }

  /** The hash the first `n` entries end with. */
  function HashAt(base: Checkpoint, live: seq<EpochEntry>, n: nat): string
    requires n <= |live|
  {
    if n == 0 then base.hash else if live[n - 1].fields.Readable? then live[n - 1].fields.header.hash else ""
  }

  /** The sequence number the first `n` entries end with. */
  function EndAt(base: Checkpoint, live: seq<EpochEntry>, n: nat): int
    requires n <= |live|
  {
    if n == 0 then base.end else if live[n - 1].fields.Readable? then live[n - 1].fields.header.core.end else 0
  }

  /** Entry `i` continues the one before it, is hashed and signed, and its events are there or may be gone. */
  predicate Linked(
    c: Crypto, signed: set<Message>, base: Checkpoint, live: seq<EpochEntry>,
    records: map<int, Bytes>, watermark: int, i: nat)
    requires i < |live|
  {
    && live[i].fields.Readable?
    && var Header(core, hash, signature) := live[i].fields.header;
    && core.epoch == base.epoch + 1 + i
    && core.prev == HashAt(base, live, i) && core.start == EndAt(base, live, i) + 1
    && PresenceOk(c, core, records, watermark)
    && hash == c.core(core) && signature == EpochMessage(hash) && signature in signed
  }

  predicate LinkedUpTo(
    c: Crypto, signed: set<Message>, base: Checkpoint, live: seq<EpochEntry>,
    records: map<int, Bytes>, watermark: int, n: nat)
    requires n <= |live|
  {
    forall i :: 0 <= i < n ==> Linked(c, signed, base, live, records, watermark, i)
  }

  /** Entry `k` is the first that does not. */
  predicate BreaksAt(
    c: Crypto, signed: set<Message>, base: Checkpoint, live: seq<EpochEntry>,
    records: map<int, Bytes>, watermark: int, k: nat)
  {
    && k < |live| && !Linked(c, signed, base, live, records, watermark, k)
    && LinkedUpTo(c, signed, base, live, records, watermark, k)
  }

  lemma {:induction false} BreaksOrNot(
    c: Crypto, signed: set<Message>, base: Checkpoint, live: seq<EpochEntry>,
    records: map<int, Bytes>, watermark: int, n: nat)
    requires n <= |live|
    ensures LinkedUpTo(c, signed, base, live, records, watermark, n)
      || exists k: nat :: k < n && BreaksAt(c, signed, base, live, records, watermark, k)
  {
    if n > 0 {
      BreaksOrNot(c, signed, base, live, records, watermark, n - 1);
      if LinkedUpTo(c, signed, base, live, records, watermark, n - 1)
        && !Linked(c, signed, base, live, records, watermark, n - 1) {
        assert BreaksAt(c, signed, base, live, records, watermark, n - 1);
      }
    }
  }

  // ----- what the replay makes of them -----------------------------------------------------------------------

  /** A stand on this base. */
  predicate StandsOn(start: Chain, base: Checkpoint) {
    start.prev == base.hash && start.start == base.end + 1 && start.next == base.epoch + 1
  }

  /** The running variables after `n` entries that continue one another. */
  function Followed(
    start: Chain, base: Checkpoint, live: seq<EpochEntry>, expected: Option<Witness>, n: nat): Chain
    requires n <= |live|
  {
    Chain(HashAt(base, live, n), EndAt(base, live, n) + 1, base.epoch + 1 + n,
          if expected.Some? && base.epoch < expected.value.epoch <= base.epoch + n
          then Some(HashAt(base, live, expected.value.epoch - base.epoch)) else start.witnessed,
          start.surviving + n)
  }

  lemma FollowOne(
    c: Crypto, signed: set<Message>, expected: Option<Witness>, records: map<int, Bytes>, watermark: int,
    start: Chain, base: Checkpoint, live: seq<EpochEntry>, n: nat)
    requires n < |live| && StandsOn(start, base)
    ensures ReplayOne(c, signed, None, expected, records, watermark, live[n].fields,
                      Followed(start, base, live, expected, n))
         == if Linked(c, signed, base, live, records, watermark, n)
            then Good(Followed(start, base, live, expected, n + 1)) else Bad(base.epoch + 1 + n)
  {
  }

  lemma {:induction false} ResumeFollows(
    c: Crypto, signed: set<Message>, expected: Option<Witness>, records: map<int, Bytes>, watermark: int,
    start: Chain, base: Checkpoint, live: seq<EpochEntry>, n: nat)
    requires n <= |live| && StandsOn(start, base) && LinkedUpTo(c, signed, base, live, records, watermark, n)
    ensures Resume(c, signed, expected, records, watermark, start, live, n)
         == Good(Followed(start, base, live, expected, n))
  {
    if n > 0 {
      ResumeFollows(c, signed, expected, records, watermark, start, base, live, n - 1);
      FollowOne(c, signed, expected, records, watermark, start, base, live, n - 1);
    }
  }

  lemma ResumeBreaks(
    c: Crypto, signed: set<Message>, expected: Option<Witness>, records: map<int, Bytes>, watermark: int,
    start: Chain, base: Checkpoint, live: seq<EpochEntry>, k: nat)
    requires StandsOn(start, base) && BreaksAt(c, signed, base, live, records, watermark, k)
    ensures Resume(c, signed, expected, records, watermark, start, live, |live|) == Bad(base.epoch + 1 + k)
  {
    ResumeFollows(c, signed, expected, records, watermark, start, base, live, k);
    FollowOne(c, signed, expected, records, watermark, start, base, live, k);
    ResumeBadStays(c, signed, expected, records, watermark, start, live, k + 1, |live|);
  }

  lemma {:induction false} ResumePrefix(
    c: Crypto, signed: set<Message>, expected: Option<Witness>, records: map<int, Bytes>, watermark: int,
    start: Chain, live: seq<EpochEntry>, longer: seq<EpochEntry>, n: nat)
    requires n <= |live| && live <= longer
    ensures Resume(c, signed, expected, records, watermark, start, longer, n)
         == Resume(c, signed, expected, records, watermark, start, live, n)
  {
    if n > 0 {
      ResumePrefix(c, signed, expected, records, watermark, start, live, longer, n - 1);
    }
  }

  /** A replay is a resumption over the entries it does not skip. */
  lemma {:induction false} ReplayIsLive(
    c: Crypto, signed: set<Message>, cp: Option<Checkpoint>, expected: Option<Witness>,
    records: map<int, Bytes>, watermark: int, headers: seq<EpochEntry>, n: nat)
    requires n <= |headers|
    ensures var live := LiveEntries(headers, cp, n);
      Replay(c, signed, cp, expected, records, watermark, headers, n)
        == Resume(c, signed, expected, records, watermark, StartChain(cp, expected), live, |live|)
  {
    if n > 0 {
      ReplayIsLive(c, signed, cp, expected, records, watermark, headers, n - 1);
      var before := LiveEntries(headers, cp, n - 1);
      if !(cp.Some? && Folded(headers[n - 1], cp.value.epoch)) {
        ResumePrefix(c, signed, expected, records, watermark, StartChain(cp, expected), before,
                     before + [headers[n - 1]], |before|);
      }
    }
  }

  // ----- the full verdict --------------------------------------------------------------------------------------

  function LiveOf(snap: Snapshot): seq<EpochEntry> {
    LiveEntries(snap.headers, CellCheckpoint(snap.cell), |snap.headers|)
  }

  function BaseIn(snap: Snapshot): Checkpoint { BaseOf(CellCheckpoint(snap.cell)) }

  function AtLeastZero(n: int): int { if n < 0 then 0 else n }

  /** The counters name the last entry. */
  predicate CountersAgree(snap: Snapshot, base: Checkpoint, live: seq<EpochEntry>) {
    && snap.num.GetOr(-1) == base.epoch + |live|
    && snap.lastSeq.GetOr(0) == EndAt(base, live, |live|)
    && snap.head.GetOr(GENESIS) == HashAt(base, live, |live|)
  }

  /** The witnessed head is past the last entry. */
  predicate WitnessAhead(snap: Snapshot, base: Checkpoint, live: seq<EpochEntry>) {
    snap.expected.Some? && snap.expected.value.epoch > base.epoch + |live|
  }

  /** The witnessed head is one of the entries, with another hash. */
  predicate WitnessDiffers(snap: Snapshot, base: Checkpoint, live: seq<EpochEntry>) {
    && snap.expected.Some? && base.epoch < snap.expected.value.epoch <= base.epoch + |live|
    && HashAt(base, live, snap.expected.value.epoch - base.epoch) != snap.expected.value.hash
  }

  /** Nothing was ever sealed, as far as the stream and the checkpoint go. */
  predicate NeverSealed(snap: Snapshot) { CellCheckpoint(snap.cell).None? && LiveOf(snap) == [] }

  /** The verdict on entries that all continue one another. */
  function Ending(snap: Snapshot): Verdict {
    var base, live := BaseIn(snap), LiveOf(snap);
    if NeverSealed(snap) then
      if snap.num.GetOr(-1) == -1 && snap.lastSeq.GetOr(0) == 0 && snap.expected.None? then INTACT
      else Verdict(false, Some(0))
    else if !CountersAgree(snap, base, live) || WitnessAhead(snap, base, live) then
      Verdict(false, Some(AtLeastZero(base.epoch + |live|)))
    else if WitnessDiffers(snap, base, live) then Verdict(false, Some(AtLeastZero(snap.expected.value.epoch)))
    else INTACT
  }

  lemma StartStands(cp: Option<Checkpoint>, expected: Option<Witness>)
    ensures StandsOn(StartChain(cp, expected), BaseOf(cp))
  {
  }

  /**
   The full verdict, from the entries: 0 for an unverifiable checkpoint; else the number of the
   first entry that breaks the chain; else what counters and anchor say.
   */
  lemma VerdictExactly(c: Crypto, signed: set<Message>, snap: Snapshot)
    ensures !CellReadable(signed, snap.cell) ==> VerdictOf(c, signed, snap) == Verdict(false, Some(0))
    ensures var base, live := BaseIn(snap), LiveOf(snap);
      var records, watermark := AllRecords(snap.events), Watermark(snap.num);
      CellReadable(signed, snap.cell) ==>
        && (forall k: nat :: BreaksAt(c, signed, base, live, records, watermark, k) ==>
              VerdictOf(c, signed, snap) == Verdict(false, Some(base.epoch + 1 + k)))
        && (LinkedUpTo(c, signed, base, live, records, watermark, |live|) ==>
              VerdictOf(c, signed, snap) == Ending(snap))
        && (LinkedUpTo(c, signed, base, live, records, watermark, |live|)
            || exists k: nat :: BreaksAt(c, signed, base, live, records, watermark, k))
  {
    var base, live, records, watermark := BaseIn(snap), LiveOf(snap), AllRecords(snap.events), Watermark(snap.num);
    if CellReadable(signed, snap.cell) {
      BreaksOrNot(c, signed, base, live, records, watermark, |live|);
      forall k: nat | BreaksAt(c, signed, base, live, records, watermark, k)
        ensures VerdictOf(c, signed, snap) == Verdict(false, Some(base.epoch + 1 + k))
      {
        BrokenVerdict(c, signed, snap, k);
      }
      if LinkedUpTo(c, signed, base, live, records, watermark, |live|) {
        LinkedVerdict(c, signed, snap);
      }
    }
  }

  lemma BrokenVerdict(c: Crypto, signed: set<Message>, snap: Snapshot, k: nat)
    requires CellReadable(signed, snap.cell)
    requires BreaksAt(c, signed, BaseIn(snap), LiveOf(snap), AllRecords(snap.events), Watermark(snap.num), k)
    ensures VerdictOf(c, signed, snap) == Verdict(false, Some(BaseIn(snap).epoch + 1 + k))
  {
    var cp, records, watermark := CellCheckpoint(snap.cell), AllRecords(snap.events), Watermark(snap.num);
    ReplayIsLive(c, signed, cp, snap.expected, records, watermark, snap.headers, |snap.headers|);
    StartStands(cp, snap.expected);
    ResumeBreaks(c, signed, snap.expected, records, watermark, StartChain(cp, snap.expected), BaseIn(snap),
                 LiveOf(snap), k);
  }

  lemma LinkedVerdict(c: Crypto, signed: set<Message>, snap: Snapshot)
    requires CellReadable(signed, snap.cell)
    requires LinkedUpTo(c, signed, BaseIn(snap), LiveOf(snap), AllRecords(snap.events), Watermark(snap.num),
                        |LiveOf(snap)|)
    ensures VerdictOf(c, signed, snap) == Ending(snap)
  {
    var cp, records, watermark := CellCheckpoint(snap.cell), AllRecords(snap.events), Watermark(snap.num);
    ReplayIsLive(c, signed, cp, snap.expected, records, watermark, snap.headers, |snap.headers|);
    StartStands(cp, snap.expected);
    ResumeFollows(c, signed, snap.expected, records, watermark, StartChain(cp, snap.expected), BaseIn(snap),
                  LiveOf(snap), |LiveOf(snap)|);
    TailIsEnding(snap);
  }

  lemma TailIsEnding(snap: Snapshot)
    ensures var cp := CellCheckpoint(snap.cell);
      TailVerdict(cp, snap.expected, snap.num.GetOr(-1), snap.lastSeq.GetOr(0), snap.head.GetOr(GENESIS),
                  Followed(StartChain(cp, snap.expected), BaseIn(snap), LiveOf(snap), snap.expected, |LiveOf(snap)|))
        == Ending(snap)
  {
  }

  // ----- the incremental verdict -------------------------------------------------------------------------------

  /** The trusted header is still found under its stream id, and the counters reach it. */
  predicate Anchored(snap: Snapshot, trusted: Witness, sid: Option<StreamId>) {
    && sid.Some? && snap.num.GetOr(-1) >= trusted.epoch
    && EntryAt(snap.headers, sid.value).Some? && Reanchors(EntryAt(snap.headers, sid.value).value, trusted)
  }

  function TrustedBase(snap: Snapshot, trusted: Witness, sid: Option<StreamId>): Checkpoint
    requires Anchored(snap, trusted, sid)
  {
    Checkpoint(trusted.epoch, trusted.hash, EndField(EntryAt(snap.headers, sid.value).value).value)
  }

  /** The verdict on later entries that all continue the trusted one. */
  function LaterEnding(snap: Snapshot, base: Checkpoint, live: seq<EpochEntry>): Verdict {
    if !CountersAgree(snap, base, live) || WitnessAhead(snap, base, live)
    then Verdict(false, Some(base.epoch + |live|))
    else if WitnessDiffers(snap, base, live) then Verdict(false, Some(snap.expected.value.epoch))
    else INTACT
  }

  /**
   The incremental verdict, likewise: the full one when it is deferred to; the trusted number
   when the trusted header is not there; else from the entries after it.
   */
  lemma IncrementalExactly(
    c: Crypto, signed: set<Message>, snap: Snapshot, trusted: Witness, sid: Option<StreamId>)
    ensures var verdict := IncrementalVerdict(c, signed, snap, trusted, sid);
      && (trusted.epoch < 0 || (CellReadable(signed, snap.cell) && Defers(snap.cell, trusted)) ==>
            verdict == VerdictOf(c, signed, snap))
      && (trusted.epoch >= 0 && !CellReadable(signed, snap.cell) ==> verdict == Verdict(false, Some(trusted.epoch)))
    ensures var verdict := IncrementalVerdict(c, signed, snap, trusted, sid);
      CellReadable(signed, snap.cell) && !Defers(snap.cell, trusted) ==>
        if !Anchored(snap, trusted, sid) then verdict == Verdict(false, Some(trusted.epoch))
        else
          var base, live := TrustedBase(snap, trusted, sid), EntriesAfter(snap.headers, sid.value);
          var records, watermark := AllRecords(snap.events), Watermark(snap.num);
          && (forall k: nat :: BreaksAt(c, signed, base, live, records, watermark, k) ==>
                verdict == Verdict(false, Some(trusted.epoch + 1 + k)))
          && (LinkedUpTo(c, signed, base, live, records, watermark, |live|) ==>
                verdict == LaterEnding(snap, base, live))
          && (LinkedUpTo(c, signed, base, live, records, watermark, |live|)
              || exists k: nat :: BreaksAt(c, signed, base, live, records, watermark, k))
  {
    if CellReadable(signed, snap.cell) && !Defers(snap.cell, trusted) && Anchored(snap, trusted, sid) {
      var base, live := TrustedBase(snap, trusted, sid), EntriesAfter(snap.headers, sid.value);
      var records, watermark := AllRecords(snap.events), Watermark(snap.num);
      BreaksOrNot(c, signed, base, live, records, watermark, |live|);
      forall k: nat | BreaksAt(c, signed, base, live, records, watermark, k)
        ensures IncrementalVerdict(c, signed, snap, trusted, sid) == Verdict(false, Some(trusted.epoch + 1 + k))
      {
        ResumeBreaks(c, signed, snap.expected, records, watermark, StartChain(Some(base), snap.expected), base, live,
                     k);
      }
      if LinkedUpTo(c, signed, base, live, records, watermark, |live|) {
        LaterLinked(c, signed, snap, trusted, sid);
      }
    }
  }

  lemma LaterLinked(c: Crypto, signed: set<Message>, snap: Snapshot, trusted: Witness, sid: Option<StreamId>)
    requires CellReadable(signed, snap.cell) && !Defers(snap.cell, trusted) && Anchored(snap, trusted, sid)
    requires var base, live := TrustedBase(snap, trusted, sid), EntriesAfter(snap.headers, sid.value);
      LinkedUpTo(c, signed, base, live, AllRecords(snap.events), Watermark(snap.num), |live|)
    ensures IncrementalVerdict(c, signed, snap, trusted, sid)
         == LaterEnding(snap, TrustedBase(snap, trusted, sid), EntriesAfter(snap.headers, sid.value))
  {
    var base, live := TrustedBase(snap, trusted, sid), EntriesAfter(snap.headers, sid.value);
    var start := StartChain(Some(base), snap.expected);
    ResumeFollows(c, signed, snap.expected, AllRecords(snap.events), Watermark(snap.num), start, base, live, |live|);
    LaterTail(snap, trusted, base, live);
  }

  lemma LaterTail(snap: Snapshot, trusted: Witness, base: Checkpoint, live: seq<EpochEntry>)
    requires base.epoch == trusted.epoch
    ensures ResumedTail(trusted, snap.expected, snap.num.GetOr(-1), snap.lastSeq.GetOr(0), snap.head.GetOr(GENESIS),
                        Followed(StartChain(Some(base), snap.expected), base, live, snap.expected, |live|))
         == LaterEnding(snap, base, live)
  {
  }
}
