/**
 Compaction against an arbitrary store: folding a prefix that replays cleanly into a signed
 checkpoint leaves every later verdict as it was, whatever the suffix, the buffer and the
 counters are, and however far the trimming of the folded headers has got.
 */
module WormCheckpoint {
  import opened Bytes
  import opened WormHistory
  import opened WormSoundness
  import opened WormStore
  import opened WormVerify
  import opened Wrappers

  /** What a replay compares headers with, apart from the headers. */
  datatype Against = Against(
    c: Crypto, signed: set<Message>, expected: Option<Witness>, records: map<int, Bytes>, watermark: int)
  {
    function Replay(cp: Option<Checkpoint>, headers: seq<EpochEntry>, n: nat): Replayed
      requires n <= |headers|
    {
      WormVerify.Replay(c, signed, cp, expected, records, watermark, headers, n)
    }

    function One(cp: Option<Checkpoint>, f: Fields, chain: Chain): Replayed {
      ReplayOne(c, signed, cp, expected, records, watermark, f, chain)
    }
  }

  /** The checkpoint that stands for a cleanly replayed prefix. */
  function Folding(chain: Chain): Checkpoint { Checkpoint(chain.next - 1, chain.prev, chain.start - 1) }

  /** Entries a replay from the new checkpoint skips and one from the old checkpoint would not. */
  predicate Stale(cp: Option<Checkpoint>, folding: Checkpoint, e: EpochEntry) {
    Folded(e, folding.epoch) && !(cp.Some? && Folded(e, cp.value.epoch))
  }

  /** Two replays that stand at the same place, having met the same witness after the folding. */
  predicate SameStand(folding: Checkpoint, expected: Option<Witness>, a: Chain, b: Chain) {
    && a.prev == b.prev && a.start == b.start && a.next == b.next > folding.epoch
    && (expected.Some? && expected.value.epoch > folding.epoch ==> a.witnessed == b.witnessed)
  }

  predicate SameOutcome(folding: Checkpoint, expected: Option<Witness>, a: Replayed, b: Replayed) {
    if a.Bad? then b == a else b.Good? && SameStand(folding, expected, a.chain, b.chain)
  }

  /** A witness is met only once its epoch is behind. */
  lemma {:induction false} WitnessBehind(x: Against, cp: Option<Checkpoint>, headers: seq<EpochEntry>, n: nat)
    requires n <= |headers| && x.Replay(cp, headers, n).Good?
    ensures var chain := x.Replay(cp, headers, n).chain;
      && FirstEpoch(cp) <= chain.next && chain.surviving == chain.next - FirstEpoch(cp)
      && (x.expected.Some? && chain.next <= x.expected.value.epoch ==> chain.witnessed == None)
  {
    if n > 0 {
      WitnessBehind(x, cp, headers, n - 1);
    }
  }

  /** What is left of the folded headers is skipped. */
  lemma {:induction false} LeftoversSkipped(x: Against, folding: Checkpoint, headers: seq<EpochEntry>, n: nat)
    requires n <= |headers| && forall i :: 0 <= i < n ==> Folded(headers[i], folding.epoch)
    ensures x.Replay(Some(folding), headers, n) == Good(StartChain(Some(folding), x.expected))
  {
    if n > 0 {
      LeftoversSkipped(x, folding, headers, n - 1);
    }
  }

  /** One further header takes both replays the same way. */
  lemma SameStep(x: Against, cp: Option<Checkpoint>, folding: Checkpoint, e: EpochEntry, a: Chain, b: Chain)
    requires FirstEpoch(cp) <= folding.epoch && !Stale(cp, folding, e) && SameStand(folding, x.expected, a, b)
    ensures SameOutcome(folding, x.expected, x.One(cp, e.fields, a), x.One(Some(folding), e.fields, b))
  {
  }

  /** The replay of prefix and suffix, and that of leftovers and suffix from the checkpoint, agree all along. */
  lemma {:induction false} SuffixAgrees(
    x: Against, cp: Option<Checkpoint>, prefix: seq<EpochEntry>, left: seq<EpochEntry>, suffix: seq<EpochEntry>, n: nat)
    requires n <= |suffix|
    requires x.Replay(cp, prefix + suffix, |prefix|).Good?
    requires var folding := Folding(x.Replay(cp, prefix + suffix, |prefix|).chain);
      && FirstEpoch(cp) <= folding.epoch
      && (forall i :: 0 <= i < |left| ==> Folded(left[i], folding.epoch))
      && (forall i :: 0 <= i < |suffix| ==> !Stale(cp, folding, suffix[i]))
    ensures var folding := Folding(x.Replay(cp, prefix + suffix, |prefix|).chain);
      SameOutcome(folding, x.expected, x.Replay(cp, prefix + suffix, |prefix| + n),
                  x.Replay(Some(folding), left + suffix, |left| + n))
  {
    var whole, rest := prefix + suffix, left + suffix;
    var folding := Folding(x.Replay(cp, whole, |prefix|).chain);
    if n == 0 {
      WitnessBehind(x, cp, whole, |prefix|);
      LeftoversSkipped(x, folding, rest, |left|);
    } else {
      SuffixAgrees(x, cp, prefix, left, suffix, n - 1);
      assert whole[|prefix| + n - 1] == suffix[n - 1] == rest[|left| + n - 1];
      var a := x.Replay(cp, whole, |prefix| + n - 1);
      if a.Good? {
        SameStep(x, cp, folding, suffix[n - 1], a.chain, x.Replay(Some(folding), rest, |left| + n - 1).chain);
      }
    }
  }

  // ----- verdicts ------------------------------------------------------------------------------------

  function AgainstOf(c: Crypto, signed: set<Message>, snap: Snapshot): Against {
    Against(c, signed, snap.expected, AllRecords(snap.events), Watermark(snap.num))
  }

  /** The snapshot once the folding is signed and some of the folded headers are gone. */
  function Compacted(snap: Snapshot, folding: Checkpoint, left: seq<EpochEntry>, suffix: seq<EpochEntry>): Snapshot {
    snap.(cell := Stored(folding, CheckpointMessage(folding.epoch, folding.hash, folding.end)),
          headers := left + suffix)
  }

  /** The anchor's witness does not contradict the folded prefix. */
  predicate Settled(cp: Option<Checkpoint>, folding: Checkpoint, expected: Option<Witness>, chain: Chain) {
    expected.Some? && FirstEpoch(cp) <= expected.value.epoch <= folding.epoch ==>
      chain.witnessed == Some(expected.value.hash)
  }

  /** A witness behind the replay is met there or never. */
  lemma {:induction false} WitnessStays(x: Against, cp: Option<Checkpoint>, headers: seq<EpochEntry>, m: nat, n: nat)
    requires m <= n <= |headers| && x.Replay(cp, headers, n).Good?
    ensures x.Replay(cp, headers, m).Good?
    ensures var early, late := x.Replay(cp, headers, m).chain, x.Replay(cp, headers, n).chain;
      early.next <= late.next
      && (x.expected.Some? && x.expected.value.epoch < early.next ==> late.witnessed == early.witnessed)
  {
    if m < n {
      WitnessStays(x, cp, headers, m, n - 1);
    }
  }

  /** The tail checks see the same chain either way, except for a witness the folding contradicts. */
  lemma TailAgrees(
    cp: Option<Checkpoint>, folding: Checkpoint, expected: Option<Witness>, num: int, lastSeq: int, head: string,
      a: Chain, b: Chain)
    requires FirstEpoch(cp) <= folding.epoch && SameStand(folding, expected, a, b) && a.surviving > 0
    ensures var before, after := TailVerdict(cp, expected, num, lastSeq, head, a),
      TailVerdict(Some(folding), expected, num, lastSeq, head, b);
      if Settled(cp, folding, expected, a) then after == before else before != INTACT
  {
  }

  /**
   Compaction keeps the verdict. Let the prefix replay cleanly up to some epoch past the old
   checkpoint, and fold it. Then for any suffix without stale headers, any buffer, counters
   and leftovers, the verdict is the same before and after; the one exception is a witness
   inside the prefix that the prefix contradicts, and then the store was not intact before.
   */
  lemma CompactionKeepsVerdict(
    c: Crypto, signed: set<Message>, snap: Snapshot, prefix: seq<EpochEntry>, left: seq<EpochEntry>,
      suffix: seq<EpochEntry>)
    requires snap.headers == prefix + suffix && CellReadable(signed, snap.cell)
    requires AgainstOf(c, signed, snap).Replay(CellCheckpoint(snap.cell), prefix + suffix, |prefix|).Good?
    requires var cp := CellCheckpoint(snap.cell);
      var folding := Folding(AgainstOf(c, signed, snap).Replay(cp, prefix + suffix, |prefix|).chain);
      && FirstEpoch(cp) <= folding.epoch
      && CheckpointMessage(folding.epoch, folding.hash, folding.end) in signed
      && (forall i :: 0 <= i < |left| ==> Folded(left[i], folding.epoch))
      && (forall i :: 0 <= i < |suffix| ==> !Stale(cp, folding, suffix[i]))
    ensures var cp := CellCheckpoint(snap.cell);
      var chain := AgainstOf(c, signed, snap).Replay(cp, prefix + suffix, |prefix|).chain;
      var before, after := VerdictOf(c, signed, snap),
        VerdictOf(c, signed, Compacted(snap, Folding(chain), left, suffix));
      if Settled(cp, Folding(chain), snap.expected, chain) then after == before else before != INTACT
  {
    var x, cp := AgainstOf(c, signed, snap), CellCheckpoint(snap.cell);
    var chain := x.Replay(cp, snap.headers, |prefix|).chain;
    var folding := Folding(chain);
    SuffixAgrees(x, cp, prefix, left, suffix, |suffix|);
    var a, b := x.Replay(cp, snap.headers, |snap.headers|), x.Replay(Some(folding), left + suffix, |left + suffix|);
    if a.Good? {
      WitnessBehind(x, cp, snap.headers, |snap.headers|);
      WitnessStays(x, cp, snap.headers, |prefix|, |snap.headers|);
      TailAgrees(cp, folding, snap.expected, snap.num.GetOr(-1), snap.lastSeq.GetOr(0), snap.head.GetOr(GENESIS),
                 a.chain, b.chain);
    }
  }

  // ----- what a compaction signs -----------------------------------------------------------------------

  /** Nothing stale follows a prefix when the whole stream replays cleanly. */
  lemma {:induction false} CleanIsNotStale(
    x: Against, cp: Option<Checkpoint>, headers: seq<EpochEntry>, m: nat, n: nat)
    requires m < n <= |headers| && x.Replay(cp, headers, n).Good?
    ensures x.Replay(cp, headers, m).Good?
    ensures !Stale(cp, Folding(x.Replay(cp, headers, m).chain), headers[n - 1])
  {
    WitnessStays(x, cp, headers, m, n - 1);
  }

  /** Folding any part of a stream that verifies as intact leaves it intact, mid-trim too. */
  lemma FoldingIntactStaysIntact(c: Crypto, signed: set<Message>, snap: Snapshot, m: nat, left: seq<EpochEntry>)
    requires VerdictOf(c, signed, snap) == INTACT && m <= |snap.headers|
    requires var replayed := AgainstOf(c, signed, snap).Replay(CellCheckpoint(snap.cell), snap.headers, m);
      replayed.Good? ==>
        var folding := Folding(replayed.chain);
        && FirstEpoch(CellCheckpoint(snap.cell)) <= folding.epoch
        && CheckpointMessage(folding.epoch, folding.hash, folding.end) in signed
        && forall i :: 0 <= i < |left| ==> Folded(left[i], folding.epoch)
    ensures AgainstOf(c, signed, snap).Replay(CellCheckpoint(snap.cell), snap.headers, m).Good?
    ensures var folding := Folding(AgainstOf(c, signed, snap).Replay(CellCheckpoint(snap.cell), snap.headers, m).chain);
      VerdictOf(c, signed, Compacted(snap, folding, left, snap.headers[m..])) == INTACT
  {
    var x, cp, prefix, suffix := AgainstOf(c, signed, snap), CellCheckpoint(snap.cell), snap.headers[..m],
      snap.headers[m..];
    assert snap.headers == prefix + suffix;
    WitnessStays(x, cp, snap.headers, m, |snap.headers|);
    var folding := Folding(x.Replay(cp, snap.headers, m).chain);
    forall i | 0 <= i < |suffix|
      ensures !Stale(cp, folding, suffix[i])
    {
      WitnessStays(x, cp, snap.headers, m + i + 1, |snap.headers|);
      CleanIsNotStale(x, cp, snap.headers, m, m + i + 1);
    }
    CompactionKeepsVerdict(c, signed, snap, prefix, left, suffix);
  }

  lemma StreamHeaderIsSealed(c: Crypto, hist: History, snap: Snapshot, m: nat, e: EpochEntry)
    requires HistoryOk(c, hist) && m <= |hist.sealed| && ChainPinned(hist, snap, m)
    requires e in snap.headers && e.fields.Readable?
    requires FirstEpoch(CellCheckpoint(snap.cell)) <= e.fields.header.core.epoch
    ensures var k := e.fields.header.core.epoch; 0 <= k < |hist.sealed| && e.fields.header == hist.sealed[k]
  {
    var cp := CellCheckpoint(snap.cell);
    var i :| 0 <= i < |snap.headers| && snap.headers[i] == e;
    var at := LivePosition(snap.headers, cp, |snap.headers|, i);
    var k: nat := FirstEpoch(cp) + at;
    assert Live(snap.headers, cp, |snap.headers|)[k - FirstEpoch(cp)] == Readable(hist.sealed[k]);
    SealedPartition(c, hist, k);
  }

  /**
   The signed checkpoint is taken from the header index, not from the stream that was
   verified: over a store that verified, it is the honest one exactly when the indexed
   hash and end are those of the stream's own header of that epoch.
   */
  lemma SignedFoldingIsGenuineIff(
    c: Crypto, hist: History, signed: set<Message>, snap: Snapshot, indexed: Header, e: EpochEntry)
    requires Merkled(c) && HistoryOk(c, hist) && SignedHonest(hist, signed)
    requires VerdictOf(c, signed, snap) == INTACT && !StoreCollides(c, hist, snap)
    requires e in snap.headers && e.fields.Readable?
    requires FirstEpoch(CellCheckpoint(snap.cell)) <= e.fields.header.core.epoch
    ensures Genuine(hist, CheckpointMessage(e.fields.header.core.epoch, indexed.hash, indexed.core.end))
      <==> indexed.hash == e.fields.header.hash && indexed.core.end == e.fields.header.core.end
  {
    AcceptedStoreIsHonest(c, hist, signed, snap);
    StreamHeaderIsSealed(c, hist, snap, Claimed(snap), e);
  }

  /** A header past the checkpoint is among the live ones. */
  lemma {:induction false} LivePosition(
    headers: seq<EpochEntry>, cp: Option<Checkpoint>, n: nat, i: nat)
    returns (at: nat)
    requires i < n <= |headers| && !(cp.Some? && Folded(headers[i], cp.value.epoch))
    ensures at < |Live(headers, cp, n)| && Live(headers, cp, n)[at] == headers[i].fields
  {
    if i < n - 1 {
      at := LivePosition(headers, cp, n - 1, i);
    } else {
      at := |Live(headers, cp, n - 1)|;
    }
  }
}
