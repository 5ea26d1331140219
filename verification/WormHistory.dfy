/**
 The honest history of a ledger: every event ever emitted and every epoch header ever
 committed. Other modules relate stores to it.
 */
module WormHistory {
  import opened WormStore

  datatype History = History(log: seq<Event>, sealed: seq<Header>) {
    /** The sequence number epoch `k` starts at. */
    function Start(k: nat): int
      requires k <= |sealed|
    {
      if k == 0 then 1 else sealed[k - 1].core.end + 1
    }

    /** The hash epoch `k` links back to. */
    function Link(k: nat): string
      requires k <= |sealed|
    {
      if k == 0 then GENESIS else sealed[k - 1].hash
    }

    /** Epoch `k` covers a non-empty stretch of the log that is already there. */
    predicate Covers(k: nat)
      requires k < |sealed|
    {
      1 <= Start(k) <= sealed[k].core.end <= |log|
    }

    /** The events sealed into epoch `k`. */
    function Block(k: nat): (block: seq<Event>)
      requires k < |sealed| && Covers(k)
      ensures block != []
    {
      log[Start(k) - 1..sealed[k].core.end]
    }

    /** Epoch `k` is the header a close builds over its block. */
    predicate EpochOk(c: Crypto, k: nat)
      requires k < |sealed|
    {
      && Covers(k)
      && |Block(k)| <= WORM_MAX_EPOCH_LEAVES
      && sealed[k] == NewHeader(c, Block(k), Link(k), k, sealed[k].core.timestamp)
    }
  }

  /** The first `n` entries: sequence numbers count them, stream ids grow, event ids never repeat. */
  ghost predicate LogOk(log: seq<Event>, n: nat)
    requires n <= |log|
  {
    n > 0 ==>
      && LogOk(log, n - 1)
      && log[n - 1].seqNo == n
      && (n > 1 ==> log[n - 2].sid < log[n - 1].sid)
      && forall i :: 0 <= i < n - 1 ==> log[i].id != log[n - 1].id
  }

  /** The first `n` sealed epochs each seal the stretch of the log after the one before. */
  ghost predicate SealedOk(c: Crypto, hist: History, n: nat)
    requires n <= |hist.sealed|
  {
    n > 0 ==> SealedOk(c, hist, n - 1) && hist.EpochOk(c, n - 1)
  }

  ghost predicate HistoryOk(c: Crypto, hist: History) {
    LogOk(hist.log, |hist.log|) && SealedOk(c, hist, |hist.sealed|)
  }

  // ----- reading the log ------------------------------------------------------------------

  lemma {:induction false} LogSeq(log: seq<Event>, n: nat, i: nat)
    requires i < n <= |log| && LogOk(log, n)
    ensures log[i].seqNo == i + 1
  {
    if i < n - 1 {
      LogSeq(log, n - 1, i);
    }
  }

  lemma {:induction false} LogSids(log: seq<Event>, n: nat, i: nat, j: nat)
    requires i < j < n <= |log| && LogOk(log, n)
    ensures log[i].sid < log[j].sid
  {
    if j < n - 1 {
      LogSids(log, n - 1, i, j);
    } else if i < j - 1 {
      LogSids(log, n - 1, i, j - 1);
    }
  }

  lemma {:induction false} LogIds(log: seq<Event>, n: nat, i: nat, j: nat)
    requires i < n <= |log| && j < n && LogOk(log, n) && log[i].id == log[j].id
    ensures i == j
  {
    if i < n - 1 && j < n - 1 {
      LogIds(log, n - 1, i, j);
    }
  }

  /** Adding entries at the end disturbs nothing. */
  lemma {:induction false} LogOkPrefix(log: seq<Event>, longer: seq<Event>, n: nat)
    requires log <= longer && n <= |log| && LogOk(log, n)
    ensures LogOk(longer, n)
  {
    if n > 0 {
      LogOkPrefix(log, longer, n - 1);
    }
  }

  // ----- reading the epochs ------------------------------------------------------------------

  lemma {:induction false} EpochOkAt(c: Crypto, hist: History, n: nat, k: nat)
    requires k < n <= |hist.sealed| && SealedOk(c, hist, n)
    ensures hist.EpochOk(c, k)
  {
    if k < n - 1 {
      EpochOkAt(c, hist, n - 1, k);
    }
  }

  /** Sealed epochs partition 1..last into consecutive ranges of at most the leaf cap. */
  lemma SealedPartition(c: Crypto, hist: History, k: nat)
    requires HistoryOk(c, hist) && k < |hist.sealed|
    ensures var core := hist.sealed[k].core;
      && core.epoch == k && 1 <= core.start == hist.Start(k) <= core.end <= |hist.log|
      && core.count == core.end - core.start + 1 <= WORM_MAX_EPOCH_LEAVES
  {
    EpochOkAt(c, hist, |hist.sealed|, k);
    var block := hist.Block(k);
    assert block[0] == hist.log[hist.Start(k) - 1];
    LogSeq(hist.log, |hist.log|, hist.Start(k) - 1);
  }

  lemma BlockEnds(hist: History, k: nat)
    requires k < |hist.sealed| && hist.Covers(k)
    ensures hist.Block(k)[0] == hist.log[hist.Start(k) - 1]
    ensures hist.Block(k)[|hist.Block(k)| - 1] == hist.log[hist.sealed[k].core.end - 1]
  {
  }

  /** A sealed epoch names the stream ids of its first and last event. */
  lemma SealedBounds(c: Crypto, hist: History, k: nat)
    requires HistoryOk(c, hist) && k < |hist.sealed| && hist.Covers(k)
    ensures hist.sealed[k].core.first == hist.log[hist.Start(k) - 1].sid
    ensures hist.sealed[k].core.last == hist.log[hist.sealed[k].core.end - 1].sid
  {
    assert hist.EpochOk(c, k) by { EpochOkAt(c, hist, |hist.sealed|, k); }
    BlockEnds(hist, k);
  }

  /** A sealed header links back, hashes its own core and is signed. */
  lemma SealedHeader(c: Crypto, hist: History, k: nat)
    requires HistoryOk(c, hist) && k < |hist.sealed|
    ensures var h := hist.sealed[k];
      h.core.prev == hist.Link(k) && h.hash == c.core(h.core) && h.signature == EpochMessage(h.hash)
  {
    EpochOkAt(c, hist, |hist.sealed|, k);
  }

  /** A sealed root is the Merkle root over the epoch's own records. */
  lemma SealedRoot(c: Crypto, hist: History, k: nat)
    requires HistoryOk(c, hist) && k < |hist.sealed| && hist.Covers(k)
    ensures hist.sealed[k].core.root == c.root(Records(hist.Block(k)))
  {
    EpochOkAt(c, hist, |hist.sealed|, k);
  }

  /** Later epochs cover later sequence numbers. */
  lemma {:induction false} StartsIncrease(c: Crypto, hist: History, j: nat, k: nat)
    requires HistoryOk(c, hist) && j < k <= |hist.sealed|
    ensures 1 <= hist.Start(j) <= hist.sealed[j].core.end < hist.Start(k) <= |hist.log| + 1
    decreases k
  {
    SealedPartition(c, hist, k - 1);
    if j < k - 1 {
      StartsIncrease(c, hist, j, k - 1);
    }
  }

  /** Only genuine heads were ever signed. */
  ghost predicate SignedHonest(hist: History, signed: set<Message>) {
    forall m {:trigger Genuine(hist, m)} :: m in signed ==> Genuine(hist, m)
  }

  ghost predicate Genuine(hist: History, m: Message) {
    match m
    case EpochMessage(hash) => exists k: nat :: k < |hist.sealed| && hist.sealed[k].hash == hash
    case AnchorMessage(epoch, hash) => 0 <= epoch < |hist.sealed| && hist.sealed[epoch].hash == hash
    case CheckpointMessage(epoch, hash, end) =>
      0 <= epoch < |hist.sealed| && hist.sealed[epoch].hash == hash && hist.sealed[epoch].core.end == end
  }
}
