/**
 Soundness down to SHA-256. With the ledger's hashes built from SHA-256, an accepted store is
 honest, or two different byte strings it and the honest history hash have one digest.
 */
module WormSha {
  import opened Bytes
  import opened Merkle
  import opened WormHash
  import opened WormHistory
  import opened WormSoundness
  import opened WormStore
  import opened WormVerify

  /** The bytes hashed for a tree over these records; no records count as one empty one. */
  function TreeBytes(p: Primitives, records: seq<Bytes>): set<Bytes> {
    SerialAll(TreeInputs(Tagged(p.sha), Effective(records)))
  }

  /** The sealed records of some epoch and the stored ones in its place collide. */
  ghost predicate RecordBytesCollide(p: Primitives, hist: History, records: map<int, Bytes>, k: nat)
    requires k < |hist.sealed| && hist.Covers(k)
  {
    Collide(p.sha, TreeBytes(p, SealedRecords(hist, k)),
            TreeBytes(p, Present(records, hist.Start(k), hist.sealed[k].core.end)))
  }

  /** A sealed byte string and a stored one collide, among header bytes or among those of one epoch's tree. */
  ghost predicate BytesCollide(p: Primitives, hist: History, snap: Snapshot) {
    || Collide(p.sha, BytesOf(p, SealedCores(hist)), BytesOf(p, StoredCores(snap.headers)))
    || exists k: nat :: k < |hist.sealed| && hist.Covers(k)
         && RecordBytesCollide(p, hist, AllRecords(snap.events), k)
  }

  predicate PlainHeaders(headers: seq<EpochEntry>) {
    forall e :: e in headers && e.fields.Readable? ==> PlainCore(e.fields.header.core)
  }

  // ----- sealed headers are plain ----------------------------------------------------------------------

  lemma HexPlain(b: Bytes)
    ensures IsAscii(Hex(b))
  {
    var s := Hex(b);
    forall i | 0 <= i < |s|
      ensures s[i] as int < 128
    {
      assert s[i] in s;
      assert forall k :: 0 <= k < 16 ==> HEX_DIGITS[k] as int < 128;
    }
  }

  /** Hash texts are ASCII. */
  ghost predicate PlainHashes(c: Crypto) {
    (forall core :: IsAscii(c.core(core))) && forall records :: IsAscii(c.root(records))
  }

  lemma CryptoIsPlain(p: Primitives)
    ensures PlainHashes(CryptoOf(p))
  {
    forall core
      ensures IsAscii(CryptoOf(p).core(core))
    {
      HexPlain(p.sha(CoreBytes(p, core)));
    }
    forall records
      ensures IsAscii(CryptoOf(p).root(records))
    {
      HexPlain(RootOf(Tagged(p.sha), LeafDigests(Tagged(p.sha), records)));
    }
  }

  lemma SealedIsPlain(c: Crypto, hist: History, k: nat)
    requires PlainHashes(c) && HistoryOk(c, hist) && k < |hist.sealed|
    ensures PlainCore(hist.sealed[k].core)
  {
    SealedPartition(c, hist, k);
    SealedRoot(c, hist, k);
    SealedHeader(c, hist, k);
    if k > 0 {
      SealedHeader(c, hist, k - 1);
    } else {
      assert IsAscii(GENESIS);
    }
  }

  lemma SealedArePlain(c: Crypto, hist: History)
    requires PlainHashes(c) && HistoryOk(c, hist)
    ensures forall core :: core in SealedCores(hist) ==> PlainCore(core)
  {
    forall core | core in SealedCores(hist)
      ensures PlainCore(core)
    {
      var k: nat :| k < |hist.sealed| && hist.sealed[k].core == core;
      SealedIsPlain(c, hist, k);
    }
  }

  // ----- collisions of trees -----------------------------------------------------------------------------

  lemma TreeFullSized(p: Primitives, records: seq<Bytes>)
    requires records != []
    ensures forall x :: x in TreeInputs(Tagged(p.sha), records) ==> FullSized(x)
  {
    NodeInputsFullSized(Tagged(p.sha), LeafDigests(Tagged(p.sha), records));
  }

  lemma TreesCollideInBytes(p: Primitives, mine: seq<Bytes>, theirs: seq<Bytes>)
    requires mine != [] && TreesCollide(CryptoOf(p), mine, theirs)
    ensures Collide(p.sha, TreeBytes(p, mine), TreeBytes(p, theirs))
  {
    var h := Tagged(p.sha);
    TreeFullSized(p, mine);
    TreeFullSized(p, Effective(theirs));
    CollideSerial(p.sha, TreeInputs(h, mine), TreeInputs(h, Effective(theirs)));
  }

  lemma StoreCollidesInBytes(p: Primitives, hist: History, snap: Snapshot)
    requires PrimitiveLaws(p) && HistoryOk(CryptoOf(p), hist) && PlainHeaders(snap.headers)
    requires StoreCollides(CryptoOf(p), hist, snap)
    ensures BytesCollide(p, hist, snap)
  {
    var c, records := CryptoOf(p), AllRecords(snap.events);
    if Collide(c.core, SealedCores(hist), StoredCores(snap.headers)) {
      CryptoIsPlain(p);
      SealedArePlain(c, hist);
      CoreCollisionInBytes(p, SealedCores(hist), StoredCores(snap.headers));
    } else {
      var k: nat :| k < |hist.sealed| && hist.Covers(k) && RecordsCollide(c, hist, records, k);
      TreesCollideInBytes(p, SealedRecords(hist, k), Present(records, hist.Start(k), hist.sealed[k].core.end));
      assert RecordBytesCollide(p, hist, records, k);
    }
  }

  /**
   A store that verifies under SHA-256 is the honest history as far as acceptance pins it, or
   holds a byte string that has the digest of a different one the history holds.
   */
  lemma AcceptedStoreInBytes(p: Primitives, hist: History, signed: set<Message>, snap: Snapshot)
    requires PrimitiveLaws(p) && HistoryOk(CryptoOf(p), hist) && SignedHonest(hist, signed)
    requires PlainHeaders(snap.headers) && VerdictOf(CryptoOf(p), signed, snap) == INTACT
    ensures BytesCollide(p, hist, snap)
      || (0 <= Claimed(snap) <= |hist.sealed|
          && ChainPinned(hist, snap, Claimed(snap))
          && EventsPinned(hist, snap, Claimed(snap))
          && HotPinned(hist, snap, Claimed(snap))
          && WitnessReached(hist, snap, Claimed(snap)))
  {
    CryptoIsMerkled(p);
    AcceptedStoreIsHonest(CryptoOf(p), hist, signed, snap);
    if StoreCollides(CryptoOf(p), hist, snap) {
      StoreCollidesInBytes(p, hist, snap);
    }
  }
}
