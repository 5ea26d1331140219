/**
 Down to SHA-256. The ledger is modelled over a hash of header cores and a hash of tagged tree
 inputs; here both are built from SHA-256 over the bytes the source hashes, and a collision
 among cores is shown to be a SHA-256 collision between two different byte strings.
 */
module WormHash {
  import opened Bytes
  import opened CanonicalInjective
  import opened CanonicalJson
  import opened CanonicalNodes
  import opened Merkle
  import opened WormStore

  /** SHA-256, NFC, and the text of a stream id. */
  datatype Primitives = Primitives(sha: Sha256, nfc: Nfc, sidText: StreamId -> string)

  predicate IsAscii(s: string) { forall i :: 0 <= i < |s| ==> s[i] as int < 128 }

  /** NFC leaves ASCII alone; stream ids have distinct ASCII texts. */
  ghost predicate PrimitiveLaws(p: Primitives) {
    && (forall s :: IsAscii(s) ==> p.nfc(s) == s)
    && (forall sid :: IsAscii(p.sidText(sid)))
    && (forall sid, sid' :: p.sidText(sid) == p.sidText(sid') ==> sid == sid')
  }

  const CORE_KEYS: seq<string> := [
    "epoch", "start_seq", "end_seq", "leaf_count", "timestamp_ns",
    "merkle_root", "prev_epoch_hash", "first_stream_id", "last_stream_id"]

  /** The value under each of these keys. */
  function CoreValue(p: Primitives, core: Core, i: nat): Json {
    match i
    case 0 => Int(core.epoch)
    case 1 => Int(core.start)
    case 2 => Int(core.end)
    case 3 => Int(core.count)
    case 4 => Int(core.timestamp)
    case 5 => Str(core.root)
    case 6 => Str(core.prev)
    case 7 => Str(p.sidText(core.first))
    case _ => Str(p.sidText(core.last))
  }

  /** `_header_core`. */
  function CoreMembers(p: Primitives, core: Core): (members: seq<Member>)
    ensures |members| == 9 && forall i :: 0 <= i < 9 ==> members[i] == Member(CORE_KEYS[i], CoreValue(p, core, i))
  {
    seq(9, i requires 0 <= i < 9 => Member(CORE_KEYS[i], CoreValue(p, core, i)))
  }

  function CoreJson(p: Primitives, core: Core): Json { Obj(CoreMembers(p, core)) }

  /** The bytes an epoch hash is taken over. */
  function CoreBytes(p: Primitives, core: Core): Bytes {
    Ascii("MCPIP:WORM:EPOCH:v1") + [2] + Canonical(p.nfc, CoreJson(p, core))
  }

  /** The ledger's hashes, built from SHA-256. */
  function CryptoOf(p: Primitives): Crypto {
    Crypto(Tagged(p.sha),
           (records: seq<Bytes>) => Hex(RootOf(Tagged(p.sha), LeafDigests(Tagged(p.sha), records))),
           (core: Core) => Hex(p.sha(CoreBytes(p, core))))
  }

  lemma CryptoIsMerkled(p: Primitives)
    ensures Merkled(CryptoOf(p))
  {
  }

  /** The header texts are ASCII, as hashes in hexadecimal and the genesis link are. */
  predicate PlainCore(core: Core) { IsAscii(core.root) && IsAscii(core.prev) }

  lemma CoreValueFixed(p: Primitives, core: Core, i: nat)
    requires PrimitiveLaws(p) && PlainCore(core)
    ensures Normal(p.nfc, CoreValue(p, core, i)) == CoreValue(p, core, i) && WellFormed(CoreValue(p, core, i))
  {
  }

  lemma CoreKeyLength(i: nat)
    requires i < 9
    ensures |CORE_KEYS[i]| == [5, 9, 7, 10, 12, 11, 15, 15, 14][i] && IsAscii(CORE_KEYS[i])
  {
  }

  lemma CoreKeysApart(i: nat, j: nat)
    requires i < j < 9
    ensures CORE_KEYS[i] != CORE_KEYS[j]
  {
    CoreKeyLength(i);
    CoreKeyLength(j);
    assert CORE_KEYS[6][0] == 'p' && CORE_KEYS[7][0] == 'f';
  }

  lemma CoreJsonFields(p: Primitives, core: Core)
    requires PrimitiveLaws(p) && PlainCore(core)
    ensures Distinct(CoreMembers(p, core)) && WellFormed(CoreJson(p, core))
    ensures Normal(p.nfc, CoreJson(p, core)) == CoreJson(p, core)
  {
    var members := CoreMembers(p, core);
    forall i, j | 0 <= i < j < |members|
      ensures members[i].key != members[j].key
    {
      CoreKeysApart(i, j);
    }
    forall i | 0 <= i < |members|
      ensures p.nfc(members[i].key) == members[i].key && Normal(p.nfc, members[i].value) == members[i].value
      ensures WellFormed(members[i].value)
    {
      CoreKeyLength(i);
      CoreValueFixed(p, core, i);
    }
    NormalIsMapped(p.nfc, members);
    assert Mapped(p.nfc, members) == members;
  }

  /** Equal objects with the same keys in the same places have equal values in the same places. */
  lemma ValueAt(x: seq<Member>, y: seq<Member>, i: nat)
    requires Distinct(y) && |x| == |y| && i < |x| && x[i].key == y[i].key && Same(Obj(x), Obj(y))
    ensures Same(x[i].value, y[i].value)
  {
    LookupAt(y, i);
  }

  /** Different cores are hashed from different bytes. */
  lemma CoreBytesInjective(p: Primitives, a: Core, b: Core)
    requires PrimitiveLaws(p) && PlainCore(a) && PlainCore(b) && CoreBytes(p, a) == CoreBytes(p, b)
    ensures a == b
  {
    var domain := Ascii("MCPIP:WORM:EPOCH:v1") + [2];
    ConcatSplit(domain, Canonical(p.nfc, CoreJson(p, a)), domain, Canonical(p.nfc, CoreJson(p, b)));
    CoreJsonFields(p, a);
    CoreJsonFields(p, b);
    CanonicalIffSame(p.nfc, CoreJson(p, a), CoreJson(p, b));
    CoresSame(p, a, b);
  }

  lemma FieldSame(p: Primitives, a: Core, b: Core, i: nat)
    requires i < 9 && Same(CoreJson(p, a), CoreJson(p, b)) && Distinct(CoreMembers(p, b))
    ensures CoreValue(p, a, i) == CoreValue(p, b, i)
  {
    ValueAt(CoreMembers(p, a), CoreMembers(p, b), i);
  }

  lemma NumbersSame(p: Primitives, a: Core, b: Core)
    requires Same(CoreJson(p, a), CoreJson(p, b)) && Distinct(CoreMembers(p, b))
    ensures a.epoch == b.epoch && a.start == b.start && a.end == b.end && a.count == b.count
    ensures a.timestamp == b.timestamp
  {
    assert CoreValue(p, a, 0) == CoreValue(p, b, 0) by { FieldSame(p, a, b, 0); }
    assert CoreValue(p, a, 1) == CoreValue(p, b, 1) by { FieldSame(p, a, b, 1); }
    assert CoreValue(p, a, 2) == CoreValue(p, b, 2) by { FieldSame(p, a, b, 2); }
    assert CoreValue(p, a, 3) == CoreValue(p, b, 3) by { FieldSame(p, a, b, 3); }
    assert CoreValue(p, a, 4) == CoreValue(p, b, 4) by { FieldSame(p, a, b, 4); }
  }

  lemma TextsSame(p: Primitives, a: Core, b: Core)
    requires PrimitiveLaws(p) && Same(CoreJson(p, a), CoreJson(p, b)) && Distinct(CoreMembers(p, b))
    ensures a.root == b.root && a.prev == b.prev && a.first == b.first && a.last == b.last
  {
    assert CoreValue(p, a, 5) == CoreValue(p, b, 5) by { FieldSame(p, a, b, 5); }
    assert CoreValue(p, a, 6) == CoreValue(p, b, 6) by { FieldSame(p, a, b, 6); }
    assert CoreValue(p, a, 7) == CoreValue(p, b, 7) by { FieldSame(p, a, b, 7); }
    assert CoreValue(p, a, 8) == CoreValue(p, b, 8) by { FieldSame(p, a, b, 8); }
  }

  lemma CoresSame(p: Primitives, a: Core, b: Core)
    requires PrimitiveLaws(p) && Same(CoreJson(p, a), CoreJson(p, b)) && Distinct(CoreMembers(p, b))
    ensures a == b
  {
    NumbersSame(p, a, b);
    TextsSame(p, a, b);
  }

  function BytesOf(p: Primitives, cores: set<Core>): set<Bytes> { set core | core in cores :: CoreBytes(p, core) }

  /** Cores that collide are two different byte strings with one SHA-256 digest. */
  lemma CoreCollisionInBytes(p: Primitives, mine: set<Core>, theirs: set<Core>)
    requires PrimitiveLaws(p) && (forall core :: core in mine ==> PlainCore(core))
    requires (forall core :: core in theirs ==> PlainCore(core))
    requires Collide(CryptoOf(p).core, mine, theirs)
    ensures Collide(p.sha, BytesOf(p, mine), BytesOf(p, theirs))
  {
    var a, b :| a in mine && b in theirs && Clash(CryptoOf(p).core, a, b);
    HexInjective(p.sha(CoreBytes(p, a)), p.sha(CoreBytes(p, b)));
    if CoreBytes(p, a) == CoreBytes(p, b) {
      CoreBytesInjective(p, a, b);
    }
    assert CoreBytes(p, a) in BytesOf(p, mine) && CoreBytes(p, b) in BytesOf(p, theirs);
    Collides(p.sha, BytesOf(p, mine), BytesOf(p, theirs), CoreBytes(p, a), CoreBytes(p, b));
  }
}
