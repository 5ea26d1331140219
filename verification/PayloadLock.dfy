/**
 The payload lock of `auth/pin_validator.py`: the payload hash, the consume script that runs
 atomically in Redis, and what any sequence of attempts on one lock amounts to.
 */
module PayloadLock {
  import opened Bytes
  import opened CanonicalInjective
  import opened CanonicalJson
  import opened CanonicalNodes
  import opened Wrappers

  const PIN_MAX_ATTEMPTS := 5
  const PIN_LENGTH := 6
  const PIN_TTL_SECONDS := 300

  // ----- the payload hash ---------------------------------------------------------------------------

  function LockPayload(tenant: string, agent: string, alias: string, arguments: Json): Json {
    Obj([Member("tenant_id", Str(tenant)), Member("agent_id", Str(agent)), Member("alias", Str(alias)),
         Member("arguments", arguments)])
  }

  /** `lock_payload_hash`. */
  function PayloadHash(sha: Sha256, nfc: Nfc, tenant: string, agent: string, alias: string, arguments: Json): string {
    Hex(sha(Canonical(nfc, LockPayload(tenant, agent, alias, arguments))))
  }

  /** NFC leaves the four field names alone, as it does all ASCII. */
  ghost predicate KeepsFieldNames(nfc: Nfc) {
    nfc("tenant_id") == "tenant_id" && nfc("agent_id") == "agent_id" && nfc("alias") == "alias"
      && nfc("arguments") == "arguments"
  }

  /** The four fields, normalised. */
  lemma NormalPayload(nfc: Nfc, tenant: string, agent: string, alias: string, arguments: Json)
    requires KeepsFieldNames(nfc)
    ensures Normal(nfc, LockPayload(tenant, agent, alias, arguments))
         == LockPayload(nfc(tenant), nfc(agent), nfc(alias), Normal(nfc, arguments))
  {
    var members := LockPayload(tenant, agent, alias, arguments).members;
    FieldsFound(tenant, agent, alias, arguments);
    forall i | 0 <= i < 4
      ensures nfc(members[i].key) == members[i].key
    {
    }
    NormalIsMapped(nfc, members);
    assert Mapped(nfc, members) == LockPayload(nfc(tenant), nfc(agent), nfc(alias), Normal(nfc, arguments)).members;
  }

  /** What was approved and what is presented agree in all four fields, up to normalisation. */
  predicate SameAction(
    nfc: Nfc, tenant: string, agent: string, alias: string, arguments: Json,
    tenant': string, agent': string, alias': string, arguments': Json)
  {
    && nfc(tenant) == nfc(tenant') && nfc(agent) == nfc(agent') && nfc(alias) == nfc(alias')
    && Same(Normal(nfc, arguments), Normal(nfc, arguments'))
  }

  lemma SamePayload(
    tenant: string, agent: string, alias: string, arguments: Json, tenant': string, agent': string, alias': string,
    arguments': Json)
    ensures Same(LockPayload(tenant, agent, alias, arguments), LockPayload(tenant', agent', alias', arguments'))
      <==> tenant == tenant' && agent == agent' && alias == alias' && Same(arguments, arguments')
  {
    var x, y := LockPayload(tenant, agent, alias, arguments).members,
      LockPayload(tenant', agent', alias', arguments').members;
    FieldsFound(tenant, agent, alias, arguments);
    FieldsFound(tenant', agent', alias', arguments');
    SameFields(x, y);
    assert SameField(x, y, 0) <==> tenant == tenant';
    assert SameField(x, y, 1) <==> agent == agent';
    assert SameField(x, y, 2) <==> alias == alias';
    assert SameField(x, y, 3) <==> Same(arguments, arguments');
  }

  lemma SameFields(x: seq<Member>, y: seq<Member>)
    requires |x| == |y| == 4 && Distinct(x) && forall i :: 0 <= i < 4 ==> x[i].key == y[i].key
    ensures Same(Obj(x), Obj(y))
       <==> SameField(x, y, 0) && SameField(x, y, 1) && SameField(x, y, 2) && SameField(x, y, 3)
  {
    forall j | 0 <= j < 4
      ensures Has(x, y[j].key)
    {
      LookupAt(x, j);
    }
    if SameField(x, y, 0) && SameField(x, y, 1) && SameField(x, y, 2) && SameField(x, y, 3) {
      forall i | 0 <= i < 4
        ensures Has(y, x[i].key) && Same(x[i].value, Lookup(y, x[i].key))
      {
        assert SameField(x, y, i);
      }
    }
  }

  predicate SameField(x: seq<Member>, y: seq<Member>, i: int) {
    0 <= i < |x| && Has(y, x[i].key) && Same(x[i].value, Lookup(y, x[i].key))
  }

  lemma FieldsFound(tenant: string, agent: string, alias: string, arguments: Json)
    ensures var m := LockPayload(tenant, agent, alias, arguments).members;
      && Distinct(m)
      && Has(m, "tenant_id") && Lookup(m, "tenant_id") == Str(tenant)
      && Has(m, "agent_id") && Lookup(m, "agent_id") == Str(agent)
      && Has(m, "alias") && Lookup(m, "alias") == Str(alias)
      && Has(m, "arguments") && Lookup(m, "arguments") == arguments
  {
    var m := LockPayload(tenant, agent, alias, arguments).members;
    LookupAt(m, 0);
    LookupAt(m, 1);
    LookupAt(m, 2);
    LookupAt(m, 3);
  }

  /** The lock payload's bytes are the same exactly for the same action. */
  lemma PayloadBytesBind(
    nfc: Nfc, tenant: string, agent: string, alias: string, arguments: Json,
    tenant': string, agent': string, alias': string, arguments': Json)
    requires KeepsFieldNames(nfc) && WellFormed(arguments) && WellFormed(arguments')
    ensures Canonical(nfc, LockPayload(tenant, agent, alias, arguments))
        == Canonical(nfc, LockPayload(tenant', agent', alias', arguments'))
      <==> SameAction(nfc, tenant, agent, alias, arguments, tenant', agent', alias', arguments')
  {
    PayloadWellFormed(tenant, agent, alias, arguments);
    PayloadWellFormed(tenant', agent', alias', arguments');
    CanonicalIffSame(nfc, LockPayload(tenant, agent, alias, arguments),
                     LockPayload(tenant', agent', alias', arguments'));
    NormalPayload(nfc, tenant, agent, alias, arguments);
    NormalPayload(nfc, tenant', agent', alias', arguments');
    SamePayload(nfc(tenant), nfc(agent), nfc(alias), Normal(nfc, arguments),
                nfc(tenant'), nfc(agent'), nfc(alias'), Normal(nfc, arguments'));
  }

  lemma PayloadWellFormed(tenant: string, agent: string, alias: string, arguments: Json)
    requires WellFormed(arguments)
    ensures WellFormed(LockPayload(tenant, agent, alias, arguments))
  {
    FieldsFound(tenant, agent, alias, arguments);
  }

  lemma HexDigestsBind(sha: Sha256, x: Bytes, y: Bytes)
    ensures Collide(sha, {x}, {y}) || (Hex(sha(x)) == Hex(sha(y)) <==> x == y)
  {
    if !Collide(sha, {x}, {y}) && Hex(sha(x)) == Hex(sha(y)) {
      HexInjective(sha(x), sha(y));
      EqualDigests(sha, {x}, {y}, x, y);
    }
  }

  /**
   Two payload hashes are equal exactly when tenant, agent and alias agree under NFC and the
   arguments are equal values under NFC, unless two different encodings collide.
   */
  lemma PayloadHashBinds(
    sha: Sha256, nfc: Nfc, tenant: string, agent: string, alias: string, arguments: Json,
    tenant': string, agent': string, alias': string, arguments': Json)
    requires KeepsFieldNames(nfc) && WellFormed(arguments) && WellFormed(arguments')
    ensures var a, b := LockPayload(tenant, agent, alias, arguments), LockPayload(tenant', agent', alias', arguments');
      Collide(sha, {Canonical(nfc, a)}, {Canonical(nfc, b)})
      || (PayloadHash(sha, nfc, tenant, agent, alias, arguments)
            == PayloadHash(sha, nfc, tenant', agent', alias', arguments')
          <==> SameAction(nfc, tenant, agent, alias, arguments, tenant', agent', alias', arguments'))
  {
    HexDigestsBind(sha, Canonical(nfc, LockPayload(tenant, agent, alias, arguments)),
                   Canonical(nfc, LockPayload(tenant', agent', alias', arguments')));
    PayloadBytesBind(nfc, tenant, agent, alias, arguments, tenant', agent', alias', arguments');
  }

  // ----- the salt of a PIN digest --------------------------------------------------------------------------

  function SaltMembers(tenant: string, lockId: string, payloadHash: string): seq<Member> {
    [Member("tenant_id", Str(tenant)), Member("lock_id", Str(lockId)), Member("payload_hash", Str(payloadHash))]
  }

  /** What a PIN is digested with. */
  function PinSalt(nfc: Nfc, tenant: string, lockId: string, payloadHash: string): Bytes {
    Canonical(nfc, Obj(SaltMembers(tenant, lockId, payloadHash)))
  }

  ghost predicate KeepsSaltNames(nfc: Nfc) {
    nfc("tenant_id") == "tenant_id" && nfc("lock_id") == "lock_id" && nfc("payload_hash") == "payload_hash"
  }

  lemma SaltFound(tenant: string, lockId: string, payloadHash: string)
    ensures var m := SaltMembers(tenant, lockId, payloadHash);
      && Distinct(m) && WellFormed(Obj(m))
      && Has(m, "tenant_id") && Lookup(m, "tenant_id") == Str(tenant)
      && Has(m, "lock_id") && Lookup(m, "lock_id") == Str(lockId)
      && Has(m, "payload_hash") && Lookup(m, "payload_hash") == Str(payloadHash)
  {
    var m := SaltMembers(tenant, lockId, payloadHash);
    LookupAt(m, 0);
    LookupAt(m, 1);
    LookupAt(m, 2);
  }

  lemma NormalSalt(nfc: Nfc, tenant: string, lockId: string, payloadHash: string)
    requires KeepsSaltNames(nfc)
    ensures Normal(nfc, Obj(SaltMembers(tenant, lockId, payloadHash)))
         == Obj(SaltMembers(nfc(tenant), nfc(lockId), nfc(payloadHash)))
  {
    var members := SaltMembers(tenant, lockId, payloadHash);
    SaltFound(tenant, lockId, payloadHash);
    forall i | 0 <= i < 3
      ensures nfc(members[i].key) == members[i].key
    {
    }
    NormalIsMapped(nfc, members);
    assert Mapped(nfc, members) == SaltMembers(nfc(tenant), nfc(lockId), nfc(payloadHash));
  }

  lemma SameSalt(t: string, l: string, p: string, t': string, l': string, p': string)
    ensures Same(Obj(SaltMembers(t, l, p)), Obj(SaltMembers(t', l', p'))) <==> t == t' && l == l' && p == p'
  {
    var x, y := SaltMembers(t, l, p), SaltMembers(t', l', p');
    SaltFound(t, l, p);
    SaltFound(t', l', p');
    assert SameField(x, y, 0) <==> t == t';
    assert SameField(x, y, 1) <==> l == l';
    assert SameField(x, y, 2) <==> p == p';
    if SameField(x, y, 0) && SameField(x, y, 1) && SameField(x, y, 2) {
      forall i | 0 <= i < 3
        ensures Has(y, x[i].key) && Same(x[i].value, Lookup(y, x[i].key))
      {
        assert SameField(x, y, i);
      }
    }
  }

  /** A PIN digest is bound to one tenant, one lock and one payload: each has a salt of its own. */
  lemma PinSaltIff(nfc: Nfc, t: string, l: string, p: string, t': string, l': string, p': string)
    requires KeepsSaltNames(nfc)
    ensures PinSalt(nfc, t, l, p) == PinSalt(nfc, t', l', p')
       <==> nfc(t) == nfc(t') && nfc(l) == nfc(l') && nfc(p) == nfc(p')
  {
    SaltFound(t, l, p);
    SaltFound(t', l', p');
    CanonicalIffSame(nfc, Obj(SaltMembers(t, l, p)), Obj(SaltMembers(t', l', p')));
    NormalSalt(nfc, t, l, p);
    NormalSalt(nfc, t', l', p');
    SameSalt(nfc(t), nfc(l), nfc(p), nfc(t'), nfc(l'), nfc(p'));
  }

  // ----- the digest compare --------------------------------------------------------------------------------

  /** The bytes of a digest as the script compares them. */
  type Digest = seq<bv8>

  /** The running difference after the first `n` bytes. */
  function FoldedTo(stored: Digest, presented: Digest, n: nat): bv8
    requires n <= |stored| && n <= |presented|
  {
    if n == 0 then 0 else FoldedTo(stored, presented, n - 1) | (stored[n - 1] ^ presented[n - 1])
  }

  lemma OrIsZero(a: bv8, b: bv8, c: bv8)
    ensures a | (b ^ c) == 0 <==> a == 0 && b == c
  {
  }

  lemma {:induction false} FoldIsZeroIff(stored: Digest, presented: Digest, n: nat)
    requires n <= |stored| && n <= |presented|
    ensures FoldedTo(stored, presented, n) == 0 <==> stored[..n] == presented[..n]
  {
    if n > 0 {
      FoldIsZeroIff(stored, presented, n - 1);
      OrIsZero(FoldedTo(stored, presented, n - 1), stored[n - 1], presented[n - 1]);
      assert stored[..n] == stored[..n - 1] + [stored[n - 1]]
        && presented[..n] == presented[..n - 1] + [presented[n - 1]];
    }
  }

  /** The fold over two digests, without early exit: zero exactly when they are equal. */
  method Diff(stored: Digest, presented: Digest) returns (diff: bv8)
    ensures diff == 0 <==> stored == presented
  {
    diff := 0;
    if |stored| != |presented| {
      diff := 1;
    } else {
      for i := 0 to |stored|
        invariant diff == FoldedTo(stored, presented, i)
      {
        diff := diff | (stored[i] ^ presented[i]);
      }
      FoldIsZeroIff(stored, presented, |stored|);
      assert stored[..|stored|] == stored && presented[..|presented|] == presented;
    }
  }

  // ----- the locks -------------------------------------------------------------------------------------------

  /** A stored lock: the PIN digest, the payload hash and the attempts spent. */
  datatype Record = Record(pin: Digest, payload: string, attempts: nat)

  /** One Redis key: nothing, or a record with the instant it expires at, in milliseconds, if it does. */
  datatype Slot = Empty | Held(record: Record, expiry: Option<int>)
  {
    /** A key is gone once the clock is past its expiry; at that instant it is still there, with PTTL 0. */
    predicate Live(now: int) { Held? && (expiry.Some? ==> now <= expiry.value) }

    function Pttl(now: int): int
      requires Live(now)
    {
      if expiry.Some? then expiry.value - now else -1
    }
  }

  datatype Code = Consumed | NotFound | PinMismatch | PayloadMismatch

  /** The integer the script returns. */
  function Reply(code: Code): int {
    match code
    case Consumed => 1
    case NotFound => -1
    case PinMismatch => -2
    case PayloadMismatch => -3
  }

  /** One attempt: when, and the digests presented. */
  datatype Attempt = Attempt(now: int, pin: Digest, payload: string)

  function CodeOf(slot: Slot, a: Attempt): Code {
    if !slot.Live(a.now) then NotFound
    else if slot.record.payload != a.payload then PayloadMismatch
    else if slot.record.pin != a.pin then PinMismatch
    else Consumed
  }

  /** The key is still there, and the attempt presents exactly what it holds. */
  predicate Opens(slot: Slot, a: Attempt) {
    && InTime(slot, a.now)
    && a.payload == slot.record.payload && a.pin == slot.record.pin
  }

  /** The key is still there. */
  predicate InTime(slot: Slot, now: int) { slot.Held? && (slot.expiry.Some? ==> now <= slot.expiry.value) }

  /** One more wrong PIN on a lock: it stays, counted, until the last one allowed. */
  function Counted(slot: Slot, now: int): Slot
    requires slot.Held?
  {
    var Record(pin, payload, attempts) := slot.record;
    if attempts + 1 >= PIN_MAX_ATTEMPTS then Empty
    else Held(Record(pin, payload, attempts + 1), if slot.expiry == Some(now) then None else slot.expiry)
  }

  /** The four answers to an attempt, and what each leaves of the key. */
  predicate Answers(slot: Slot, a: Attempt, reply: int, after: Slot) {
    if !InTime(slot, a.now) then reply == -1 && after == Empty
    else if a.payload != slot.record.payload then reply == -3 && after == slot
    else if a.pin != slot.record.pin then reply == -2 && after == Counted(slot, a.now)
    else reply == 1 && after == Empty
  }

  /** What the attempt leaves of the key. */
  function SlotAfter(slot: Slot, a: Attempt): Slot {
    match CodeOf(slot, a)
    case NotFound => if slot.Live(a.now) then slot else Empty
    case PayloadMismatch => slot
    case Consumed => Empty
    case PinMismatch =>
      var spent := slot.record.attempts + 1;
      if spent >= PIN_MAX_ATTEMPTS then Empty
      else Held(slot.record.(attempts := spent), if slot.Pttl(a.now) > 0 then slot.expiry else None)
  }

  /** The text a lock is stored under. */
  type Key = string

  /** `_lock_key`. */
  function LockKey(tenant: string, lockId: string): Key { "mcpip:pinlock:" + (tenant + (":" + lockId)) }

  /** Lock ids as `register` makes them hold no colon, so the text tells tenant and id apart. */
  lemma LockKeyIff(tenant: string, lockId: string, tenant': string, lockId': string)
    requires ':' !in lockId && ':' !in lockId'
    ensures LockKey(tenant, lockId) == LockKey(tenant', lockId') <==> tenant == tenant' && lockId == lockId'
  {
    if LockKey(tenant, lockId) == LockKey(tenant', lockId') {
      var prefix := "mcpip:pinlock:";
      ConcatSplit(prefix, tenant + (":" + lockId), prefix, tenant' + (":" + lockId'));
      LastColon(tenant, lockId, tenant', lockId');
    }
  }

  /** A colon composes with nothing. */
  ghost predicate ColonSplits(nfc: Nfc) { forall a, b :: nfc(a + (":" + b)) == nfc(a) + (":" + nfc(b)) }

  /** Whatever lock ids were presented, keys that agree between tenants that agree under NFC are of one lock. */
  lemma LockKeyBinds(nfc: Nfc, tenant: string, lockId: string, tenant': string, lockId': string)
    requires ColonSplits(nfc) && nfc(tenant) == nfc(tenant') && LockKey(tenant, lockId) == LockKey(tenant', lockId')
    ensures tenant == tenant' && lockId == lockId'
  {
    var prefix := "mcpip:pinlock:";
    ConcatSplit(prefix, tenant + (":" + lockId), prefix, tenant' + (":" + lockId'));
    TenantNoLonger(nfc, tenant, lockId, tenant', lockId');
    TenantNoLonger(nfc, tenant', lockId', tenant, lockId);
    ConcatSplit(tenant, ":" + lockId, tenant', ":" + lockId');
    ConcatSplit(":", lockId, ":", lockId');
  }

  lemma TenantNoLonger(nfc: Nfc, s: string, x: string, t: string, y: string)
    requires ColonSplits(nfc) && nfc(s) == nfc(t) && s + (":" + x) == t + (":" + y)
    ensures |t| <= |s|
  {
    if |t| > |s| {
      LongerTenant(nfc, s, x, t, y);
    }
  }

  lemma LongerTenant(nfc: Nfc, s: string, x: string, t: string, y: string)
    requires ColonSplits(nfc) && s + (":" + x) == t + (":" + y) && |t| > |s|
    ensures |nfc(t)| > |nfc(s)|
  {
    var whole := s + (":" + x);
    assert whole[|s|] == ':' && whole == t + (":" + y);
    assert t[..|s|] == whole[..|s|] == s && t[|s|] == ':';
    var rest := t[|s| + 1..];
    assert t == s + (":" + rest);
    assert nfc(s + (":" + rest)) == nfc(s) + (":" + nfc(rest));
  }

  lemma LastColon(s: string, x: string, t: string, y: string)
    requires ':' !in x && ':' !in y && s + (":" + x) == t + (":" + y)
    ensures s == t && x == y
  {
    ColonIsLast(s, x);
    ColonIsLast(t, y);
    ConcatSplit(s, ":" + x, t, ":" + y);
    ConcatSplit(":", x, ":", y);
  }

  lemma ColonIsLast(s: string, x: string)
    requires ':' !in x
    ensures var whole := s + (":" + x);
      |s| < |whole| && whole[|s|] == ':' && forall i :: |s| < i < |whole| ==> whole[i] != ':'
  {
  }

  /** The lock keys of Redis, and the operations the validator runs on them. */
  class LockStore {
    var slots: map<Key, Slot>

    constructor ()
      ensures slots == map[]
    {
      slots := map[];
    }

    function At(key: Key): Slot
      reads this
    {
      if key in slots then slots[key] else Empty
    }

    /** SET NX EX: false, and nothing stored, when the key is still live. */
    method Register(key: Key, now: int, pin: Digest, payload: string) returns (created: bool)
      modifies this
      ensures created <==> !old(At(key)).Live(now)
      ensures At(key) == if created then Held(Record(pin, payload, 0), Some(now + 1000 * PIN_TTL_SECONDS))
        else old(At(key))
      ensures slots - {key} == old(slots) - {key}
    {
      created := !At(key).Live(now);
      if created {
        slots := slots[key := Held(Record(pin, payload, 0), Some(now + 1000 * PIN_TTL_SECONDS))];
      }
    }

    /** The consume script. */
    method Consume(key: Key, a: Attempt) returns (reply: int)
      modifies this
      ensures reply == Reply(CodeOf(old(At(key)), a))
      ensures At(key) == SlotAfter(old(At(key)), a)
      ensures Answers(old(At(key)), a, reply, At(key))
      ensures slots - {key} == old(slots) - {key}
    {
      var slot := At(key);
      if !slot.Live(a.now) {
        slots := slots - {key};
        return -1;
      }
      var rec := slot.record;
      if rec.payload != a.payload {
        return -3;
      }
      var diff := Diff(rec.pin, a.pin);
      if diff != 0 {
        rec := rec.(attempts := rec.attempts + 1);
        if rec.attempts >= PIN_MAX_ATTEMPTS {
          slots := slots - {key};
        } else {
          var pttl := slot.Pttl(a.now);
          if pttl > 0 {
            slots := slots[key := Held(rec, Some(a.now + pttl))];
          } else {
            slots := slots[key := Held(rec, None)];
          }
        }
        return -2;
      }
      slots := slots - {key};
      reply := 1;
    }
  }

  // ----- the validator --------------------------------------------------------------------------------------------

  /** SHA-256, NFC, scrypt and the decimal digits `\d` matches. */
  datatype Hashing = Hashing(sha: Sha256, nfc: Nfc, scrypt: (string, Bytes) -> Digest, digit: char -> bool)
  {
    function Payload(tenant: string, agent: string, alias: string, arguments: Json): string {
      PayloadHash(sha, nfc, tenant, agent, alias, arguments)
    }

    /** `_derive_pin_hash`: salted by the lock's own identity. */
    function PinDigest(pin: string, tenant: string, lockId: string, payloadHash: string): Digest {
      scrypt(pin, PinSalt(nfc, tenant, lockId, payloadHash))
    }

    /** The pattern of a PIN: six digits; its end also matches before one final newline. */
    predicate PinShaped(pin: string) {
      && (|pin| == PIN_LENGTH || (|pin| == PIN_LENGTH + 1 && pin[PIN_LENGTH] == '\n'))
      && forall i :: 0 <= i < PIN_LENGTH ==> digit(pin[i])
    }
  }

  datatype Registered = Issued(lockId: string) | BadPin | LockError

  /** `PinValidator`: what it stores for an approval and what it presents for an execution. */
  class PinValidator {
    const h: Hashing
    const store: LockStore

    constructor (h: Hashing, store: LockStore)
      ensures this.h == h && this.store == store
    {
      this.h, this.store := h, store;
    }

    method Register(
      tenant: string, agent: string, alias: string, arguments: Json, pin: string, lockId: string, now: int)
      returns (r: Registered)
      modifies store
      ensures r == BadPin <==> !h.PinShaped(pin)
      ensures r == BadPin ==> store.slots == old(store.slots)
      ensures r.Issued? <==> h.PinShaped(pin) && !old(store.At(LockKey(tenant, lockId))).Live(now)
      ensures r.Issued? ==> var payload := h.Payload(tenant, agent, alias, arguments);
        && r.lockId == lockId && !old(store.At(LockKey(tenant, lockId))).Live(now)
        && store.At(LockKey(tenant, lockId))
             == Held(Record(h.PinDigest(pin, tenant, lockId, payload), payload, 0), Some(now + 1000 * PIN_TTL_SECONDS))
      ensures r.LockError? ==>
        old(store.At(LockKey(tenant, lockId))).Live(now)
        && store.At(LockKey(tenant, lockId)) == old(store.At(LockKey(tenant, lockId)))
      ensures store.slots - {LockKey(tenant, lockId)} == old(store.slots) - {LockKey(tenant, lockId)}
    {
      if !h.PinShaped(pin) {
        return BadPin;
      }
      var payload := h.Payload(tenant, agent, alias, arguments);
      var digest := h.PinDigest(pin, tenant, lockId, payload);
      var created := store.Register(LockKey(tenant, lockId), now, digest, payload);
      r := if created then Issued(lockId) else LockError;
    }

    method Consume(tenant: string, lockId: string, agent: string, alias: string, arguments: Json, pin: string, now: int)
      returns (reply: int)
      modifies store
      ensures var payload := h.Payload(tenant, agent, alias, arguments);
        var a := Attempt(now, h.PinDigest(pin, tenant, lockId, payload), payload);
        && reply == Reply(CodeOf(old(store.At(LockKey(tenant, lockId))), a))
        && store.At(LockKey(tenant, lockId)) == SlotAfter(old(store.At(LockKey(tenant, lockId))), a)
        && Answers(old(store.At(LockKey(tenant, lockId))), a, reply, store.At(LockKey(tenant, lockId)))
      ensures store.slots - {LockKey(tenant, lockId)} == old(store.slots) - {LockKey(tenant, lockId)}
    {
      var payload := h.Payload(tenant, agent, alias, arguments);
      var digest := h.PinDigest(pin, tenant, lockId, payload);
      reply := store.Consume(LockKey(tenant, lockId), Attempt(now, digest, payload));
    }
  }

  // ----- any sequence of attempts on one lock ------------------------------------------------------------------

  /** The key after the first `n` attempts. */
  function SlotAt(slot: Slot, attempts: seq<Attempt>, n: nat): Slot
    requires n <= |attempts|
  {
    if n == 0 then slot else SlotAfter(SlotAt(slot, attempts, n - 1), attempts[n - 1])
  }

  function CodeAt(slot: Slot, attempts: seq<Attempt>, n: nat): Code
    requires n < |attempts|
  {
    CodeOf(SlotAt(slot, attempts, n), attempts[n])
  }

  /** How many of the first `n` attempts came out as `code`. */
  function Count(slot: Slot, attempts: seq<Attempt>, code: Code, n: nat): nat
    requires n <= |attempts|
  {
    if n == 0 then 0 else Count(slot, attempts, code, n - 1) + (if CodeAt(slot, attempts, n - 1) == code then 1 else 0)
  }

  /** The attempts a lock has left. */
  function Left(slot: Slot): int { if slot.Held? then PIN_MAX_ATTEMPTS - slot.record.attempts else 0 }

  /** A lock as registered, or with some wrong PINs already counted. */
  predicate Fit(slot: Slot) { slot.Held? ==> slot.record.attempts < PIN_MAX_ATTEMPTS }

  /** While the key is there its digests are the registered ones; every wrong PIN has been counted. */
  lemma {:induction false} LockKeeps(slot: Slot, attempts: seq<Attempt>, n: nat)
    requires n <= |attempts| && Fit(slot)
    ensures var s := SlotAt(slot, attempts, n);
      && Fit(s)
      && (s.Held? ==>
            slot.Held? && s.record.pin == slot.record.pin && s.record.payload == slot.record.payload
            && s.record.attempts == slot.record.attempts + Count(slot, attempts, PinMismatch, n)
            && Count(slot, attempts, Consumed, n) == 0)
      && Count(slot, attempts, PinMismatch, n) + Left(s) <= Left(slot)
      && Count(slot, attempts, Consumed, n) <= 1
      && (Count(slot, attempts, Consumed, n) == 1 ==> s == Empty && Count(slot, attempts, PinMismatch, n) < Left(slot))
  {
    if n > 0 {
      LockKeeps(slot, attempts, n - 1);
    }
  }

  /**
   Over any attempts on a freshly registered lock, at any times: at most one is answered 1,
   and then fewer than the maximum were answered -2; at most that many ever are. An attempt
   answered 1 presented exactly the registered digests.
   */
  lemma LockBounds(slot: Slot, attempts: seq<Attempt>, i: nat)
    requires slot.Held? && slot.record.attempts == 0 && i < |attempts|
    ensures Count(slot, attempts, Consumed, |attempts|) <= 1
    ensures Count(slot, attempts, PinMismatch, |attempts|) <= PIN_MAX_ATTEMPTS
    ensures Count(slot, attempts, Consumed, |attempts|) == 1 ==>
      Count(slot, attempts, PinMismatch, |attempts|) < PIN_MAX_ATTEMPTS
    ensures CodeAt(slot, attempts, i) == Consumed ==>
      attempts[i].pin == slot.record.pin && attempts[i].payload == slot.record.payload
  {
    LockKeeps(slot, attempts, |attempts|);
    LockKeeps(slot, attempts, i);
  }

  /** Any number of wrong payloads, presented in time, change nothing. */
  lemma {:induction false} WrongPayloadsAreFree(slot: Slot, attempts: seq<Attempt>, n: nat)
    requires n <= |attempts|
    requires forall i :: 0 <= i < n ==> slot.Live(attempts[i].now) && attempts[i].payload != slot.record.payload
    ensures SlotAt(slot, attempts, n) == slot && forall i :: 0 <= i < n ==> CodeAt(slot, attempts, i) == PayloadMismatch
  {
    if n > 0 {
      WrongPayloadsAreFree(slot, attempts, n - 1);
    }
  }

  /** A wrong PIN for the right payload, short of the lockout, in the very millisecond of expiry. */
  predicate LastInstant(slot: Slot, a: Attempt) {
    && slot.Held? && slot.expiry == Some(a.now)
    && a.payload == slot.record.payload && a.pin != slot.record.pin && slot.record.attempts + 1 < PIN_MAX_ATTEMPTS
  }

  /**
   An attempt makes a record that expires permanent exactly in that case; otherwise the expiry
   stays as long as the record.
   */
  lemma ExpiryKeptIff(slot: Slot, a: Attempt)
    requires slot.Held? && slot.expiry.Some?
    ensures SlotAfter(slot, a).Held? && SlotAfter(slot, a).expiry == None <==> LastInstant(slot, a)
    ensures SlotAfter(slot, a).Held? && !LastInstant(slot, a) ==> SlotAfter(slot, a).expiry == slot.expiry
  {
  }

  lemma PermanentStays(slot: Slot, a: Attempt)
    requires SlotAfter(slot, a).Held?
    ensures slot.Held? && (slot.expiry == None ==> SlotAfter(slot, a).expiry == None && !LastInstant(slot, a))
  {
  }

  predicate HitsLastInstant(slot: Slot, attempts: seq<Attempt>, i: int) {
    0 <= i < |attempts| && LastInstant(SlotAt(slot, attempts, i), attempts[i])
  }

  /** Over a run the record becomes permanent exactly when some attempt falls into that case. */
  lemma {:induction false} PermanentIff(slot: Slot, attempts: seq<Attempt>, n: nat)
    requires slot.Held? && slot.expiry.Some? && n <= |attempts| && SlotAt(slot, attempts, n).Held?
    ensures SlotAt(slot, attempts, n).expiry == None <==> exists i :: 0 <= i < n && HitsLastInstant(slot, attempts, i)
  {
    if n > 0 {
      var before := SlotAt(slot, attempts, n - 1);
      PermanentStays(before, attempts[n - 1]);
      PermanentIff(slot, attempts, n - 1);
      if before.expiry.Some? {
        ExpiryKeptIff(before, attempts[n - 1]);
        assert HitsLastInstant(slot, attempts, n - 1) <==> LastInstant(before, attempts[n - 1]);
      }
    }
  }

  /** No attempt is made at the instant of expiry. */
  predicate OffTheInstant(slot: Slot, attempts: seq<Attempt>) {
    slot.Held? && slot.expiry.Some? ==> forall i :: 0 <= i < |attempts| ==> attempts[i].now != slot.expiry.value
  }

  /** Over any attempts off that instant the expiry never moves, so nothing succeeds after it. */
  lemma {:induction false} ExpiryNeverMoves(slot: Slot, attempts: seq<Attempt>, n: nat)
    requires n <= |attempts| && slot.Held? && slot.expiry.Some? && OffTheInstant(slot, attempts)
    ensures var s := SlotAt(slot, attempts, n);
      && (s.Held? ==> s.expiry == slot.expiry)
      && (n < |attempts| && attempts[n].now > slot.expiry.value ==> CodeAt(slot, attempts, n) == NotFound)
  {
    if n > 0 {
      ExpiryNeverMoves(slot, attempts, n - 1);
    }
  }

  /** At the instant itself a wrong PIN makes the lock outlive its time to live for good. */
  lemma InstantOutlives(slot: Slot, a: Attempt, later: Attempt)
    requires slot.Held? && slot.expiry == Some(a.now) && slot.record.attempts < PIN_MAX_ATTEMPTS - 1
    requires a.payload == slot.record.payload && a.pin != slot.record.pin
    requires later.payload == slot.record.payload && later.pin == slot.record.pin
    ensures CodeOf(SlotAfter(slot, a), later) == Consumed
  {
  }
}
