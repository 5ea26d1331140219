/**
 The ingress argument walker of `bridge/intent_parser.py` and the string guard of
 `interfaces.py`. What Unicode contributes (NFC, the NFKC casefold and the general
 categories) is a parameter, held to the laws the argument needs.
 */
module ArgumentWalker {
  import opened CanonicalJson

  const MAX_ARG_DEPTH := 8
  const MAX_ARG_KEYS := 64
  const MAX_ARG_ARRAY := 256
  const MAX_STRING_LEN := 4096
  const MAX_CANONICAL_BYTES := 16384
  const MAX_ARG_NODES := MAX_CANONICAL_BYTES

  datatype Category = Cc | Cf | Zl | Zp | Other

  /** NFC, casefold after NFKC, and the general category of a character. */
  datatype Unicode = Unicode(nfc: Nfc, casefold: string -> string, category: char -> Category)

  predicate PrintableAscii(s: string) { forall i :: 0 <= i < |s| ==> 0x20 <= s[i] as int <= 0x7E }

  /**
   Section 1.2 of Unicode Standard Annex 15: NFC is idempotent, and NFKC of an NFC form is
   NFKC of the original. Beside it: no printable ASCII character has a forbidden category.
   */
  ghost predicate UnicodeLaws(u: Unicode) {
    && (forall s :: u.nfc(u.nfc(s)) == u.nfc(s))
    && (forall s :: u.casefold(u.nfc(s)) == u.casefold(s))
    && (forall c :: 0x20 <= c as int <= 0x7E ==> u.category(c) == Other)
  }

  datatype Error = DepthExceeded | SizeExceeded | IdentityInjection | IllegalCharacter | StringTooLong | NotFinite

  datatype Result<T> = Ok(value: T) | Err(error: Error)

  // ----- strings -----------------------------------------------------------------------------------

  const ZERO_WIDTH: set<int> := {0x200B, 0x200C, 0x200D, 0x2060, 0xFEFF, 0x00AD}

  predicate Forbidden(u: Unicode, c: char) {
    var cp := c as int;
    || cp in ZERO_WIDTH
    || 0x0000 <= cp <= 0x001F || 0x007F <= cp <= 0x009F || 0x202A <= cp <= 0x202E || 0x2066 <= cp <= 0x2069
    || u.category(c) != Other
  }

  predicate Clean(u: Unicode, s: string) { forall i :: 0 <= i < |s| ==> !Forbidden(u, s[i]) }

  /** The NFC form, when every character of it is allowed and it is short enough. */
  function Checked(u: Unicode, s: string): Result<string> {
    var nfc := u.nfc(s);
    if !Clean(u, nfc) then Err(IllegalCharacter)
    else if |nfc| > MAX_STRING_LEN then Err(StringTooLong)
    else Ok(nfc)
  }

  /** `reject_unsafe_string`: the scan is skipped on printable ASCII, and decides as if it were not. */
  method RejectUnsafeString(u: Unicode, s: string) returns (r: Result<string>)
    requires UnicodeLaws(u)
    ensures r == Checked(u, s)
  {
    var nfc := u.nfc(s);
    if !PrintableAscii(nfc) {
      for i := 0 to |nfc|
        invariant forall k :: 0 <= k < i ==> !Forbidden(u, nfc[k])
      {
        if Forbidden(u, nfc[i]) {
          return Err(IllegalCharacter);
        }
      }
    } else {
      PrintableIsClean(u, nfc);
    }
    if |nfc| > MAX_STRING_LEN {
      return Err(StringTooLong);
    }
    r := Ok(nfc);
  }

  lemma PrintableIsClean(u: Unicode, s: string)
    requires UnicodeLaws(u) && PrintableAscii(s)
    ensures Clean(u, s)
  {
    forall i | 0 <= i < |s|
      ensures !Forbidden(u, s[i])
    {
      assert u.category(s[i]) == Other;
    }
  }

  // ----- identity-shaped keys ------------------------------------------------------------------------

  const IDENTITY_KEYS: set<string> := {
    "tenant_id", "agent_id", "role", "tenant", "actor", "principal", "identity", "sub",
    "capabilities", "capability", "entitlement", "entitlements", "grants"}

  function WithoutFormat(u: Unicode, s: string): string {
    if s == "" then "" else (if u.category(s[0]) == Cf then "" else [s[0]]) + WithoutFormat(u, s[1..])
  }

  function IdentityFold(u: Unicode, key: string): string { WithoutFormat(u, u.casefold(key)) }

  predicate IdentityShaped(u: Unicode, key: string) { IdentityFold(u, key) in IDENTITY_KEYS }

  // ----- the walk --------------------------------------------------------------------------------------

  /** The safe form of a node and the running node count after it. */
  type Walked = Result<(Json, nat)>

  function Walk(u: Unicode, limit: nat, node: Json, depth: int, count: nat): Walked
    decreases node, 1
  {
    var n := count + 1;
    if n > limit then Err(SizeExceeded)
    else if depth > MAX_ARG_DEPTH then Err(DepthExceeded)
    else
      match node
      case Obj(members) =>
        if |members| > MAX_ARG_KEYS then Err(SizeExceeded)
        else
          (match WalkMembers(u, limit, members, |members|, depth, n)
           case Ok((rebuilt, m)) => Ok((Obj(rebuilt), m))
           case Err(e) => Err(e))
      case Arr(items) =>
        if |items| > MAX_ARG_ARRAY then Err(SizeExceeded)
        else
          (match WalkItems(u, limit, items, |items|, depth, n)
           case Ok((rebuilt, m)) => Ok((Arr(rebuilt), m))
           case Err(e) => Err(e))
      case Float(text) => if FloatToken(text) then Ok((node, n)) else Err(NotFinite)
      case Str(s) =>
        (match Checked(u, s)
         case Ok(safe) => Ok((Str(safe), n))
         case Err(e) => Err(e))
      case _ => Ok((node, n))
  }

  /** The first `n` members rebuilt. */
  function WalkMembers(
    u: Unicode, limit: nat, members: seq<Member>, n: nat, depth: int, count: nat): Result<(seq<Member>, nat)>
    requires n <= |members|
    decreases members, 0, n
  {
    if n == 0 then Ok(([], count))
    else
      match WalkMembers(u, limit, members, n - 1, depth, count)
      case Err(e) => Err(e)
      case Ok((rebuilt, m)) => WalkMember(u, limit, members, n - 1, depth, rebuilt, m)
  }

  function WalkMember(
    u: Unicode, limit: nat, members: seq<Member>, i: nat, depth: int, rebuilt: seq<Member>,
      count: nat): Result<(seq<Member>, nat)>
    requires i < |members|
    decreases members, 0, i
  {
    var key := members[i].key;
    if IdentityShaped(u, key) then Err(IdentityInjection)
    else
      match Checked(u, key)
      case Err(e) => Err(e)
      case Ok(safe) =>
        match Walk(u, limit, members[i].value, depth + 1, count)
        case Err(e) => Err(e)
        case Ok((value, m)) => Ok((Put(rebuilt, safe, value), m))
  }

  function WalkItems(u: Unicode, limit: nat, items: seq<Json>, n: nat, depth: int, count: nat): Result<(seq<Json>, nat)>
    requires n <= |items|
    decreases items, 0, n
  {
    if n == 0 then Ok(([], count))
    else
      match WalkItems(u, limit, items, n - 1, depth, count)
      case Err(e) => Err(e)
      case Ok((rebuilt, m)) =>
        match Walk(u, limit, items[n - 1], depth + 1, m)
        case Err(e) => Err(e)
        case Ok((item, m')) => Ok((rebuilt + [item], m'))
  }

  /** `_enforce_argument_safety_py`, with a given node ceiling. */
  function Enforce(u: Unicode, limit: nat, arguments: Json): Result<Json> {
    match Walk(u, limit, arguments, 1, 0)
    case Err(e) => Err(e)
    case Ok((sanitized, _)) =>
      if |Canonical(u.nfc, sanitized)| > MAX_CANONICAL_BYTES then Err(SizeExceeded) else Ok(sanitized)
  }

  // ----- the walk as the source runs it --------------------------------------------------------------

  /** The mutable running node count. */
  class NodeCounter {
    var count: nat

    constructor ()
      ensures count == 0
    {
      count := 0;
    }

    /** Count one more node; false when that is past the ceiling. */
    method Bump() returns (within: bool)
      modifies this
      ensures count == old(count) + 1 && (within <==> count <= MAX_ARG_NODES)
    {
      count := count + 1;
      within := count <= MAX_ARG_NODES;
    }
  }

  lemma {:induction false} MembersFailEarly(
    u: Unicode, limit: nat, members: seq<Member>, i: nat, n: nat, depth: int, count: nat)
    requires i <= n <= |members|
    ensures var early := WalkMembers(u, limit, members, i, depth, count);
      early.Err? ==> WalkMembers(u, limit, members, n, depth, count) == early
  {
    if i < n {
      MembersFailEarly(u, limit, members, i, n - 1, depth, count);
    }
  }

  lemma {:induction false} ItemsFailEarly(
    u: Unicode, limit: nat, items: seq<Json>, i: nat, n: nat, depth: int, count: nat)
    requires i <= n <= |items|
    ensures var early := WalkItems(u, limit, items, i, depth, count);
      early.Err? ==> WalkItems(u, limit, items, n, depth, count) == early
  {
    if i < n {
      ItemsFailEarly(u, limit, items, i, n - 1, depth, count);
    }
  }

  /** What a recursive call must return, and leave in the counter, for a walk to come out as specified. */
  predicate Returns<T(==)>(walked: Result<(T, nat)>, r: Result<T>, count: nat) {
    match walked
    case Ok((value, m)) => r == Ok(value) && count == m
    case Err(e) => r == Err(e)
  }

  method WalkNode(u: Unicode, node: Json, depth: int, counter: NodeCounter) returns (r: Result<Json>)
    requires UnicodeLaws(u)
    modifies counter
    ensures Returns(Walk(u, MAX_ARG_NODES, node, depth, old(counter.count)), r, counter.count)
    decreases node, 1
  {
    var within := counter.Bump();
    if !within {
      return Err(SizeExceeded);
    }
    if depth > MAX_ARG_DEPTH {
      return Err(DepthExceeded);
    }
    match node {
      case Obj(members) =>
        if |members| > MAX_ARG_KEYS {
          return Err(SizeExceeded);
        }
        var rebuilt := RebuildObject(u, members, depth, counter);
        r := if rebuilt.Ok? then Ok(Obj(rebuilt.value)) else Err(rebuilt.error);
      case Arr(items) =>
        if |items| > MAX_ARG_ARRAY {
          return Err(SizeExceeded);
        }
        var rebuilt := RebuildArray(u, items, depth, counter);
        r := if rebuilt.Ok? then Ok(Arr(rebuilt.value)) else Err(rebuilt.error);
      case Float(text) =>
        r := if FloatToken(text) then Ok(node) else Err(NotFinite);
      case Str(s) =>
        var safe := RejectUnsafeString(u, s);
        r := if safe.Ok? then Ok(Str(safe.value)) else Err(safe.error);
      case _ =>
        r := Ok(node);
    }
  }

  method RebuildObject(
    u: Unicode, members: seq<Member>, depth: int, counter: NodeCounter)
    returns (r: Result<seq<Member>>)
    requires UnicodeLaws(u)
    modifies counter
    ensures Returns(WalkMembers(u, MAX_ARG_NODES, members, |members|, depth, old(counter.count)), r, counter.count)
    decreases members, 0
  {
    var rebuilt: seq<Member> := [];
    for i := 0 to |members|
      invariant WalkMembers(u, MAX_ARG_NODES, members, i, depth, old(counter.count)) == Ok((rebuilt, counter.count))
    {
      MembersFailEarly(u, MAX_ARG_NODES, members, i + 1, |members|, depth, old(counter.count));
      if IdentityShaped(u, members[i].key) {
        return Err(IdentityInjection);
      }
      var safeKey := RejectUnsafeString(u, members[i].key);
      if safeKey.Err? {
        return Err(safeKey.error);
      }
      var value := WalkNode(u, members[i].value, depth + 1, counter);
      if value.Err? {
        return Err(value.error);
      }
      rebuilt := Put(rebuilt, safeKey.value, value.value);
    }
    r := Ok(rebuilt);
  }

  method RebuildArray(u: Unicode, items: seq<Json>, depth: int, counter: NodeCounter) returns (r: Result<seq<Json>>)
    requires UnicodeLaws(u)
    modifies counter
    ensures Returns(WalkItems(u, MAX_ARG_NODES, items, |items|, depth, old(counter.count)), r, counter.count)
    decreases items, 0
  {
    var rebuilt: seq<Json> := [];
    for i := 0 to |items|
      invariant WalkItems(u, MAX_ARG_NODES, items, i, depth, old(counter.count)) == Ok((rebuilt, counter.count))
    {
      ItemsFailEarly(u, MAX_ARG_NODES, items, i + 1, |items|, depth, old(counter.count));
      var item := WalkNode(u, items[i], depth + 1, counter);
      if item.Err? {
        return Err(item.error);
      }
      rebuilt := rebuilt + [item.value];
    }
    r := Ok(rebuilt);
  }

  method EnforceArgumentSafety(u: Unicode, arguments: Json) returns (r: Result<Json>)
    requires UnicodeLaws(u)
    ensures r == Enforce(u, MAX_ARG_NODES, arguments)
  {
    var counter := new NodeCounter();
    var sanitized := WalkNode(u, arguments, 1, counter);
    if sanitized.Err? {
      return Err(sanitized.error);
    }
    if |Canonical(u.nfc, sanitized.value)| > MAX_CANONICAL_BYTES {
      return Err(SizeExceeded);
    }
    r := Ok(sanitized.value);
  }
}
