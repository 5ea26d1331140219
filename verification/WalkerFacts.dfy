/**
 What the argument walker accepts and what it returns: exactly the admissible arguments,
 normalised, safe at every level, unchanged by a second walk; and its early node ceiling
 never decides anything that the byte ceiling would not.
 */
module WalkerFacts {
  import opened ArgumentWalker
  import opened CanonicalInjective
  import opened CanonicalJson
  import opened CanonicalNodes

  // ----- what is accepted ---------------------------------------------------------------------------

  predicate KeyAdmissible(u: Unicode, key: string) { !IdentityShaped(u, key) && Checked(u, key).Ok? }

  /** Depth, widths, floats, strings and keys are all within bounds. */
  predicate Admissible(u: Unicode, j: Json, depth: int) {
    depth <= MAX_ARG_DEPTH &&
    match j
    case Obj(members) =>
      |members| <= MAX_ARG_KEYS
      && forall i :: 0 <= i < |members| ==>
        KeyAdmissible(u, members[i].key) && Admissible(u, members[i].value, depth + 1)
    case Arr(items) => |items| <= MAX_ARG_ARRAY && forall i :: 0 <= i < |items| ==> Admissible(u, items[i], depth + 1)
    case Float(text) => FloatToken(text)
    case Str(s) => Checked(u, s).Ok?
    case _ => true
  }

  lemma {:induction false} MembersSum(members: seq<Member>, n: nat)
    requires n < |members|
    ensures NodesOfMembers(members[..n + 1]) == NodesOfMembers(members[..n]) + Nodes(members[n].value)
  {
    if n == 0 {
      assert members[..1] == [members[0]] && members[..1][1..] == [];
    } else {
      MembersSum(members[1..], n - 1);
      assert members[..n + 1][1..] == members[1..][..n] && members[..n][1..] == members[1..][..n - 1];
    }
  }

  lemma {:induction false} ItemsSum(items: seq<Json>, n: nat)
    requires n < |items|
    ensures NodesOfItems(items[..n + 1]) == NodesOfItems(items[..n]) + Nodes(items[n])
  {
    if n == 0 {
      assert items[..1] == [items[0]] && items[..1][1..] == [];
    } else {
      ItemsSum(items[1..], n - 1);
      assert items[..n + 1][1..] == items[1..][..n] && items[..n][1..] == items[1..][..n - 1];
    }
  }

  /**
   A walk succeeds exactly on an admissible node whose node count still fits under the
   ceiling; it returns the normalised node and adds that count.
   */
  lemma {:induction false} WalkIff(u: Unicode, limit: nat, j: Json, depth: int, count: nat)
    ensures Walk(u, limit, j, depth, count).Ok? <==> Admissible(u, j, depth) && count + Nodes(j) <= limit
    ensures Walk(u, limit, j, depth, count).Ok? ==>
      Walk(u, limit, j, depth, count).value == (Normal(u.nfc, j), count + Nodes(j))
    decreases j, 1
  {
    if count + 1 <= limit && depth <= MAX_ARG_DEPTH {
      match j {
        case Obj(members) =>
          if |members| <= MAX_ARG_KEYS {
            WalkMembersIff(u, limit, members, |members|, depth, count + 1);
            assert members[..|members|] == members;
          }
        case Arr(items) =>
          if |items| <= MAX_ARG_ARRAY {
            WalkItemsIff(u, limit, items, |items|, depth, count + 1);
            assert items[..|items|] == items;
            assert Normal(u.nfc, j).items == NormalItems(u, items, |items|);
          }
        case _ =>
      }
    }
  }

  function NormalItems(u: Unicode, items: seq<Json>, n: nat): seq<Json>
    requires n <= |items|
  {
    seq(n, i requires 0 <= i < n => Normal(u.nfc, items[i]))
  }

  lemma {:induction false} WalkMemberIff(
    u: Unicode, limit: nat, members: seq<Member>, i: nat, depth: int, rebuilt: seq<Member>, count: nat)
    requires i < |members|
    ensures var walked, m := WalkMember(u, limit, members, i, depth, rebuilt, count), members[i];
      && (walked.Ok?
          <==> KeyAdmissible(u, m.key) && Admissible(u, m.value, depth + 1) && count + Nodes(m.value) <= limit)
      && (walked.Ok? ==> walked.value == (Put(rebuilt, u.nfc(m.key), Normal(u.nfc, m.value)), count + Nodes(m.value)))
    decreases members, 0, i
  {
    WalkIff(u, limit, members[i].value, depth + 1, count);
  }

  /** The first `n` members are all admissible. */
  predicate MembersAdmissible(u: Unicode, members: seq<Member>, n: nat, depth: int)
    requires n <= |members|
  {
    forall i :: 0 <= i < n ==> KeyAdmissible(u, members[i].key) && Admissible(u, members[i].value, depth + 1)
  }

  lemma OneMoreMember(u: Unicode, members: seq<Member>, n: nat, depth: int)
    requires n < |members|
    ensures MembersAdmissible(u, members, n + 1, depth) <==>
      MembersAdmissible(u, members, n, depth) && KeyAdmissible(u, members[n].key)
        && Admissible(u, members[n].value, depth + 1)
  {
  }

  lemma WalkMembersNext(u: Unicode, limit: nat, members: seq<Member>, n: nat, depth: int, count: nat)
    requires 0 < n <= |members|
    ensures var before := WalkMembers(u, limit, members, n - 1, depth, count);
      WalkMembers(u, limit, members, n, depth, count)
        == if before.Err? then before else WalkMember(u, limit, members, n - 1, depth, before.value.0, before.value.1)
  {
  }

  lemma {:induction false} WalkMembersIff(u: Unicode, limit: nat, members: seq<Member>, n: nat, depth: int, count: nat)
    requires n <= |members| && count <= limit
    ensures var walked, total := WalkMembers(u, limit, members, n, depth, count), count + NodesOfMembers(members[..n]);
      && (walked.Ok? <==> MembersAdmissible(u, members, n, depth) && total <= limit)
      && (walked.Ok? ==> walked.value == (NormalMembers(u.nfc, members, n), total))
    decreases members, 0, n
  {
    if n > 0 {
      WalkMembersIff(u, limit, members, n - 1, depth, count);
      MembersSum(members, n - 1);
      OneMoreMember(u, members, n - 1, depth);
      var before := WalkMembers(u, limit, members, n - 1, depth, count);
      WalkMembersNext(u, limit, members, n, depth, count);
      if before.Ok? {
        WalkMemberIff(u, limit, members, n - 1, depth, before.value.0, before.value.1);
      }
    } else {
      assert members[..0] == [];
    }
  }

  lemma {:induction false} WalkItemsIff(u: Unicode, limit: nat, items: seq<Json>, n: nat, depth: int, count: nat)
    requires n <= |items| && count <= limit
    ensures var walked, total := WalkItems(u, limit, items, n, depth, count), count + NodesOfItems(items[..n]);
      && (walked.Ok? <==> (forall i :: 0 <= i < n ==> Admissible(u, items[i], depth + 1)) && total <= limit)
      && (walked.Ok? ==> walked.value == (NormalItems(u, items, n), total))
    decreases items, 0, n
  {
    if n > 0 {
      WalkItemsIff(u, limit, items, n - 1, depth, count);
      ItemsSum(items, n - 1);
      WalkIff(u, limit, items[n - 1], depth + 1, count + NodesOfItems(items[..n - 1]));
      assert NormalItems(u, items, n) == NormalItems(u, items, n - 1) + [Normal(u.nfc, items[n - 1])];
    } else {
      assert items[..0] == [] && NormalItems(u, items, 0) == [];
    }
  }

  // ----- what is returned -----------------------------------------------------------------------------

  /** A string in NFC, of allowed characters, within the length bound. */
  predicate SafeString(u: Unicode, s: string) { u.nfc(s) == s && Clean(u, s) && |s| <= MAX_STRING_LEN }

  /** Safe at every level: depth, widths, strings, and no identity-shaped key anywhere. */
  predicate Safe(u: Unicode, j: Json, depth: int) {
    depth <= MAX_ARG_DEPTH &&
    match j
    case Obj(members) =>
      |members| <= MAX_ARG_KEYS && Distinct(members)
      && forall m :: m in members ==> SafeString(u, m.key) && !IdentityShaped(u, m.key) && Safe(u, m.value, depth + 1)
    case Arr(items) => |items| <= MAX_ARG_ARRAY && forall i :: 0 <= i < |items| ==> Safe(u, items[i], depth + 1)
    case Float(text) => FloatToken(text)
    case Str(s) => SafeString(u, s)
    case _ => true
  }

  lemma CheckedIsSafe(u: Unicode, s: string)
    requires UnicodeLaws(u) && Checked(u, s).Ok?
    ensures SafeString(u, u.nfc(s))
  {
  }

  lemma {:induction false} NormalIsSafe(u: Unicode, j: Json, depth: int)
    requires UnicodeLaws(u) && Admissible(u, j, depth)
    ensures Safe(u, Normal(u.nfc, j), depth)
    decreases j, 1
  {
    match j {
      case Obj(members) => NormalMembersSafe(u, members, |members|, depth);
      case Arr(items) =>
        forall i | 0 <= i < |items|
          ensures Safe(u, Normal(u.nfc, items[i]), depth + 1)
        {
          NormalIsSafe(u, items[i], depth + 1);
        }
      case Str(s) => CheckedIsSafe(u, s);
      case _ =>
    }
  }

  lemma {:induction false} NormalMembersSafe(u: Unicode, members: seq<Member>, n: nat, depth: int)
    requires UnicodeLaws(u) && n <= |members|
    requires forall i :: 0 <= i < n ==> KeyAdmissible(u, members[i].key) && Admissible(u, members[i].value, depth + 1)
    ensures var r := NormalMembers(u.nfc, members, n);
      |r| <= n && Distinct(r)
      && forall m :: m in r ==> SafeString(u, m.key) && !IdentityShaped(u, m.key) && Safe(u, m.value, depth + 1)
    decreases members, 0, n
  {
    if n > 0 {
      var key, value := members[n - 1].key, members[n - 1].value;
      NormalMembersSafe(u, members, n - 1, depth);
      NormalIsSafe(u, value, depth + 1);
      CheckedIsSafe(u, key);
      assert IdentityFold(u, u.nfc(key)) == IdentityFold(u, key);
      PutMembers(NormalMembers(u.nfc, members, n - 1), u.nfc(key), Normal(u.nfc, value));
    }
  }

  /** A safe node is admissible and its own normal form. */
  lemma {:induction false} SafeIsNormal(u: Unicode, j: Json, depth: int)
    requires Safe(u, j, depth)
    ensures Admissible(u, j, depth) && Normal(u.nfc, j) == j
  {
    match j {
      case Obj(members) =>
        forall i | 0 <= i < |members|
          ensures KeyAdmissible(u, members[i].key) && Admissible(u, members[i].value, depth + 1)
          ensures u.nfc(members[i].key) == members[i].key && Normal(u.nfc, members[i].value) == members[i].value
        {
          assert members[i] in members;
          SafeIsNormal(u, members[i].value, depth + 1);
        }
        NormalMaps(u.nfc, members, |members|);
        assert Mapped(u.nfc, members)[..|members|] == members;
      case Arr(items) =>
        forall i | 0 <= i < |items|
          ensures Admissible(u, items[i], depth + 1) && Normal(u.nfc, items[i]) == items[i]
        {
          SafeIsNormal(u, items[i], depth + 1);
        }
        assert Normal(u.nfc, j).items == items;
      case _ =>
    }
  }

  lemma {:induction false} PutSum(members: seq<Member>, key: string, value: Json)
    ensures NodesOfMembers(Put(members, key, value)) <= NodesOfMembers(members) + Nodes(value)
  {
    if members != [] && members[0].key != key {
      PutSum(members[1..], key, value);
    }
  }

  lemma {:induction false} NormalShrinks(nfc: Nfc, j: Json)
    ensures Nodes(Normal(nfc, j)) <= Nodes(j)
    decreases j, 1
  {
    match j {
      case Obj(members) =>
        NormalMembersShrink(nfc, members, |members|);
        assert members[..|members|] == members;
      case Arr(items) =>
        NormalItemsShrink(nfc, items, Normal(nfc, j).items);
      case _ =>
    }
  }

  lemma {:induction false} NormalItemsShrink(nfc: Nfc, items: seq<Json>, r: seq<Json>)
    requires |r| == |items| && forall i :: 0 <= i < |items| ==> r[i] == Normal(nfc, items[i])
    ensures NodesOfItems(r) <= NodesOfItems(items)
    decreases items, 0
  {
    if items != [] {
      NormalShrinks(nfc, items[0]);
      NormalItemsShrink(nfc, items[1..], r[1..]);
    }
  }

  lemma {:induction false} NormalMembersShrink(nfc: Nfc, members: seq<Member>, n: nat)
    requires n <= |members|
    ensures NodesOfMembers(NormalMembers(nfc, members, n)) <= NodesOfMembers(members[..n])
    decreases members, 0, n
  {
    if n > 0 {
      NormalMembersShrink(nfc, members, n - 1);
      NormalShrinks(nfc, members[n - 1].value);
      PutSum(NormalMembers(nfc, members, n - 1), nfc(members[n - 1].key), Normal(nfc, members[n - 1].value));
      MembersSum(members, n - 1);
    }
  }

  /** What enforcement returns is the normalised input, safe at every level, and enforcing again returns it as it is. */
  lemma EnforcedIsSafe(u: Unicode, limit: nat, arguments: Json)
    requires UnicodeLaws(u) && Enforce(u, limit, arguments).Ok?
    ensures var safe := Enforce(u, limit, arguments).value;
      && safe == Normal(u.nfc, arguments) && Safe(u, safe, 1)
      && |Canonical(u.nfc, safe)| <= MAX_CANONICAL_BYTES
      && Enforce(u, limit, safe) == Ok(safe)
  {
    var safe := Normal(u.nfc, arguments);
    WalkIff(u, limit, arguments, 1, 0);
    NormalIsSafe(u, arguments, 1);
    SafeIsNormal(u, safe, 1);
    NormalShrinks(u.nfc, arguments);
    WalkIff(u, limit, safe, 1, 0);
  }

  // ----- the node ceiling --------------------------------------------------------------------------------

  lemma {:induction false} AdmissibleWellFormed(u: Unicode, j: Json, depth: int)
    requires Admissible(u, j, depth) && KeysStayApart(u.nfc, j)
    ensures WellFormed(j)
  {
    match j {
      case Obj(members) =>
        forall i | 0 <= i < |members|
          ensures WellFormed(members[i].value)
        {
          AdmissibleWellFormed(u, members[i].value, depth + 1);
        }
        assert forall i, k :: 0 <= i < k < |members| ==> u.nfc(members[i].key) != u.nfc(members[k].key);
      case Arr(items) =>
        forall i | 0 <= i < |items|
          ensures WellFormed(items[i])
        {
          AdmissibleWellFormed(u, items[i], depth + 1);
        }
      case _ =>
    }
  }

  /**
   When every object's keys stay distinct under NFC, the node ceiling changes nothing: with
   any higher ceiling, or none to speak of, exactly the same arguments are accepted, with
   the same result.
   */
  lemma CeilingNeverDecides(u: Unicode, limit: nat, arguments: Json)
    requires UnicodeLaws(u) && KeysStayApart(u.nfc, arguments) && limit >= MAX_ARG_NODES
    ensures Enforce(u, limit, arguments).Ok? <==> Enforce(u, MAX_ARG_NODES, arguments).Ok?
    ensures Enforce(u, limit, arguments).Ok? ==> Enforce(u, limit, arguments) == Enforce(u, MAX_ARG_NODES, arguments)
  {
    WalkIff(u, limit, arguments, 1, 0);
    WalkIff(u, MAX_ARG_NODES, arguments, 1, 0);
    if Enforce(u, limit, arguments).Ok? {
      var safe := Normal(u.nfc, arguments);
      AdmissibleWellFormed(u, arguments, 1);
      NodesWithinBytes(u.nfc, arguments);
      NormalIsSafe(u, arguments, 1);
      SafeIsNormal(u, safe, 1);
      assert Canonical(u.nfc, safe) == Canonical(u.nfc, arguments);
    }
  }

  // ----- where the ceiling does decide -----------------------------------------------------------------------

  /**
   Raising the ceiling changes whether arguments are accepted exactly when they are admissible,
   have more nodes than the old ceiling and no more than the new one, and normalise to bytes
   that fit.
   */
  lemma CeilingDecidesIff(u: Unicode, limit: nat, arguments: Json)
    requires limit >= MAX_ARG_NODES
    ensures Enforce(u, limit, arguments).Ok? != Enforce(u, MAX_ARG_NODES, arguments).Ok?
       <==> Admissible(u, arguments, 1) && MAX_ARG_NODES < Nodes(arguments) <= limit
              && |Canonical(u.nfc, Normal(u.nfc, arguments))| <= MAX_CANONICAL_BYTES
    ensures Enforce(u, MAX_ARG_NODES, arguments).Ok? ==>
      Enforce(u, limit, arguments) == Enforce(u, MAX_ARG_NODES, arguments)
  {
    WalkIff(u, limit, arguments, 1, 0);
    WalkIff(u, MAX_ARG_NODES, arguments, 1, 0);
  }

  /** The longest array allowed, of zeros. */
  function Zeros(): (items: seq<Json>)
    ensures |items| == MAX_ARG_ARRAY && forall i :: 0 <= i < |items| ==> items[i] == Int(0)
  {
    seq(MAX_ARG_ARRAY, i requires 0 <= i < MAX_ARG_ARRAY => Int(0))
  }

  /** One object with these keys, such an array under each. */
  function Wide(keys: seq<string>): (j: Json)
    ensures j.Obj? && |j.members| == |keys|
    ensures forall i :: 0 <= i < |keys| ==> j.members[i] == Member(keys[i], Arr(Zeros()))
  {
    Obj(seq(|keys|, i requires 0 <= i < |keys| => Member(keys[i], Arr(Zeros()))))
  }

  lemma {:induction false} ScalarSum(items: seq<Json>)
    requires forall i :: 0 <= i < |items| ==> items[i] == Int(0)
    ensures NodesOfItems(items) == |items|
  {
    if items != [] {
      ScalarSum(items[1..]);
    }
  }

  lemma {:induction false} EqualSum(members: seq<Member>, n: nat)
    requires forall i :: 0 <= i < |members| ==> Nodes(members[i].value) == n
    ensures NodesOfMembers(members) == |members| * n
  {
    if members != [] {
      EqualSum(members[1..], n);
      assert |members| * n == n + (|members| - 1) * n;
    }
  }

  lemma WideNodes(keys: seq<string>)
    ensures Nodes(Wide(keys)) == 1 + |keys| * (MAX_ARG_ARRAY + 1)
  {
    ScalarSum(Zeros());
    EqualSum(Wide(keys).members, MAX_ARG_ARRAY + 1);
  }

  /** As many different keys as an object may have, all allowed and all normalising to one. */
  predicate Aliases(u: Unicode, key: string, keys: seq<string>) {
    && |keys| == MAX_ARG_KEYS
    && (forall i, k :: 0 <= i < k < |keys| ==> keys[i] != keys[k])
    && forall i :: 0 <= i < |keys| ==> u.nfc(keys[i]) == key && KeyAdmissible(u, keys[i])
  }

  lemma WideIsFine(u: Unicode, key: string, keys: seq<string>)
    requires Aliases(u, key, keys)
    ensures WellFormed(Wide(keys)) && Admissible(u, Wide(keys), 1)
  {
    assert Admissible(u, Arr(Zeros()), 2);
  }

  lemma {:induction false} OneAlias(nfc: Nfc, key: string, members: seq<Member>, value: Json, n: nat)
    requires 0 < n <= |members| && forall i :: 0 <= i < |members| ==>
      nfc(members[i].key) == key && members[i].value == value
    ensures NormalMembers(nfc, members, n) == [Member(key, Normal(nfc, value))]
  {
    if n > 1 {
      OneAlias(nfc, key, members, value, n - 1);
    } else {
      assert NormalMembers(nfc, members, 0) == [];
    }
  }

  /** What normalising makes of it: one key. */
  function Narrow(key: string): Json { Obj([Member(key, Arr(Zeros()))]) }

  lemma WideNormal(u: Unicode, key: string, keys: seq<string>)
    requires Aliases(u, key, keys)
    ensures Normal(u.nfc, Wide(keys)) == Narrow(key)
  {
    OneAlias(u.nfc, key, Wide(keys).members, Arr(Zeros()), |keys|);
    assert Normal(u.nfc, Arr(Zeros())).items == Zeros();
  }

  lemma {:induction false} Utf8Short(t: string)
    ensures |Utf8(t)| <= 4 * |t|
  {
    if t != "" {
      Utf8Short(t[1..]);
    }
  }

  lemma {:induction false} EscapeShort(s: string)
    ensures |Escape(s)| <= 6 * |s|
  {
    if s != "" {
      EscapeShort(s[1..]);
      assert |EscapeChar(s[0])| <= 6;
    }
  }

  lemma {:induction false} ZerosText(items: seq<Json>)
    requires items != [] && forall i :: 0 <= i < |items| ==> items[i] == Int(0)
    ensures |RenderItems(items)| == 2 * |items| - 1
  {
    assert Render(Int(0)) == "0";
    if |items| > 1 {
      ZerosText(items[1..]);
    }
  }

  lemma WideMember(key: string)
    ensures |RenderMember(Member(key, Arr(Zeros())))| <= 6 * |key| + 2 * MAX_ARG_ARRAY + 4
  {
    ZerosText(Zeros());
    EscapeShort(key);
  }

  lemma NarrowFits(key: string)
    requires |key| <= 200
    ensures |Utf8(Render(Sorted(Narrow(key))))| <= MAX_CANONICAL_BYTES
  {
    var single := [Member(key, Arr(Zeros()))];
    assert Sorted(Arr(Zeros())).items == Zeros();
    assert SortedValues(single) == single;
    assert SortKeys(single) == single by {
      assert single[1..] == [] && SortKeys([]) == [];
    }
    WideMember(key);
    Utf8Short(Render(Narrow(key)));
  }

  /**
   Keys that collide are where the ceiling decides: 64 spellings of one key, with an array
   under each, are over the node ceiling, yet normalise to one key and one array. The ceiling
   refuses them; a walk that only bounded the bytes would accept them.
   */
  lemma CollidingKeysHitCeiling(u: Unicode, key: string, keys: seq<string>, limit: nat)
    requires UnicodeLaws(u) && Aliases(u, key, keys) && |key| <= 200 && limit >= 16449
    ensures WellFormed(Wide(keys))
    ensures Enforce(u, MAX_ARG_NODES, Wide(keys)) == Err(SizeExceeded)
    ensures Enforce(u, limit, Wide(keys)) == Ok(Narrow(key))
  {
    var wide := Wide(keys);
    WideNodes(keys);
    WideIsFine(u, key, keys);
    WalkIff(u, limit, wide, 1, 0);
    WideNormal(u, key, keys);
    EnforcedBytes(u, wide);
    NarrowFits(key);
    CeilingHit(u, MAX_ARG_NODES, wide, 1, 0);
  }

  lemma EnforcedBytes(u: Unicode, j: Json)
    requires UnicodeLaws(u) && Admissible(u, j, 1)
    ensures Canonical(u.nfc, Normal(u.nfc, j)) == Utf8(Render(Sorted(Normal(u.nfc, j))))
  {
    NormalIsSafe(u, j, 1);
    SafeIsNormal(u, Normal(u.nfc, j), 1);
  }

  /** An admissible node that does not fit is refused for its size, and for nothing else. */
  lemma {:induction false} CeilingHit(u: Unicode, limit: nat, j: Json, depth: int, count: nat)
    requires Admissible(u, j, depth) && count + Nodes(j) > limit
    ensures Walk(u, limit, j, depth, count) == Err(SizeExceeded)
    decreases j, 1
  {
    if count + 1 <= limit {
      match j {
        case Obj(members) =>
          assert members[..|members|] == members;
          MembersHit(u, limit, members, |members|, depth, count + 1);
        case Arr(items) =>
          assert items[..|items|] == items;
          ItemsHit(u, limit, items, |items|, depth, count + 1);
        case _ =>
      }
    }
  }

  lemma {:induction false} MembersHit(u: Unicode, limit: nat, members: seq<Member>, n: nat, depth: int, count: nat)
    requires n <= |members| && count <= limit && count + NodesOfMembers(members[..n]) > limit
    requires forall i :: 0 <= i < |members| ==>
      KeyAdmissible(u, members[i].key) && Admissible(u, members[i].value, depth + 1)
    ensures WalkMembers(u, limit, members, n, depth, count) == Err(SizeExceeded)
    decreases members, 0, n
  {
    if n > 0 {
      MembersSum(members, n - 1);
      var before := count + NodesOfMembers(members[..n - 1]);
      if before > limit {
        MembersHit(u, limit, members, n - 1, depth, count);
      } else {
        WalkMembersIff(u, limit, members, n - 1, depth, count);
        assert MembersAdmissible(u, members, n - 1, depth);
        CeilingHit(u, limit, members[n - 1].value, depth + 1, before);
      }
    }
  }

  lemma {:induction false} ItemsHit(u: Unicode, limit: nat, items: seq<Json>, n: nat, depth: int, count: nat)
    requires n <= |items| && count <= limit && count + NodesOfItems(items[..n]) > limit
    requires forall i :: 0 <= i < |items| ==> Admissible(u, items[i], depth + 1)
    ensures WalkItems(u, limit, items, n, depth, count) == Err(SizeExceeded)
    decreases items, 0, n
  {
    if n > 0 {
      ItemsSum(items, n - 1);
      var before := count + NodesOfItems(items[..n - 1]);
      if before > limit {
        ItemsHit(u, limit, items, n - 1, depth, count);
      } else {
        WalkItemsIff(u, limit, items, n - 1, depth, count);
        CeilingHit(u, limit, items[n - 1], depth + 1, before);
      }
    }
  }

  // ----- sixty-four spellings of one key ------------------------------------------------------------------------

  const K: char := 'K'
  const KELVIN: char := '\U{212A}'

  const SIX_KS := "KKKKKK"

  /** Larger bodies are refused before anything reads them. */
  const MAX_REQUEST_BODY_BYTES := 262144

  /** The spelling of six Ks whose Kelvin signs are the one bits of `bits`. */
  function Spelling(bits: nat, length: nat): (s: string)
    ensures |s| == length && forall i :: 0 <= i < length ==> s[i] == K || s[i] == KELVIN
  {
    if length == 0 then "" else Spelling(bits / 2, length - 1) + [if bits % 2 == 1 then KELVIN else K]
  }

  function Power(length: nat): nat { if length == 0 then 1 else 2 * Power(length - 1) }

  lemma {:induction false} SpellingsDiffer(a: nat, b: nat, length: nat)
    requires a < Power(length) && b < Power(length) && Spelling(a, length) == Spelling(b, length)
    ensures a == b
  {
    if length > 0 {
      var x, y := Spelling(a / 2, length - 1), Spelling(b / 2, length - 1);
      assert Spelling(a, length)[..length - 1] == x && Spelling(b, length)[..length - 1] == y;
      assert Spelling(a, length)[length - 1] == if a % 2 == 1 then KELVIN else K;
      assert Spelling(b, length)[length - 1] == if b % 2 == 1 then KELVIN else K;
      SpellingsDiffer(a / 2, b / 2, length - 1);
    }
  }

  function Spellings(): (keys: seq<string>)
    ensures |keys| == MAX_ARG_KEYS && forall i :: 0 <= i < |keys| ==> keys[i] == Spelling(i, 6)
  {
    seq(MAX_ARG_KEYS, i requires 0 <= i < MAX_ARG_KEYS => Spelling(i, 6))
  }

  /** The Kelvin sign normalises to K, alone and in any company of these two; six Ks fold to lower case. */
  ghost predicate KelvinLaws(u: Unicode) {
    && (forall bits: nat :: u.nfc(Spelling(bits, 6)) == SIX_KS)
    && u.casefold(SIX_KS) == "kkkkkk"
  }

  lemma {:induction false} NoFormat(u: Unicode, s: string)
    requires UnicodeLaws(u) && PrintableAscii(s)
    ensures WithoutFormat(u, s) == s
  {
    if s != "" {
      NoFormat(u, s[1..]);
      assert u.category(s[0]) == Other;
    }
  }

  lemma SixKsAdmissible(u: Unicode, key: string)
    requires UnicodeLaws(u) && KelvinLaws(u) && u.nfc(key) == SIX_KS
    ensures KeyAdmissible(u, key)
  {
    PrintableIsClean(u, SIX_KS);
    assert u.casefold(key) == u.casefold(u.nfc(key)) == "kkkkkk";
    NoFormat(u, "kkkkkk");
    NotIdentity();
  }

  lemma NotIdentity()
    ensures "kkkkkk" !in IDENTITY_KEYS
  {
    var k := "kkkkkk";
    forall s | s in IDENTITY_KEYS
      ensures s != k
    {
      assert k[0] == 'k';
    }
  }

  lemma SpellingsAlias(u: Unicode)
    requires UnicodeLaws(u) && KelvinLaws(u)
    ensures Aliases(u, SIX_KS, Spellings())
  {
    var keys := Spellings();
    forall i, k | 0 <= i < k < |keys|
      ensures keys[i] != keys[k]
    {
      assert Power(6) == 64 by { assert Power(3) == 8; }
      if keys[i] == keys[k] {
        SpellingsDiffer(i, k, 6);
      }
    }
    forall i | 0 <= i < |keys|
      ensures u.nfc(keys[i]) == SIX_KS && KeyAdmissible(u, keys[i])
    {
      SixKsAdmissible(u, keys[i]);
    }
  }

  lemma {:induction false} MembersText(members: seq<Member>)
    requires forall i :: 0 <= i < |members| ==> |RenderMember(members[i])| <= 552
    ensures |RenderMembers(members)| <= 553 * |members|
  {
    if members != [] {
      MembersText(members[1..]);
    }
  }

  lemma SpellingsFit()
    ensures |Utf8(Render(Wide(Spellings())))| <= MAX_REQUEST_BODY_BYTES
  {
    var keys := Spellings();
    var members := Wide(keys).members;
    forall i | 0 <= i < |members|
      ensures |RenderMember(members[i])| <= 552
    {
      WideMember(keys[i]);
    }
    MembersText(members);
    Utf8Short(Render(Wide(keys)));
  }

  /**
   The sixty-four spellings, with an array of zeros under each: a request body may hold them,
   and they are refused by the ceiling and by nothing else.
   */
  lemma KelvinHitsCeiling(u: Unicode, limit: nat)
    requires UnicodeLaws(u) && KelvinLaws(u) && limit >= 16449
    ensures var arguments := Wide(Spellings());
      && WellFormed(arguments) && |Utf8(Render(arguments))| <= MAX_REQUEST_BODY_BYTES
      && Enforce(u, MAX_ARG_NODES, arguments) == Err(SizeExceeded)
      && Enforce(u, limit, arguments) == Ok(Narrow(SIX_KS))
  {
    SpellingsAlias(u);
    SpellingsFit();
    CollidingKeysHitCeiling(u, SIX_KS, Spellings(), limit);
  }
}
