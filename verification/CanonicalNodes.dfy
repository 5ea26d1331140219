/**
 How many nodes a value has against how many bytes it encodes to, and what insertion order
 does to the bytes: the early node ceiling of the argument walker rests on the first.
 */
module CanonicalNodes {
  import opened CanonicalInjective
  import opened CanonicalJson
  import opened CanonicalText

  /** The nodes `_walk` counts: containers, scalars, but not keys. */
  function Nodes(j: Json): (n: nat)
    ensures n >= 1
  {
    match j
    case Arr(items) => 1 + NodesOfItems(items)
    case Obj(members) => 1 + NodesOfMembers(members)
    case _ => 1
  }

  function NodesOfItems(items: seq<Json>): nat {
    if items == [] then 0 else Nodes(items[0]) + NodesOfItems(items[1..])
  }

  function NodesOfMembers(members: seq<Member>): nat {
    if members == [] then 0 else Nodes(members[0].value) + NodesOfMembers(members[1..])
  }

  /** The keys of every object stay distinct when normalised. */
  predicate KeysStayApart(nfc: Nfc, j: Json) {
    match j
    case Arr(items) => forall i :: 0 <= i < |items| ==> KeysStayApart(nfc, items[i])
    case Obj(members) =>
      && (forall i, k :: 0 <= i < k < |members| ==> nfc(members[i].key) != nfc(members[k].key))
      && forall i :: 0 <= i < |members| ==> KeysStayApart(nfc, members[i].value)
    case _ => true
  }

  // ----- normalising ---------------------------------------------------------------------------------

  lemma {:induction false} PutAppends(members: seq<Member>, key: string, value: Json)
    requires Lacks(members, key)
    ensures Put(members, key, value) == members + [Member(key, value)]
  {
    if members != [] {
      assert members[0].key != key;
      PutAppends(members[1..], key, value);
      assert members == [members[0]] + members[1..];
    }
  }

  /** With keys apart, normalising maps the members one by one. */
  function Mapped(nfc: Nfc, members: seq<Member>): (r: seq<Member>)
    ensures |r| == |members|
    ensures forall i :: 0 <= i < |members| ==> r[i] == Member(nfc(members[i].key), Normal(nfc, members[i].value))
  {
    seq(|members|, i requires 0 <= i < |members| => Member(nfc(members[i].key), Normal(nfc, members[i].value)))
  }

  lemma {:induction false} NormalMaps(nfc: Nfc, members: seq<Member>, n: nat)
    requires n <= |members| && forall i, k :: 0 <= i < k < |members| ==> nfc(members[i].key) != nfc(members[k].key)
    ensures NormalMembers(nfc, members, n) == Mapped(nfc, members)[..n]
  {
    if n > 0 {
      NormalMaps(nfc, members, n - 1);
      PutAppends(Mapped(nfc, members)[..n - 1], nfc(members[n - 1].key), Normal(nfc, members[n - 1].value));
    }
  }

  lemma {:induction false} SumMembers(x: seq<Member>, y: seq<Member>)
    requires |x| == |y| && forall i :: 0 <= i < |x| ==> Nodes(x[i].value) == Nodes(y[i].value)
    ensures NodesOfMembers(x) == NodesOfMembers(y)
  {
    if x != [] {
      SumMembers(x[1..], y[1..]);
    }
  }

  lemma {:induction false} SumItems(x: seq<Json>, y: seq<Json>)
    requires |x| == |y| && forall i :: 0 <= i < |x| ==> Nodes(x[i]) == Nodes(y[i])
    ensures NodesOfItems(x) == NodesOfItems(y)
  {
    if x != [] {
      SumItems(x[1..], y[1..]);
    }
  }

  lemma {:induction false} NormalKeepsNodes(nfc: Nfc, j: Json)
    requires KeysStayApart(nfc, j)
    ensures Nodes(Normal(nfc, j)) == Nodes(j)
  {
    match j {
      case Arr(items) =>
        forall i | 0 <= i < |items|
          ensures Nodes(Normal(nfc, items[i])) == Nodes(items[i])
        {
          NormalKeepsNodes(nfc, items[i]);
        }
        SumItems(Normal(nfc, j).items, items);
      case Obj(members) =>
        forall i | 0 <= i < |members|
          ensures Nodes(Normal(nfc, members[i].value)) == Nodes(members[i].value)
        {
          NormalKeepsNodes(nfc, members[i].value);
        }
        NormalMaps(nfc, members, |members|);
        assert Mapped(nfc, members)[..|members|] == Mapped(nfc, members);
        SumMembers(Mapped(nfc, members), members);
      case _ =>
    }
  }

  // ----- sorting ------------------------------------------------------------------------------------------

  lemma {:induction false} InsertKeepsSum(m: Member, sorted: seq<Member>)
    ensures NodesOfMembers(Insert(m, sorted)) == Nodes(m.value) + NodesOfMembers(sorted)
  {
    if sorted != [] && !Less(m.key, sorted[0].key) {
      InsertKeepsSum(m, sorted[1..]);
    }
  }

  lemma {:induction false} SortKeepsSum(members: seq<Member>)
    ensures NodesOfMembers(SortKeys(members)) == NodesOfMembers(members)
  {
    if members != [] {
      SortKeepsSum(members[1..]);
      InsertKeepsSum(members[0], SortKeys(members[1..]));
    }
  }

  lemma {:induction false} SortedKeepsNodes(j: Json)
    ensures Nodes(Sorted(j)) == Nodes(j)
  {
    match j {
      case Arr(items) =>
        forall i | 0 <= i < |items|
          ensures Nodes(Sorted(items[i])) == Nodes(items[i])
        {
          SortedKeepsNodes(items[i]);
        }
        SumItems(Sorted(j).items, items);
      case Obj(members) =>
        forall i | 0 <= i < |members|
          ensures Nodes(Sorted(members[i].value)) == Nodes(members[i].value)
        {
          SortedKeepsNodes(members[i].value);
        }
        SumMembers(SortedValues(members), members);
        SortKeepsSum(SortedValues(members));
      case _ =>
    }
  }

  // ----- rendering --------------------------------------------------------------------------------------------

  lemma {:induction false} NodesRendered(j: Json)
    requires WellFormed(j)
    ensures Nodes(j) <= |Render(j)|
    decreases j, 1
  {
    RenderStarts(j);
    match j {
      case Arr(items) => ItemsRendered(items);
      case Obj(members) => MembersRendered(members);
      case _ =>
    }
  }

  lemma {:induction false} ItemsRendered(items: seq<Json>)
    requires forall i :: 0 <= i < |items| ==> WellFormed(items[i])
    ensures NodesOfItems(items) <= |RenderItems(items)|
    decreases items, 0
  {
    if items != [] {
      NodesRendered(items[0]);
      ItemsRendered(items[1..]);
    }
  }

  lemma {:induction false} MembersRendered(members: seq<Member>)
    requires forall i :: 0 <= i < |members| ==> WellFormed(members[i].value)
    ensures NodesOfMembers(members) <= |RenderMembers(members)|
    decreases members, 0
  {
    if members != [] {
      NodesRendered(members[0].value);
      MembersRendered(members[1..]);
    }
  }

  /** A value whose keys stay apart has no more nodes than its canonical encoding has bytes. */
  lemma NodesWithinBytes(nfc: Nfc, j: Json)
    requires WellFormed(j) && KeysStayApart(nfc, j)
    ensures Nodes(j) <= |Canonical(nfc, j)|
  {
    var x := Normal(nfc, j);
    NormalKeepsNodes(nfc, j);
    SortedKeepsNodes(x);
    NormalWellFormed(nfc, j);
    SortedWellFormed(x);
    NodesRendered(Sorted(x));
    Utf8Longer(Render(Sorted(x)));
  }

  /** All members are the same scalar under different keys that normalise to one. */
  predicate Colliding(nfc: Nfc, key: string, members: seq<Member>) {
    && Distinct(members)
    && forall i :: 0 <= i < |members| ==> nfc(members[i].key) == key && members[i].value == Null
  }

  lemma {:induction false} CollidingNormal(nfc: Nfc, key: string, members: seq<Member>, n: nat)
    requires 0 < n <= |members| && Colliding(nfc, key, members)
    ensures NormalMembers(nfc, members, n) == [Member(key, Null)]
  {
    if n > 1 {
      CollidingNormal(nfc, key, members, n - 1);
    } else {
      assert NormalMembers(nfc, members, 0) == [];
    }
  }

  lemma {:induction false} CollidingSum(members: seq<Member>)
    requires forall i :: 0 <= i < |members| ==> members[i].value == Null
    ensures NodesOfMembers(members) == |members|
  {
    if members != [] {
      CollidingSum(members[1..]);
    }
  }

  /** Without that condition the bound fails: keys that collide are all counted, yet encode as one. */
  lemma CollidingKeysOutgrowBytes(nfc: Nfc, key: string, members: seq<Member>)
    requires members != [] && Colliding(nfc, key, members)
    ensures Nodes(Obj(members)) == |members| + 1
    ensures Canonical(nfc, Obj(members)) == Utf8(Render(Obj([Member(key, Null)])))
  {
    CollidingSum(members);
    CollidingNormal(nfc, key, members, |members|);
    var single := [Member(key, Null)];
    assert SortedValues(single) == single && SortKeys(single) == single by {
      assert single[1..] == [] && SortKeys([]) == [];
    }
  }

  // ----- insertion order -------------------------------------------------------------------------------------------

  lemma NormalIsMapped(nfc: Nfc, x: seq<Member>)
    requires forall i, k :: 0 <= i < k < |x| ==> nfc(x[i].key) != nfc(x[k].key)
    ensures Normal(nfc, Obj(x)) == Obj(Mapped(nfc, x)) && Distinct(Mapped(nfc, x))
  {
    NormalMaps(nfc, x, |x|);
    assert Mapped(nfc, x)[..|x|] == Mapped(nfc, x);
  }

  lemma {:induction false} LookupMapped(nfc: Nfc, members: seq<Member>, key: string)
    requires Has(members, key) && forall i, k :: 0 <= i < k < |members| ==> nfc(members[i].key) != nfc(members[k].key)
    ensures Has(Mapped(nfc, members), nfc(key))
    ensures Lookup(Mapped(nfc, members), nfc(key)) == Normal(nfc, Lookup(members, key))
  {
    var mapped, rest := Mapped(nfc, members), members[1..];
    assert mapped[1..] == Mapped(nfc, rest);
    if members[0].key != key {
      LookupMapped(nfc, rest, key);
      var k := KeyPosition(rest, key);
      assert nfc(members[0].key) != nfc(members[k + 1].key);
    }
  }

  lemma {:induction false} KeyPosition(members: seq<Member>, key: string) returns (i: nat)
    requires Has(members, key)
    ensures i < |members| && members[i].key == key
  {
    if members[0].key == key {
      i := 0;
    } else {
      i := KeyPosition(members[1..], key);
      i := i + 1;
    }
  }

  /** Equal values stay equal when normalised, as long as keys stay apart. */
  lemma {:induction false} SameNormal(nfc: Nfc, a: Json, b: Json)
    requires Same(a, b) && KeysStayApart(nfc, a) && KeysStayApart(nfc, b)
    ensures Same(Normal(nfc, a), Normal(nfc, b))
  {
    match (a, b) {
      case (Arr(x), Arr(y)) =>
        forall i | 0 <= i < |x|
          ensures Same(Normal(nfc, x[i]), Normal(nfc, y[i]))
        {
          SameNormal(nfc, x[i], y[i]);
        }
      case (Obj(x), Obj(y)) =>
        NormalIsMapped(nfc, x);
        NormalIsMapped(nfc, y);
        forall i | 0 <= i < |x|
          ensures Has(Mapped(nfc, y), nfc(x[i].key))
          ensures Same(Normal(nfc, x[i].value), Lookup(Mapped(nfc, y), nfc(x[i].key)))
        {
          LookupMapped(nfc, y, x[i].key);
          LookupApart(nfc, y, x[i].key);
          SameNormal(nfc, x[i].value, Lookup(y, x[i].key));
        }
        forall j | 0 <= j < |y|
          ensures Has(Mapped(nfc, x), nfc(y[j].key))
        {
          LookupMapped(nfc, x, y[j].key);
        }
      case _ =>
    }
  }

  lemma {:induction false} LookupApart(nfc: Nfc, members: seq<Member>, key: string)
    requires Has(members, key) && forall i :: 0 <= i < |members| ==> KeysStayApart(nfc, members[i].value)
    ensures KeysStayApart(nfc, Lookup(members, key))
  {
    if members[0].key != key {
      LookupApart(nfc, members[1..], key);
    }
  }

  /**
   The bytes of equal values are equal, in whatever order their members were inserted at any
   level, as long as the keys of every object stay apart.
   */
  lemma OrderDoesNotMatter(nfc: Nfc, a: Json, b: Json)
    requires WellFormed(a) && WellFormed(b) && KeysStayApart(nfc, a) && KeysStayApart(nfc, b)
    requires Same(a, b)
    ensures Canonical(nfc, a) == Canonical(nfc, b)
  {
    SameNormal(nfc, a, b);
    CanonicalIffSame(nfc, a, b);
  }

  // ----- keys that collide ---------------------------------------------------------------------------------

  datatype Value = Absent | Present(value: Json)

  /** The normal value of the last of the first `n` members under a normalised key. */
  function Last(nfc: Nfc, members: seq<Member>, n: nat, key: string): Value
    requires n <= |members|
  {
    if n == 0 then Absent
    else if nfc(members[n - 1].key) == key then Present(Normal(nfc, members[n - 1].value))
    else Last(nfc, members, n - 1, key)
  }

  function Found(members: seq<Member>, key: string): Value {
    if Has(members, key) then Present(Lookup(members, key)) else Absent
  }

  lemma {:induction false} FoundAfterPut(members: seq<Member>, key: string, value: Json, k: string)
    ensures Found(Put(members, key, value), k) == if k == key then Present(value) else Found(members, k)
  {
    var r := Put(members, key, value);
    if members == [] {
      assert r[1..] == [];
    } else if members[0].key == key {
      assert r[1..] == members[1..];
    } else {
      assert r[1..] == Put(members[1..], key, value);
      FoundAfterPut(members[1..], key, value, k);
    }
  }

  /** A normalised dict holds the last value of every key. */
  lemma {:induction false} FoundIsLast(nfc: Nfc, members: seq<Member>, n: nat, key: string)
    requires n <= |members|
    ensures Found(NormalMembers(nfc, members, n), key) == Last(nfc, members, n, key)
  {
    if n > 0 {
      FoundIsLast(nfc, members, n - 1, key);
      FoundAfterPut(NormalMembers(nfc, members, n - 1), nfc(members[n - 1].key), Normal(nfc, members[n - 1].value),
                    key);
    }
  }

  predicate SameValue(a: Value, b: Value) {
    (a.Present? <==> b.Present?) && (a.Present? ==> Same(a.value, b.value))
  }

  lemma {:induction false} FoundAt(members: seq<Member>, i: nat)
    requires Distinct(members) && i < |members|
    ensures Found(members, members[i].key) == Present(members[i].value)
  {
    if i > 0 {
      assert members[0].key != members[i].key;
      FoundAt(members[1..], i - 1);
    }
  }

  predicate FoundAlike(x: seq<Member>, y: seq<Member>, key: string) { SameValue(Found(x, key), Found(y, key)) }

  /** Objects are equal exactly when the same thing is found under every key. */
  lemma SameIffFound(x: seq<Member>, y: seq<Member>)
    requires Distinct(x) && Distinct(y)
    ensures Same(Obj(x), Obj(y)) <==> forall key :: FoundAlike(x, y, key)
  {
    if Same(Obj(x), Obj(y)) {
      forall key
        ensures FoundAlike(x, y, key)
      {
        if Has(x, key) {
          var i := KeyPosition(x, key);
          FoundAt(x, i);
        }
        if Has(y, key) {
          var j := KeyPosition(y, key);
          assert Has(x, y[j].key);
        }
      }
    }
    if forall key :: FoundAlike(x, y, key) {
      forall i | 0 <= i < |x|
        ensures Has(y, x[i].key) && Same(x[i].value, Lookup(y, x[i].key))
      {
        FoundAt(x, i);
        assert FoundAlike(x, y, x[i].key);
      }
      forall j | 0 <= j < |y|
        ensures Has(x, y[j].key)
      {
        FoundAt(y, j);
        assert FoundAlike(x, y, y[j].key);
      }
    }
  }

  /** Under the key, the last members of both have equal normal values, or neither has one. */
  predicate LastAlike(nfc: Nfc, x: seq<Member>, y: seq<Member>, key: string) {
    SameValue(Last(nfc, x, |x|, key), Last(nfc, y, |y|, key))
  }

  lemma LastIsFound(nfc: Nfc, x: seq<Member>, y: seq<Member>, key: string)
    ensures LastAlike(nfc, x, y, key) <==> FoundAlike(NormalMembers(nfc, x, |x|), NormalMembers(nfc, y, |y|), key)
  {
    FoundIsLast(nfc, x, |x|, key);
    FoundIsLast(nfc, y, |y|, key);
  }

  /** Two objects have the same bytes exactly when, under every normalised key, the last members' values agree. */
  lemma {:induction false} SameBytesIffLast(nfc: Nfc, x: seq<Member>, y: seq<Member>)
    requires WellFormed(Obj(x)) && WellFormed(Obj(y))
    ensures Canonical(nfc, Obj(x)) == Canonical(nfc, Obj(y)) <==> forall key :: LastAlike(nfc, x, y, key)
  {
    CanonicalIffSame(nfc, Obj(x), Obj(y));
    SameNormalIffLast(nfc, x, y);
  }

  lemma {:induction false} SameNormalIffLast(nfc: Nfc, x: seq<Member>, y: seq<Member>)
    requires WellFormed(Obj(x)) && WellFormed(Obj(y))
    ensures Same(Normal(nfc, Obj(x)), Normal(nfc, Obj(y))) <==> forall key :: LastAlike(nfc, x, y, key)
  {
    var nx, ny := NormalMembers(nfc, x, |x|), NormalMembers(nfc, y, |y|);
    NormalWellFormed(nfc, Obj(x));
    NormalWellFormed(nfc, Obj(y));
    SameIffFound(nx, ny);
    forall key
      ensures LastAlike(nfc, x, y, key) <==> FoundAlike(nx, ny, key)
    {
      LastIsFound(nfc, x, y, key);
    }
  }

  lemma {:induction false} LastPresent(nfc: Nfc, members: seq<Member>, n: nat, key: string)
    requires n <= |members|
    ensures Last(nfc, members, n, key).Present? <==> exists i :: 0 <= i < n && nfc(members[i].key) == key
  {
    if n > 0 {
      LastPresent(nfc, members, n - 1, key);
    }
  }

  /**
   The same members in another order have the same bytes exactly when, for each of their keys,
   the last member with the same normalised key has an equal value in both.
   */
  lemma {:induction false} OrderMattersIff(nfc: Nfc, x: seq<Member>, y: seq<Member>)
    requires WellFormed(Obj(x)) && WellFormed(Obj(y)) && forall m :: m in x <==> m in y
    ensures Canonical(nfc, Obj(x)) == Canonical(nfc, Obj(y))
       <==> forall i :: 0 <= i < |x| ==> LastAlike(nfc, x, y, nfc(x[i].key))
  {
    SameBytesIffLast(nfc, x, y);
    if forall i :: 0 <= i < |x| ==> LastAlike(nfc, x, y, nfc(x[i].key)) {
      forall key
        ensures LastAlike(nfc, x, y, key)
      {
        KeyOfEither(nfc, x, y, key);
      }
    }
  }

  /** A key no member normalises to has nothing under it in either order. */
  lemma KeyOfEither(nfc: Nfc, x: seq<Member>, y: seq<Member>, key: string)
    requires forall m :: m in x <==> m in y
    ensures LastAlike(nfc, x, y, key) || exists i :: 0 <= i < |x| && nfc(x[i].key) == key
  {
    LastPresent(nfc, x, |x|, key);
    LastPresent(nfc, y, |y|, key);
    if k :| 0 <= k < |y| && nfc(y[k].key) == key {
      assert y[k] in x;
    }
  }

  /** When two keys collide, the later one wins, so order does matter. */
  lemma CollidingOrderMatters(nfc: Nfc, a: string, b: string, v: Json, w: Json)
    requires a != b && nfc(a) == nfc(b) && WellFormed(v) && WellFormed(w) && !Same(Normal(nfc, v), Normal(nfc, w))
    ensures Canonical(nfc, Obj([Member(a, v), Member(b, w)])) != Canonical(nfc, Obj([Member(b, w), Member(a, v)]))
  {
    var x, y := [Member(a, v), Member(b, w)], [Member(b, w), Member(a, v)];
    PairNormal(nfc, Member(a, v), Member(b, w));
    PairNormal(nfc, Member(b, w), Member(a, v));
    CanonicalIffSame(nfc, Obj(x), Obj(y));
    NormalWellFormed(nfc, v);
    NormalWellFormed(nfc, w);
    SortedIffSame(Normal(nfc, v), Normal(nfc, w));
    SortedIffSame(Normal(nfc, w), Normal(nfc, v));
  }

  lemma PairNormal(nfc: Nfc, m: Member, n: Member)
    requires nfc(m.key) == nfc(n.key)
    ensures Normal(nfc, Obj([m, n])) == Obj([Member(nfc(n.key), Normal(nfc, n.value))])
  {
    var pair := [m, n];
    assert NormalMembers(nfc, pair, 0) == [];
    assert NormalMembers(nfc, pair, 1) == [Member(nfc(m.key), Normal(nfc, m.value))];
    assert NormalMembers(nfc, pair, 2) == [Member(nfc(n.key), Normal(nfc, n.value))];
  }
}
