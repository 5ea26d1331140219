/**
 What the canonical bytes of a value determine: two values have the same bytes if and only
 if their NFC forms are equal as Python values, whatever order their members came in.
 */
module CanonicalInjective {
  import opened CanonicalJson
  import opened CanonicalText

  // ----- normalising keeps values well formed -----------------------------------------------------

  /** The key is not among the members. */
  predicate Lacks(members: seq<Member>, key: string) { forall i :: 0 <= i < |members| ==> members[i].key != key }

  lemma {:induction false} PutContents(members: seq<Member>, key: string, value: Json)
    requires Distinct(members)
    ensures var r := Put(members, key, value);
      && (Member(key, value) in r)
      && (forall m :: m in r && m.key != key ==> m in members)
      && (forall m :: m in members && m.key != key ==> m in r)
      && (forall m :: m in r && m.key == key ==> m.value == value)
  {
    if members != [] && members[0].key != key {
      PutContents(members[1..], key, value);
      assert members == [members[0]] + members[1..];
    }
  }

  lemma {:induction false} PutDistinct(members: seq<Member>, key: string, value: Json)
    requires Distinct(members)
    ensures Distinct(Put(members, key, value))
  {
    if members != [] && members[0].key != key {
      PutDistinct(members[1..], key, value);
      PutContents(members[1..], key, value);
      var r := Put(members[1..], key, value);
      forall i | 0 <= i < |r|
        ensures r[i].key != members[0].key
      {
        assert r[i] in r;
      }
    }
  }

  lemma {:induction false} PutLength(members: seq<Member>, key: string, value: Json)
    requires Distinct(members)
    ensures |Put(members, key, value)| == |members| + (if Lacks(members, key) then 1 else 0)
  {
    if members != [] && members[0].key != key {
      var rest := members[1..];
      PutLength(rest, key, value);
      if Lacks(rest, key) {
        assert Lacks(members, key);
      } else {
        var i :| 0 <= i < |rest| && rest[i].key == key;
        assert members[i + 1].key == key;
      }
    }
  }

  /** What one assignment does to a dict. */
  lemma PutMembers(members: seq<Member>, key: string, value: Json)
    requires Distinct(members)
    ensures var r := Put(members, key, value);
      && Distinct(r) && (Member(key, value) in r)
      && (forall m :: m in r && m.key != key ==> m in members)
      && (forall m :: m in members && m.key != key ==> m in r)
      && (forall m :: m in r && m.key == key ==> m.value == value)
      && |r| == |members| + (if Lacks(members, key) then 1 else 0)
  {
    PutContents(members, key, value);
    PutDistinct(members, key, value);
    PutLength(members, key, value);
  }

  predicate AllWellFormed(members: seq<Member>) { forall m :: m in members ==> WellFormed(m.value) }

  lemma {:induction false} NormalWellFormed(nfc: Nfc, j: Json)
    requires WellFormed(j)
    ensures WellFormed(Normal(nfc, j))
    decreases j, 1
  {
    match j {
      case Arr(items) =>
        forall i | 0 <= i < |items|
          ensures WellFormed(Normal(nfc, items[i]))
        {
          NormalWellFormed(nfc, items[i]);
        }
      case Obj(members) => NormalMembersWellFormed(nfc, members, |members|);
      case _ =>
    }
  }

  lemma {:induction false} NormalMembersWellFormed(nfc: Nfc, members: seq<Member>, n: nat)
    requires n <= |members| && forall i :: 0 <= i < |members| ==> WellFormed(members[i].value)
    ensures Distinct(NormalMembers(nfc, members, n)) && AllWellFormed(NormalMembers(nfc, members, n))
    decreases members, n
  {
    if n > 0 {
      NormalMembersWellFormed(nfc, members, n - 1);
      NormalWellFormed(nfc, members[n - 1].value);
      PutMembers(NormalMembers(nfc, members, n - 1), nfc(members[n - 1].key), Normal(nfc, members[n - 1].value));
    }
  }

  // ----- key order -------------------------------------------------------------------------------------

  lemma {:induction false} LessTotal(a: string, b: string)
    ensures a == b || Less(a, b) || Less(b, a)
    ensures !(Less(a, b) && Less(b, a)) && !Less(a, a)
  {
    if a != "" && b != "" {
      LessTotal(a[1..], b[1..]);
      assert a == [a[0]] + a[1..] && b == [b[0]] + b[1..];
    } else if a != "" {
      LessTotal(a[1..], "");
    }
  }

  lemma {:induction false} LessTransitive(a: string, b: string, c: string)
    requires Less(a, b) && Less(b, c)
    ensures Less(a, c)
  {
    if a != "" && a[0] == b[0] == c[0] {
      LessTransitive(a[1..], b[1..], c[1..]);
    }
  }

  predicate InOrder(members: seq<Member>) {
    forall i, j :: 0 <= i < j < |members| ==> Less(members[i].key, members[j].key)
  }

  lemma {:induction false} InsertInOrder(m: Member, sorted: seq<Member>)
    requires InOrder(sorted) && Lacks(sorted, m.key)
    ensures InOrder(Insert(m, sorted)) && forall x :: x in Insert(m, sorted) <==> x == m || x in sorted
  {
    if sorted != [] {
      LessTotal(m.key, sorted[0].key);
      if Less(m.key, sorted[0].key) {
        forall j | 0 <= j < |sorted|
          ensures Less(m.key, sorted[j].key)
        {
          if j > 0 {
            LessTransitive(m.key, sorted[0].key, sorted[j].key);
          }
        }
      } else {
        var rest := sorted[1..];
        InsertInOrder(m, rest);
        var r := Insert(m, rest);
        assert sorted == [sorted[0]] + rest;
        forall j | 0 <= j < |r|
          ensures Less(sorted[0].key, r[j].key)
        {
          assert r[j] in r;
        }
      }
    }
  }

  lemma {:induction false} SortInOrder(members: seq<Member>)
    requires Distinct(members)
    ensures InOrder(SortKeys(members)) && forall x :: x in SortKeys(members) <==> x in members
  {
    if members != [] {
      var rest := members[1..];
      SortInOrder(rest);
      var sorted := SortKeys(rest);
      forall i | 0 <= i < |sorted|
        ensures sorted[i].key != members[0].key
      {
        assert sorted[i] in rest;
      }
      InsertInOrder(members[0], sorted);
      assert members == [members[0]] + rest;
    }
  }

  lemma HasFirst(x: seq<Member>)
    requires x != []
    ensures exists m :: m in x
  {
    assert x[0] in x;
  }

  /** There is one sorted listing of a set of members. */
  lemma {:induction false} InOrderUnique(x: seq<Member>, y: seq<Member>)
    requires InOrder(x) && InOrder(y) && forall m :: m in x <==> m in y
    ensures x == y
  {
    if x == [] {
      if y != [] {
        HasFirst(y);
      }
    } else {
      assert x[0] in x;
      var j :| 0 <= j < |y| && y[j] == x[0];
      assert y[0] in x;
      var i :| 0 <= i < |x| && x[i] == y[0];
      LessTotal(x[0].key, y[0].key);
      assert x[0] == y[0];
      TailMembers(x);
      TailMembers(y);
      InOrderUnique(x[1..], y[1..]);
      assert x == [x[0]] + x[1..] && y == [y[0]] + y[1..];
    }
  }

  lemma TailMembers(x: seq<Member>)
    requires InOrder(x) && x != []
    ensures forall m :: m in x[1..] <==> m in x && m != x[0]
  {
    assert x == [x[0]] + x[1..];
    forall i | 1 <= i < |x|
      ensures x[i] != x[0]
    {
      LessTotal(x[0].key, x[i].key);
    }
  }

  lemma {:induction false} SortedWellFormed(j: Json)
    requires WellFormed(j)
    ensures WellFormed(Sorted(j))
  {
    match j {
      case Arr(items) =>
        forall i | 0 <= i < |items|
          ensures WellFormed(Sorted(items[i]))
        {
          SortedWellFormed(items[i]);
        }
      case Obj(members) =>
        forall i | 0 <= i < |members|
          ensures WellFormed(Sorted(members[i].value))
        {
          SortedWellFormed(members[i].value);
        }
        SortedMembersWellFormed(SortedValues(members));
      case _ =>
    }
  }

  lemma SortedMembersWellFormed(members: seq<Member>)
    requires Distinct(members) && forall i :: 0 <= i < |members| ==> WellFormed(members[i].value)
    ensures WellFormed(Obj(SortKeys(members)))
  {
    SortInOrder(members);
    var sorted := SortKeys(members);
    forall i | 0 <= i < |sorted|
      ensures WellFormed(sorted[i].value)
    {
      assert sorted[i] in members;
    }
    forall i, j | 0 <= i < j < |sorted|
      ensures sorted[i].key != sorted[j].key
    {
      LessTotal(sorted[i].key, sorted[j].key);
    }
  }

  // ----- one sorted form per Python value ---------------------------------------------------------------

  /** Where a key is found. */
  lemma {:induction false} HasIndex(members: seq<Member>, key: string) returns (i: nat)
    requires Has(members, key)
    ensures i < |members| && members[i] == Member(key, Lookup(members, key))
  {
    if members[0].key == key {
      i := 0;
    } else {
      var j := HasIndex(members[1..], key);
      i := j + 1;
    }
  }

  lemma {:induction false} LookupAt(members: seq<Member>, i: nat)
    requires Distinct(members) && i < |members|
    ensures Has(members, members[i].key) && Lookup(members, members[i].key) == members[i].value
  {
    if i > 0 {
      LookupAt(members[1..], i - 1);
    }
  }

  /** The same keys, with values that sort to the same under each. */
  predicate Alike(x: seq<Member>, y: seq<Member>) {
    && (forall i :: 0 <= i < |x| ==> Has(y, x[i].key) && Sorted(x[i].value) == Sorted(Lookup(y, x[i].key)))
    && (forall j :: 0 <= j < |y| ==> Has(x, y[j].key))
  }

  lemma AlikeListed(x: seq<Member>, y: seq<Member>)
    requires Distinct(x) && Distinct(y) && Alike(x, y)
    ensures forall m :: m in SortedValues(x) <==> m in SortedValues(y)
  {
    var sx, sy := SortedValues(x), SortedValues(y);
    forall m | m in sx
      ensures m in sy
    {
      var i :| 0 <= i < |sx| && sx[i] == m;
      var j := HasIndex(y, x[i].key);
      assert sy[j] == m;
    }
    forall m | m in sy
      ensures m in sx
    {
      var j: nat :| j < |sy| && sy[j] == m;
      var i := HasIndex(x, y[j].key);
      LookupAt(y, j);
      assert sx[i] == m;
    }
  }

  lemma ListedAlike(x: seq<Member>, y: seq<Member>)
    requires Distinct(x) && Distinct(y) && forall m :: m in SortedValues(x) <==> m in SortedValues(y)
    ensures Alike(x, y)
  {
    var sx, sy := SortedValues(x), SortedValues(y);
    forall i | 0 <= i < |x|
      ensures Has(y, x[i].key) && Sorted(x[i].value) == Sorted(Lookup(y, x[i].key))
    {
      assert sx[i] in sx;
      var j: nat :| j < |sy| && sy[j] == sx[i];
      LookupAt(y, j);
    }
    forall j | 0 <= j < |y|
      ensures Has(x, y[j].key)
    {
      assert sy[j] in sy;
      var i: nat :| i < |sx| && sx[i] == sy[j];
      LookupAt(x, i);
    }
  }

  lemma SortedMembersIff(x: seq<Member>, y: seq<Member>)
    requires Distinct(x) && Distinct(y)
    ensures SortKeys(SortedValues(x)) == SortKeys(SortedValues(y)) <==> Alike(x, y)
  {
    SortInOrder(SortedValues(x));
    SortInOrder(SortedValues(y));
    if Alike(x, y) {
      AlikeListed(x, y);
      InOrderUnique(SortKeys(SortedValues(x)), SortKeys(SortedValues(y)));
    } else if SortKeys(SortedValues(x)) == SortKeys(SortedValues(y)) {
      ListedAlike(x, y);
    }
  }

  /** Sorting the keys of every object gives equal results exactly for equal Python values. */
  lemma {:induction false} SortedIffSame(a: Json, b: Json)
    requires WellFormed(a) && WellFormed(b)
    ensures Sorted(a) == Sorted(b) <==> Same(a, b)
    decreases a
  {
    match (a, b) {
      case (Arr(x), Arr(y)) =>
        forall i | 0 <= i < |x| && i < |y|
          ensures Sorted(x[i]) == Sorted(y[i]) <==> Same(x[i], y[i])
        {
          SortedIffSame(x[i], y[i]);
        }
        SortedItemsIff(x, y);
      case (Obj(x), Obj(y)) =>
        SortedMembersIff(x, y);
        forall i | 0 <= i < |x| && Has(y, x[i].key)
          ensures Sorted(x[i].value) == Sorted(Lookup(y, x[i].key)) <==> Same(x[i].value, Lookup(y, x[i].key))
        {
          var j := HasIndex(y, x[i].key);
          SortedIffSame(x[i].value, Lookup(y, x[i].key));
        }
      case _ =>
    }
  }

  lemma SortedItemsIff(x: seq<Json>, y: seq<Json>)
    ensures Sorted(Arr(x)) == Sorted(Arr(y))
       <==> |x| == |y| && forall i :: 0 <= i < |x| ==> Sorted(x[i]) == Sorted(y[i])
  {
    var sx, sy := Sorted(Arr(x)).items, Sorted(Arr(y)).items;
    if sx == sy {
      assert forall i :: 0 <= i < |x| ==> sx[i] == Sorted(x[i]) && sy[i] == Sorted(y[i]);
    }
  }

  // ----- the theorem ----------------------------------------------------------------------------------------

  /** Two values have the same canonical bytes if and only if their NFC forms are equal. */
  lemma CanonicalIffSame(nfc: Nfc, a: Json, b: Json)
    requires WellFormed(a) && WellFormed(b)
    ensures Canonical(nfc, a) == Canonical(nfc, b) <==> Same(Normal(nfc, a), Normal(nfc, b))
  {
    var x, y := Normal(nfc, a), Normal(nfc, b);
    NormalWellFormed(nfc, a);
    NormalWellFormed(nfc, b);
    SortedIffSame(x, y);
    if Canonical(nfc, a) == Canonical(nfc, b) {
      SortedWellFormed(x);
      SortedWellFormed(y);
      Utf8Injective(Render(Sorted(x)), Render(Sorted(y)));
      assert Render(Sorted(x)) + "" == Render(Sorted(y)) + "";
      RenderUnique(Sorted(x), Sorted(y), "", "");
    }
  }
}
