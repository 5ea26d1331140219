/**
 The posture floor of `app/main.py`: which targets overlap, the scan a registration is checked
 by, and what sequences of registrations can do to the weakest posture a resource is
 reachable at.
 */
module PostureFloor {
  import opened Targets
  import opened Wrappers

  const MAX_TARGET_LEN := 512
  const MAX_AGENT_ID_LEN := 256

  // ----- overlap ------------------------------------------------------------------------------------

  /** Where "://" first occurs, or the end. */
  function Separator(t: string): (i: nat)
    ensures i <= |t| && (i < |t| ==> i + 3 <= |t| && t[i..i + 3] == "://")
  {
    if |t| < 3 then |t| else if t[..3] == "://" then 0 else
      var i := Separator(t[1..]);
      assert i < |t| - 1 ==> t[1..][i..i + 3] == t[i + 1..i + 4];
      i + 1
  }

  /** A canonical target as it is compared: a plain name, or a scheme and segments. */
  datatype Shape = Plain(text: string) | Pattern(head: string, parts: seq<string>)

  function ShapeOf(t: string): Shape {
    var i := Separator(t);
    if i == |t| then Plain(t) else Pattern(t[..i], Split(t[i + 3..]))
  }

  predicate Placeholder(segment: string) {
    |segment| >= 2 && segment[0] == '{' && segment[|segment| - 1] == '}'
  }

  /** `_target_subsumes`. */
  predicate Subsumes(broad: string, narrow: string) {
    broad == narrow ||
    match (ShapeOf(broad), ShapeOf(narrow))
    case (Pattern(h, b), Pattern(k, n)) =>
      h == k && |b| == |n| && forall i :: 0 <= i < |b| ==> Placeholder(b[i]) || Placeholder(n[i]) || b[i] == n[i]
    case _ => false
  }

  /** Something a call can address: a plain name, or a concrete path under a scheme. */
  datatype Resource = Named(text: string) | Path(head: string, segments: seq<string>)

  /** A placeholder stands for any one segment; everything else for itself. */
  predicate Covers(t: string, r: Resource) {
    match (ShapeOf(t), r)
    case (Plain(x), Named(y)) => x == y
    case (Pattern(h, parts), Path(k, segments)) =>
      h == k && |parts| == |segments| && forall i :: 0 <= i < |parts| ==>
        Placeholder(parts[i]) || parts[i] == segments[i]
    case _ => false
  }

  /** A resource two overlapping patterns share. */
  function Shared(a: string, b: string): Resource {
    match (ShapeOf(a), ShapeOf(b))
    case (Pattern(h, p), Pattern(_, q)) =>
      Path(h, seq(|p|, i requires 0 <= i < |p| => if Placeholder(p[i]) && i < |q| then q[i] else p[i]))
    case (Plain(x), _) => Named(x)
    case (Pattern(h, p), _) => Path(h, p)
  }

  /**
   Overlap is exact: two targets subsume one another, in either order, if and only if some
   resource is covered by both.
   */
  lemma SubsumesIff(a: string, b: string)
    ensures Subsumes(a, b) <==> exists r :: Covers(a, r) && Covers(b, r)
    ensures Subsumes(a, b) <==> Subsumes(b, a)
  {
    if Subsumes(a, b) {
      assert Covers(a, Shared(a, b)) && Covers(b, Shared(a, b));
    }
    if r :| Covers(a, r) && Covers(b, r) {
      PlainText(a);
      PlainText(b);
    }
  }

  lemma PlainText(t: string)
    ensures ShapeOf(t).Plain? ==> ShapeOf(t).text == t
  {
  }

  // ----- posture ------------------------------------------------------------------------------------------

  function RiskRank(risk: string): Option<int> {
    if risk == "auto" then Some(0) else if risk == "pin_required" then Some(1) else None
  }

  function ClassRank(classification: string): Option<int> {
    if classification == "unclassified" then Some(0) else if classification == "restricted" then Some(1) else None
  }

  /** A registered alias. */
  datatype Entry = Entry(alias: string, target: string, risk: string, classification: string,
                         compartment: Option<string>)

  predicate Weaker(risk: string, classification: string, existing: Entry) {
    || RiskRank(risk).GetOr(-1) < RiskRank(existing.risk).GetOr(0)
    || ClassRank(classification).GetOr(-1) < ClassRank(existing.classification).GetOr(0)
  }

  /** Canonicalisation as the comparisons use it: any function of targets will do for what follows. */
  type Canon = string -> string

  function CanonOf(u: Url): Canon { (t: string) => if Foldable(u, t) then Canonical(u, t) else t }

  predicate AllFoldable(u: Url, entries: seq<Entry>) {
    forall i :: 0 <= i < |entries| ==> Foldable(u, entries[i].target)
  }

  /** The existing entry overlaps the target and is stricter than the new posture. */
  predicate Conflicts(canon: Canon, e: Entry, target: string, risk: string, classification: string) {
    (Subsumes(canon(e.target), canon(target)) || Subsumes(canon(target), canon(e.target)))
      && Weaker(risk, classification, e)
  }

  predicate ConflictIn(canon: Canon, entries: seq<Entry>, target: string, risk: string, classification: string) {
    exists i :: 0 <= i < |entries| && Conflicts(canon, entries[i], target, risk, classification)
  }

  /** The first of the entries that conflicts. */
  predicate ConflictsFirst(
    canon: Canon, entries: seq<Entry>, i: int, target: string, risk: string, classification: string)
  {
    && 0 <= i < |entries| && Conflicts(canon, entries[i], target, risk, classification)
    && forall k :: 0 <= k < i ==> !Conflicts(canon, entries[k], target, risk, classification)
  }

  lemma FirstIsOne(
    canon: Canon, entries: seq<Entry>, i: int, target: string, risk: string, classification: string)
    requires ConflictsFirst(canon, entries, i, target, risk, classification)
    ensures ConflictIn(canon, entries, target, risk, classification)
    ensures forall k :: ConflictsFirst(canon, entries, k, target, risk, classification) ==> k == i
  {
    assert Conflicts(canon, entries[i], target, risk, classification);
  }

  /** The alias is that of a conflicting entry without compartment. */
  ghost predicate Open(
    canon: Canon, entries: seq<Entry>, alias: string, target: string, risk: string, classification: string)
  {
    exists i ::
      && 0 <= i < |entries| && entries[i].alias == alias && entries[i].compartment == None
      && Conflicts(canon, entries[i], target, risk, classification)
  }

  lemma OpenAt(
    canon: Canon, registry: seq<Entry>, overlay: seq<Entry>, i: nat, target: string, risk: string,
    classification: string)
    requires i < |registry + overlay| && (i >= |registry| ==> (registry + overlay)[i] == overlay[i - |registry|])
    requires Conflicts(canon, (registry + overlay)[i], target, risk, classification)
    ensures (registry + overlay)[i].compartment == None ==>
      Open(canon, registry + overlay, (registry + overlay)[i].alias, target, risk, classification)
  {
  }

  /** The alias a refusal names: that of the first conflicting entry, unless it has a compartment. */
  ghost predicate Names(
    canon: Canon, registry: seq<Entry>, overlay: seq<Entry>, target: string, risk: string, classification: string,
    readable: bool, disclosed: Option<string>)
  {
    if ConflictIn(canon, registry, target, risk, classification) then
      forall i :: ConflictsFirst(canon, registry, i, target, risk, classification) ==>
        disclosed == if registry[i].compartment.None? then Some(registry[i].alias) else None
    else if readable && ConflictIn(canon, overlay, target, risk, classification) then
      forall i :: ConflictsFirst(canon, overlay, i, target, risk, classification) ==>
        disclosed == Some(overlay[i].alias)
    else disclosed == None
  }

  lemma NamedInRegistry(
    canon: Canon, registry: seq<Entry>, overlay: seq<Entry>, i: nat, target: string, risk: string,
    classification: string, readable: bool)
    requires ConflictsFirst(canon, registry, i, target, risk, classification)
    ensures ConflictIn(canon, registry, target, risk, classification)
    ensures var disclosed := if registry[i].compartment.None? then Some(registry[i].alias) else None;
      && Names(canon, registry, overlay, target, risk, classification, readable, disclosed)
      && (disclosed.Some? ==> Open(canon, registry + overlay, disclosed.value, target, risk, classification))
  {
    FirstIsOne(canon, registry, i, target, risk, classification);
    assert (registry + overlay)[i] == registry[i];
    OpenAt(canon, registry, overlay, i, target, risk, classification);
  }

  lemma NamedInOverlay(
    canon: Canon, registry: seq<Entry>, overlay: seq<Entry>, i: nat, target: string, risk: string,
    classification: string)
    requires !ConflictIn(canon, registry, target, risk, classification)
    requires ConflictsFirst(canon, overlay, i, target, risk, classification) && overlay[i].compartment == None
    ensures ConflictIn(canon, overlay, target, risk, classification)
    ensures Names(canon, registry, overlay, target, risk, classification, true, Some(overlay[i].alias))
    ensures Open(canon, registry + overlay, overlay[i].alias, target, risk, classification)
  {
    FirstIsOne(canon, overlay, i, target, risk, classification);
    assert (registry + overlay)[|registry| + i] == overlay[i];
    OpenAt(canon, registry, overlay, |registry| + i, target, risk, classification);
  }

  /** One scan: the first entry that conflicts, if any. */
  method FirstConflict(canon: Canon, entries: seq<Entry>, target: string, risk: string, classification: string)
    returns (found: Option<nat>)
    ensures found.Some? <==> ConflictIn(canon, entries, target, risk, classification)
    ensures found.Some? ==> ConflictsFirst(canon, entries, found.value, target, risk, classification)
  {
    for i := 0 to |entries|
      invariant forall k :: 0 <= k < i ==> !Conflicts(canon, entries[k], target, risk, classification)
    {
      var existing := canon(entries[i].target);
      if !(Subsumes(existing, canon(target)) || Subsumes(canon(target), existing)) {
        continue;
      }
      if Weaker(risk, classification, entries[i]) {
        return Some(i);
      }
    }
    found := None;
  }

  /** `_overlay_skill_invalid`. */
  predicate SkillValid(canon: Canon, alias: string, target: string, risk: string, classification: string) {
    && 0 < |alias| <= MAX_AGENT_ID_LEN && '\n' !in alias
    && RiskRank(risk).Some? && ClassRank(classification).Some?
    && 1 <= |target| <= MAX_TARGET_LEN && '\n' !in target
    && (classification == "restricted" ==> risk == "pin_required")
    && Strip(target) == canon(target)
  }

  predicate Has(entries: seq<Entry>, alias: string) { exists i :: 0 <= i < |entries| && entries[i].alias == alias }

  /** Whether a registration goes through, given what both stores hold. */
  predicate Registers(canon: Canon, registry: seq<Entry>, overlay: seq<Entry>, e: Entry, readable: bool) {
    && SkillValid(canon, e.alias, e.target, e.risk, e.classification)
    && readable
    && !ConflictIn(canon, registry, e.target, e.risk, e.classification)
    && !ConflictIn(canon, overlay, e.target, e.risk, e.classification)
    && !Has(registry, e.alias) && !Has(overlay, e.alias)
  }

  /** The catalogue: what this worker holds in memory, and the shared overlay, whose entries have no compartment. */
  class Catalog {
    var registry: seq<Entry>
    var overlay: seq<Entry>

    predicate Valid(u: Url)
      reads this
    {
      AllFoldable(u, registry) && AllFoldable(u, overlay)
      && forall i :: 0 <= i < |overlay| ==> overlay[i].compartment == None
    }

    constructor (u: Url, registry: seq<Entry>)
      requires AllFoldable(u, registry)
      ensures Valid(u) && this.registry == registry && overlay == []
    {
      this.registry, overlay := registry, [];
    }

    /**
     `_target_posture_conflict`: both stores are scanned, an unreadable overlay refuses, and
     an alias is named only when it is a conflicting one without compartment.
     */
    method PostureConflict(u: Url, target: string, risk: string, classification: string, readable: bool)
      returns (conflict: bool, disclosed: Option<string>)
      requires Valid(u) && Foldable(u, target)
      ensures conflict <==> !readable || ConflictIn(CanonOf(u), registry, target, risk, classification)
                            || ConflictIn(CanonOf(u), overlay, target, risk, classification)
      ensures disclosed.Some? ==>
        Open(CanonOf(u), registry + overlay, disclosed.value, target, risk, classification)
      ensures Names(CanonOf(u), registry, overlay, target, risk, classification, readable, disclosed)
    {
      var found := FirstConflict(CanonOf(u), registry, target, risk, classification);
      if found.Some? {
        var e := registry[found.value];
        NamedInRegistry(CanonOf(u), registry, overlay, found.value, target, risk, classification, readable);
        return true, if e.compartment.None? then Some(e.alias) else None;
      }
      if !readable {
        return true, None;
      }
      found := FirstConflict(CanonOf(u), overlay, target, risk, classification);
      if found.Some? {
        NamedInOverlay(CanonOf(u), registry, overlay, found.value, target, risk, classification);
        return true, Some(overlay[found.value].alias);
      }
      return false, None;
    }

    method HasAlias(entries: seq<Entry>, alias: string) returns (has: bool)
      ensures has <==> Has(entries, alias)
    {
      has := false;
      for i := 0 to |entries|
        invariant has <==> Has(entries[..i], alias)
      {
        assert entries[..i + 1] == entries[..i] + [entries[i]];
        if entries[i].alias == alias {
          has := true;
          assert entries[..i + 1][i].alias == alias;
        } else {
          HasNext(entries, i, alias);
        }
      }
      assert entries[..|entries|] == entries;
    }

    /** A registration, sequential with all others: checked, added to the overlay if new there, then live here. */
    method RegisterSkill(u: Url, alias: string, target: string, risk: string, classification: string, readable: bool)
      returns (registered: bool)
      requires Valid(u) && Foldable(u, target)
      modifies this
      ensures Valid(u)
      ensures var e := Entry(alias, target, risk, classification, None);
        && registered == Registers(CanonOf(u), old(registry), old(overlay), e, readable)
        && registry == (if registered then old(registry) + [e] else old(registry))
        && overlay == (if registered then old(overlay) + [e] else old(overlay))
    {
      if !SkillValid(CanonOf(u), alias, target, risk, classification) {
        return false;
      }
      var live := HasAlias(registry, alias);
      if live {
        return false;
      }
      var conflict, _ := PostureConflict(u, target, risk, classification, readable);
      if conflict {
        return false;
      }
      var taken := HasAlias(overlay, alias);
      if taken {
        return false;
      }
      var e := Entry(alias, target, risk, classification, None);
      overlay, registry := overlay + [e], registry + [e];
      registered := true;
    }
  }

  lemma HasNext(entries: seq<Entry>, i: nat, alias: string)
    requires i < |entries| && entries[i].alias != alias
    ensures Has(entries[..i + 1], alias) <==> Has(entries[..i], alias)
  {
    var shorter, longer := entries[..i], entries[..i + 1];
    if Has(longer, alias) {
      var k :| 0 <= k < |longer| && longer[k].alias == alias;
      assert shorter[k].alias == alias;
    }
    if Has(shorter, alias) {
      var k :| 0 <= k < |shorter| && shorter[k].alias == alias;
      assert longer[k].alias == alias;
    }
  }

  // ----- the floor ------------------------------------------------------------------------------------------

  /** The enumeration's own order of classifications; the check's table lacks the last. */
  function EnumRank(classification: string): Option<int> {
    if classification == "classified" then Some(2) else ClassRank(classification)
  }

  /**
   A component of posture: risk and classification as the check ranks them, where an unknown
   value counts as the weakest, and the classification as it really is.
   */
  datatype Component = Risk | Classification | Sensitivity

  function Rank(c: Component, e: Entry): int {
    match c
    case Risk => RiskRank(e.risk).GetOr(0)
    case Classification => ClassRank(e.classification).GetOr(0)
    case Sensitivity => EnumRank(e.classification).GetOr(0)
  }

  predicate Reaches(canon: Canon, e: Entry, r: Resource) { Covers(canon(e.target), r) }

  /** The weakest rank among the entries a resource is reachable by, if there is one. */
  function Weakest(canon: Canon, c: Component, entries: seq<Entry>, r: Resource): Option<int>
  {
    if entries == [] then None
    else
      var last := entries[|entries| - 1];
      var rest := Weakest(canon, c, entries[..|entries| - 1], r);
      if !Reaches(canon, last, r) then rest
      else if rest.Some? && rest.value <= Rank(c, last) then rest
      else Some(Rank(c, last))
  }

  /** Each further entry is taken into account once. */
  lemma WeakestNext(canon: Canon, c: Component, entries: seq<Entry>, e: Entry, r: Resource)
    ensures var rest := Weakest(canon, c, entries, r);
      Weakest(canon, c, entries + [e], r)
        == if !Reaches(canon, e, r) || (rest.Some? && rest.value <= Rank(c, e)) then rest else Some(Rank(c, e))
  {
    var longer := entries + [e];
    assert longer[..|longer| - 1] == entries;
  }

  /** No entry reaching the resource ranks below the weakest. */
  lemma {:induction false} WeakestIsLeast(canon: Canon, c: Component, entries: seq<Entry>, r: Resource, i: nat)
    requires i < |entries| && Reaches(canon, entries[i], r)
    ensures Weakest(canon, c, entries, r).Some? && Weakest(canon, c, entries, r).value <= Rank(c, entries[i])
  {
    var n := |entries| - 1;
    assert entries == entries[..n] + [entries[n]];
    WeakestNext(canon, c, entries[..n], entries[n], r);
    if i < n {
      WeakestIsLeast(canon, c, entries[..n], r, i);
    }
  }

  /** The weakest rank is that of some entry reaching the resource. */
  lemma {:induction false} WeakestIsReached(
    canon: Canon, c: Component, entries: seq<Entry>, r: Resource)
    returns (i: nat)
    requires Weakest(canon, c, entries, r).Some?
    ensures i < |entries| && Reaches(canon, entries[i], r) && Rank(c, entries[i]) == Weakest(canon, c, entries, r).value
  {
    var n := |entries| - 1;
    if Weakest(canon, c, entries, r) == Weakest(canon, c, entries[..n], r) {
      i := WeakestIsReached(canon, c, entries[..n], r);
    } else {
      i := n;
    }
  }

  /** A registration that goes through is at least as strict as every entry reaching a resource it also reaches. */
  lemma RegisteredIsStrict(canon: Canon, entries: seq<Entry>, e: Entry, r: Resource, i: nat, c: Component)
    requires i < |entries| && !c.Sensitivity?
    requires RiskRank(e.risk).Some? && ClassRank(e.classification).Some?
    requires !ConflictIn(canon, entries, e.target, e.risk, e.classification)
    requires Reaches(canon, entries[i], r) && Reaches(canon, e, r)
    ensures Rank(c, entries[i]) <= Rank(c, e)
  {
    SubsumesIff(canon(entries[i].target), canon(e.target));
    assert !Conflicts(canon, entries[i], e.target, e.risk, e.classification);
  }

  lemma AppendKeepsFloor(canon: Canon, entries: seq<Entry>, e: Entry, r: Resource, c: Component)
    requires RiskRank(e.risk).Some? && ClassRank(e.classification).Some?
    requires !ConflictIn(canon, entries, e.target, e.risk, e.classification)
    requires Weakest(canon, c, entries, r).Some? && !c.Sensitivity?
    ensures Weakest(canon, c, entries + [e], r) == Weakest(canon, c, entries, r)
  {
    WeakestNext(canon, c, entries, e, r);
    if Reaches(canon, e, r) {
      var i := WeakestIsReached(canon, c, entries, r);
      RegisteredIsStrict(canon, entries, e, r, i, c);
    }
  }

  /** One attempted registration, on a worker that holds `live` in memory. */
  datatype Attempt = Attempt(entry: Entry, live: seq<Entry>, readable: bool)

  /** Every worker holds at least the shipped entries; what else it has hydrated is its own affair. */
  predicate Shipped(config: seq<Entry>, attempts: seq<Attempt>) {
    forall i :: 0 <= i < |attempts| ==> Hydrated(config, attempts[i])
  }

  predicate Hydrated(config: seq<Entry>, a: Attempt) { config <= a.live }

  /** The shared overlay after the first `n` attempts, made one after the other on whatever workers. */
  function OverlayAt(canon: Canon, attempts: seq<Attempt>, n: nat): seq<Entry>
    requires n <= |attempts|
  {
    if n == 0 then []
    else
      var overlay, a := OverlayAt(canon, attempts, n - 1), attempts[n - 1];
      if Registers(canon, a.live, overlay, a.entry, a.readable) then overlay + [a.entry] else overlay
  }

  /**
   Over any sequence of registrations, once a resource is reachable its weakest posture, in
   risk and in classification as ranked, never changes: nothing registered later undercuts it,
   on whichever worker and however little of the overlay that worker has in memory.
   */
  lemma {:induction false} FloorHolds(
    canon: Canon, config: seq<Entry>, attempts: seq<Attempt>, m: nat, n: nat, r: Resource, c: Component)
    requires Shipped(config, attempts) && m <= n <= |attempts| && !c.Sensitivity?
    requires Floor(canon, config, attempts, m, r, c).Some?
    ensures Floor(canon, config, attempts, n, r, c) == Floor(canon, config, attempts, m, r, c)
  {
    if m < n {
      var floor := Floor(canon, config, attempts, m, r, c);
      FloorHolds(canon, config, attempts, m, n - 1, r, c);
      FloorNext(canon, config, attempts, n, r, c, floor);
    }
  }

  /** The weakest posture the resource is reachable at after `n` attempts, in one component. */
  function Floor(
    canon: Canon, config: seq<Entry>, attempts: seq<Attempt>, n: nat, r: Resource, c: Component): Option<int>
    requires n <= |attempts|
  {
    Weakest(canon, c, config + OverlayAt(canon, attempts, n), r)
  }

  lemma FloorNext(
    canon: Canon, config: seq<Entry>, attempts: seq<Attempt>, n: nat, r: Resource, c: Component, floor: Option<int>)
    requires Shipped(config, attempts) && 0 < n <= |attempts| && !c.Sensitivity?
    requires floor.Some? && Floor(canon, config, attempts, n - 1, r, c) == floor
    ensures Floor(canon, config, attempts, n, r, c) == floor
  {
    StepKeepsFloor(canon, config, attempts, n, r, c);
  }

  lemma StepKeepsFloor(canon: Canon, config: seq<Entry>, attempts: seq<Attempt>, n: nat, r: Resource, c: Component)
    requires Shipped(config, attempts) && 0 < n <= |attempts| && !c.Sensitivity?
    requires Floor(canon, config, attempts, n - 1, r, c).Some?
    ensures Floor(canon, config, attempts, n, r, c) == Floor(canon, config, attempts, n - 1, r, c)
  {
    var overlay, a := OverlayAt(canon, attempts, n - 1), attempts[n - 1];
    if Registers(canon, a.live, overlay, a.entry, a.readable) {
      NoConflictInBoth(canon, config, a.live, overlay, a.entry);
      AppendKeepsFloor(canon, config + overlay, a.entry, r, c);
      assert config + (overlay + [a.entry]) == config + overlay + [a.entry];
    }
  }

  /** Scanning the worker's own entries and the overlay covers everything there is. */
  lemma NoConflictInBoth(canon: Canon, config: seq<Entry>, live: seq<Entry>, overlay: seq<Entry>, e: Entry)
    requires config <= live
    requires !ConflictIn(canon, live, e.target, e.risk, e.classification)
    requires !ConflictIn(canon, overlay, e.target, e.risk, e.classification)
    ensures !ConflictIn(canon, config + overlay, e.target, e.risk, e.classification)
  {
    forall i | 0 <= i < |config + overlay|
      ensures !Conflicts(canon, (config + overlay)[i], e.target, e.risk, e.classification)
    {
      if i < |config| {
        assert (config + overlay)[i] == live[i];
      } else {
        assert (config + overlay)[i] == overlay[i - |config|];
      }
    }
  }

  // ----- where the floor gives way ------------------------------------------------------------------------------

  predicate Known(e: Entry) { RiskRank(e.risk).Some? && EnumRank(e.classification).Some? }

  predicate AllKnown(entries: seq<Entry>) { forall i :: 0 <= i < |entries| ==> Known(entries[i]) }

  /** Weaker in risk, or in classification as it really is. */
  predicate ReallyWeaker(risk: string, classification: string, existing: Entry) {
    || RiskRank(risk).GetOr(-1) < RiskRank(existing.risk).GetOr(0)
    || EnumRank(classification).GetOr(-1) < EnumRank(existing.classification).GetOr(0)
  }

  /**
   The check overlooks a weaker posture exactly when the existing entry is classified and no
   riskier than the new one.
   */
  lemma UndercutUnseenIff(risk: string, classification: string, e: Entry)
    requires RiskRank(risk).Some? && ClassRank(classification).Some? && Known(e)
    ensures ReallyWeaker(risk, classification, e) && !Weaker(risk, classification, e)
       <==> e.classification == "classified" && RiskRank(e.risk).value <= RiskRank(risk).value
  {
  }

  /** Attempt `k` goes through with an entry that reaches the resource. */
  predicate AddsReach(canon: Canon, attempts: seq<Attempt>, k: int, r: Resource) {
    0 <= k < |attempts|
    && Registers(canon, attempts[k].live, OverlayAt(canon, attempts, k), attempts[k].entry, attempts[k].readable)
    && Reaches(canon, attempts[k].entry, r)
  }

  predicate NoneAdded(canon: Canon, attempts: seq<Attempt>, m: nat, n: nat, r: Resource) {
    forall k :: m <= k < n ==> !AddsReach(canon, attempts, k, r)
  }

  /** Everything the resource is reachable by after `m` attempts is classified. */
  predicate OnlyClassified(canon: Canon, config: seq<Entry>, attempts: seq<Attempt>, m: nat, r: Resource)
    requires m <= |attempts|
  {
    var entries := config + OverlayAt(canon, attempts, m);
    forall i :: 0 <= i < |entries| && Reaches(canon, entries[i], r) ==> entries[i].classification == "classified"
  }

  /** The weakest real classification is the top one exactly when nothing else reaches the resource. */
  lemma TopIffOnlyClassified(canon: Canon, entries: seq<Entry>, r: Resource)
    requires AllKnown(entries) && Weakest(canon, Sensitivity, entries, r).Some?
    ensures 0 <= Weakest(canon, Sensitivity, entries, r).value <= 2
    ensures Weakest(canon, Sensitivity, entries, r).value == 2
       <==> forall i :: 0 <= i < |entries| && Reaches(canon, entries[i], r) ==>
         entries[i].classification == "classified"
  {
    var at := WeakestIsReached(canon, Sensitivity, entries, r);
    assert Known(entries[at]);
    forall i | 0 <= i < |entries| && Reaches(canon, entries[i], r)
      ensures Weakest(canon, Sensitivity, entries, r).value <= Rank(Sensitivity, entries[i]) && Known(entries[i])
    {
      WeakestIsLeast(canon, Sensitivity, entries, r, i);
    }
  }

  /**
   One more entry lowers the real floor, unless the floor was in the check's table or the entry
   does not reach the resource.
   */
  lemma AppendedSensitivity(canon: Canon, entries: seq<Entry>, e: Entry, r: Resource)
    requires AllKnown(entries) && RiskRank(e.risk).Some? && ClassRank(e.classification).Some?
    requires !ConflictIn(canon, entries, e.target, e.risk, e.classification)
    requires Weakest(canon, Sensitivity, entries, r).Some?
    ensures var before, after := Weakest(canon, Sensitivity, entries, r), Weakest(canon, Sensitivity, entries + [e], r);
      && after.Some?
      && (if before.value == 2 && Reaches(canon, e, r) then after.value < 2 else after == before)
  {
    WeakestNext(canon, Sensitivity, entries, e, r);
    TopIffOnlyClassified(canon, entries, r);
    if Reaches(canon, e, r) && Weakest(canon, Sensitivity, entries, r).value < 2 {
      var i := WeakestIsReached(canon, Sensitivity, entries, r);
      assert Known(entries[i]);
      RegisteredIsStrict(canon, entries, e, r, i, Classification);
    }
  }

  lemma {:induction false} OverlayKnown(canon: Canon, attempts: seq<Attempt>, n: nat)
    requires n <= |attempts|
    ensures AllKnown(OverlayAt(canon, attempts, n))
  {
    if n > 0 {
      OverlayKnown(canon, attempts, n - 1);
    }
  }

  /** How one attempt moves the real floor. */
  predicate Moves(before: Option<int>, after: Option<int>, added: bool) {
    before.Some? && after.Some? && if before.value == 2 && added then after.value < 2 else after == before
  }

  lemma RegisteredSensitivity(canon: Canon, config: seq<Entry>, overlay: seq<Entry>, a: Attempt, r: Resource)
    requires Hydrated(config, a) && AllKnown(config) && AllKnown(overlay)
    requires Registers(canon, a.live, overlay, a.entry, a.readable)
    requires Weakest(canon, Sensitivity, config + overlay, r).Some?
    ensures Moves(Weakest(canon, Sensitivity, config + overlay, r),
                  Weakest(canon, Sensitivity, config + (overlay + [a.entry]), r),
                  Reaches(canon, a.entry, r))
  {
    NoConflictInBoth(canon, config, a.live, overlay, a.entry);
    AppendedSensitivity(canon, config + overlay, a.entry, r);
    assert config + (overlay + [a.entry]) == config + overlay + [a.entry];
  }

  lemma StepSensitivity(canon: Canon, config: seq<Entry>, attempts: seq<Attempt>, n: nat, r: Resource)
    requires Shipped(config, attempts) && AllKnown(config) && 0 < n <= |attempts|
    requires Floor(canon, config, attempts, n - 1, r, Sensitivity).Some?
    ensures Moves(Floor(canon, config, attempts, n - 1, r, Sensitivity),
                  Floor(canon, config, attempts, n, r, Sensitivity),
                  AddsReach(canon, attempts, n - 1, r))
  {
    OverlayKnown(canon, attempts, n - 1);
    var overlay, a := OverlayAt(canon, attempts, n - 1), attempts[n - 1];
    if Registers(canon, a.live, overlay, a.entry, a.readable) {
      assert Hydrated(config, a);
      RegisteredSensitivity(canon, config, overlay, a, r);
    }
  }

  lemma NoneAddedNext(canon: Canon, attempts: seq<Attempt>, m: nat, n: nat, r: Resource)
    requires m < n
    ensures NoneAdded(canon, attempts, m, n, r)
       <==> NoneAdded(canon, attempts, m, n - 1, r) && !AddsReach(canon, attempts, n - 1, r)
  {
  }

  /** Since the start: the floor is where it was, or has fallen below the top. */
  predicate Moved(was: Option<int>, now: Option<int>, none: bool) {
    was.Some? && now.Some? && if was.value != 2 || none then now == was else now.value < 2
  }

  lemma MovedOn(was: Option<int>, before: Option<int>, now: Option<int>, none: bool, added: bool)
    requires Moved(was, before, none) && Moves(before, now, added)
    ensures Moved(was, now, none && !added)
  {
  }

  lemma {:induction false} RunSensitivity(
    canon: Canon, config: seq<Entry>, attempts: seq<Attempt>, m: nat, n: nat, r: Resource)
    requires Shipped(config, attempts) && AllKnown(config) && m <= n <= |attempts|
    requires Floor(canon, config, attempts, m, r, Sensitivity).Some?
    ensures Moved(Floor(canon, config, attempts, m, r, Sensitivity), Floor(canon, config, attempts, n, r, Sensitivity),
                  NoneAdded(canon, attempts, m, n, r))
  {
    if m < n {
      var was := Floor(canon, config, attempts, m, r, Sensitivity);
      RunSensitivity(canon, config, attempts, m, n - 1, r);
      SensitivityNext(canon, config, attempts, m, n, r, was);
    }
  }

  lemma SensitivityNext(
    canon: Canon, config: seq<Entry>, attempts: seq<Attempt>, m: nat, n: nat, r: Resource, was: Option<int>)
    requires Shipped(config, attempts) && AllKnown(config) && m < n <= |attempts|
    requires Moved(was, Floor(canon, config, attempts, n - 1, r, Sensitivity), NoneAdded(canon, attempts, m, n - 1, r))
    ensures Moved(was, Floor(canon, config, attempts, n, r, Sensitivity), NoneAdded(canon, attempts, m, n, r))
  {
    StepSensitivity(canon, config, attempts, n, r);
    NoneAddedNext(canon, attempts, m, n, r);
    MovedOn(was, Floor(canon, config, attempts, n - 1, r, Sensitivity),
            Floor(canon, config, attempts, n, r, Sensitivity),
            NoneAdded(canon, attempts, m, n - 1, r), AddsReach(canon, attempts, n - 1, r));
  }

  /**
   Over a run the real classification a resource is reachable at falls exactly when everything
   that reached it at the start was classified and something that reaches it is registered.
   */
  lemma SensitivityFallsIff(canon: Canon, config: seq<Entry>, attempts: seq<Attempt>, m: nat, n: nat, r: Resource)
    requires Shipped(config, attempts) && AllKnown(config) && m <= n <= |attempts|
    requires Floor(canon, config, attempts, m, r, Sensitivity).Some?
    ensures Floor(canon, config, attempts, n, r, Sensitivity).Some?
    ensures Floor(canon, config, attempts, n, r, Sensitivity).value
         < Floor(canon, config, attempts, m, r, Sensitivity).value
       <==> OnlyClassified(canon, config, attempts, m, r) && exists k :: m <= k < n && AddsReach(canon, attempts, k, r)
    ensures Floor(canon, config, attempts, n, r, Sensitivity).value
         <= Floor(canon, config, attempts, m, r, Sensitivity).value
  {
    RunSensitivity(canon, config, attempts, m, n, r);
    OverlayKnown(canon, attempts, m);
    TopIffOnlyClassified(canon, config + OverlayAt(canon, attempts, m), r);
  }

  // ----- what may be registered --------------------------------------------------------------------------

  /** The three postures an operator may register. */
  predicate Offered(risk: string, classification: string) {
    || (risk == "auto" && classification == "unclassified")
    || (risk == "pin_required" && classification == "unclassified")
    || (risk == "pin_required" && classification == "restricted")
  }

  lemma PosturesOffered(canon: Canon, alias: string, target: string, risk: string, classification: string)
    ensures SkillValid(canon, alias, target, risk, classification)
       <==> Offered(risk, classification) && 0 < |alias| <= MAX_AGENT_ID_LEN && '\n' !in alias
              && 1 <= |target| <= MAX_TARGET_LEN && '\n' !in target && Strip(target) == canon(target)
  {
  }

  /** Over any run every entry of the overlay has one of them; so none is restricted without a PIN. */
  lemma {:induction false} OverlayOffered(canon: Canon, attempts: seq<Attempt>, n: nat)
    requires n <= |attempts|
    ensures forall e :: e in OverlayAt(canon, attempts, n) ==> Offered(e.risk, e.classification)
    ensures forall e :: e in OverlayAt(canon, attempts, n) && e.classification == "restricted" ==>
      e.risk == "pin_required"
  {
    if n > 0 {
      OverlayOffered(canon, attempts, n - 1);
      var e := attempts[n - 1].entry;
      PosturesOffered(canon, e.alias, e.target, e.risk, e.classification);
    }
  }

  /** Some resource is reached by both. */
  ghost predicate Overlap(canon: Canon, x: Entry, e: Entry) {
    exists r :: Covers(canon(x.target), r) && Covers(canon(e.target), r)
  }

  /** Ranked above it in some component. */
  predicate Above(x: Entry, e: Entry) {
    Rank(Risk, x) > Rank(Risk, e) || Rank(Classification, x) > Rank(Classification, e)
  }

  lemma ConflictsIff(canon: Canon, x: Entry, e: Entry)
    requires Offered(e.risk, e.classification)
    ensures Conflicts(canon, x, e.target, e.risk, e.classification) <==> Overlap(canon, x, e) && Above(x, e)
  {
    SubsumesIff(canon(x.target), canon(e.target));
  }

  lemma ConflictIff(canon: Canon, entries: seq<Entry>, e: Entry)
    requires Offered(e.risk, e.classification)
    ensures ConflictIn(canon, entries, e.target, e.risk, e.classification)
       <==> exists x :: x in entries && Overlap(canon, x, e) && Above(x, e)
  {
    forall i | 0 <= i < |entries|
      ensures Conflicts(canon, entries[i], e.target, e.risk, e.classification)
         <==> Overlap(canon, entries[i], e) && Above(entries[i], e)
    {
      ConflictsIff(canon, entries[i], e);
    }
    if x :| x in entries && Overlap(canon, x, e) && Above(x, e) {
      var i :| 0 <= i < |entries| && entries[i] == x;
      assert Conflicts(canon, entries[i], e.target, e.risk, e.classification);
    }
  }

  /**
   A valid entry is registered exactly when the overlay can be read, its name is new in both
   stores, and no entry that shares a resource with it is ranked above it.
   */
  lemma RegistersIff(canon: Canon, registry: seq<Entry>, overlay: seq<Entry>, e: Entry, readable: bool)
    requires SkillValid(canon, e.alias, e.target, e.risk, e.classification)
    ensures Registers(canon, registry, overlay, e, readable)
       <==> readable && forall x :: x in registry + overlay ==>
              x.alias != e.alias && (Overlap(canon, x, e) ==> !Above(x, e))
  {
    PosturesOffered(canon, e.alias, e.target, e.risk, e.classification);
    ConflictIff(canon, registry, e);
    ConflictIff(canon, overlay, e);
    HasIff(registry, e.alias);
    HasIff(overlay, e.alias);
    assert forall x :: x in registry + overlay <==> x in registry || x in overlay;
  }

  lemma HasIff(entries: seq<Entry>, alias: string)
    ensures Has(entries, alias) <==> exists x :: x in entries && x.alias == alias
  {
    if x :| x in entries && x.alias == alias {
      var i :| 0 <= i < |entries| && entries[i] == x;
    }
  }

  /** Restricted and behind a PIN is above everything ranked, so with a new name it is always registered. */
  lemma StrictestRegisters(canon: Canon, registry: seq<Entry>, overlay: seq<Entry>, e: Entry)
    requires e.risk == "pin_required" && e.classification == "restricted"
    requires 0 < |e.alias| <= MAX_AGENT_ID_LEN && '\n' !in e.alias && !Has(registry, e.alias) && !Has(overlay, e.alias)
    requires 1 <= |e.target| <= MAX_TARGET_LEN && '\n' !in e.target && Strip(e.target) == canon(e.target)
    ensures Registers(canon, registry, overlay, e, true)
  {
    PosturesOffered(canon, e.alias, e.target, e.risk, e.classification);
    NothingAbove(e);
    HasIff(registry, e.alias);
    HasIff(overlay, e.alias);
    RegistersIff(canon, registry, overlay, e, true);
  }

  lemma NothingAbove(e: Entry)
    requires e.risk == "pin_required" && e.classification == "restricted"
    ensures forall x :: !Above(x, e)
  {
  }

  // ----- a shipped entry that can be undercut -----------------------------------------------------------------------

  /** Printable text in lower case, without a colon. */
  predicate PlainName(t: string) {
    t != "" && forall i :: 0 <= i < |t| ==> 32 < t[i] as int < 128 && t[i] != ':' && LowerChar(t[i]) == t[i]
  }

  lemma NameScanned(t: string)
    requires PlainName(t)
    ensures Strip(t) == t && Scanned(t) == t && Lower(t) == t && IsAscii(t)
  {
    assert WithoutLeading(t) == t;
    assert StripLeft(t) == t;
  }

  lemma NameIsCanonical(u: Url, t: string)
    requires PlainName(t)
    ensures Strip(t) == t && Foldable(u, t) && Canonical(u, t) == t
  {
    NameScanned(t);
    assert Parse(u, t).NotUrl?;
  }

  /** The same target under another name, as weak as the check lets through. */
  function Undercut(e: Entry, alias: string): Entry { Entry(alias, e.target, e.risk, "unclassified", None) }

  lemma UndercutValid(u: Url, e: Entry, alias: string)
    requires RiskRank(e.risk).Some? && PlainName(e.target) && |e.target| <= MAX_TARGET_LEN
    requires 0 < |alias| <= MAX_AGENT_ID_LEN && '\n' !in alias
    ensures SkillValid(CanonOf(u), alias, e.target, e.risk, "unclassified")
  {
    NameIsCanonical(u, e.target);
    assert 1 <= |e.target| && '\n' !in e.target;
    assert ClassRank("unclassified").Some? && "unclassified" != "restricted";
  }

  lemma UndercutRegisters(u: Url, e: Entry, alias: string)
    requires Known(e) && e.classification == "classified" && PlainName(e.target) && |e.target| <= MAX_TARGET_LEN
    requires 0 < |alias| <= MAX_AGENT_ID_LEN && '\n' !in alias && alias != e.alias
    ensures Registers(CanonOf(u), [e], [], Undercut(e, alias), true)
    ensures CanonOf(u)(e.target) == e.target
  {
    NameIsCanonical(u, e.target);
    UndercutValid(u, e, alias);
    UndercutUnseenIff(e.risk, "unclassified", e);
    assert !ConflictIn(CanonOf(u), [e], e.target, e.risk, "unclassified");
  }

  /**
   Any classified entry under a plain name is undercut by registering the name again, at its own
   risk and unclassified.
   */
  lemma ClassifiedIsUndercut(u: Url, e: Entry, alias: string)
    requires Known(e) && e.classification == "classified" && PlainName(e.target) && |e.target| <= MAX_TARGET_LEN
    requires 0 < |alias| <= MAX_AGENT_ID_LEN && '\n' !in alias && alias != e.alias
    ensures exists r ::
      && Floor(CanonOf(u), [e], [Attempt(Undercut(e, alias), [e], true)], 0, r, Sensitivity) == Some(2)
      && Floor(CanonOf(u), [e], [Attempt(Undercut(e, alias), [e], true)], 1, r, Sensitivity) == Some(0)
  {
    UndercutRegisters(u, e, alias);
    var canon, copy, r := CanonOf(u), Undercut(e, alias), Shared(e.target, e.target);
    assert Covers(e.target, r);
    OneAttempt(canon, e, copy, r, Sensitivity);
  }

  /** A single entry, and a single registration that goes through. */
  lemma OneAttempt(canon: Canon, e: Entry, copy: Entry, r: Resource, c: Component)
    requires Registers(canon, [e], [], copy, true) && Reaches(canon, e, r) && Reaches(canon, copy, r)
    ensures Floor(canon, [e], [Attempt(copy, [e], true)], 0, r, c) == Some(Rank(c, e))
    ensures Floor(canon, [e], [Attempt(copy, [e], true)], 1, r, c)
         == Some(if Rank(c, e) <= Rank(c, copy) then Rank(c, e) else Rank(c, copy))
  {
    WeakestNext(canon, c, [], e, r);
    WeakestNext(canon, c, [e], copy, r);
    assert [e] + [] == [e] == [] + [e];
    OneRegistered(canon, e, copy);
  }

  lemma OneRegistered(canon: Canon, e: Entry, copy: Entry)
    requires Registers(canon, [e], [], copy, true)
    ensures OverlayAt(canon, [Attempt(copy, [e], true)], 0) == []
    ensures OverlayAt(canon, [Attempt(copy, [e], true)], 1) == [copy]
  {
    assert OverlayAt(canon, [Attempt(copy, [e], true)], 0) == [];
  }

  /** An entry the shipped catalogue holds. */
  function Telemetry(compartment: string): Entry {
    Entry("skill_airframe_telemetry", "rest.falcon.telemetry.get", "auto", "classified", Some(compartment))
  }

  lemma TelemetryIsUndercut(u: Url, compartment: string)
    ensures var e, copy := Telemetry(compartment), Undercut(Telemetry(compartment), "telemetry");
      && Registers(CanonOf(u), [e], [], copy, true) && copy.risk == "auto" && copy.classification == "unclassified"
      && exists r ::
        && Floor(CanonOf(u), [e], [Attempt(copy, [e], true)], 0, r, Sensitivity) == Some(2)
        && Floor(CanonOf(u), [e], [Attempt(copy, [e], true)], 1, r, Sensitivity) == Some(0)
  {
    var e := Telemetry(compartment);
    assert |e.alias| == 24 && |"telemetry"| == 9;
    UndercutRegisters(u, e, "telemetry");
    ClassifiedIsUndercut(u, e, "telemetry");
  }
}
