/**
 Freshness and single use of possession proofs (`auth/pop.py`): a replay record kept for
 maximum age plus skew covers exactly the window a proof can be fresh in. Beside it, the
 bounded walk over nested delegation claims.
 */
module ProofOfPossession {
  import opened Wrappers

  const POP_MAX_AGE_SECONDS := 120.0
  const POP_CLOCK_SKEW_SECONDS := 30.0
  const MAX_DELEGATION_CHAIN := 8

  // ----- freshness and replay ----------------------------------------------------------------------

  /** One presentation of a proof: when, its issue time and id, and whether the guard can be reached. */
  datatype Presentation = Presentation(now: real, iat: real, jti: string, reachable: bool)

  predicate Fresh(p: Presentation, maxAge: real) {
    p.iat <= p.now + POP_CLOCK_SKEW_SECONDS && p.iat >= p.now - maxAge
  }

  /** The replay records: until when each id is known, that instant included. */
  type Records = map<string, real>

  predicate Known(records: Records, jti: string, now: real) { jti in records && now <= records[jti] }

  /** Whether a presentation is accepted, when records are kept for `kept` seconds. */
  predicate Accepts(records: Records, p: Presentation, maxAge: real) {
    Fresh(p, maxAge) && p.reachable && !Known(records, p.jti, p.now)
  }

  function After(records: Records, p: Presentation, maxAge: real, kept: real): Records {
    if Accepts(records, p, maxAge) then records[p.jti := p.now + kept] else records
  }

  /** SET NX EX: the first writer wins, until the record expires; a failure counts as seen. */
  class RedisReplayGuard {
    var records: Records

    constructor ()
      ensures records == map[]
    {
      records := map[];
    }

    method Record(jti: string, ttl: real, now: real, reachable: bool) returns (newlySeen: bool)
      modifies this
      ensures newlySeen <==> reachable && !Known(old(records), jti, now)
      ensures records == if newlySeen then old(records)[jti := now + ttl] else old(records)
    {
      newlySeen := reachable && !Known(records, jti, now);
      if newlySeen {
        records := records[jti := now + ttl];
      }
    }

    /** The last two steps of `verify_pop_proof`. */
    method Verify(p: Presentation, maxAge: real) returns (accepted: bool)
      modifies this
      ensures accepted <==> Accepts(old(records), p, maxAge)
      ensures records == After(old(records), p, maxAge, maxAge + POP_CLOCK_SKEW_SECONDS)
    {
      if p.iat > p.now + POP_CLOCK_SKEW_SECONDS || p.iat < p.now - maxAge {
        return false;
      }
      accepted := Record(p.jti, maxAge + POP_CLOCK_SKEW_SECONDS, p.now, p.reachable);
    }
  }

  /** The records after the first `n` presentations. */
  function RecordsAt(ps: seq<Presentation>, maxAge: real, kept: real, n: nat): Records
    requires n <= |ps|
  {
    if n == 0 then map[] else After(RecordsAt(ps, maxAge, kept, n - 1), ps[n - 1], maxAge, kept)
  }

  predicate Accepted(ps: seq<Presentation>, maxAge: real, kept: real, i: nat)
    requires i < |ps|
  {
    Accepts(RecordsAt(ps, maxAge, kept, i), ps[i], maxAge)
  }

  /** A clock that never goes back. */
  predicate Clocked(ps: seq<Presentation>) { forall i, j :: 0 <= i < j < |ps| ==> ps[i].now <= ps[j].now }

  /** Once accepted at `i`, the id is on record for at least that long after. */
  lemma {:induction false} StaysOnRecord(ps: seq<Presentation>, maxAge: real, kept: real, i: nat, n: nat)
    requires Clocked(ps) && i < n <= |ps| && Accepted(ps, maxAge, kept, i)
    ensures var records := RecordsAt(ps, maxAge, kept, n);
      ps[i].jti in records && ps[i].now + kept <= records[ps[i].jti]
  {
    if i < n - 1 {
      StaysOnRecord(ps, maxAge, kept, i, n - 1);
    }
  }

  /** No proof is accepted twice while records outlast the freshness window. */
  lemma AcceptedOnce(ps: seq<Presentation>, maxAge: real, kept: real, i: nat, j: nat)
    requires Clocked(ps) && i < j < |ps| && kept >= maxAge + POP_CLOCK_SKEW_SECONDS
    requires ps[i].jti == ps[j].jti && ps[i].iat == ps[j].iat
    ensures !(Accepted(ps, maxAge, kept, i) && Accepted(ps, maxAge, kept, j))
  {
    if Accepted(ps, maxAge, kept, i) {
      StaysOnRecord(ps, maxAge, kept, i, j);
    }
  }

  /** No presentations under any clock have one proof accepted twice. */
  ghost predicate SingleUse(maxAge: real, kept: real) {
    forall ps: seq<Presentation>, i: nat, j: nat ::
      Clocked(ps) && i < j < |ps| && ps[i].jti == ps[j].jti && ps[i].iat == ps[j].iat
      ==> !(Accepted(ps, maxAge, kept, i) && Accepted(ps, maxAge, kept, j))
  }

  /** A proof dated as far ahead as skew allows, presented at once and at the end of its window. */
  function EndToEnd(maxAge: real): seq<Presentation> {
    var iat := POP_CLOCK_SKEW_SECONDS;
    [Presentation(0.0, iat, "proof", true), Presentation(maxAge + POP_CLOCK_SKEW_SECONDS, iat, "proof", true)]
  }

  lemma ShorterRecordsReplay(maxAge: real, kept: real)
    requires maxAge >= 0.0 && kept < maxAge + POP_CLOCK_SKEW_SECONDS
    ensures var ps := EndToEnd(maxAge); Clocked(ps) && Accepted(ps, maxAge, kept, 0) && Accepted(ps, maxAge, kept, 1)
  {
    var ps := EndToEnd(maxAge);
    assert RecordsAt(ps, maxAge, kept, 0) == map[];
    assert RecordsAt(ps, maxAge, kept, 1) == map["proof" := kept];
  }

  /**
   The bound is tight: proofs are single-use for every clock exactly when records are kept,
   up to and including the last instant, for the maximum age plus the skew.
   */
  lemma SingleUseIff(maxAge: real, kept: real)
    requires maxAge >= 0.0
    ensures SingleUse(maxAge, kept) <==> kept >= maxAge + POP_CLOCK_SKEW_SECONDS
  {
    if kept >= maxAge + POP_CLOCK_SKEW_SECONDS {
      forall ps: seq<Presentation>, i: nat, j: nat
        | Clocked(ps) && i < j < |ps| && ps[i].jti == ps[j].jti && ps[i].iat == ps[j].iat
        ensures !(Accepted(ps, maxAge, kept, i) && Accepted(ps, maxAge, kept, j))
      {
        AcceptedOnce(ps, maxAge, kept, i, j);
      }
    } else {
      ShorterRecordsReplay(maxAge, kept);
      var ps := EndToEnd(maxAge);
      assert ps[0].jti == ps[1].jti && ps[0].iat == ps[1].iat;
    }
  }

  /** Accepted presentation `i` of this id is still on record. */
  predicate Recorded(ps: seq<Presentation>, maxAge: real, kept: real, i: int, jti: string, now: real) {
    0 <= i < |ps| && Accepted(ps, maxAge, kept, i) && ps[i].jti == jti && now <= ps[i].now + kept
  }

  /** What is on record is what was accepted. */
  lemma {:induction false} KnownIff(
    ps: seq<Presentation>, maxAge: real, kept: real, n: nat, jti: string, now: real)
    requires Clocked(ps) && n <= |ps|
    ensures Known(RecordsAt(ps, maxAge, kept, n), jti, now)
       <==> exists i :: 0 <= i < n && Recorded(ps, maxAge, kept, i, jti, now)
    ensures jti in RecordsAt(ps, maxAge, kept, n) ==>
      exists i :: 0 <= i < n && ps[i].jti == jti && RecordsAt(ps, maxAge, kept, n)[jti] == ps[i].now + kept
  {
    if n > 0 {
      KnownIff(ps, maxAge, kept, n - 1, jti, now);
      if Accepted(ps, maxAge, kept, n - 1) && ps[n - 1].jti == jti {
        assert now <= ps[n - 1].now + kept <==> Recorded(ps, maxAge, kept, n - 1, jti, now);
      }
    }
  }

  /**
   A presentation is accepted exactly when the guard can be reached, the proof is within its
   window, dated ahead by the skew at most, and no accepted one of its id is still on record.
   */
  lemma AcceptedIff(ps: seq<Presentation>, maxAge: real, kept: real, n: nat)
    requires Clocked(ps) && n < |ps|
    ensures Accepted(ps, maxAge, kept, n)
       <==> ps[n].reachable && ps[n].iat - POP_CLOCK_SKEW_SECONDS <= ps[n].now <= ps[n].iat + maxAge
              && forall i :: 0 <= i < n ==> !Recorded(ps, maxAge, kept, i, ps[n].jti, ps[n].now)
  {
    KnownIff(ps, maxAge, kept, n, ps[n].jti, ps[n].now);
  }

  // ----- the delegation chain ---------------------------------------------------------------------------

  /** An `act` claim: absent, not an object, or a node with its `sub`, if that is a string, and the next claim. */
  datatype Act = Absent | NotAnObject | Node(sub: Option<string>, act: Act)

  predicate NodeOk(a: Act) { a.Node? && a.sub.Some? && a.sub.value != "" }

  /** Every node is well formed, down to an absent claim. */
  predicate ChainOk(a: Act) { a.Absent? || (NodeOk(a) && ChainOk(a.act)) }

  /** The subjects in order, as far as nodes are well formed. */
  function Subjects(a: Act): seq<string> {
    if NodeOk(a) then [a.sub.value] + Subjects(a.act) else []
  }

  /** A claim nested like this: each subject acts for the one before it. */
  function Nested(subs: seq<string>): Act {
    if subs == [] then Absent else Node(Some(subs[0]), Nested(subs[1..]))
  }

  predicate AllNamed(subs: seq<string>) { forall i :: 0 <= i < |subs| ==> subs[i] != "" }

  /** The claim nests exactly these subjects, none of them empty and not too many. */
  predicate IsChain(act: Act, subs: seq<string>) {
    act == Nested(subs) && AllNamed(subs) && |subs| <= MAX_DELEGATION_CHAIN
  }

  /** A well-formed chain is its subjects nested, and nothing else is. */
  lemma {:induction false} NestedIff(act: Act, subs: seq<string>)
    ensures ChainOk(act) && Subjects(act) == subs <==> act == Nested(subs) && AllNamed(subs)
    decreases act, |subs|
  {
    if act.Node? && subs != [] {
      NestedIff(act.act, subs[1..]);
      if NodeOk(act) {
        assert ([act.sub.value] + Subjects(act.act))[1..] == Subjects(act.act);
      }
      assert subs == [subs[0]] + subs[1..];
    }
  }

  /** `project_act_chain`: the whole chain in order, or nothing when any hop is malformed or there are too many. */
  method ProjectActChain(act: Act) returns (chain: Option<seq<string>>)
    ensures chain == if ChainOk(act) && |Subjects(act)| <= MAX_DELEGATION_CHAIN then Some(Subjects(act)) else None
    ensures forall subs :: chain == Some(subs) <==> IsChain(act, subs)
  {
    forall subs
      ensures ChainOk(act) && Subjects(act) == subs <==> act == Nested(subs) && AllNamed(subs)
    {
      NestedIff(act, subs);
    }
    var node, subs: seq<string> := act, [];
    while !node.Absent?
      invariant subs + Subjects(node) == Subjects(act) && (ChainOk(node) <==> ChainOk(act))
      invariant |subs| <= MAX_DELEGATION_CHAIN
      decreases node
    {
      if node.NotAnObject? {
        return None;
      }
      if node.sub.None? || node.sub.value == "" {
        return None;
      }
      if |subs| >= MAX_DELEGATION_CHAIN {
        return None;
      }
      subs := subs + [node.sub.value];
      node := node.act;
    }
    assert subs + Subjects(node) == subs;
    chain := Some(subs);
  }
}
