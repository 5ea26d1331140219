/**
 Every step of the pipeline keeps its invariant, and so every run spends each approval on
 at most one execution of the action it was for, after that action's ALLOW was logged.
 */
module GatewayRuns {
  import opened Bytes
  import opened CanonicalJson
  import opened Gateway
  import opened PayloadLock
  import opened Wrappers

  // ----- what a step leaves alone --------------------------------------------------------------------

  /** A lock of the later state was there before, or is of a registration made since. */
  ghost predicate LockFrom(s: State, s': State, key: Key) {
    key in s'.locks ==>
      (key in s.locks && s'.locks[key].registration == s.locks[key].registration)
      || s'.locks[key].registration >= |s.registrations|
  }

  ghost predicate Evolves(s: State, s': State) {
    && s.registrations <= s'.registrations && s.log <= s'.log
    && forall key :: LockFrom(s, s', key)
  }

  lemma AllowedStays(log: seq<Entry>, log': seq<Entry>, correlation: string, n: nat, n': nat)
    requires log <= log' && n <= n' && AllowedBefore(log, correlation, n)
    ensures AllowedBefore(log', correlation, n')
  {
    var i :| 0 <= i < n && i < |log| && log[i] == Entry(correlation, true);
    assert log'[i] == log[i];
  }

  lemma GoneStays(s: State, s': State, i: nat)
    requires Evolves(s, s') && i < |s.registrations| && Gone(s, i)
    ensures Gone(s', i)
  {
    forall key
      ensures NotHolding(s', key, i)
    {
      assert LockFrom(s, s', key) && NotHolding(s, key, i);
    }
  }

  /** A call the step did not touch stays as it should be. */
  lemma CallStays(h: Hashing, s: State, s': State, b: string)
    requires Evolves(s, s') && CallOk(h, s, b)
    requires b in s'.calls ==> b in s.calls && s'.calls[b] == s.calls[b]
    ensures CallOk(h, s', b)
  {
    if b in s'.calls {
      var Call(r, stage, spent) := s.calls[b];
      if spent.Some? {
        GoneStays(s, s', spent.value);
        assert s'.registrations[spent.value] == s.registrations[spent.value];
      }
      if stage == Dispatching {
        AllowedStays(s.log, s'.log, b, |s.log|, |s'.log|);
      }
    }
  }

  predicate Over(stage: Stage) { stage == Denying || stage == Finished }

  /** A call that is over stays over, with the same request and the same lock spent. */
  predicate StaysOver(s: State, s': State, b: string) {
    b in s.calls && Over(s.calls[b].stage) ==>
      b in s'.calls && Over(s'.calls[b].stage) && s'.calls[b].request == s.calls[b].request
        && s'.calls[b].spent == s.calls[b].spent
  }

  /** An execution stays as it should be while its call keeps what it spent and is over. */
  lemma ExecutionStays(s: State, s': State, i: int)
    requires ExecutionOk(s, i) && i < |s.executions| && s.executions <= s'.executions && s.log <= s'.log
    requires 0 <= i ==> StaysOver(s, s', s.executions[i].correlation)
    ensures ExecutionOk(s', i)
  {
    if 0 <= i {
      var e := s.executions[i];
      assert s'.executions[i] == e;
      AllowedStays(s.log, s'.log, e.correlation, e.after, e.after);
    }
  }

  // ----- registering and arriving ------------------------------------------------------------------------

  lemma RegisterKeeps(h: Hashing, s: State, a: Action)
    requires Inv(h, s) && a.Register? && WellFormed(a.arguments)
    ensures Inv(h, RegisterStep(h, s, a))
  {
    var s' := RegisterStep(h, s, a);
    if s' != s {
      forall key
        ensures LockFrom(s, s', key) && LockOk(h, s', key)
      {
        assert LockOk(h, s, key);
      }
      forall i
        ensures RegistrationOk(s', i)
      {
        assert RegistrationOk(s, i);
      }
      CallsStay(h, s, s');
    }
  }

  /** With calls and executions untouched, everything said about them stays. */
  lemma CallsStay(h: Hashing, s: State, s': State)
    requires Inv(h, s) && Evolves(s, s') && s'.calls == s.calls && s'.executions == s.executions
    ensures forall b :: CallOk(h, s', b)
    ensures (forall a, b :: ApartOk(s', a, b)) && (forall i :: ExecutionOk(s', i)) && (forall i, j :: OnceOk(s', i, j))
  {
    forall b
      ensures CallOk(h, s', b)
    {
      CallStays(h, s, s', b);
    }
    forall a, b
      ensures ApartOk(s', a, b)
    {
      assert ApartOk(s, a, b);
    }
    forall i
      ensures ExecutionOk(s', i)
    {
      if i < |s.executions| {
        ExecutionStays(s, s', i);
      }
    }
    forall i, j
      ensures OnceOk(s', i, j)
    {
      assert OnceOk(s, i, j);
    }
  }

  // ----- one call changes ------------------------------------------------------------------------------------

  lemma ExecutionsStay(s: State, s': State)
    requires (forall i :: ExecutionOk(s, i)) && (forall i, j :: OnceOk(s, i, j))
    requires s'.executions == s.executions && s.log <= s'.log && forall b :: StaysOver(s, s', b)
    ensures (forall i :: ExecutionOk(s', i)) && (forall i, j :: OnceOk(s', i, j))
  {
    forall i
      ensures ExecutionOk(s', i)
    {
      assert ExecutionOk(s, i);
      if i < |s.executions| {
        ExecutionStays(s, s', i);
      }
    }
    forall i, j
      ensures OnceOk(s', i, j)
    {
      assert OnceOk(s, i, j);
    }
  }

  /**
   A step that changes one call and adds no execution keeps the invariant, if the call is
   still as it should be, spends nothing another call has spent, and is not revived once over.
   */
  lemma OneCallChanges(h: Hashing, s: State, s': State, c: string)
    requires Inv(h, s) && Evolves(s, s') && s'.registrations == s.registrations && s'.executions == s.executions
    requires c in s'.calls && s'.calls == s.calls[c := s'.calls[c]] && StaysOver(s, s', c)
    requires forall key :: LockOk(h, s', key)
    requires CallOk(h, s', c) && forall b :: b != c ==> ApartOk(s', c, b) && ApartOk(s', b, c)
    ensures Inv(h, s')
  {
    forall i
      ensures RegistrationOk(s', i)
    {
      assert RegistrationOk(s, i);
    }
    forall b
      ensures CallOk(h, s', b) && StaysOver(s, s', b)
    {
      if b != c {
        CallStays(h, s, s', b);
      }
    }
    AllApart(s, s', c);
    ExecutionsStay(s, s');
  }

  lemma AllApart(s: State, s': State, c: string)
    requires (forall a, b :: ApartOk(s, a, b)) && c in s'.calls && s'.calls == s.calls[c := s'.calls[c]]
    requires forall b :: b != c ==> ApartOk(s', c, b) && ApartOk(s', b, c)
    ensures forall a, b :: ApartOk(s', a, b)
  {
    forall a, b
      ensures ApartOk(s', a, b)
    {
      assert ApartOk(s, a, b);
      assert a != c ==> ApartOk(s', c, a) && ApartOk(s', a, c);
      assert b != c ==> ApartOk(s', c, b) && ApartOk(s', b, c);
    }
  }

  lemma SpentApart(s: State, s': State, c: string)
    requires (forall a, b :: ApartOk(s, a, b)) && c in s'.calls && s'.calls == s.calls[c := s'.calls[c]]
    requires s'.calls[c].spent.Some? ==> c in s.calls && s'.calls[c].spent == s.calls[c].spent
    ensures forall b :: b != c ==> ApartOk(s', c, b) && ApartOk(s', b, c)
  {
    forall b | b != c
      ensures ApartOk(s', c, b) && ApartOk(s', b, c)
    {
      assert ApartOk(s, c, b) && ApartOk(s, b, c);
    }
  }

  lemma ArriveKeeps(h: Hashing, s: State, c: string, request: Request)
    requires Inv(h, s) && c !in s.calls && WellFormed(request.arguments)
    ensures Inv(h, s.(calls := s.calls[c := Call(request, Gating, None)]))
  {
    var s' := s.(calls := s.calls[c := Call(request, Gating, None)]);
    forall key
      ensures LockFrom(s, s', key) && LockOk(h, s', key)
    {
      assert LockOk(h, s, key);
    }
    SpentApart(s, s', c);
    OneCallChanges(h, s, s', c);
  }

  /** A change of stage alone, with the log possibly longer. */
  lemma MoveKeeps(h: Hashing, s: State, logged: seq<Entry>, c: string, stage: Stage)
    requires Inv(h, s) && c in s.calls && s.log <= logged
    requires s.calls[c].spent.Some? ==> stage != Gating && stage != Consuming
    requires s.calls[c].request.risk == PinRequired && (stage == Allowing || stage == Dispatching) ==>
      s.calls[c].spent.Some?
    requires stage == Dispatching ==> AllowedBefore(logged, c, |logged|)
    requires s.calls[c].stage == Denying || s.calls[c].stage == Finished ==> stage == Denying || stage == Finished
    ensures Inv(h, Move(s.(log := logged), c, stage))
  {
    var s' := Move(s.(log := logged), c, stage);
    forall key
      ensures LockFrom(s, s', key) && LockOk(h, s', key)
    {
      assert LockOk(h, s, key);
    }
    assert CallOk(h, s, c);
    if s.calls[c].spent.Some? {
      GoneStays(s, s', s.calls[c].spent.value);
    }
    SpentApart(s, s', c);
    OneCallChanges(h, s, s', c);
  }

  // ----- consuming ---------------------------------------------------------------------------------------------

  /** The script only ever shrinks a lock: same registration, same digests. */
  lemma StoredLock(h: Hashing, s: State, key: Key, a: Attempt, k: Key)
    requires LockOk(h, s, k)
    ensures var s' := s.(locks := Stored(s, key, SlotAfter(SlotOf(s, key), a)));
      LockOk(h, s', k) && LockFrom(s, s', k)
  {
  }

  /** A consumed lock was bound to what the call presented, and is gone. */
  lemma ConsumedIsBound(h: Hashing, s: State, r: Request, now: int)
    requires Inv(h, s) && r.pin.Some? && r.lockId.Some? && WellFormed(r.arguments)
    requires var key := LockKey(r.tenant, r.lockId.value);
      key in s.locks && CodeOf(s.locks[key].slot, Presented(h, r, r.lockId.value, now)) == Consumed
    ensures var key := LockKey(r.tenant, r.lockId.value);
      var i := s.locks[key].registration;
      && i < |s.registrations| && BoundTo(h, s.registrations[i], r)
      && Gone(s.(locks := s.locks - {key}), i)
  {
    var key := LockKey(r.tenant, r.lockId.value);
    var i := s.locks[key].registration;
    assert LockOk(h, s, key);
    assert RegistrationOk(s, i);
    var s' := s.(locks := s.locks - {key});
    forall k
      ensures NotHolding(s', k, i)
    {
      assert LockOk(h, s, k);
    }
  }

  lemma StoredLocks(h: Hashing, s: State, s': State, key: Key, a: Attempt)
    requires Inv(h, s) && s'.registrations == s.registrations && s'.log == s.log
    requires s'.locks == Stored(s, key, SlotAfter(SlotOf(s, key), a))
    ensures Evolves(s, s') && forall k :: LockOk(h, s', k)
  {
    forall k
      ensures LockOk(h, s', k) && LockFrom(s, s', k)
    {
      StoredLock(h, s, key, a, k);
    }
  }

  lemma SpendKeeps(h: Hashing, s: State, c: string, now: int)
    requires Inv(h, s) && AtStage(s, c, Consuming)
    requires var r := s.calls[c].request;
      r.pin.Some? && r.lockId.Some?
      && CodeOf(SlotOf(s, LockKey(r.tenant, r.lockId.value)), Presented(h, r, r.lockId.value, now)) == Consumed
    ensures Inv(h, ConsumeStep(h, s, c, now, Done))
  {
    var r, s' := s.calls[c].request, ConsumeStep(h, s, c, now, Done);
    var key := LockKey(r.tenant, r.lockId.value);
    assert CallOk(h, s, c);
    StoredLocks(h, s, s', key, Presented(h, r, r.lockId.value, now));
    ConsumedIsBound(h, s, r, now);
    var i := s.locks[key].registration;
    SpendingApart(h, s, s', c, i, key);
    GoneAlike(s.(locks := s.locks - {key}), s', i);
    OneCallChanges(h, s, s', c);
  }

  lemma GoneAlike(s: State, s': State, i: nat)
    requires s'.locks == s.locks && Gone(s, i)
    ensures Gone(s', i)
  {
    forall key
      ensures NotHolding(s', key, i)
    {
      assert NotHolding(s, key, i);
    }
  }

  lemma RefusedKeeps(h: Hashing, s: State, s': State, c: string, key: Key, a: Attempt)
    requires Inv(h, s) && AtStage(s, c, Consuming)
    requires s' == Move(s.(locks := Stored(s, key, SlotAfter(SlotOf(s, key), a))), c, Denying)
    ensures Inv(h, s')
  {
    assert CallOk(h, s, c);
    StoredLocks(h, s, s', key, a);
    SpentApart(s, s', c);
    OneCallChanges(h, s, s', c);
  }

  lemma ConsumeKeeps(h: Hashing, s: State, c: string, now: int, outcome: Outcome)
    requires Inv(h, s) && AtStage(s, c, Consuming)
    ensures Inv(h, ConsumeStep(h, s, c, now, outcome))
  {
    var r := s.calls[c].request;
    assert CallOk(h, s, c);
    if r.pin.None? || r.lockId.None? || outcome == NotDone {
      MoveKeeps(h, s, s.log, c, Denying);
      assert s.(log := s.log) == s;
    } else {
      var key, attempt := LockKey(r.tenant, r.lockId.value), Presented(h, r, r.lockId.value, now);
      if outcome == Done && CodeOf(SlotOf(s, key), attempt) == Consumed {
        SpendKeeps(h, s, c, now);
      } else {
        RefusedKeeps(h, s, ConsumeStep(h, s, c, now, outcome), c, key, attempt);
      }
    }
  }

  /** No other call has spent a registration whose lock is still stored. */
  lemma SpendingApart(h: Hashing, s: State, s': State, c: string, i: nat, key: Key)
    requires Inv(h, s) && key in s.locks && s.locks[key].registration == i
    requires c in s'.calls && s'.calls == s.calls[c := s'.calls[c]] && s'.calls[c].spent == Some(i)
    ensures forall b :: b != c ==> ApartOk(s', c, b) && ApartOk(s', b, c)
  {
    forall b | b != c
      ensures ApartOk(s', c, b) && ApartOk(s', b, c)
    {
      assert CallOk(h, s, b);
      if b in s.calls && s.calls[b].spent.Some? {
        assert NotHolding(s, key, s.calls[b].spent.value);
      }
    }
  }

  // ----- dispatching ----------------------------------------------------------------------------------------------

  lemma DispatchKeeps(h: Hashing, s: State, c: string, transport: bool, ok: bool)
    requires Inv(h, s) && AtStage(s, c, Dispatching)
    ensures Inv(h, DispatchStep(s, c, transport, ok))
  {
    assert CallOk(h, s, c);
    var stage := if transport && ok then Finished else Denying;
    MoveKeeps(h, s, s.log, c, stage);
    assert s.(log := s.log) == s;
    if transport {
      var moved, s' := Move(s, c, stage), DispatchStep(s, c, transport, ok);
      ExecutedKeeps(h, s, moved, s', c);
    }
  }

  /** Recording the execution of a call that has just gone over from dispatching. */
  lemma ExecutedKeeps(h: Hashing, s: State, moved: State, s': State, c: string)
    requires Inv(h, s) && AtStage(s, c, Dispatching) && Inv(h, moved)
    requires c in moved.calls && moved.calls == s.calls[c := s.calls[c].(stage := moved.calls[c].stage)]
    requires moved.executions == s.executions && moved.log == s.log
    requires moved.calls[c].stage == Denying || moved.calls[c].stage == Finished
    requires s' == moved.(executions := s.executions + [Execution(c, s.calls[c].request, s.calls[c].spent, |s.log|)])
    ensures Inv(h, s')
  {
    assert CallOk(h, s, c);
    forall key
      ensures LockOk(h, s', key) && LockFrom(moved, s', key)
    {
      assert LockOk(h, moved, key);
    }
    forall i
      ensures RegistrationOk(s', i)
    {
      assert RegistrationOk(moved, i);
    }
    forall b
      ensures CallOk(h, s', b)
    {
      CallStays(h, moved, s', b);
    }
    forall a, b
      ensures ApartOk(s', a, b)
    {
      assert ApartOk(moved, a, b);
    }
    forall i
      ensures ExecutionOk(s', i)
    {
      if i < |s.executions| {
        ExecutionStays(moved, s', i);
      }
    }
    forall i, j
      ensures OnceOk(s', i, j)
    {
      assert OnceOk(s, i, j);
      assert ExecutionOk(s, i);
    }
  }

  // ----- runs -----------------------------------------------------------------------------------------------------

  lemma StepKeeps(h: Hashing, s: State, a: Action)
    requires Inv(h, s) && Enabled(s, a)
    ensures Inv(h, Apply(h, s, a))
  {
    match a {
      case Register(_, _, _, _, _, _, _) => RegisterKeeps(h, s, a);
      case Arrive(c, request) => ArriveKeeps(h, s, c, request);
      case Gate(c, pass) =>
        assert CallOk(h, s, c);
        MoveKeeps(h, s, s.log, c,
                  if !pass then Denying
                  else if s.calls[c].request.risk == PinRequired then Consuming else Allowing);
        assert s.(log := s.log) == s;
      case Consume(c, now, outcome) => ConsumeKeeps(h, s, c, now, outcome);
      case EmitAllow(c, outcome) => AllowKeeps(h, s, c, outcome);
      case Dispatch(c, transport, ok) => DispatchKeeps(h, s, c, transport, ok);
      case EmitDeny(c, outcome) =>
        MoveKeeps(h, s, Logged(s, c, false, outcome).log, c, Finished);
        assert s.(log := Logged(s, c, false, outcome).log) == Logged(s, c, false, outcome);
      case Abandon(c) =>
        MoveKeeps(h, s, s.log, c, Finished);
        assert s.(log := s.log) == s;
    }
  }

  lemma AllowKeeps(h: Hashing, s: State, c: string, outcome: Outcome)
    requires Inv(h, s) && AtStage(s, c, Allowing)
    ensures Inv(h, Move(Logged(s, c, true, outcome), c, if outcome == Done then Dispatching else Finished))
  {
    var logged := Logged(s, c, true, outcome);
    assert CallOk(h, s, c);
    if outcome == Done {
      assert logged.log[|s.log|] == Entry(c, true);
    }
    MoveKeeps(h, s, logged.log, c, if outcome == Done then Dispatching else Finished);
    assert s.(log := logged.log) == logged;
  }

  lemma {:induction false} ReachableKeeps(h: Hashing, s: State, actions: seq<Action>)
    requires Reachable(h, s, actions)
    ensures Inv(h, s)
    decreases |actions|
  {
    if actions != [] {
      var n := |actions| - 1;
      var before :| Reachable(h, before, actions[..n]) && Enabled(before, actions[n])
        && s == Apply(h, before, actions[n]);
      ReachableKeeps(h, before, actions[..n]);
      StepKeeps(h, before, actions[n]);
    }
  }

  // ----- exactly once -----------------------------------------------------------------------------------------------

  /** The registration behind an execution was approved for the same action, unless two encodings collide. */
  ghost predicate Approved(h: Hashing, reg: Registration, r: Request) {
    && r.lockId.Some? && r.pin.Some?
    && reg.digest
         == h.PinDigest(r.pin.value, r.tenant, r.lockId.value, h.Payload(r.tenant, r.agent, r.alias, r.arguments))
    && ((reg.tenant == r.tenant && reg.lockId == r.lockId.value
         && SameAction(h.nfc, reg.tenant, reg.agent, reg.alias, reg.arguments,
                       r.tenant, r.agent, r.alias, r.arguments))
        || Collide(h.sha, {Canonical(h.nfc, LockPayload(reg.tenant, reg.agent, reg.alias, reg.arguments))},
                   {Canonical(h.nfc, LockPayload(r.tenant, r.agent, r.alias, r.arguments))}))
  }

  lemma BoundIsApproved(h: Hashing, reg: Registration, r: Request)
    requires KeepsFieldNames(h.nfc) && ColonSplits(h.nfc) && BoundTo(h, reg, r)
    ensures Approved(h, reg, r)
  {
    PayloadHashBinds(h.sha, h.nfc, reg.tenant, reg.agent, reg.alias, reg.arguments, r.tenant, r.agent, r.alias,
                     r.arguments);
    if SameAction(h.nfc, reg.tenant, reg.agent, reg.alias, reg.arguments, r.tenant, r.agent, r.alias, r.arguments) {
      LockKeyBinds(h.nfc, reg.tenant, reg.lockId, r.tenant, r.lockId.value);
    }
  }

  /**
   In every reachable state, of any interleaving with failures anywhere: each execution comes
   after an ALLOW entry with its correlation id; no call executes twice; and each execution of
   a PIN alias has behind it a registration of its own, approved for the same tenant, lock,
   PIN digest, agent, alias and arguments. No two executions share one.
   */
  lemma ExactlyOnce(h: Hashing, s: State, actions: seq<Action>, i: nat, j: nat)
    requires KeepsFieldNames(h.nfc) && ColonSplits(h.nfc)
    requires Reachable(h, s, actions) && i < |s.executions| && j < |s.executions|
    ensures s.executions[i].after <= |s.log| && AllowedBefore(s.log, s.executions[i].correlation, s.executions[i].after)
    ensures i != j ==> s.executions[i].correlation != s.executions[j].correlation
    ensures s.executions[i].request.risk == PinRequired ==>
      var spent := s.executions[i].spent;
      && spent.Some? && spent.value < |s.registrations|
      && Approved(h, s.registrations[spent.value], s.executions[i].request)
      && (i != j ==> s.executions[j].spent != spent)
  {
    ReachableKeeps(h, s, actions);
    var e, f := s.executions[i], s.executions[j];
    assert ExecutionOk(s, i) && ExecutionOk(s, j) && OnceOk(s, i, j) && OnceOk(s, j, i);
    assert CallOk(h, s, e.correlation);
    assert ApartOk(s, e.correlation, f.correlation);
    if e.request.risk == PinRequired {
      BoundIsApproved(h, s.registrations[e.spent.value], e.request);
    }
  }
}
