/**
 One call through the pipeline, as `authorize_and_execute` runs it: the stages in order, the
 single place denies are logged, and the opaque result. How each remote effect goes is an
 argument. The call is one run of the interleaving machine.
 */
module GatewayCall {
  import opened CanonicalJson
  import opened Gateway
  import opened PayloadLock
  import opened Wrappers

  /** How the effects of one call go. */
  datatype Weather = Weather(gates: bool, now: int, consume: Outcome, allow: Outcome, transport: bool, ok: bool,
                             deny: Outcome)

  /** The call has passed its gates and, where a PIN is required, been through the lock. */
  function Authorized(h: Hashing, s: State, correlation: string, request: Request, w: Weather): (r: State)
    requires correlation !in s.calls && WellFormed(request.arguments)
    ensures AtStage(r, correlation, Allowing) || AtStage(r, correlation, Denying)
  {
    var gated := Apply(h, Apply(h, s, Arrive(correlation, request)), Gate(correlation, w.gates));
    if AtStage(gated, correlation, Consuming) then Apply(h, gated, Consume(correlation, w.now, w.consume)) else gated
  }

  /** The rest of it: the ALLOW, the dispatch, or the one place a deny is logged. True only on ALLOW. */
  function Concluded(h: Hashing, s: State, correlation: string, w: Weather): (State, bool)
    requires AtStage(s, correlation, Allowing) || AtStage(s, correlation, Denying)
  {
    if AtStage(s, correlation, Denying) then (Apply(h, s, EmitDeny(correlation, w.deny)), false)
    else
      var emitted := Apply(h, s, EmitAllow(correlation, w.allow));
      if AtStage(emitted, correlation, Finished) then (emitted, false)
      else
        var dispatched := Apply(h, emitted, Dispatch(correlation, w.transport, w.ok));
        if AtStage(dispatched, correlation, Finished) then (dispatched, true)
        else (Apply(h, dispatched, EmitDeny(correlation, w.deny)), false)
  }

  // ----- a call is a run -----------------------------------------------------------------------------

  ghost predicate Reached(h: Hashing, s: State) { exists actions :: Reachable(h, s, actions) }

  lemma ReachedNext(h: Hashing, s: State, a: Action)
    requires Reached(h, s) && Enabled(s, a)
    ensures Reached(h, Apply(h, s, a))
  {
    var actions :| Reachable(h, s, actions);
    assert (actions + [a])[..|actions|] == actions;
    assert Reachable(h, Apply(h, s, a), actions + [a]);
  }

  lemma AuthorizedReached(h: Hashing, s: State, correlation: string, request: Request, w: Weather)
    requires Reached(h, s) && correlation !in s.calls && WellFormed(request.arguments)
    ensures Reached(h, Authorized(h, s, correlation, request, w))
  {
    var arrived := Apply(h, s, Arrive(correlation, request));
    ReachedNext(h, s, Arrive(correlation, request));
    ReachedNext(h, arrived, Gate(correlation, w.gates));
    var gated := Apply(h, arrived, Gate(correlation, w.gates));
    if AtStage(gated, correlation, Consuming) {
      ReachedNext(h, gated, Consume(correlation, w.now, w.consume));
    }
  }

  lemma ConcludedReached(h: Hashing, s: State, correlation: string, w: Weather)
    requires Reached(h, s) && (AtStage(s, correlation, Allowing) || AtStage(s, correlation, Denying))
    ensures Reached(h, Concluded(h, s, correlation, w).0)
  {
    if AtStage(s, correlation, Denying) {
      ReachedNext(h, s, EmitDeny(correlation, w.deny));
    } else {
      ReachedNext(h, s, EmitAllow(correlation, w.allow));
      var emitted := Apply(h, s, EmitAllow(correlation, w.allow));
      if !AtStage(emitted, correlation, Finished) {
        ReachedNext(h, emitted, Dispatch(correlation, w.transport, w.ok));
        var dispatched := Apply(h, emitted, Dispatch(correlation, w.transport, w.ok));
        if !AtStage(dispatched, correlation, Finished) {
          ReachedNext(h, dispatched, EmitDeny(correlation, w.deny));
        }
      }
    }
  }

  // ----- what one call does ------------------------------------------------------------------------------

  /** Up to the ALLOW nothing is logged or executed, and a PIN alias gets there only by spending a lock. */
  lemma AuthorizedFacts(h: Hashing, s: State, correlation: string, request: Request, w: Weather)
    requires correlation !in s.calls && WellFormed(request.arguments)
    ensures var r := Authorized(h, s, correlation, request, w);
      && r.log == s.log && r.executions == s.executions && r.calls[correlation].request == request
      && (AtStage(r, correlation, Allowing) && request.risk == PinRequired ==>
            request.pin.Some? && request.lockId.Some? && w.consume == Done
            && CodeOf(SlotOf(s, LockKey(request.tenant, request.lockId.value)),
                      Presented(h, request, request.lockId.value, w.now)) == Consumed)
      && (request.risk == Auto ==> r.locks == s.locks)
  {
  }

  lemma AllowFacts(h: Hashing, s: State, c: string, outcome: Outcome)
    requires AtStage(s, c, Allowing)
    ensures Apply(h, s, EmitAllow(c, outcome))
         == s.(calls := s.calls[c := s.calls[c].(stage := if outcome == Done then Dispatching else Finished)],
               log := if outcome == NotDone then s.log else s.log + [Entry(c, true)])
  {
  }

  lemma DispatchFacts(h: Hashing, s: State, c: string, transport: bool, ok: bool)
    requires AtStage(s, c, Dispatching)
    ensures Apply(h, s, Action.Dispatch(c, transport, ok))
         == s.(calls := s.calls[c := s.calls[c].(stage := if transport && ok then Finished else Denying)],
               executions := if transport
                 then s.executions + [Execution(c, s.calls[c].request, s.calls[c].spent, |s.log|)] else s.executions)
  {
  }

  lemma DenyFacts(h: Hashing, s: State, c: string, outcome: Outcome)
    requires AtStage(s, c, Denying)
    ensures Apply(h, s, EmitDeny(c, outcome))
         == s.(calls := s.calls[c := s.calls[c].(stage := Finished)],
               log := if outcome == NotDone then s.log else s.log + [Entry(c, false)])
  {
  }

  /** An acknowledged ALLOW and the dispatch after it. */
  lemma AllowedDispatched(h: Hashing, s: State, c: string, w: Weather) returns (r: State)
    requires AtStage(s, c, Allowing) && w.allow == Done
    ensures r == s.(calls := s.calls[c := s.calls[c].(stage := if w.transport && w.ok then Finished else Denying)],
                    executions := r.executions, log := s.log + [Entry(c, true)])
    ensures r.executions == s.executions
              + (if w.transport then [Execution(c, s.calls[c].request, s.calls[c].spent, |s.log| + 1)] else [])
    ensures Concluded(h, s, c, w)
         == if w.transport && w.ok then (r, true) else (Apply(h, r, EmitDeny(c, w.deny)), false)
  {
    AllowFacts(h, s, c, w.allow);
    var emitted := Apply(h, s, EmitAllow(c, w.allow));
    DispatchFacts(h, emitted, c, w.transport, w.ok);
    r := Apply(h, emitted, Action.Dispatch(c, w.transport, w.ok));
  }

  /**
   From there the transport runs at most once, right after the call's own ALLOW was logged;
   it runs exactly when that was acknowledged and there is a transport; and the result is
   ALLOW exactly when it also succeeded.
   */
  lemma ConcludedFacts(h: Hashing, s: State, correlation: string, w: Weather)
    requires AtStage(s, correlation, Allowing) || AtStage(s, correlation, Denying)
    ensures var (s', allowed) := Concluded(h, s, correlation, w);
      var runs := AtStage(s, correlation, Allowing) && w.allow == Done && w.transport;
      && AtStage(s', correlation, Finished)
      && s'.executions == (if runs then s.executions + [Execution(correlation, s.calls[correlation].request,
                                                                  s.calls[correlation].spent, |s.log| + 1)]
                           else s.executions)
      && (runs ==> s.log + [Entry(correlation, true)] <= s'.log)
      && (allowed <==> runs && w.ok)
  {
    if AtStage(s, correlation, Denying) {
      DenyFacts(h, s, correlation, w.deny);
    } else if w.allow == Done {
      var dispatched := AllowedDispatched(h, s, correlation, w);
      if !(w.transport && w.ok) {
        DenyFacts(h, dispatched, correlation, w.deny);
      }
    } else {
      AllowFacts(h, s, correlation, w.allow);
    }
  }

  // ----- what one call comes to --------------------------------------------------------------------------

  /** What the request presents opens its lock, and the consume is answered. */
  predicate PinStands(h: Hashing, s: State, request: Request, w: Weather) {
    && request.pin.Some? && request.lockId.Some? && w.consume == Done
    && Opens(SlotOf(s, LockKey(request.tenant, request.lockId.value)), AttemptOf(h, request, w.now))
  }

  /** The attempt a request makes on its lock. */
  function AttemptOf(h: Hashing, request: Request, now: int): Attempt
    requires request.pin.Some? && request.lockId.Some?
  {
    var payload := h.Payload(request.tenant, request.agent, request.alias, request.arguments);
    Attempt(now, h.PinDigest(request.pin.value, request.tenant, request.lockId.value, payload), payload)
  }

  /** The call gets as far as its lock. */
  predicate Touches(request: Request, w: Weather) {
    w.gates && request.risk == PinRequired && request.pin.Some? && request.lockId.Some? && w.consume != NotDone
  }

  /** What it does there: one attempt on its own key, whoever hears of it, and nothing else. */
  predicate LocksAfter(h: Hashing, s: State, r: State, request: Request, w: Weather) {
    if Touches(request, w) then
      var key := LockKey(request.tenant, request.lockId.value);
      && SlotOf(r, key) == SlotAfter(SlotOf(s, key), AttemptOf(h, request, w.now))
      && r.locks - {key} == s.locks - {key}
    else r.locks == s.locks
  }

  /** The call may be logged as allowed: its gates pass, and a PIN alias opens its lock. */
  predicate Authorizes(h: Hashing, s: State, request: Request, w: Weather) {
    w.gates && (request.risk == PinRequired ==> PinStands(h, s, request, w))
  }

  /** It also gets to its transport. */
  predicate Executes(h: Hashing, s: State, request: Request, w: Weather) {
    Authorizes(h, s, request, w) && w.allow == Done && w.transport
  }

  /** The registration an authorised call spends. */
  function SpentBy(h: Hashing, s: State, request: Request, w: Weather): Option<nat> {
    if request.risk == PinRequired && Authorizes(h, s, request, w)
      && LockKey(request.tenant, request.lockId.value) in s.locks
    then Some(s.locks[LockKey(request.tenant, request.lockId.value)].registration)
    else None
  }

  /** The entries of one call: an ALLOW if authorised, a deny unless it ends there or in success. */
  function Entries(h: Hashing, s: State, c: string, request: Request, w: Weather): seq<Entry> {
    var allows := Authorizes(h, s, request, w) && w.allow != NotDone;
    var denies := w.deny != NotDone
      && (if Authorizes(h, s, request, w) then w.allow == Done && !(w.transport && w.ok) else true);
    (if allows then [Entry(c, true)] else []) + (if denies then [Entry(c, false)] else [])
  }

  lemma OpensIff(slot: Slot, a: Attempt)
    ensures CodeOf(slot, a) == Consumed <==> Opens(slot, a)
    ensures Opens(slot, a) ==> SlotAfter(slot, a) == Empty
  {
  }

  lemma GateFacts(h: Hashing, s: State, c: string, request: Request, pass: bool)
    requires c !in s.calls && WellFormed(request.arguments)
    ensures var stage := if !pass then Denying else if request.risk == PinRequired then Consuming else Allowing;
      Apply(h, Apply(h, s, Arrive(c, request)), Gate(c, pass)) == s.(calls := s.calls[c := Call(request, stage, None)])
  {
  }

  lemma ConsumeApplied(h: Hashing, s: State, c: string, now: int, outcome: Outcome)
    requires AtStage(s, c, Consuming)
    ensures Apply(h, s, Consume(c, now, outcome)) == ConsumeStep(h, s, c, now, outcome)
  {
  }

  /** A request that opens its lock, and is told so, takes the lock with it. */
  lemma ConsumeOpens(h: Hashing, s: State, c: string, w: Weather)
    requires AtStage(s, c, Consuming) && PinStands(h, s, s.calls[c].request, w)
    ensures var request := s.calls[c].request;
      var key := LockKey(request.tenant, request.lockId.value);
      && key in s.locks
      && ConsumeStep(h, s, c, w.now, w.consume)
           == s.(locks := s.locks - {key},
                 calls := s.calls[c := Call(request, Allowing, Some(s.locks[key].registration))])
  {
    var request := s.calls[c].request;
    OpensIff(SlotOf(s, LockKey(request.tenant, request.lockId.value)),
             Presented(h, request, request.lockId.value, w.now));
  }

  lemma ConsumeRefused(h: Hashing, s: State, c: string, w: Weather)
    requires AtStage(s, c, Consuming) && !PinStands(h, s, s.calls[c].request, w)
    ensures var r := ConsumeStep(h, s, c, w.now, w.consume);
      && r == s.(locks := r.locks, calls := s.calls[c := s.calls[c].(stage := Denying)])
      && (w.gates && s.calls[c].request.risk == PinRequired ==> LocksAfter(h, s, r, s.calls[c].request, w))
  {
    var request := s.calls[c].request;
    if request.pin.Some? && request.lockId.Some? {
      OpensIff(SlotOf(s, LockKey(request.tenant, request.lockId.value)),
               Presented(h, request, request.lockId.value, w.now));
    }
  }

  lemma PinGated(h: Hashing, s: State, c: string, request: Request, w: Weather)
    requires c !in s.calls && WellFormed(request.arguments) && w.gates && request.risk == PinRequired
    ensures var gated := s.(calls := s.calls[c := Call(request, Consuming, None)]);
      Authorized(h, s, c, request, w) == ConsumeStep(h, gated, c, w.now, w.consume)
  {
    GateFacts(h, s, c, request, true);
    ConsumeApplied(h, s.(calls := s.calls[c := Call(request, Consuming, None)]), c, w.now, w.consume);
  }

  lemma SpentIs(h: Hashing, s: State, request: Request, w: Weather)
    requires w.gates && request.risk == PinRequired
    ensures SpentBy(h, s, request, w)
         == if PinStands(h, s, request, w)
            then Some(s.locks[LockKey(request.tenant, request.lockId.value)].registration) else None
  {
  }

  /** A PIN call that passed its gates and opens its lock. */
  lemma PinStood(h: Hashing, s: State, c: string, request: Request, w: Weather)
    requires c !in s.calls && WellFormed(request.arguments) && w.gates && request.risk == PinRequired
    requires PinStands(h, s, request, w)
    ensures var key := LockKey(request.tenant, request.lockId.value);
      && key in s.locks
      && Authorized(h, s, c, request, w)
           == s.(locks := s.locks - {key},
                 calls := s.calls[c := Call(request, Allowing, Some(s.locks[key].registration))])
      && LocksAfter(h, s, Authorized(h, s, c, request, w), request, w)
  {
    OpensIff(SlotOf(s, LockKey(request.tenant, request.lockId.value)), AttemptOf(h, request, w.now));
    PinGated(h, s, c, request, w);
    ConsumeOpens(h, s.(calls := s.calls[c := Call(request, Consuming, None)]), c, w);
  }

  lemma PinRefused(h: Hashing, s: State, c: string, request: Request, w: Weather)
    requires c !in s.calls && WellFormed(request.arguments) && w.gates && request.risk == PinRequired
    requires !PinStands(h, s, request, w)
    ensures var r := Authorized(h, s, c, request, w);
      && r == s.(locks := r.locks, calls := s.calls[c := Call(request, Denying, None)])
      && LocksAfter(h, s, r, request, w)
  {
    PinGated(h, s, c, request, w);
    ConsumeRefused(h, s.(calls := s.calls[c := Call(request, Consuming, None)]), c, w);
  }

  /** The stage a call is at before the ALLOW, and what it has done to the locks. */
  lemma AuthorizedIff(h: Hashing, s: State, c: string, request: Request, w: Weather)
    requires c !in s.calls && WellFormed(request.arguments)
    ensures var r := Authorized(h, s, c, request, w);
      && r == s.(locks := r.locks, calls := r.calls)
      && r.calls == s.calls[c := Call(request, if Authorizes(h, s, request, w) then Allowing else Denying,
                                      SpentBy(h, s, request, w))]
      && LocksAfter(h, s, r, request, w)
      && (request.risk == PinRequired && Authorizes(h, s, request, w) ==>
            r.locks == s.locks - {LockKey(request.tenant, request.lockId.value)})
  {
    if w.gates && request.risk == PinRequired {
      SpentIs(h, s, request, w);
      if PinStands(h, s, request, w) {
        PinStood(h, s, c, request, w);
      } else {
        PinRefused(h, s, c, request, w);
      }
    } else {
      GateFacts(h, s, c, request, w.gates);
    }
  }

  /** The entries from there on. */
  function EntriesAfter(c: string, stage: Stage, w: Weather): seq<Entry> {
    if stage == Denying then (if w.deny == NotDone then [] else [Entry(c, false)])
    else
      (if w.allow == NotDone then [] else [Entry(c, true)])
      + (if w.allow == Done && !(w.transport && w.ok) && w.deny != NotDone then [Entry(c, false)] else [])
  }

  lemma ConcludedIs(h: Hashing, s: State, c: string, w: Weather)
    requires AtStage(s, c, Allowing) || AtStage(s, c, Denying)
    ensures var r, call := Concluded(h, s, c, w).0, s.calls[c];
      && r == s.(calls := s.calls[c := call.(stage := Finished)], executions := r.executions, log := r.log)
      && r.log == s.log + EntriesAfter(c, call.stage, w)
  {
    if AtStage(s, c, Denying) {
      DenyFacts(h, s, c, w.deny);
    } else {
      AllowFacts(h, s, c, w.allow);
      if w.allow == Done {
        AllowedIs(h, s, c, w);
      }
    }
  }

  /** After an acknowledged ALLOW. */
  lemma AllowedIs(h: Hashing, s: State, c: string, w: Weather)
    requires AtStage(s, c, Allowing) && w.allow == Done
    ensures var r, call := Concluded(h, s, c, w).0, s.calls[c];
      && r == s.(calls := s.calls[c := call.(stage := Finished)], executions := r.executions, log := r.log)
      && r.log == s.log + EntriesAfter(c, Allowing, w)
  {
    var dispatched := AllowedDispatched(h, s, c, w);
    if !(w.transport && w.ok) {
      DenyFacts(h, dispatched, c, w.deny);
    }
  }

  /**
   The result of a call, from what was there before it and how its effects went: allowed
   exactly when its gates pass, a PIN alias presents what its live lock holds and is told so,
   the ALLOW is acknowledged, and the transport runs and succeeds.
   */
  lemma CallOutcome(h: Hashing, s: State, c: string, request: Request, w: Weather)
    requires c !in s.calls && WellFormed(request.arguments)
    ensures var (r, allowed) := Concluded(h, Authorized(h, s, c, request, w), c, w);
      && (allowed <==> Executes(h, s, request, w) && w.ok)
      && r.executions == s.executions
           + (if Executes(h, s, request, w)
              then [Execution(c, request, SpentBy(h, s, request, w), |s.log| + 1)] else [])
      && r.log == s.log + Entries(h, s, c, request, w)
      && r.calls == s.calls[c := Call(request, Finished, SpentBy(h, s, request, w))]
      && r.registrations == s.registrations
      && LocksAfter(h, s, r, request, w)
      && (request.risk == PinRequired && Authorizes(h, s, request, w) ==>
            r.locks == s.locks - {LockKey(request.tenant, request.lockId.value)})
  {
    var authorized := Authorized(h, s, c, request, w);
    AuthorizedIff(h, s, c, request, w);
    ConcludedFacts(h, authorized, c, w);
    ConcludedIs(h, authorized, c, w);
  }

  /** A call with the PIN and the lock id of a registration, for the same action. */
  function RequestFor(a: Action): Request
    requires a.Register?
  {
    Request(a.tenant, a.agent, a.alias, a.arguments, PinRequired, Some(a.pin), Some(a.lockId))
  }

  /**
   What was approved can be executed: right after a registration that goes through, the call
   it was for executes exactly when its gates pass, its effects are answered, and the lock has
   not expired.
   */
  lemma ApprovedCallExecutes(h: Hashing, s: State, a: Action, w: Weather)
    requires a.Register? && WellFormed(a.arguments)
    requires h.PinShaped(a.pin) && !SlotOf(s, LockKey(a.tenant, a.lockId)).Live(a.now)
    ensures Executes(h, Apply(h, s, a), RequestFor(a), w)
       <==> w.gates && w.consume == Done && w.allow == Done && w.transport
              && w.now <= a.now + 1000 * PIN_TTL_SECONDS
  {
  }

  class MCPIPGateway {
    const h: Hashing
    var state: State

    constructor (h: Hashing)
      ensures this.h == h && state == INITIAL && Reached(h, state)
    {
      this.h, state := h, INITIAL;
      new;
      assert Reachable(h, INITIAL, []);
    }

    method AuthorizeAndExecute(correlation: string, request: Request, w: Weather) returns (allowed: bool)
      requires correlation !in state.calls && WellFormed(request.arguments)
      modifies this
      ensures (state, allowed) == Concluded(h, Authorized(h, old(state), correlation, request, w), correlation, w)
      ensures Reached(h, old(state)) ==> Reached(h, state)
      ensures allowed <==> Executes(h, old(state), request, w) && w.ok
      ensures state.executions == old(state).executions
                + (if Executes(h, old(state), request, w)
                   then [Execution(correlation, request, SpentBy(h, old(state), request, w), |old(state).log| + 1)]
                   else [])
      ensures state.log == old(state).log + Entries(h, old(state), correlation, request, w)
      ensures state.calls == old(state).calls[correlation := Call(request, Finished,
                                                                  SpentBy(h, old(state), request, w))]
      ensures LocksAfter(h, old(state), state, request, w)
      ensures !w.gates ==> state.locks == old(state).locks && state.executions == old(state).executions
      ensures state.registrations == old(state).registrations
      ensures request.risk == PinRequired && Authorizes(h, old(state), request, w) ==>
        state.locks == old(state).locks - {LockKey(request.tenant, request.lockId.value)}
    {
      ghost var before := state;
      CallOutcome(h, before, correlation, request, w);
      state := Apply(h, state, Arrive(correlation, request));
      state := Apply(h, state, Gate(correlation, w.gates));
      if AtStage(state, correlation, Consuming) {
        state := Apply(h, state, Consume(correlation, w.now, w.consume));
      }
      assert state == Authorized(h, before, correlation, request, w);
      if Reached(h, before) {
        AuthorizedReached(h, before, correlation, request, w);
        ConcludedReached(h, state, correlation, w);
      }
      allowed := Conclude(correlation, w);
    }

    /** From the ALLOW on, with the one place where denies are logged. */
    method Conclude(correlation: string, w: Weather) returns (allowed: bool)
      requires AtStage(state, correlation, Allowing) || AtStage(state, correlation, Denying)
      modifies this
      ensures (state, allowed) == Concluded(h, old(state), correlation, w)
    {
      allowed := false;
      if AtStage(state, correlation, Allowing) {
        AllowFacts(h, state, correlation, w.allow);
        state := Apply(h, state, EmitAllow(correlation, w.allow));
        if AtStage(state, correlation, Finished) {
          return;
        }
        DispatchFacts(h, state, correlation, w.transport, w.ok);
        state := Apply(h, state, Dispatch(correlation, w.transport, w.ok));
        if AtStage(state, correlation, Finished) {
          return true;
        }
      }
      state := Apply(h, state, EmitDeny(correlation, w.deny));
    }
  }
}
