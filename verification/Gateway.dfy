/**
 The authorization pipeline of `main.py` as interleaved calls. Every stage of a call is one
 step and may fail, replies may be lost after the effect took place, and calls may be
 abandoned anywhere. An execution of a PIN alias still has an ALLOW in the log before it
 and a lock of its own behind it, registered for the same action.
 */
module Gateway {
  import opened CanonicalJson
  import opened PayloadLock
  import opened Wrappers

  datatype Risk = Auto | PinRequired

  /** An authenticated, normalised and resolved call, as the pipeline carries it. */
  datatype Request = Request(
    tenant: string, agent: string, alias: string, arguments: Json, risk: Risk, pin: Option<string>,
      lockId: Option<string>)

  datatype Stage = Gating | Consuming | Allowing | Dispatching | Denying | Finished

  /** `spent` is the registration whose lock the call consumed. */
  datatype Call = Call(request: Request, stage: Stage, spent: Option<nat>)

  /** What was approved: the fields the PIN was bound to, the lock's id and its PIN digest. */
  datatype Registration = Registration(
    tenant: string, agent: string, alias: string, arguments: Json, lockId: string, digest: Digest)

  /** A stored lock and the registration that stored it. */
  datatype Lock = Lock(slot: Slot, registration: nat)

  datatype Entry = Entry(correlation: string, allowed: bool)

  /** One run of a transport, with the length of the log when it happened. */
  datatype Execution = Execution(correlation: string, request: Request, spent: Option<nat>, after: nat)

  datatype State = State(
    locks: map<Key, Lock>, registrations: seq<Registration>, calls: map<string, Call>,
    log: seq<Entry>, executions: seq<Execution>)

  const INITIAL := State(map[], [], map[], [], [])

  /** How a remote effect went: done and acknowledged, done but the reply lost, or not done. */
  datatype Outcome = Done | Lost | NotDone

  datatype Action =
    | Register(tenant: string, agent: string, alias: string, arguments: Json, pin: string, lockId: string, now: int)
    | Arrive(correlation: string, request: Request)
    | Gate(correlation: string, pass: bool)
    | Consume(correlation: string, now: int, outcome: Outcome)
    | EmitAllow(correlation: string, outcome: Outcome)
    | Dispatch(correlation: string, transport: bool, ok: bool)
    | EmitDeny(correlation: string, outcome: Outcome)
    | Abandon(correlation: string)

  predicate AtStage(s: State, correlation: string, stage: Stage) {
    correlation in s.calls && s.calls[correlation].stage == stage
  }

  /** Correlation ids are fresh, and a call takes its stages in order. */
  predicate Enabled(s: State, a: Action) {
    match a
    case Register(_, _, _, arguments, _, _, _) => WellFormed(arguments)
    case Arrive(correlation, request) => correlation !in s.calls && WellFormed(request.arguments)
    case Gate(correlation, _) => AtStage(s, correlation, Gating)
    case Consume(correlation, _, _) => AtStage(s, correlation, Consuming)
    case EmitAllow(correlation, _) => AtStage(s, correlation, Allowing)
    case Dispatch(correlation, _, _) => AtStage(s, correlation, Dispatching)
    case EmitDeny(correlation, _) => AtStage(s, correlation, Denying)
    case Abandon(correlation) => correlation in s.calls
  }

  function SlotOf(s: State, key: Key): Slot { if key in s.locks then s.locks[key].slot else Empty }

  function Move(s: State, correlation: string, stage: Stage): State
    requires correlation in s.calls
  {
    s.(calls := s.calls[correlation := s.calls[correlation].(stage := stage)])
  }

  function RegisterStep(h: Hashing, s: State, a: Action): State
    requires a.Register?
  {
    var key, payload := LockKey(a.tenant, a.lockId), h.Payload(a.tenant, a.agent, a.alias, a.arguments);
    var digest := h.PinDigest(a.pin, a.tenant, a.lockId, payload);
    if !h.PinShaped(a.pin) || SlotOf(s, key).Live(a.now) then s
    else s.(
      registrations := s.registrations + [Registration(a.tenant, a.agent, a.alias, a.arguments, a.lockId, digest)],
      locks := s.locks[key := Lock(Held(Record(digest, payload, 0), Some(a.now + 1000 * PIN_TTL_SECONDS)),
                                   |s.registrations|)])
  }

  /** What a call presents to the consume script. */
  function Presented(h: Hashing, r: Request, lockId: string, now: int): Attempt
    requires r.pin.Some?
  {
    var payload := h.Payload(r.tenant, r.agent, r.alias, r.arguments);
    Attempt(now, h.PinDigest(r.pin.value, r.tenant, lockId, payload), payload)
  }

  function Stored(s: State, key: Key, slot: Slot): map<Key, Lock> {
    if key !in s.locks then s.locks
    else if slot == Empty then s.locks - {key}
    else s.locks[key := s.locks[key].(slot := slot)]
  }

  function ConsumeStep(h: Hashing, s: State, correlation: string, now: int, outcome: Outcome): State
    requires correlation in s.calls
  {
    var r := s.calls[correlation].request;
    if r.pin.None? || r.lockId.None? || outcome == NotDone then Move(s, correlation, Denying)
    else
      var key, attempt := LockKey(r.tenant, r.lockId.value), Presented(h, r, r.lockId.value, now);
      var slot := SlotOf(s, key);
      var s' := s.(locks := Stored(s, key, SlotAfter(slot, attempt)));
      if outcome == Done && CodeOf(slot, attempt) == Consumed
      then s'.(calls := s.calls[correlation := Call(r, Allowing, Some(s.locks[key].registration))])
      else Move(s', correlation, Denying)
  }

  function Logged(s: State, correlation: string, allowed: bool, outcome: Outcome): State {
    if outcome == NotDone then s else s.(log := s.log + [Entry(correlation, allowed)])
  }

  function DispatchStep(s: State, correlation: string, transport: bool, ok: bool): State
    requires correlation in s.calls
  {
    var call := s.calls[correlation];
    if !transport then Move(s, correlation, Denying)
    else
      var executed := s.(executions := s.executions + [Execution(correlation, call.request, call.spent, |s.log|)]);
      Move(executed, correlation, if ok then Finished else Denying)
  }

  function Apply(h: Hashing, s: State, a: Action): State
    requires Enabled(s, a)
  {
    match a
    case Register(_, _, _, _, _, _, _) => RegisterStep(h, s, a)
    case Arrive(correlation, request) => s.(calls := s.calls[correlation := Call(request, Gating, None)])
    case Gate(correlation, pass) =>
      Move(s, correlation,
           if !pass then Denying else if s.calls[correlation].request.risk == PinRequired then Consuming else Allowing)
    case Consume(correlation, now, outcome) => ConsumeStep(h, s, correlation, now, outcome)
    case EmitAllow(correlation, outcome) =>
      Move(Logged(s, correlation, true, outcome), correlation, if outcome == Done then Dispatching else Finished)
    case Dispatch(correlation, transport, ok) => DispatchStep(s, correlation, transport, ok)
    case EmitDeny(correlation, outcome) => Move(Logged(s, correlation, false, outcome), correlation, Finished)
    case Abandon(correlation) => Move(s, correlation, Finished)
  }

  /** A state some sequence of steps from the empty gateway leads to. */
  ghost predicate Reachable(h: Hashing, s: State, actions: seq<Action>)
    decreases |actions|
  {
    if actions == [] then s == INITIAL
    else
      var n := |actions| - 1;
      exists before :: Reachable(h, before, actions[..n]) && Enabled(before, actions[n])
        && s == Apply(h, before, actions[n])
  }

  // ----- the invariant -------------------------------------------------------------------------------

  /** The registration was for the action this request presents, and for its lock. */
  ghost predicate BoundTo(h: Hashing, reg: Registration, r: Request) {
    && WellFormed(reg.arguments) && WellFormed(r.arguments)
    && r.lockId.Some? && LockKey(reg.tenant, reg.lockId) == LockKey(r.tenant, r.lockId.value)
    && h.Payload(reg.tenant, reg.agent, reg.alias, reg.arguments) == h.Payload(r.tenant, r.agent, r.alias, r.arguments)
    && r.pin.Some?
    && reg.digest
         == h.PinDigest(r.pin.value, r.tenant, r.lockId.value, h.Payload(r.tenant, r.agent, r.alias, r.arguments))
  }

  ghost predicate RegistrationOk(s: State, i: int) {
    0 <= i < |s.registrations| ==> WellFormed(s.registrations[i].arguments)
  }

  /** A stored lock carries its registration's digests, under its registration's key. */
  ghost predicate LockOk(h: Hashing, s: State, key: Key) {
    key in s.locks ==>
      var Lock(slot, i) := s.locks[key];
      && i < |s.registrations| && slot.Held?
      && var reg := s.registrations[i];
      && key == LockKey(reg.tenant, reg.lockId) && slot.record.pin == reg.digest
      && slot.record.payload == h.Payload(reg.tenant, reg.agent, reg.alias, reg.arguments)
  }

  /** An ALLOW with this correlation id is among the first `n` entries. */
  ghost predicate AllowedBefore(log: seq<Entry>, correlation: string, n: nat) {
    exists i :: 0 <= i < n && i < |log| && log[i] == Entry(correlation, true)
  }

  /** No stored lock is of this registration. */
  ghost predicate Gone(s: State, i: nat) { forall key :: NotHolding(s, key, i) }

  ghost predicate NotHolding(s: State, key: Key, i: nat) { key in s.locks ==> s.locks[key].registration != i }

  ghost predicate CallOk(h: Hashing, s: State, correlation: string) {
    correlation in s.calls ==>
      var Call(r, stage, spent) := s.calls[correlation];
      && WellFormed(r.arguments)
      && (spent.Some? ==>
            !(stage == Gating || stage == Consuming)
            && spent.value < |s.registrations| && BoundTo(h, s.registrations[spent.value], r) && Gone(s, spent.value))
      && (r.risk == PinRequired && (stage == Allowing || stage == Dispatching) ==> spent.Some?)
      && (stage == Dispatching ==> AllowedBefore(s.log, correlation, |s.log|))
  }

  /** Two calls never spend one registration. */
  ghost predicate ApartOk(s: State, a: string, b: string) {
    a in s.calls && b in s.calls && a != b && s.calls[a].spent.Some? ==> s.calls[a].spent != s.calls[b].spent
  }

  ghost predicate ExecutionOk(s: State, i: int) {
    0 <= i < |s.executions| ==>
      var Execution(correlation, r, spent, after) := s.executions[i];
      && correlation in s.calls && s.calls[correlation].request == r && s.calls[correlation].spent == spent
      && (s.calls[correlation].stage == Denying || s.calls[correlation].stage == Finished)
      && AllowedBefore(s.log, correlation, after) && after <= |s.log|
      && (r.risk == PinRequired ==> spent.Some?)
  }

  ghost predicate OnceOk(s: State, i: int, j: int) {
    0 <= i < j < |s.executions| ==> s.executions[i].correlation != s.executions[j].correlation
  }

  ghost predicate Inv(h: Hashing, s: State) {
    && (forall i :: RegistrationOk(s, i))
    && (forall key :: LockOk(h, s, key))
    && (forall correlation :: CallOk(h, s, correlation))
    && (forall a, b :: ApartOk(s, a, b))
    && (forall i :: ExecutionOk(s, i))
    && (forall i, j :: OnceOk(s, i, j))
  }
}
