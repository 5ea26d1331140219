/**
 What a lock does for the one it was made for. While it has not expired, wrong payloads cost
 nothing and wrong PINs are counted; the right attempt is answered 1 exactly when none was
 before it and fewer than the maximum were wrong PINs.
 */
module LockRuns {
  import opened PayloadLock

  /** The registered PIN for the registered payload. */
  predicate Right(r: Record, a: Attempt) { a.payload == r.payload && a.pin == r.pin }

  /** Another PIN for the registered payload. */
  predicate WrongPin(r: Record, a: Attempt) { a.payload == r.payload && a.pin != r.pin }

  function WrongPins(r: Record, attempts: seq<Attempt>, n: nat): nat
    requires n <= |attempts|
  {
    if n == 0 then 0 else WrongPins(r, attempts, n - 1) + (if WrongPin(r, attempts[n - 1]) then 1 else 0)
  }

  /** The first `n` attempts come before the expiry, if there is one. */
  predicate Before(slot: Slot, attempts: seq<Attempt>, n: nat)
    requires n <= |attempts|
  {
    slot.Held? && slot.expiry.Some? ==> forall i :: 0 <= i < n ==> attempts[i].now < slot.expiry.value
  }

  /** Neither the right attempt nor too many wrong PINs were among the first `n`. */
  predicate Unspent(slot: Slot, attempts: seq<Attempt>, n: nat)
    requires slot.Held? && n <= |attempts|
  {
    && (forall i :: 0 <= i < n ==> !Right(slot.record, attempts[i]))
    && slot.record.attempts + WrongPins(slot.record, attempts, n) < PIN_MAX_ATTEMPTS
  }

  /** Until it is spent the key holds what was registered, with the same expiry and the count; then nothing. */
  lemma {:induction false} LockExactly(slot: Slot, attempts: seq<Attempt>, n: nat)
    requires slot.Held? && slot.record.attempts < PIN_MAX_ATTEMPTS && n <= |attempts| && Before(slot, attempts, n)
    ensures var r := slot.record;
      SlotAt(slot, attempts, n)
        == if Unspent(slot, attempts, n)
           then Held(r.(attempts := r.attempts + WrongPins(r, attempts, n)), slot.expiry) else Empty
  {
    if n > 0 {
      LockExactly(slot, attempts, n - 1);
    }
  }

  /**
   Every answer over a run of attempts before the expiry: 1 for the right attempt while the
   lock is unspent, -2 and -3 for the others, and -1 once it is spent.
   */
  lemma AnswersExactly(slot: Slot, attempts: seq<Attempt>, n: nat)
    requires slot.Held? && slot.record.attempts < PIN_MAX_ATTEMPTS && n < |attempts| && Before(slot, attempts, n)
    requires slot.expiry.Some? ==> attempts[n].now <= slot.expiry.value
    ensures Reply(CodeAt(slot, attempts, n)) == 1
       <==> Unspent(slot, attempts, n) && Right(slot.record, attempts[n])
    ensures Reply(CodeAt(slot, attempts, n)) == -2
       <==> Unspent(slot, attempts, n) && WrongPin(slot.record, attempts[n])
    ensures Reply(CodeAt(slot, attempts, n)) == -3
       <==> Unspent(slot, attempts, n) && attempts[n].payload != slot.record.payload
    ensures Reply(CodeAt(slot, attempts, n)) == -1 <==> !Unspent(slot, attempts, n)
  {
    LockExactly(slot, attempts, n);
  }

  /** A spent lock stays spent, and so does one whose expiry has passed when it is next tried. */
  lemma {:induction false} SpentForGood(slot: Slot, attempts: seq<Attempt>, m: nat, n: nat)
    requires m <= n < |attempts| && SlotAt(slot, attempts, m) == Empty
    ensures SlotAt(slot, attempts, n) == Empty && Reply(CodeAt(slot, attempts, n)) == -1
  {
    if m < n {
      SpentForGood(slot, attempts, m, n - 1);
    }
  }

  lemma ExpiredAnswer(slot: Slot, a: Attempt)
    requires slot.Held? && slot.expiry.Some? && a.now > slot.expiry.value
    ensures Reply(CodeOf(slot, a)) == -1 && SlotAfter(slot, a) == Empty
  {
  }

  /** The last wrong PIN allowed takes the lock with it: it and everything after are told no. */
  lemma LastWrongPin(slot: Slot, attempts: seq<Attempt>, n: nat, later: nat)
    requires slot.Held? && slot.record.attempts == 0 && n < later < |attempts| && Before(slot, attempts, n + 1)
    requires Unspent(slot, attempts, n) && WrongPin(slot.record, attempts[n])
    requires WrongPins(slot.record, attempts, n) == PIN_MAX_ATTEMPTS - 1
    ensures Reply(CodeAt(slot, attempts, n)) == -2 && SlotAt(slot, attempts, n + 1) == Empty
    ensures Reply(CodeAt(slot, attempts, later)) == -1
  {
    AnswersExactly(slot, attempts, n);
    LockExactly(slot, attempts, n + 1);
    SpentForGood(slot, attempts, n + 1, later);
  }

  /** A PIN is six digits, or six digits and a newline. */
  lemma PinShapedIff(h: Hashing, pin: string)
    ensures h.PinShaped(pin) <==> exists digits: string ::
      |digits| == 6 && (forall c :: c in digits ==> h.digit(c)) && (pin == digits || pin == digits + "\n")
  {
    if h.PinShaped(pin) {
      var digits := pin[..6];
      assert |digits| == 6 && forall c :: c in digits ==> h.digit(c);
      assert pin == digits || pin == digits + "\n";
    }
    if digits: string :|
      |digits| == 6 && (forall c :: c in digits ==> h.digit(c)) && (pin == digits || pin == digits + "\n") {
      forall i | 0 <= i < 6
        ensures h.digit(pin[i])
      {
        assert pin[i] == digits[i] && digits[i] in digits;
      }
    }
  }
}
