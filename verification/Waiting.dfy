/** The polling loops of the wait calls. What other processes store meanwhile and the clock are
    given: `seen(p, i)` is the state that pass `p` reads for job `i`, `clock(p)` the time it reads. */
module Waiting {
  import opened Strings
  import opened Types

  const ZERO_TIME: int := 0
  const INFINITE_TIME: int := -1

  datatype Goal = ForStart | ForEnd

  /** The state that a wait call is waiting for. */
  predicate Qualifies(goal: Goal, state: JState) {
    match goal
    case ForStart => state != QUEUED && state != QUEUED_HELD
    case ForEnd => state == DONE || state == FAILED
  }

  type Observations = (nat, nat) -> JState

  /** Every sleep lets at least one second pass. */
  ghost predicate Ticks(clock: nat -> int) {
    forall p: nat :: clock(p + 1) >= clock(p) + 1
  }

  predicate TimedOut(timeout: int, now: int) {
    timeout == ZERO_TIME || (timeout != INFINITE_TIME && timeout <= now)
  }

  /** No job of the list qualifies in the pass. */
  ghost predicate NoneIn(goal: Goal, seen: Observations, n: nat, pass: nat) {
    forall i: nat :: i < n ==> !Qualifies(goal, seen(pass, i))
  }

  /** `i` is the first job of the list, in order, that qualifies in the pass. */
  ghost predicate FirstIn(goal: Goal, seen: Observations, n: nat, pass: nat, i: nat) {
    i < n && Qualifies(goal, seen(pass, i)) && forall k: nat :: k < i ==> !Qualifies(goal, seen(pass, k))
  }

  /** The loop is still polling after the pass. */
  ghost predicate Continues(goal: Goal, seen: Observations, clock: nat -> int, timeout: int, n: nat, pass: nat) {
    NoneIn(goal, seen, n, pass) && !TimedOut(timeout, clock(pass))
  }

  /** The pass after which the loop must have ended: the given one, in which some job qualifies or
      the time is up. */
  ghost predicate Stops(goal: Goal, seen: Observations, clock: nat -> int, timeout: int, n: nat, pass: nat) {
    !Continues(goal, seen, clock, timeout, n, pass)
  }

  /** `wait_any_started` and `wait_any_terminated`: the position of the job found, or None for a
      TIMEOUT; `last` is the last pass. `stop` is a pass at which the loop cannot go on; without
      one it polls forever, see `EndsIff`. */
  method WaitAny(goal: Goal, seen: Observations, clock: nat -> int, timeout: int, n: nat, ghost stop: nat)
    returns (found: Option<nat>, last: nat)
    requires Stops(goal, seen, clock, timeout, n, stop)
    ensures last <= stop
    ensures forall p: nat :: p < last ==> Continues(goal, seen, clock, timeout, n, p)
    ensures found.Some? ==> FirstIn(goal, seen, n, last, found.value)
    ensures found.None? ==> NoneIn(goal, seen, n, last) && TimedOut(timeout, clock(last))
    ensures goal == ForEnd ==>
              if found.Some?
              then found.value < n && seen(last, found.value) in {DONE, FAILED}
                   && forall k: nat :: k < found.value ==> seen(last, k) !in {DONE, FAILED}
              else forall k: nat :: k < n ==> seen(last, k) !in {DONE, FAILED}
    ensures goal == ForStart ==>
              if found.Some?
              then found.value < n && seen(last, found.value) !in {QUEUED, QUEUED_HELD}
                   && forall k: nat :: k < found.value ==> seen(last, k) in {QUEUED, QUEUED_HELD}
              else forall k: nat :: k < n ==> seen(last, k) in {QUEUED, QUEUED_HELD}
    ensures found.None? ==> timeout == 0 || (timeout != -1 && timeout <= clock(last))
    ensures forall p: nat :: p < last ==> timeout == -1 || clock(p) < timeout
    ensures timeout == 0 ==> last == 0
    ensures timeout == -1 ==> found.Some?
  {
    found := None;
    last := 0;
    while found.None?
      invariant last <= stop
      invariant forall p: nat :: p < last ==> Continues(goal, seen, clock, timeout, n, p)
      invariant found.Some? ==> FirstIn(goal, seen, n, last, found.value)
      invariant forall p: nat :: p < last ==> timeout == INFINITE_TIME || clock(p) < timeout
      invariant timeout == ZERO_TIME ==> last == 0
      decreases stop - last, found.None?
    {
      found := FirstOfPass(goal, seen, n, last);
      if found.Some? {
        break;
      } else if timeout == ZERO_TIME || (timeout != INFINITE_TIME && timeout <= clock(last)) {
        break;
      }
      assert Continues(goal, seen, clock, timeout, n, last);
      last := last + 1;
    }
  }

  /** One pass over the list. */
  method FirstOfPass(goal: Goal, seen: Observations, n: nat, pass: nat) returns (found: Option<nat>)
    ensures found.None? ==> NoneIn(goal, seen, n, pass)
    ensures found.Some? ==> FirstIn(goal, seen, n, pass, found.value)
  {
    for i := 0 to n
      invariant forall k: nat :: k < i ==> !Qualifies(goal, seen(pass, k))
    {
      if Qualifies(goal, seen(pass, i)) {
        return Some(i);
      }
    }
    found := None;
  }

  /** `drmaa2_j_wait_started` and `drmaa2_j_wait_terminated`: the loops for a single job. */
  method WaitOne(goal: Goal, seen: nat -> JState, clock: nat -> int, timeout: int, ghost stop: nat)
    returns (status: Error, last: nat)
    requires Qualifies(goal, seen(stop)) || TimedOut(timeout, clock(stop))
    ensures last <= stop
    ensures forall p: nat :: p < last ==> !Qualifies(goal, seen(p)) && !TimedOut(timeout, clock(p))
    ensures status == SUCCESS || status == TIMEOUT
    ensures status == SUCCESS <==> Qualifies(goal, seen(last))
    ensures status == TIMEOUT ==> TimedOut(timeout, clock(last))
    ensures goal == ForEnd ==> (status == SUCCESS <==> seen(last) == DONE || seen(last) == FAILED)
    ensures goal == ForStart ==> (status == SUCCESS <==> seen(last) != QUEUED && seen(last) != QUEUED_HELD)
    ensures status == TIMEOUT ==> timeout == 0 || (timeout != -1 && timeout <= clock(last))
    ensures forall p: nat :: p < last ==> timeout == -1 || clock(p) < timeout
    ensures timeout == 0 ==> last == 0
    ensures timeout == -1 ==> status == SUCCESS
  {
    status := SUCCESS;
    last := 0;
    while true
      invariant last <= stop && status == SUCCESS && (timeout == ZERO_TIME ==> last == 0)
      invariant forall p: nat :: p < last ==> !Qualifies(goal, seen(p)) && !TimedOut(timeout, clock(p))
      decreases stop - last
    {
      if Qualifies(goal, seen(last)) {
        break;
      } else if timeout == ZERO_TIME || (timeout != INFINITE_TIME && timeout <= clock(last)) {
        status := TIMEOUT;
        break;
      }
      last := last + 1;
    }
  }

  // ---------------------------------------------------------------- when the loops end

  lemma {:induction false} ClockRuns(clock: nat -> int, p: nat)
    requires Ticks(clock)
    ensures clock(p) >= clock(0) + p
  {
    if p > 0 {
      ClockRuns(clock, p - 1);
      assert clock((p - 1) + 1) >= clock(p - 1) + 1;
    }
  }

  /** A loop ends for every finite timeout, after no more passes than seconds are left when it
      starts; for INFINITE_TIME it ends exactly when some job of the list qualifies in some pass. */
  lemma EndsIff(goal: Goal, seen: Observations, clock: nat -> int, timeout: int, n: nat)
    requires Ticks(clock)
    ensures (exists p: nat :: Stops(goal, seen, clock, timeout, n, p)) <==>
            timeout != INFINITE_TIME || exists p: nat :: !NoneIn(goal, seen, n, p)
    ensures timeout != INFINITE_TIME ==>
            Stops(goal, seen, clock, timeout, n, if timeout <= clock(0) then 0 else timeout - clock(0))
  {
    hide Qualifies;
    if timeout != INFINITE_TIME {
      var p := if timeout <= clock(0) then 0 else timeout - clock(0);
      ClockRuns(clock, p);
      assert TimedOut(timeout, clock(p));
      assert Stops(goal, seen, clock, timeout, n, p);
    } else {
      forall p: nat ensures Stops(goal, seen, clock, timeout, n, p) <==> !NoneIn(goal, seen, n, p) {
      }
      if exists p: nat :: !NoneIn(goal, seen, n, p) {
        var p: nat :| !NoneIn(goal, seen, n, p);
        assert Stops(goal, seen, clock, timeout, n, p);
      }
    }
  }
}
