/**
 * The per-application circuit breaker: a timed state machine that is consulted
 * before each reconciliation and told the outcome afterwards.
 */
module Breaker {

  type Time = int

  datatype CircuitState = Closed | Open | HalfOpen

  datatype Breaker = Breaker(
    state: CircuitState,
    failureCount: nat,
    lastFailure: Time,
    maxFailures: int,
    resetTimeout: int)

  function New(maxFailures: int, resetTimeout: int): Breaker {
    Breaker(Closed, 0, 0, maxFailures, resetTimeout)
  }

  /** Allow admits unless the breaker is Open and the timeout has not elapsed. */
  predicate Admits(b: Breaker, now: Time) {
    b.state.Open? ==> now - b.lastFailure >= b.resetTimeout
  }

  function AfterAllow(b: Breaker, now: Time): Breaker {
    if b.state.Open? && Admits(b, now) then b.(state := HalfOpen) else b
  }

  function AfterSuccess(b: Breaker): Breaker {
    b.(failureCount := 0, state := Closed)
  }

  function AfterFailure(b: Breaker, now: Time): Breaker {
    var failed := b.(failureCount := b.failureCount + 1, lastFailure := now);
    if b.state.HalfOpen? || failed.failureCount >= b.maxFailures then failed.(state := Open) else failed
  }

  class CircuitBreaker {
    var state: CircuitState
    var failureCount: nat
    var lastFailure: Time
    const maxFailures: int
    const resetTimeout: int

    ghost function View(): Breaker
      reads this
    {
      Breaker(state, failureCount, lastFailure, maxFailures, resetTimeout)
    }

    constructor (maxFailures: int, resetTimeout: int)
      ensures View() == New(maxFailures, resetTimeout)
    {
      state, failureCount, lastFailure := Closed, 0, 0;
      this.maxFailures, this.resetTimeout := maxFailures, resetTimeout;
    }

    method Allow(now: Time) returns (ok: bool)
      modifies `state
      ensures ok <==> Admits(old(View()), now)
      ensures View() == AfterAllow(old(View()), now)
    {
      match state
      case Closed => return true;
      case Open =>
        if now - lastFailure >= resetTimeout {
          state := HalfOpen;
          return true;
        }
        return false;
      case HalfOpen => return true;
    }

    method RecordSuccess()
      modifies `state, `failureCount
      ensures View() == AfterSuccess(old(View()))
    {
      failureCount := 0;
      state := Closed;
    }

    method RecordFailure(now: Time)
      modifies `state, `failureCount, `lastFailure
      ensures View() == AfterFailure(old(View()), now)
    {
      failureCount := failureCount + 1;
      lastFailure := now;
      if state.HalfOpen? {
        state := Open;
        return;
      }
      if failureCount >= maxFailures {
        state := Open;
      }
    }
  }

  // ----- Closed exactly below the failure limit -----

  datatype Event = Allow(at: Time) | Success | Failure(at: Time)

  function Apply(b: Breaker, e: Event): Breaker {
    match e
    case Allow(at) => AfterAllow(b, at)
    case Success => AfterSuccess(b)
    case Failure(at) => AfterFailure(b, at)
  }

  function Run(b: Breaker, es: seq<Event>): Breaker
    decreases |es|
  {
    if es == [] then b else Run(Apply(b, es[0]), es[1..])
  }

  ghost predicate ClosedBelowLimit(b: Breaker) {
    b.state.Closed? <==> b.failureCount < b.maxFailures
  }

  lemma {:induction false} ClosedBelowLimitRun(b: Breaker, es: seq<Event>)
    requires b.maxFailures >= 1 && ClosedBelowLimit(b)
    ensures ClosedBelowLimit(Run(b, es)) && Run(b, es).maxFailures == b.maxFailures
    decreases |es|
  {
    if es != [] {
      ClosedBelowLimitRun(Apply(b, es[0]), es[1..]);
    }
  }

  /**
   * Over every sequence of calls in any order, a new breaker is Closed exactly
   * while failureCount < maxFailures, if and only if maxFailures is positive
   * (the reconciler passes 3).
   */
  lemma ClosedBelowLimitAlways(maxFailures: int, resetTimeout: int)
    ensures (forall es :: ClosedBelowLimit(Run(New(maxFailures, resetTimeout), es))) <==> maxFailures >= 1
  {
    var b := New(maxFailures, resetTimeout);
    if maxFailures >= 1 {
      forall es ensures ClosedBelowLimit(Run(b, es)) {
        ClosedBelowLimitRun(b, es);
      }
    } else {
      assert !ClosedBelowLimit(Run(b, []));
    }
  }

  /** Failures since the last success, `count` coming before. */
  function SinceSuccess(es: seq<Event>, count: nat): nat
    decreases |es|
  {
    if es == [] then count
    else SinceSuccess(es[1..], match es[0] case Allow(_) => count case Success => 0 case Failure(_) => count + 1)
  }

  /** Over every sequence of calls the count is the number of failures since the last success. */
  lemma {:induction false} CountIsSinceSuccess(b: Breaker, es: seq<Event>)
    ensures Run(b, es).failureCount == SinceSuccess(es, b.failureCount)
    decreases |es|
  {
    if es != [] {
      CountIsSinceSuccess(Apply(b, es[0]), es[1..]);
    }
  }

  // ----- how many attempts a failing application gets -----

  /** One visit of reconcileApp: Allow at `ask`; if admitted it fails at `fail`. */
  datatype Visit = Visit(ask: Time, fail: Time)

  /** Serialized visits inside [from, to]. */
  predicate Serialized(vs: seq<Visit>, from: Time, to: Time)
    decreases |vs|
  {
    if vs == [] then from <= to
    else from <= vs[0].ask <= vs[0].fail && Serialized(vs[1..], vs[0].fail, to)
  }

  function Visited(b: Breaker, v: Visit): Breaker {
    if Admits(b, v.ask) then AfterFailure(AfterAllow(b, v.ask), v.fail) else b
  }

  /** Visits the breaker lets through when every admitted one fails. */
  function Admitted(b: Breaker, vs: seq<Visit>): nat
    decreases |vs|
  {
    if vs == [] then 0
    else (if Admits(b, vs[0].ask) then 1 else 0) + Admitted(Visited(b, vs[0]), vs[1..])
  }

  lemma SerializedOrder(vs: seq<Visit>, from: Time, to: Time)
    requires Serialized(vs, from, to)
    ensures from <= to
    decreases |vs|
  {
    if vs != [] {
      SerializedOrder(vs[1..], vs[0].fail, to);
    }
  }

  /** Whole reset timeouts in a span, by repeated subtraction. */
  function Resets(span: nat, r: nat): nat
    requires r > 0
    decreases span
  {
    if span < r then 0 else 1 + Resets(span - r, r)
  }

  lemma {:induction false} ResetsBounds(span: nat, r: nat)
    requires r > 0
    ensures Resets(span, r) * r <= span < (Resets(span, r) + 1) * r
  {
    if span >= r {
      ResetsBounds(span - r, r);
      var q := Resets(span - r, r);
      assert (q + 1) * r == q * r + r && (q + 1 + 1) * r == (q + 1) * r + r;
    }
  }

  lemma MulMonotone(x: int, y: int, r: int)
    requires x <= y && r > 0
    ensures x * r <= y * r
  {
  }

  lemma {:induction false} ResetsIsQuotient(span: nat, r: nat)
    requires r > 0
    ensures Resets(span, r) == span / r
  {
    var q, d := Resets(span, r), span / r;
    ResetsBounds(span, r);
    assert d * r <= span < (d + 1) * r;
    if q < d {
      MulMonotone(q + 1, d, r);
    } else if d < q {
      MulMonotone(d + 1, q, r);
    }
  }

  lemma {:induction false} ResetsMonotone(a: nat, b: nat, r: nat)
    requires r > 0 && a <= b
    ensures Resets(a, r) <= Resets(b, r)
    ensures a + r <= b ==> Resets(a, r) + 1 <= Resets(b, r)
    decreases b
  {
    if a >= r {
      ResetsMonotone(a - r, b - r, r);
    }
    if a + r <= b && b - r < b {
      ResetsMonotone(a, b - r, r);
    }
  }

  /** Once Open, each further admission costs a whole reset timeout since the last failure. */
  lemma {:induction false} OpenBound(b: Breaker, vs: seq<Visit>, from: Time, to: Time)
    requires b.state.Open? && b.resetTimeout > 0
    requires b.lastFailure <= from <= to && Serialized(vs, from, to)
    ensures Admitted(b, vs) <= Resets(to - b.lastFailure, b.resetTimeout)
    decreases |vs|
  {
    if vs != [] {
      var v := vs[0];
      SerializedOrder(vs[1..], v.fail, to);
      OpenBound(Visited(b, v), vs[1..], v.fail, to);
      if Admits(b, v.ask) {
        ResetsMonotone(to - v.fail, to - b.lastFailure, b.resetTimeout);
      }
    }
  }

  /** While Closed, the remaining failures are free; after that each admission costs a timeout. */
  lemma {:induction false} ClosedBound(b: Breaker, vs: seq<Visit>, from: Time, to: Time)
    requires b.state.Closed? && b.failureCount < b.maxFailures && b.resetTimeout > 0
    requires from <= to && Serialized(vs, from, to)
    ensures Admitted(b, vs) <= b.maxFailures - b.failureCount + Resets(to - from, b.resetTimeout)
    decreases |vs|
  {
    if vs != [] {
      var v := vs[0];
      var next := Visited(b, v);
      SerializedOrder(vs[1..], v.fail, to);
      ResetsMonotone(to - v.fail, to - from, b.resetTimeout);
      if next.state.Open? {
        OpenBound(next, vs[1..], v.fail, to);
      } else {
        ClosedBound(next, vs[1..], v.fail, to);
      }
    }
  }

  /** Open or half-open, one attempt may be due at once. */
  lemma {:induction false} TrippedBound(b: Breaker, vs: seq<Visit>, from: Time, to: Time)
    requires !b.state.Closed? && b.resetTimeout > 0 && b.failureCount >= b.maxFailures
    requires from <= to && Serialized(vs, from, to)
    ensures Admitted(b, vs) <= 1 + Resets(to - from, b.resetTimeout)
    decreases |vs|
  {
    if vs != [] {
      var v := vs[0];
      var next := Visited(b, v);
      SerializedOrder(vs[1..], v.fail, to);
      ResetsMonotone(to - v.fail, to - from, b.resetTimeout);
      if Admits(b, v.ask) {
        OpenBound(next, vs[1..], v.fail, to);
      } else {
        TrippedBound(b, vs[1..], v.fail, to);
      }
    }
  }

  /**
   * In any serialized stretch [from, to] in which every admitted attempt ends in
   * RecordFailure, at most maxFailures + floor((to - from) / resetTimeout)
   * attempts are admitted, from any state the breaker can be in.
   */
  lemma AttemptBound(b: Breaker, vs: seq<Visit>, from: Time, to: Time)
    requires b.maxFailures >= 1 && b.resetTimeout > 0 && ClosedBelowLimit(b)
    requires Serialized(vs, from, to)
    ensures Admitted(b, vs) <= b.maxFailures + (to - from) / b.resetTimeout
  {
    SerializedOrder(vs, from, to);
    ResetsIsQuotient(to - from, b.resetTimeout);
    if b.state.Closed? {
      ClosedBound(b, vs, from, to);
    } else {
      TrippedBound(b, vs, from, to);
    }
  }
}
