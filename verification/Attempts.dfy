/**
 * Runs of reconcileApp against the circuit breaker: each run asks Allow and
 * then tells the breaker the verdicts that follow from what it met.
 */
module Attempts {
  import opened Services
  import opened Reconcile
  import opened Breaker

  /** One run: what it met, how it ended, when it asked and when it told. */
  datatype Turn = Turn(world: World, request: Request, result: Result, ask: Time, tell: Time)

  /** The breaker is consulted once the application is found and its manifest read. */
  predicate Asks(w: World) {
    w.lookup.Found? && w.manifestOk
  }

  function Told(b: Breaker, verdicts: seq<Verdict>, at: Time): Breaker
    decreases |verdicts|
  {
    if verdicts == [] then b
    else
      Told(if verdicts[0].RecordSuccess? then AfterSuccess(b) else AfterFailure(b, at), verdicts[1..], at)
  }

  ghost function After(b: Breaker, t: Turn): Breaker {
    if !Asks(t.world) then b else Told(AfterAllow(b, t.ask), Verdicts(t.world, t.result), t.tell)
  }

  predicate Attempted(t: Turn) {
    Asks(t.world) && t.world.admitted
  }

  /** The run was admitted exactly when the breaker says so, and ended as reconcileApp ends. */
  ghost predicate Possible(b: Breaker, t: Turn) {
    && (Asks(t.world) ==> (t.world.admitted <==> Admits(b, t.ask)))
    && IsOutcome(t.world, t.request, t.result)
  }

  ghost predicate Legal(b: Breaker, ts: seq<Turn>)
    decreases |ts|
  {
    ts == [] || (Possible(b, ts[0]) && Legal(After(b, ts[0]), ts[1..]))
  }

  ghost function Exec(b: Breaker, ts: seq<Turn>): Breaker
    decreases |ts|
  {
    if ts == [] then b else Exec(After(b, ts[0]), ts[1..])
  }

  function Attempts(ts: seq<Turn>): nat {
    if ts == [] then 0 else (if Attempted(ts[0]) then 1 else 0) + Attempts(ts[1..])
  }

  // ----- which attempts decide -----

  /** The attempt ends without telling the breaker: nothing new in Git, or drift it may not repair. */
  predicate Undecided(w: World) {
    w.computed.NoChange? || (w.computed.Compared? && w.computed.diff.Drift? && !w.automated && !w.forced)
  }

  lemma UndecidedIffSilent(t: Turn)
    requires Attempted(t)
    ensures Verdicts(t.world, t.result) == [] <==> Undecided(t.world)
  {
  }

  lemma ToldUnfold(b: Breaker, at: Time)
    ensures Told(b, [], at) == b
    ensures Told(b, [RecordSuccess], at) == AfterSuccess(b)
    ensures Told(b, [RecordFailure], at) == AfterFailure(b, at)
    ensures Told(b, [RecordSuccess, RecordFailure], at) == AfterFailure(AfterSuccess(b), at)
  {
    assert [RecordSuccess][1..] == [] && [RecordFailure][1..] == [];
    assert [RecordSuccess, RecordFailure][1..] == [RecordFailure];
    assert Told(b, [RecordSuccess, RecordFailure], at) == Told(AfterSuccess(b), [RecordFailure], at);
  }

  /** The four things a run can tell. */
  lemma VerdictForms(w: World, result: Result)
    ensures Verdicts(w, result) in {[], [RecordSuccess], [RecordFailure], [RecordSuccess, RecordFailure]}
  {
  }

  /**
   * An attempt on a breaker that has tripped leaves it half-open if and only if
   * the attempt is undecided; in all other cases it is the single attempt the
   * documentation promises.
   */
  lemma HalfOpenAfterIff(b: Breaker, t: Turn)
    requires b.maxFailures >= 1 && !b.state.Closed? && Possible(b, t) && Attempted(t)
    ensures After(b, t).state.HalfOpen? <==> Undecided(t.world)
  {
    UndecidedIffSilent(t);
    VerdictForms(t.world, t.result);
    ToldUnfold(AfterAllow(b, t.ask), t.tell);
  }

  /** A run that is refused, or does not get as far as asking, changes nothing. */
  lemma NoAttempt(b: Breaker, t: Turn)
    requires Possible(b, t) && !Attempted(t)
    ensures After(b, t) == b
  {
    ToldUnfold(AfterAllow(b, t.ask), t.tell);
  }

  ghost predicate AllDecided(ts: seq<Turn>) {
    forall t :: t in ts && Attempted(t) ==> !Undecided(t.world)
  }

  /** If no attempt is undecided, a breaker that is not half-open is never left half-open. */
  lemma {:induction false} NeverLeftHalfOpen(b: Breaker, ts: seq<Turn>)
    requires b.maxFailures >= 1 && !b.state.HalfOpen? && Legal(b, ts) && AllDecided(ts)
    ensures !Exec(b, ts).state.HalfOpen?
    decreases |ts|
  {
    if ts != [] {
      var t := ts[0];
      TurnKeepsLimit(b, t);
      if !Attempted(t) {
        NoAttempt(b, t);
      } else if b.state.Open? {
        HalfOpenAfterIff(b, t);
      } else {
        VerdictForms(t.world, t.result);
        ToldUnfold(b, t.tell);
      }
      NeverLeftHalfOpen(After(b, t), ts[1..]);
    }
  }

  lemma TurnKeepsLimit(b: Breaker, t: Turn)
    ensures After(b, t).maxFailures == b.maxFailures && After(b, t).resetTimeout == b.resetTimeout
  {
    VerdictForms(t.world, t.result);
    ToldUnfold(AfterAllow(b, t.ask), t.tell);
  }

  /**
   * After an attempt that leaves the breaker tripped, the next one is admitted
   * at once if and only if the attempt was undecided; otherwise it has to wait
   * for a whole reset timeout.
   */
  lemma NextAttemptWaits(b: Breaker, t: Turn, ask: Time)
    requires b.maxFailures >= 1 && Possible(b, t) && Attempted(t) && !After(b, t).state.Closed?
    ensures Admits(After(b, t), ask) <==> Undecided(t.world) || ask - t.tell >= b.resetTimeout
  {
    UndecidedIffSilent(t);
    VerdictForms(t.world, t.result);
    ToldUnfold(AfterAllow(b, t.ask), t.tell);
  }

  /** The attempts among the runs that tell the breaker something. */
  function Decisions(ts: seq<Turn>): nat {
    if ts == [] then 0 else (if Attempted(ts[0]) && !Undecided(ts[0].world) then 1 else 0) + Decisions(ts[1..])
  }

  /** No run closes the breaker. */
  ghost predicate StaysTripped(b: Breaker, ts: seq<Turn>)
    decreases |ts|
  {
    !b.state.Closed? && (ts == [] || StaysTripped(After(b, ts[0]), ts[1..]))
  }

  /** How many more decisions a tripped breaker can see until `to`. */
  function Allowance(b: Breaker, from: Time, to: Time): nat
    requires b.resetTimeout > 0 && from <= to
  {
    if b.state.Open? && b.lastFailure <= from then Resets(to - b.lastFailure, b.resetTimeout)
    else 1 + Resets(to - from, b.resetTimeout)
  }

  lemma {:induction false} AllowanceShrinks(b: Breaker, from: Time, later: Time, to: Time)
    requires b.resetTimeout > 0 && from <= later <= to
    ensures Allowance(b, later, to) <= Allowance(b, from, to)
  {
    ResetsMonotone(to - later, to - from, b.resetTimeout);
    if b.state.Open? && b.lastFailure <= later {
      if b.lastFailure > from {
        ResetsMonotone(to - b.lastFailure, to - from, b.resetTimeout);
      }
    }
  }

  /** A decided attempt that leaves the breaker tripped uses up one, an undecided one uses up none. */
  lemma {:induction false} AllowanceSpent(b: Breaker, t: Turn, from: Time, to: Time)
    requires b.maxFailures >= 1 && b.resetTimeout > 0 && !b.state.Closed? && !After(b, t).state.Closed?
    requires Possible(b, t) && Attempted(t) && from <= t.ask <= t.tell <= to
    ensures After(b, t).resetTimeout == b.resetTimeout
    ensures Allowance(After(b, t), t.tell, to) + (if Undecided(t.world) then 0 else 1) <= Allowance(b, from, to)
  {
    TurnKeepsLimit(b, t);
    AfterAttempt(b, t);
    if b.state.Open? && b.lastFailure <= from {
      ResetsMonotone(to - t.tell, to - b.lastFailure, b.resetTimeout);
    } else {
      ResetsMonotone(to - t.tell, to - from, b.resetTimeout);
    }
  }

  lemma {:induction false} DecisionsWithin(b: Breaker, ts: seq<Turn>, from: Time, to: Time)
    requires b.maxFailures >= 1 && b.resetTimeout > 0 && Legal(b, ts) && StaysTripped(b, ts)
    requires from <= to && Serialized(Visits(ts), from, to)
    ensures Decisions(ts) <= Allowance(b, from, to)
    decreases |ts|
  {
    if ts != [] {
      var t, rest := ts[0], ts[1..];
      TurnKeepsLimit(b, t);
      if !Asks(t.world) {
        NoAttempt(b, t);
        assert Visits(ts) == Visits(rest);
        DecisionsWithin(b, rest, from, to);
      } else {
        assert Visits(ts)[0] == Visit(t.ask, t.tell) && Visits(ts)[1..] == Visits(rest);
        SerializedOrder(Visits(rest), t.tell, to);
        DecisionsWithin(After(b, t), rest, t.tell, to);
        if Attempted(t) {
          AllowanceSpent(b, t, from, to);
        } else {
          NoAttempt(b, t);
          AllowanceShrinks(b, from, t.tell, to);
        }
      }
    }
  }

  /**
   * As long as nothing closes a tripped breaker, at most one attempt that decides
   * is made, and one more for each whole reset timeout, over any serialized
   * stretch of runs of reconcileApp; only undecided attempts come on top.
   */
  lemma OneDecisionPerTimeout(b: Breaker, ts: seq<Turn>, from: Time, to: Time)
    requires b.maxFailures >= 1 && b.resetTimeout > 0 && Legal(b, ts) && StaysTripped(b, ts)
    requires Serialized(Visits(ts), from, to)
    ensures Decisions(ts) <= 1 + (to - from) / b.resetTimeout
    ensures AllDecided(ts) ==> Attempts(ts) <= 1 + (to - from) / b.resetTimeout
  {
    SerializedOrder(Visits(ts), from, to);
    ResetsIsQuotient(to - from, b.resetTimeout);
    if b.state.Open? && b.lastFailure <= from {
      TrippedDecisions(b, ts, from, to);
    } else {
      DecisionsWithin(b, ts, from, to);
    }
    if AllDecided(ts) {
      AllAreDecisions(ts);
    }
  }

  /** However long ago an open breaker last failed, only one attempt is due at once. */
  lemma {:induction false} TrippedDecisions(b: Breaker, ts: seq<Turn>, from: Time, to: Time)
    requires b.maxFailures >= 1 && b.resetTimeout > 0 && Legal(b, ts) && StaysTripped(b, ts)
    requires b.state.Open? && b.lastFailure <= from <= to && Serialized(Visits(ts), from, to)
    ensures Decisions(ts) <= 1 + Resets(to - from, b.resetTimeout)
    decreases |ts|
  {
    if ts != [] {
      var t, rest := ts[0], ts[1..];
      if !Asks(t.world) {
        NoAttempt(b, t);
        assert Visits(ts) == Visits(rest);
        TrippedDecisions(b, rest, from, to);
      } else {
        assert Visits(ts)[0] == Visit(t.ask, t.tell) && Visits(ts)[1..] == Visits(rest);
        SerializedOrder(Visits(rest), t.tell, to);
        ResetsMonotone(to - t.tell, to - from, b.resetTimeout);
        if Attempted(t) {
          TurnKeepsLimit(b, t);
          AfterAttempt(b, t);
          DecisionsWithin(After(b, t), rest, t.tell, to);
        } else {
          NoAttempt(b, t);
          TrippedDecisions(b, rest, t.tell, to);
        }
      }
    }
  }

  lemma {:induction false} AfterAttempt(b: Breaker, t: Turn)
    requires b.maxFailures >= 1 && !b.state.Closed? && Possible(b, t) && Attempted(t) && !After(b, t).state.Closed?
    ensures var c := After(b, t); if Undecided(t.world) then c == b.(state := HalfOpen) else c.state.Open? && c.lastFailure == t.tell
  {
    UndecidedIffSilent(t);
    VerdictForms(t.world, t.result);
    ToldUnfold(AfterAllow(b, t.ask), t.tell);
  }

  lemma {:induction false} AllAreDecisions(ts: seq<Turn>)
    requires AllDecided(ts)
    ensures Decisions(ts) == Attempts(ts)
  {
    if ts != [] {
      assert ts[0] in ts && forall t :: t in ts[1..] ==> t in ts;
      AllAreDecisions(ts[1..]);
    }
  }

  /** However many undecided runs follow one another in half-open, every one is admitted. */
  lemma {:induction false} HalfOpenAdmitsUndecided(b: Breaker, ts: seq<Turn>)
    requires b.state.HalfOpen? && Legal(b, ts)
    requires forall t :: t in ts ==> Asks(t.world) && Undecided(t.world)
    ensures Attempts(ts) == |ts| && Exec(b, ts) == b
    decreases |ts|
  {
    if ts != [] {
      UndecidedIffSilent(ts[0]);
      ToldUnfold(AfterAllow(b, ts[0].ask), ts[0].tell);
      HalfOpenAdmitsUndecided(b, ts[1..]);
    }
  }

  // ----- what each outcome does to the breaker -----

  /** An attempt that finds everything in sync closes the breaker and clears its count. */
  lemma InSyncCloses(b: Breaker, t: Turn)
    requires Possible(b, t) && FoundInSync(t.world)
    ensures After(b, t).state.Closed? && After(b, t).failureCount == 0
  {
    ToldUnfold(AfterAllow(b, t.ask), t.tell);
  }

  /** So does one that delivers a deployment. */
  lemma DeliveryCloses(b: Breaker, t: Turn)
    requires Possible(b, t) && Acts(t.world) && Delivered(t.world, t.request)
    ensures After(b, t).state.Closed? && After(b, t).failureCount == 0
  {
    ToldUnfold(AfterAllow(b, t.ask), t.tell);
  }

  /** The attempt failed, and not after a switch of colours: Git, parser, inspector or deployment refused. */
  ghost predicate Fails(t: Turn) {
    Attempted(t) &&
    (t.world.computed.Error?
     || (Acts(t.world) && !Delivered(t.world, t.request) && !PostCheckFails(t.world)))
  }

  /** One that fails adds one failure, at the time it tells. */
  lemma FailureCounts(b: Breaker, t: Turn)
    requires Possible(b, t) && Fails(t)
    ensures After(b, t).failureCount == b.failureCount + 1 && After(b, t).lastFailure == t.tell
    ensures After(b, t).state ==
            if b.state.Closed? && b.failureCount + 1 < b.maxFailures then Closed else Open
  {
    ToldUnfold(AfterAllow(b, t.ask), t.tell);
  }

  /** One whose final check fails after a switch leaves exactly one. */
  lemma PostCheckLeavesOne(b: Breaker, t: Turn)
    requires Possible(b, t) && Attempted(t) && PostCheckFails(t.world)
    ensures After(b, t).failureCount == 1 && After(b, t).lastFailure == t.tell
  {
    PostCheckVerdicts(t);
    ToldUnfold(AfterAllow(b, t.ask), t.tell);
  }

  /** One that is undecided changes neither count nor time. */
  lemma UndecidedKeeps(b: Breaker, t: Turn)
    requires Possible(b, t) && Attempted(t) && Undecided(t.world)
    ensures After(b, t) == AfterAllow(b, t.ask)
  {
    UndecidedIffSilent(t);
    ToldUnfold(AfterAllow(b, t.ask), t.tell);
  }

  /** These are all the ways an attempt can end. */
  lemma EveryAttemptEnds(b: Breaker, t: Turn)
    requires Possible(b, t) && Attempted(t)
    ensures FoundInSync(t.world) || (Acts(t.world) && Delivered(t.world, t.request)) || Fails(t)
            || PostCheckFails(t.world) || Undecided(t.world)
  {
  }

  /** The failures in a row that a run of reconcileApp leaves, `count` coming before. */
  ghost function FailuresInARow(ts: seq<Turn>, count: nat): nat
    decreases |ts|
  {
    if ts == [] then count
    else
      var t := ts[0];
      FailuresInARow(ts[1..],
                     if !Attempted(t) || Undecided(t.world) then count
                     else if Fails(t) then count + 1
                     else if PostCheckFails(t.world) then 1
                     else 0)
  }

  /**
   * In every run of reconcileApp the breaker's count is the number of failed
   * attempts since the last one that was in sync or delivered; in particular
   * runs that are in sync never trip it.
   */
  lemma {:induction false} CountIsFailuresInARow(b: Breaker, ts: seq<Turn>)
    requires Legal(b, ts)
    ensures Exec(b, ts).failureCount == FailuresInARow(ts, b.failureCount)
    decreases |ts|
  {
    if ts != [] {
      var t := ts[0];
      if !Attempted(t) {
        NoAttempt(b, t);
      } else {
        EveryAttemptEnds(b, t);
        if Undecided(t.world) {
          UndecidedKeeps(b, t);
        } else if Fails(t) {
          FailureCounts(b, t);
        } else if PostCheckFails(t.world) {
          PostCheckLeavesOne(b, t);
        } else if FoundInSync(t.world) {
          InSyncCloses(b, t);
        } else {
          DeliveryCloses(b, t);
        }
      }
      CountIsFailuresInARow(After(b, t), ts[1..]);
    }
  }

  /** A closed breaker stays closed over any run in which every attempt is in sync, delivers or is undecided. */
  lemma {:induction false} GoodRunsNeverTrip(b: Breaker, ts: seq<Turn>)
    requires b.state.Closed? && Legal(b, ts)
    requires forall t :: t in ts && Attempted(t) ==>
               FoundInSync(t.world) || (Acts(t.world) && Delivered(t.world, t.request)) || Undecided(t.world)
    ensures Exec(b, ts).state.Closed?
    decreases |ts|
  {
    if ts != [] {
      var t := ts[0];
      assert t in ts && forall u :: u in ts[1..] ==> u in ts;
      if !Attempted(t) {
        NoAttempt(b, t);
      } else if FoundInSync(t.world) {
        InSyncCloses(b, t);
      } else if Undecided(t.world) {
        UndecidedKeeps(b, t);
      } else {
        DeliveryCloses(b, t);
      }
      GoodRunsNeverTrip(After(b, t), ts[1..]);
    }
  }

  // ----- how often a failing application is tried -----

  /** Every attempt fails and says so, once. */
  ghost predicate AllFail(ts: seq<Turn>) {
    forall t :: t in ts && Attempted(t) ==> Verdicts(t.world, t.result) == [RecordFailure]
  }

  /** The runs that ask, as the breaker sees them. */
  ghost function Visits(ts: seq<Turn>): seq<Visit> {
    if ts == [] then [] else (if Asks(ts[0].world) then [Visit(ts[0].ask, ts[0].tell)] else []) + Visits(ts[1..])
  }

  lemma {:induction false} VisitsAdmitted(b: Breaker, ts: seq<Turn>)
    requires Legal(b, ts) && AllFail(ts)
    ensures Attempts(ts) == Admitted(b, Visits(ts))
    decreases |ts|
  {
    if ts != [] {
      var t, rest := ts[0], ts[1..];
      assert t in ts;
      ToldUnfold(AfterAllow(b, t.ask), t.tell);
      VisitsAdmitted(After(b, t), rest);
      if Asks(t.world) {
        assert Visits(ts)[0] == Visit(t.ask, t.tell) && Visits(ts)[1..] == Visits(rest);
        assert After(b, t) == Visited(b, Visit(t.ask, t.tell));
      } else {
        assert Visits(ts) == Visits(rest);
      }
    }
  }

  /**
   * In any serialized stretch of runs of reconcileApp in which every attempt ends
   * in a failure told to the breaker, at most maxFailures + floor(T / timeout)
   * attempts are made.
   */
  lemma FailingAttemptBound(b: Breaker, ts: seq<Turn>, from: Time, to: Time)
    requires b.maxFailures >= 1 && b.resetTimeout > 0 && ClosedBelowLimit(b)
    requires Legal(b, ts) && AllFail(ts) && Serialized(Visits(ts), from, to)
    ensures Attempts(ts) <= b.maxFailures + (to - from) / b.resetTimeout
  {
    VisitsAdmitted(b, ts);
    AttemptBound(b, Visits(ts), from, to);
  }

  // ----- a blue-green post-check never trips the breaker -----

  /** The colours were switched, and then the final health check failed. */
  predicate PostCheckFails(w: World) {
    Acts(w) && BlueGreen(w.computed.services) && w.deployOk && w.postCheck != ActiveHealth(Healthy)
  }

  lemma PostCheckVerdicts(t: Turn)
    requires IsOutcome(t.world, t.request, t.result) && PostCheckFails(t.world)
    ensures Verdicts(t.world, t.result) == [RecordSuccess, RecordFailure]
  {
  }

  lemma PostCheckTurn(b: Breaker, t: Turn)
    requires b.maxFailures >= 1 && Possible(b, t) && Asks(t.world) && (t.world.admitted ==> PostCheckFails(t.world))
    ensures var c := After(b, t);
            if !t.world.admitted then c == b
            else c.failureCount == 1 && c.state == if b.maxFailures == 1 then Open else Closed
  {
    ToldUnfold(AfterAllow(b, t.ask), t.tell);
    if t.world.admitted {
      PostCheckVerdicts(t);
    }
  }

  lemma {:induction false} PostCheckStays(b: Breaker, ts: seq<Turn>)
    requires b.maxFailures >= 1 && b.state == (if b.maxFailures == 1 then Open else Closed) && Legal(b, ts)
    requires forall t :: t in ts ==> Asks(t.world) && (t.world.admitted ==> PostCheckFails(t.world))
    ensures Exec(b, ts).state == b.state
    decreases |ts|
  {
    if ts != [] {
      PostCheckTurn(b, ts[0]);
      TurnKeepsLimit(b, ts[0]);
      PostCheckStays(After(b, ts[0]), ts[1..]);
    }
  }

  /**
   * reconcileApp tells success before the blue-green health check can tell
   * failure, so the count restarts every time: however many such runs follow one
   * another on a closed breaker, it is open afterwards if and only if one failure
   * is already enough.
   */
  lemma PostCheckTripsIffLimitOne(b: Breaker, ts: seq<Turn>)
    requires b.maxFailures >= 1 && b.state.Closed? && Legal(b, ts) && ts != []
    requires forall t :: t in ts ==> Asks(t.world) && (t.world.admitted ==> PostCheckFails(t.world))
    ensures Exec(b, ts).state.Open? <==> b.maxFailures == 1
  {
    PostCheckTurn(b, ts[0]);
    TurnKeepsLimit(b, ts[0]);
    PostCheckStays(After(b, ts[0]), ts[1..]);
  }
}
