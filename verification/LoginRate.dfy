/**
 * The local login rate limiter: a fixed array of buckets, attempts that are
 * admitted and later finished or cancelled, a lockout after repeated failures,
 * and the cleanup pass that forgets old buckets and expired sessions.
 */
module LoginRate {
  import opened Options

  type Time = int   // seconds

  const LOCKOUT_AFTER_FAILURES := 5
  const LOCKOUT_DURATION := 900
  const MAX_PASSWORD_CHECKS := 1

  /** `None` is Go's zero time. */
  datatype Bucket = Bucket(failures: nat, inFlight: nat, until: Option<Time>, updated: Option<Time>)

  const EMPTY := Bucket(0, 0, None, None)

  predicate Locked(b: Bucket, now: Time) {
    b.until.Some? && now < b.until.value
  }

  /** One bucket's share of cleanupLocked. */
  function Cleaned(b: Bucket, now: Time): Bucket {
    if b.inFlight > 0 then b
    else if Locked(b, now) then b
    else if b.until.Some? || b.updated.None? || now - b.updated.value > LOCKOUT_DURATION then EMPTY
    else b
  }

  function CleanedAll(bs: seq<Bucket>, now: Time): seq<Bucket> {
    seq(|bs|, i requires 0 <= i < |bs| => Cleaned(bs[i], now))
  }

  predicate Admits(b: Bucket, now: Time) {
    !Locked(b, now) && b.failures + b.inFlight < LOCKOUT_AFTER_FAILURES
  }

  function Admitted(b: Bucket, now: Time): Bucket {
    b.(inFlight := b.inFlight + 1, updated := Some(now))
  }

  function Cancelled(b: Bucket, now: Time): Bucket {
    if b.inFlight == 0 then b else b.(inFlight := b.inFlight - 1, updated := Some(now))
  }

  function Finished(b: Bucket, now: Time, successful: bool): Bucket {
    if b.inFlight == 0 then b
    else
      var failures := if successful then 0 else b.failures + 1;
      if failures >= LOCKOUT_AFTER_FAILURES
      then Bucket(0, b.inFlight - 1, Some(now + LOCKOUT_DURATION), Some(now))
      else Bucket(failures, b.inFlight - 1, b.until, Some(now))
  }

  class Authenticator {
    const rateBuckets: array<Bucket>
    var sessions: map<string, Time>      // session id to expiry
    var passwordChecks: nat              // tokens in the channel

    constructor (bucketCount: nat)
      ensures fresh(rateBuckets) && rateBuckets.Length == bucketCount
      ensures forall i :: 0 <= i < bucketCount ==> rateBuckets[i] == EMPTY
      ensures sessions == map[] && passwordChecks == 0
    {
      rateBuckets := new Bucket[bucketCount](i => EMPTY);
      sessions, passwordChecks := map[], 0;
    }

    method CleanupLocked(now: Time)
      modifies rateBuckets, `sessions
      ensures rateBuckets[..] == CleanedAll(old(rateBuckets[..]), now)
      ensures sessions == map id | id in old(sessions) && now < old(sessions)[id] :: old(sessions)[id]
    {
      var todo := sessions.Keys;
      while todo != {}
        invariant todo <= old(sessions.Keys)
        invariant sessions == map id | id in old(sessions) && (id in todo || now < old(sessions)[id]) :: old(sessions)[id]
        invariant rateBuckets[..] == old(rateBuckets[..])
        decreases |todo|
      {
        var id :| id in todo;
        todo := todo - {id};
        if !(now < sessions[id]) {
          sessions := sessions - {id};
        }
      }
      ghost var kept := sessions;
      for index := 0 to rateBuckets.Length
        invariant sessions == kept
        invariant forall i :: 0 <= i < index ==> rateBuckets[i] == Cleaned(old(rateBuckets[i]), now)
        invariant forall i :: index <= i < rateBuckets.Length ==> rateBuckets[i] == old(rateBuckets[i])
      {
        var value := rateBuckets[index];
        if value.inFlight > 0 {
          continue;
        }
        if value.until.Some? && now < value.until.value {
          continue;
        }
        if value.until.Some? || value.updated.None? || now - value.updated.value > LOCKOUT_DURATION {
          rateBuckets[index] := EMPTY;
        }
      }
    }

    method AdmitAttempt(index: int, now: Time) returns (ok: bool)
      modifies rateBuckets, `sessions
      ensures var clean := CleanedAll(old(rateBuckets[..]), now);
              && (ok <==> 0 <= index < |clean| && Admits(clean[index], now))
              && rateBuckets[..] == if ok then clean[index := Admitted(clean[index], now)] else clean
      ensures sessions == map id | id in old(sessions) && now < old(sessions)[id] :: old(sessions)[id]
    {
      CleanupLocked(now);
      if index < 0 || index >= rateBuckets.Length {
        return false;
      }
      var bucket := rateBuckets[index];
      if bucket.until.Some? && now < bucket.until.value {
        return false;
      }
      if bucket.failures + bucket.inFlight >= LOCKOUT_AFTER_FAILURES {
        return false;
      }
      ghost var clean := rateBuckets[..];
      rateBuckets[index] := bucket.(inFlight := bucket.inFlight + 1, updated := Some(now));
      assert rateBuckets[..] == clean[index := Admitted(clean[index], now)];
      return true;
    }

    method CancelAttempt(index: int, now: Time)
      modifies rateBuckets
      ensures var bs := old(rateBuckets[..]);
              rateBuckets[..] == if 0 <= index < |bs| then bs[index := Cancelled(bs[index], now)] else bs
    {
      if index < 0 || index >= rateBuckets.Length {
        return;
      }
      var bucket := rateBuckets[index];
      ghost var bs := rateBuckets[..];
      if bucket.inFlight != 0 {
        rateBuckets[index] := bucket.(inFlight := bucket.inFlight - 1, updated := Some(now));
      }
      assert rateBuckets[..] == bs[index := Cancelled(bs[index], now)];
    }

    method FinishAttempt(index: int, now: Time, successful: bool)
      modifies rateBuckets
      ensures var bs := old(rateBuckets[..]);
              rateBuckets[..] == if 0 <= index < |bs| then bs[index := Finished(bs[index], now, successful)] else bs
    {
      if index < 0 || index >= rateBuckets.Length {
        return;
      }
      var bucket := rateBuckets[index];
      ghost var bs := rateBuckets[..];
      if bucket.inFlight != 0 {
        bucket := bucket.(inFlight := bucket.inFlight - 1);
        if successful {
          bucket := bucket.(failures := 0);
        } else {
          bucket := bucket.(failures := bucket.failures + 1);
        }
        bucket := bucket.(updated := Some(now));
        if bucket.failures >= LOCKOUT_AFTER_FAILURES {
          bucket := bucket.(failures := 0, until := Some(now + LOCKOUT_DURATION));
        }
        rateBuckets[index] := bucket;
      }
      assert rateBuckets[..] == bs[index := Finished(bs[index], now, successful)];
    }

    method AcquirePasswordCheck() returns (ok: bool)
      modifies `passwordChecks
      ensures ok <==> old(passwordChecks) < MAX_PASSWORD_CHECKS
      ensures passwordChecks == if ok then old(passwordChecks) + 1 else old(passwordChecks)
    {
      ok := passwordChecks < MAX_PASSWORD_CHECKS;
      if ok {
        passwordChecks := passwordChecks + 1;
      }
    }
  }

  // ----- every interleaving of logins -----

  /** A login between admitAttempt and its finishAttempt or cancelAttempt. */
  datatype Login =
    | Holding(index: nat, at: Time)      // admitted at `at`, before acquirePasswordCheck
    | Refused(index: nat, at: Time)      // no password slot: about to cancel, with that same time
    | Checking(index: nat, at: Time)     // verifying the password
    | Checked(index: nat, at: Time)      // released the slot: about to finish

  datatype State = State(buckets: seq<Bucket>, logins: map<nat, Login>, passwordChecks: nat)

  datatype Label =
    | Admit(id: nat, index: nat, now: Time)
    | Acquire(id: nat)
    | Cancel(id: nat)
    | Release(id: nat)
    | Finish(id: nat, now: Time, successful: bool)
    | Cleanup(now: Time)       // the passes made by Login's end, Logout and Current

  ghost predicate Can(s: State, l: Label) {
    match l
    case Admit(id, index, _) => id !in s.logins && index < |s.buckets|
    case Acquire(id) => id in s.logins && s.logins[id].Holding?
    case Cancel(id) => id in s.logins && s.logins[id].Refused? && s.logins[id].index < |s.buckets|
    case Release(id) => id in s.logins && s.logins[id].Checking? && s.passwordChecks > 0
    case Finish(id, _, _) => id in s.logins && s.logins[id].Checked? && s.logins[id].index < |s.buckets|
    case Cleanup(_) => true
  }

  function Do(s: State, l: Label): State
    requires Can(s, l)
  {
    match l
    case Admit(id, index, now) =>
      var clean := CleanedAll(s.buckets, now);
      if Admits(clean[index], now)
      then s.(buckets := clean[index := Admitted(clean[index], now)], logins := s.logins[id := Holding(index, now)])
      else s.(buckets := clean)
    case Acquire(id) =>
      var Holding(index, at) := s.logins[id];
      if s.passwordChecks < MAX_PASSWORD_CHECKS
      then s.(logins := s.logins[id := Checking(index, at)], passwordChecks := s.passwordChecks + 1)
      else s.(logins := s.logins[id := Refused(index, at)])
    case Cancel(id) =>
      var Refused(index, at) := s.logins[id];
      s.(buckets := s.buckets[index := Cancelled(s.buckets[index], at)], logins := s.logins - {id})
    case Release(id) =>
      var Checking(index, at) := s.logins[id];
      s.(logins := s.logins[id := Checked(index, at)], passwordChecks := s.passwordChecks - 1)
    case Finish(id, now, successful) =>
      var index := s.logins[id].index;
      s.(buckets := s.buckets[index := Finished(s.buckets[index], now, successful)], logins := s.logins - {id})
    case Cleanup(now) => s.(buckets := CleanedAll(s.buckets, now))
  }

  ghost predicate Legal(s: State, run: seq<Label>)
    decreases |run|
  {
    run == [] || (Can(s, run[0]) && Legal(Do(s, run[0]), run[1..]))
  }

  function Exec(s: State, run: seq<Label>): State
    requires Legal(s, run)
    decreases |run|
  {
    if run == [] then s else Exec(Do(s, run[0]), run[1..])
  }

  ghost predicate Init(s: State) {
    s.logins == map[] && s.passwordChecks == 0 && forall i :: 0 <= i < |s.buckets| ==> s.buckets[i] == EMPTY
  }

  /** The logins in flight on one bucket. */
  ghost function At(s: State, i: nat): set<nat> {
    set id | id in s.logins && s.logins[id].index == i
  }

  /** The logins that hold the password-check slot. */
  ghost function Slots(s: State): set<nat> {
    set id | id in s.logins && s.logins[id].Checking?
  }

  ghost predicate Fine(b: Bucket, inFlight: nat) {
    && b.inFlight == inFlight
    && b.failures + b.inFlight <= LOCKOUT_AFTER_FAILURES
    && b.failures < LOCKOUT_AFTER_FAILURES
    && (b.until.Some? ==> b.failures == 0 && b.inFlight == 0)
  }

  ghost predicate Invariant(s: State) {
    && (forall id :: id in s.logins ==> s.logins[id].index < |s.buckets|)
    && (forall i: nat :: i < |s.buckets| ==> Fine(s.buckets[i], |At(s, i)|))
    && s.passwordChecks == |Slots(s)| <= MAX_PASSWORD_CHECKS
  }

  // ----- one bucket's view of a step -----

  ghost predicate Joins(s: State, l: Label, i: nat)
    requires Can(s, l) && i < |s.buckets|
  {
    l.Admit? && l.index == i && Admits(Cleaned(s.buckets[i], l.now), l.now)
  }

  ghost predicate Leaves(s: State, l: Label, i: nat)
    requires Can(s, l)
  {
    (l.Cancel? || l.Finish?) && s.logins[l.id].index == i
  }

  lemma AtAdmit(s: State, l: Label, i: nat)
    requires Can(s, l) && l.Admit? && i < |s.buckets|
    ensures |At(Do(s, l), i)| == |At(s, i)| + if Joins(s, l, i) then 1 else 0
  {
    var before, after := At(s, i), At(Do(s, l), i);
    assert CleanedAll(s.buckets, l.now)[l.index] == Cleaned(s.buckets[l.index], l.now);
    if Admits(Cleaned(s.buckets[l.index], l.now), l.now) {
      assert Do(s, l).logins == s.logins[l.id := Holding(l.index, l.now)];
      if l.index == i {
        assert after == before + {l.id} && l.id !in before;
      } else {
        assert after == before;
      }
    } else {
      assert Do(s, l).logins == s.logins;
    }
  }

  lemma AtLeave(s: State, l: Label, i: nat)
    requires Can(s, l) && (l.Cancel? || l.Finish?) && i < |s.buckets|
    ensures |At(Do(s, l), i)| == |At(s, i)| - if Leaves(s, l, i) then 1 else 0
  {
    var before, after := At(s, i), At(Do(s, l), i);
    if Leaves(s, l, i) {
      assert after == before - {l.id} && l.id in before;
    } else {
      assert after == before;
    }
  }

  lemma AtStep(s: State, l: Label, i: nat)
    requires Can(s, l) && i < |s.buckets|
    ensures |At(Do(s, l), i)| ==
            |At(s, i)| + (if Joins(s, l, i) then 1 else 0) - (if Leaves(s, l, i) then 1 else 0)
  {
    if l.Admit? {
      AtAdmit(s, l, i);
    } else if l.Cancel? || l.Finish? {
      AtLeave(s, l, i);
    } else {
      assert At(Do(s, l), i) == At(s, i);
    }
  }

  lemma SlotsStep(s: State, l: Label)
    requires Can(s, l) && s.passwordChecks == |Slots(s)| <= MAX_PASSWORD_CHECKS
    ensures Do(s, l).passwordChecks == |Slots(Do(s, l))| <= MAX_PASSWORD_CHECKS
  {
    var before, after := Slots(s), Slots(Do(s, l));
    if l.Acquire? && s.passwordChecks < MAX_PASSWORD_CHECKS {
      assert after == before + {l.id} && l.id !in before;
    } else if l.Release? {
      assert after == before - {l.id} && l.id in before;
    } else {
      SlotsKept(s, l);
    }
  }

  lemma SlotsKept(s: State, l: Label)
    requires Can(s, l) && !l.Release? && (l.Acquire? ==> s.passwordChecks >= MAX_PASSWORD_CHECKS)
    ensures Slots(Do(s, l)) == Slots(s) && Do(s, l).passwordChecks == s.passwordChecks
  {
    var t := Do(s, l);
    forall id ensures id in Slots(t) <==> id in Slots(s) {
    }
  }

  ghost function BucketAfter(s: State, l: Label, i: nat): Bucket
    requires Can(s, l) && i < |s.buckets|
  {
    var b := s.buckets[i];
    match l
    case Admit(_, _, now) => if Joins(s, l, i) then Admitted(Cleaned(b, now), now) else Cleaned(b, now)
    case Cancel(id) => if Leaves(s, l, i) then Cancelled(b, s.logins[id].at) else b
    case Finish(_, now, ok) => if Leaves(s, l, i) then Finished(b, now, ok) else b
    case Cleanup(now) => Cleaned(b, now)
    case _ => b
  }

  lemma BucketStep(s: State, l: Label, i: nat)
    requires Can(s, l) && i < |s.buckets|
    ensures |Do(s, l).buckets| == |s.buckets| && Do(s, l).buckets[i] == BucketAfter(s, l, i)
  {
  }

  lemma InvariantStep(s: State, l: Label)
    requires Can(s, l) && Invariant(s)
    ensures Invariant(Do(s, l))
  {
    SlotsStep(s, l);
    forall i: nat | i < |Do(s, l).buckets| ensures Fine(Do(s, l).buckets[i], |At(Do(s, l), i)|) {
      BucketStep(s, l, i);
      AtStep(s, l, i);
      assert Fine(s.buckets[i], |At(s, i)|);
    }
  }

  /**
   * In every interleaving of logins every bucket keeps failures + inFlight
   * within the limit, inFlight is the number of logins between admission and
   * finish or cancel, a lockout time is set only on an otherwise empty bucket,
   * and at most one password is checked at a time.
   */
  lemma {:induction false} InvariantAlways(s: State, run: seq<Label>)
    requires Legal(s, run) && (Init(s) || Invariant(s))
    ensures Invariant(Exec(s, run))
    decreases |run|
  {
    if Init(s) {
      forall i: nat | i < |s.buckets| ensures At(s, i) == {} {
      }
      assert Slots(s) == {};
    }
    if run != [] {
      InvariantStep(s, run[0]);
      InvariantAlways(Do(s, run[0]), run[1..]);
    }
  }

  // ----- a success starts over -----

  /** A successful login leaves no failure on its bucket, and the bucket open. */
  lemma SuccessClears(s: State, l: Label, i: nat)
    requires Can(s, l) && Invariant(s) && i < |s.buckets| && SucceedsOn(s, l, i)
    ensures Do(s, l).buckets[i].failures == 0 && Do(s, l).buckets[i].until.None?
  {
    BucketStep(s, l, i);
    AtStep(s, l, i);
    assert Fine(s.buckets[i], |At(s, i)|);
    assert l.id in At(s, i);
  }

  /** In no part of the run have there been five failures on bucket `i` since its last success; `count` came before. */
  ghost predicate BelowLimit(s: State, run: seq<Label>, i: nat, count: nat)
    requires Legal(s, run)
    decreases |run|
  {
    && count < LOCKOUT_AFTER_FAILURES
    && (run == [] ||
        BelowLimit(Do(s, run[0]), run[1..], i,
                   if SucceedsOn(s, run[0], i) then 0 else if FailsOn(s, run[0], i) then count + 1 else count))
  }

  ghost predicate CountedOpen(b: Bucket, count: nat) {
    b.until.None? && b.failures <= count
  }

  lemma CountedStep(s: State, l: Label, i: nat, count: nat)
    requires Can(s, l) && Invariant(s) && i < |s.buckets| && CountedOpen(s.buckets[i], count)
    requires !SucceedsOn(s, l, i) && (FailsOn(s, l, i) ==> count + 1 < LOCKOUT_AFTER_FAILURES)
    ensures |Do(s, l).buckets| == |s.buckets|
    ensures CountedOpen(Do(s, l).buckets[i], if FailsOn(s, l, i) then count + 1 else count)
  {
    BucketStep(s, l, i);
  }

  /**
   * With fewer than five failures since its last success, a bucket that is
   * open is never locked, whatever the clock says and however logins interleave.
   */
  lemma {:induction false} NeverLockedBelowLimit(s: State, run: seq<Label>, i: nat, count: nat)
    requires Legal(s, run) && Invariant(s) && i < |s.buckets|
    requires CountedOpen(s.buckets[i], count) && BelowLimit(s, run, i, count)
    ensures i < |Exec(s, run).buckets| && Exec(s, run).buckets[i].until.None?
    decreases |run|
  {
    if run != [] {
      var l := run[0];
      InvariantStep(s, l);
      BucketStep(s, l, i);
      if SucceedsOn(s, l, i) {
        SuccessClears(s, l, i);
        NeverLockedBelowLimit(Do(s, l), run[1..], i, 0);
      } else {
        var next := if FailsOn(s, l, i) then count + 1 else count;
        assert BelowLimit(Do(s, l), run[1..], i, next);
        CountedStep(s, l, i, count);
        NeverLockedBelowLimit(Do(s, l), run[1..], i, next);
      }
    }
  }

  /**
   * A step that locks a bucket is a failure on it, and from then on the bucket
   * admits a login exactly from fifteen minutes after that failure.
   */
  lemma LockoutLasts(s: State, l: Label, i: nat, now: Time)
    requires Can(s, l) && Invariant(s) && i < |s.buckets|
    requires s.buckets[i].until.None? && Do(s, l).buckets[i].until.Some?
    ensures FailsOn(s, l, i) && s.buckets[i].failures == LOCKOUT_AFTER_FAILURES - 1
    ensures Admits(Cleaned(Do(s, l).buckets[i], now), now) <==> now - l.now >= LOCKOUT_DURATION
  {
    BucketStep(s, l, i);
    AtStep(s, l, i);
    InvariantStep(s, l);
    assert Fine(s.buckets[i], |At(s, i)|) && Fine(Do(s, l).buckets[i], |At(Do(s, l), i)|);
  }

  // ----- five failures per window -----

  ghost predicate FailsOn(s: State, l: Label, i: nat)
    requires Can(s, l)
  {
    l.Finish? && !l.successful && s.logins[l.id].index == i
  }

  ghost predicate SucceedsOn(s: State, l: Label, i: nat)
    requires Can(s, l)
  {
    l.Finish? && l.successful && s.logins[l.id].index == i
  }

  /** Failed attempts on bucket `i` during the run. */
  ghost function Failures(s: State, run: seq<Label>, i: nat): nat
    requires Legal(s, run)
    decreases |run|
  {
    if run == [] then 0
    else (if FailsOn(s, run[0], i) then 1 else 0) + Failures(Do(s, run[0]), run[1..], i)
  }

  ghost predicate NoSuccess(s: State, run: seq<Label>, i: nat)
    requires Legal(s, run)
    decreases |run|
  {
    run == [] || (!SucceedsOn(s, run[0], i) && NoSuccess(Do(s, run[0]), run[1..], i))
  }

  /**
   * What the clock says during a window [from, to] on bucket `i`: no cleanup is
   * made with a time after it, logins on `i` are finished inside it, and those
   * cancelled on `i` had read the clock at `since` or later.
   */
  ghost predicate TimedStep(s: State, l: Label, i: nat, from: Time, to: Time, since: Time)
    requires Can(s, l)
  {
    match l
    case Admit(_, _, now) => now <= to
    case Cleanup(now) => now <= to
    case Finish(id, now, _) => s.logins[id].index == i ==> from <= now <= to
    case Cancel(id) => s.logins[id].index == i ==> since <= s.logins[id].at
    case _ => true
  }

  ghost predicate Timed(s: State, run: seq<Label>, i: nat, from: Time, to: Time, since: Time)
    requires Legal(s, run)
    decreases |run|
  {
    run == [] || (TimedStep(s, run[0], i, from, to, since) && Timed(Do(s, run[0]), run[1..], i, from, to, since))
  }

  /**
   * What `seen` failures stamped in the window have left behind: they are still
   * counted, and a login in flight or the bucket's time makes the cleanups of the
   * window spare them, or the bucket is locked past `to`.
   */
  ghost predicate Remembers(b: Bucket, seen: nat, to: Time) {
    || seen == 0
    || (b.until.None? && seen <= b.failures && (b.inFlight > 0 || (b.updated.Some? && to - b.updated.value <= LOCKOUT_DURATION)))
    || (b.until.Some? && b.until.value > to && seen <= LOCKOUT_AFTER_FAILURES)
  }

  lemma RemembersStep(s: State, l: Label, i: nat, seen: nat, from: Time, to: Time, since: Time)
    requires Can(s, l) && Invariant(s) && i < |s.buckets| && !SucceedsOn(s, l, i)
    requires TimedStep(s, l, i, from, to, since) && to - from < LOCKOUT_DURATION && to - since <= LOCKOUT_DURATION
    requires Remembers(s.buckets[i], seen, to)
    ensures var seen' := seen + if FailsOn(s, l, i) then 1 else 0;
            && |Do(s, l).buckets| == |s.buckets|
            && Remembers(Do(s, l).buckets[i], seen', to)
  {
    BucketStep(s, l, i);
    AtStep(s, l, i);
    assert Fine(s.buckets[i], |At(s, i)|);
  }

  lemma {:induction false} WindowFrom(s: State, run: seq<Label>, i: nat, seen: nat, from: Time, to: Time, since: Time)
    requires Legal(s, run) && Invariant(s) && i < |s.buckets| && NoSuccess(s, run, i)
    requires Timed(s, run, i, from, to, since) && to - from < LOCKOUT_DURATION && to - since <= LOCKOUT_DURATION
    requires Remembers(s.buckets[i], seen, to)
    ensures seen + Failures(s, run, i) <= LOCKOUT_AFTER_FAILURES
    decreases |run|
  {
    if run == [] {
      assert Fine(s.buckets[i], |At(s, i)|);
    } else {
      var l := run[0];
      RemembersStep(s, l, i, seen, from, to, since);
      InvariantStep(s, l);
      WindowFrom(Do(s, l), run[1..], i, seen + if FailsOn(s, l, i) then 1 else 0, from, to, since);
    }
  }

  /** A reachable window on bucket `i` in which no login on it succeeds. */
  ghost predicate Window(s: State, before: seq<Label>, window: seq<Label>, i: nat, from: Time, to: Time, since: Time) {
    && Init(s) && Legal(s, before) && Legal(Exec(s, before), window)
    && i < |Exec(s, before).buckets| && NoSuccess(Exec(s, before), window, i)
    && Timed(Exec(s, before), window, i, from, to, since)
  }

  /**
   * From any reachable state, any window shorter than fifteen minutes in which no
   * login on bucket `i` succeeds holds at most five failures on it, provided no
   * login cancelled on it was admitted more than fifteen minutes before its end.
   */
  lemma FiveFailuresPerWindow(s: State, before: seq<Label>, window: seq<Label>, i: nat, from: Time, to: Time, since: Time)
    requires Window(s, before, window, i, from, to, since)
    requires to - from < LOCKOUT_DURATION && to - since <= LOCKOUT_DURATION
    ensures Failures(Exec(s, before), window, i) <= LOCKOUT_AFTER_FAILURES
  {
    InvariantAlways(s, before);
    WindowFrom(Exec(s, before), window, i, 0, from, to, since);
  }

  // ----- why a stale cancellation matters -----

  /** Runs one after the other: legality, failures and timing add up. */
  lemma {:induction false} InTurn(s: State, a: seq<Label>, b: seq<Label>, i: nat, from: Time, to: Time, since: Time)
    requires Legal(s, a) && Legal(Exec(s, a), b)
    ensures Legal(s, a + b) && Exec(s, a + b) == Exec(Exec(s, a), b)
    ensures Failures(s, a + b, i) == Failures(s, a, i) + Failures(Exec(s, a), b, i)
    ensures NoSuccess(s, a, i) && NoSuccess(Exec(s, a), b, i) ==> NoSuccess(s, a + b, i)
    ensures Timed(s, a, i, from, to, since) && Timed(Exec(s, a), b, i, from, to, since) ==> Timed(s, a + b, i, from, to, since)
    decreases |a|
  {
    if a == [] {
      assert a + b == b;
    } else {
      assert (a + b)[1..] == a[1..] + b;
      InTurn(Do(s, a[0]), a[1..], b, i, from, to, since);
    }
  }

  /** One bucket, the logins in flight on it, and the password slot free. */
  function One(b: Bucket, logins: map<nat, Login>): State {
    State([b], logins, 0)
  }

  /** `n` failures happen in the run, all in the window, and it leads from `s` to `t`. */
  ghost predicate Fails(s: State, run: seq<Label>, t: State, n: nat, from: Time, to: Time, since: Time) {
    && Legal(s, run) && Exec(s, run) == t && Failures(s, run, 0) == n && NoSuccess(s, run, 0)
    && Timed(s, run, 0, from, to, since)
  }

  lemma FailsInTurn(s: State, a: seq<Label>, t: State, m: nat, b: seq<Label>, u: State, n: nat, from: Time, to: Time, since: Time)
    requires Fails(s, a, t, m, from, to, since) && Fails(t, b, u, n, from, to, since)
    ensures Fails(s, a + b, u, m + n, from, to, since)
  {
    InTurn(s, a, b, 0, from, to, since);
  }

  lemma OneStep(s: State, l: Label, from: Time, to: Time, since: Time)
    requires Can(s, l) && TimedStep(s, l, 0, from, to, since) && !SucceedsOn(s, l, 0)
    ensures Fails(s, [l], Do(s, l), if FailsOn(s, l, 0) then 1 else 0, from, to, since)
  {
    assert [l][1..] == [];
  }

  /** A login that is admitted, checked and fails, at time `to`. */
  lemma FailOnce(b: Bucket, logins: map<nat, Login>, id: nat, from: Time, to: Time, since: Time) returns (run: seq<Label>)
    requires id !in logins && from <= to && Cleaned(b, to) == b && Admits(b, to)
    ensures Fails(One(b, logins), run, One(Finished(Admitted(b, to), to, false), logins), 1, from, to, since)
  {
    var s := One(b, logins);
    var admit, acquire, release, finish := Admit(id, 0, to), Acquire(id), Release(id), Finish(id, to, false);
    var s1 := State([Admitted(b, to)], logins[id := Holding(0, to)], 0);
    var s2 := State([Admitted(b, to)], logins[id := Checking(0, to)], 1);
    var s3 := State([Admitted(b, to)], logins[id := Checked(0, to)], 0);
    var s4 := One(Finished(Admitted(b, to), to, false), logins);
    assert Do(s, admit) == s1;
    assert Do(s1, acquire) == s2;
    assert Do(s2, release) == s3;
    assert Do(s3, finish) == s4;
    OneStep(s, admit, from, to, since);
    OneStep(s1, acquire, from, to, since);
    OneStep(s2, release, from, to, since);
    OneStep(s3, finish, from, to, since);
    FailsInTurn(s, [admit], s1, 0, [acquire], s2, 0, from, to, since);
    FailsInTurn(s, [admit] + [acquire], s2, 0, [release], s3, 0, from, to, since);
    FailsInTurn(s, [admit] + [acquire] + [release], s3, 0, [finish], s4, 1, from, to, since);
    run := [admit] + [acquire] + [release] + [finish];
  }

  /** `n` such logins in a row, short of the limit. */
  lemma {:induction false} FailMany(b: Bucket, logins: map<nat, Login>, id: nat, n: nat, from: Time, to: Time, since: Time)
    returns (run: seq<Label>)
    requires (forall x :: x in logins ==> x < id) && from <= to && n > 0
    requires Cleaned(b, to) == b && b.until.None? && b.failures + n < LOCKOUT_AFTER_FAILURES && b.failures + b.inFlight + n <= LOCKOUT_AFTER_FAILURES
    ensures Fails(One(b, logins), run, One(Bucket(b.failures + n, b.inFlight, None, Some(to)), logins), n, from, to, since)
    decreases n
  {
    run := FailOnce(b, logins, id, from, to, since);
    if n > 1 {
      var c := Bucket(b.failures + 1, b.inFlight, None, Some(to));
      var rest := FailMany(c, logins, id + 1, n - 1, from, to, since);
      FailsInTurn(One(b, logins), run, One(c, logins), 1,
                  rest, One(Bucket(b.failures + n, b.inFlight, None, Some(to)), logins), n - 1, from, to, since);
      run := run + rest;
    }
  }

  /** A failing login whose password check makes login 0 find the slot taken. */
  lemma FailWhileRefusing(b: Bucket, at: Time, id: nat, from: Time, to: Time, since: Time) returns (run: seq<Label>)
    requires id != 0 && from <= to && Cleaned(b, to) == b && Admits(b, to)
    ensures Fails(One(b, map[0 := Holding(0, at)]), run,
                  One(Finished(Admitted(b, to), to, false), map[0 := Refused(0, at)]), 1, from, to, since)
  {
    var logins, c := map[0 := Holding(0, at)], Admitted(b, to);
    var s := One(b, logins);
    var s1 := State([c], map[0 := Holding(0, at), id := Holding(0, to)], 0);
    var s2 := State([c], map[0 := Holding(0, at), id := Checking(0, to)], 1);
    var s3 := State([c], map[0 := Refused(0, at), id := Checking(0, to)], 1);
    var s4 := State([c], map[0 := Refused(0, at), id := Checked(0, to)], 0);
    var s5 := One(Finished(c, to, false), map[0 := Refused(0, at)]);
    assert Do(s, Admit(id, 0, to)) == s1;
    assert Do(s1, Acquire(id)) == s2;
    assert Do(s2, Acquire(0)) == s3;
    assert Do(s3, Release(id)) == s4;
    assert Do(s4, Finish(id, to, false)) == s5;
    OneStep(s, Admit(id, 0, to), from, to, since);
    OneStep(s1, Acquire(id), from, to, since);
    OneStep(s2, Acquire(0), from, to, since);
    OneStep(s3, Release(id), from, to, since);
    OneStep(s4, Finish(id, to, false), from, to, since);
    run := [Admit(id, 0, to)];
    FailsInTurn(s, run, s1, 0, [Acquire(id)], s2, 0, from, to, since);
    run := run + [Acquire(id)];
    FailsInTurn(s, run, s2, 0, [Acquire(0)], s3, 0, from, to, since);
    run := run + [Acquire(0)];
    FailsInTurn(s, run, s3, 0, [Release(id)], s4, 0, from, to, since);
    run := run + [Release(id)];
    FailsInTurn(s, run, s4, 0, [Finish(id, to, false)], s5, 1, from, to, since);
    run := run + [Finish(id, to, false)];
  }

  /** Four failures while a login admitted at `since` is in flight. */
  lemma FourFailures(from: Time, to: Time, since: Time) returns (run: seq<Label>)
    requires from <= to
    ensures Fails(One(Bucket(0, 1, None, Some(since)), map[0 := Holding(0, since)]), run,
                  One(Bucket(4, 1, None, Some(to)), map[0 := Refused(0, since)]), 4, from, to, since)
  {
    var b, c := Bucket(0, 1, None, Some(since)), Bucket(3, 1, None, Some(to));
    var logins := map[0 := Holding(0, since)];
    run := FailMany(b, logins, 1, 3, from, to, since);
    var fourth := FailWhileRefusing(c, since, 4, from, to, since);
    FailsInTurn(One(b, logins), run, One(c, logins), 3,
                fourth, One(Bucket(4, 1, None, Some(to)), map[0 := Refused(0, since)]), 1, from, to, since);
    run := run + fourth;
  }

  /** Its cancellation dates the bucket back, and a cleanup forgets the four. */
  lemma Forgotten(from: Time, to: Time, since: Time) returns (run: seq<Label>)
    requires from <= to && to - since > LOCKOUT_DURATION
    ensures Fails(One(Bucket(4, 1, None, Some(to)), map[0 := Refused(0, since)]), run, One(EMPTY, map[]), 0, from, to, since)
  {
    var s := One(Bucket(4, 1, None, Some(to)), map[0 := Refused(0, since)]);
    var t := One(Bucket(4, 0, None, Some(since)), map[]);
    assert Do(s, Cancel(0)) == t;
    assert Do(t, Cleanup(to)) == One(EMPTY, map[]);
    OneStep(s, Cancel(0), from, to, since);
    OneStep(t, Cleanup(to), from, to, since);
    FailsInTurn(s, [Cancel(0)], t, 0, [Cleanup(to)], One(EMPTY, map[]), 0, from, to, since);
    run := [Cancel(0)] + [Cleanup(to)];
  }

  lemma FiveMore(from: Time, to: Time, since: Time) returns (run: seq<Label>, t: State)
    requires from <= to
    ensures Fails(One(EMPTY, map[]), run, t, 5, from, to, since)
  {
    var c := Bucket(4, 0, None, Some(to));
    run := FailMany(EMPTY, map[], 0, 4, from, to, since);
    var fifth := FailOnce(c, map[], 4, from, to, since);
    t := One(Finished(Admitted(c, to), to, false), map[]);
    FailsInTurn(One(EMPTY, map[]), run, One(c, map[]), 4, fifth, t, 1, from, to, since);
    run := run + fifth;
  }

  /**
   * A login admitted more than fifteen minutes before the window's end, still in
   * flight and then refused the password slot: nine failures in one instant.
   */
  lemma NineFailures(from: Time, to: Time, since: Time) returns (s: State, before: seq<Label>, window: seq<Label>)
    requires from <= to && to - since > LOCKOUT_DURATION
    ensures Window(s, before, window, 0, from, to, since)
    ensures Failures(Exec(s, before), window, 0) == 9
  {
    s, before := One(EMPTY, map[]), [Admit(0, 0, since)];
    var s0 := One(Bucket(0, 1, None, Some(since)), map[0 := Holding(0, since)]);
    assert Do(s, Admit(0, 0, since)) == s0;
    assert before[1..] == [];
    assert Legal(s0, []) && Exec(s0, []) == s0;
    assert Legal(s, before) && Exec(s, before) == Exec(s0, []);
    var s1 := One(Bucket(4, 1, None, Some(to)), map[0 := Refused(0, since)]);
    var four := FourFailures(from, to, since);
    var forget := Forgotten(from, to, since);
    var five, t := FiveMore(from, to, since);
    FailsInTurn(s0, four, s1, 4, forget, One(EMPTY, map[]), 0, from, to, since);
    FailsInTurn(s0, four + forget, One(EMPTY, map[]), 4, five, t, 5, from, to, since);
    window := four + forget + five;
  }

  /** Five failures at most, in every such window of every run. */
  ghost predicate Limited(from: Time, to: Time, since: Time) {
    forall s, before, window, i :: Window(s, before, window, i, from, to, since) ==>
      Failures(Exec(s, before), window, i) <= LOCKOUT_AFTER_FAILURES
  }

  /**
   * For windows shorter than fifteen minutes the limit of five holds in every run
   * if and only if the logins cancelled in them were admitted no more than fifteen
   * minutes before their end.
   */
  lemma LimitedIffCancelsRecent(from: Time, to: Time, since: Time)
    requires from <= to && to - from < LOCKOUT_DURATION
    ensures Limited(from, to, since) <==> to - since <= LOCKOUT_DURATION
  {
    if to - since <= LOCKOUT_DURATION {
      forall s, before, window, i | Window(s, before, window, i, from, to, since)
        ensures Failures(Exec(s, before), window, i) <= LOCKOUT_AFTER_FAILURES
      {
        FiveFailuresPerWindow(s, before, window, i, from, to, since);
      }
    } else {
      var s, before, window := NineFailures(from, to, since);
    }
  }
}
