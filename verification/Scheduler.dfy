/**
 * The reconciler's scheduling protocol: the schedule and queued maps, the
 * bounded work queue, the scheduler goroutine, the worker pool, and the
 * per-application mutexes shared with ReconcileNow and Rollback.
 *
 * Every critical section and channel operation is one atomic step. A step's
 * label carries everything the code does not decide itself: the clock, the map
 * iteration order, which goroutine runs.
 */
module Scheduler {

  datatype App = App(name: string)
  type Time = int

  datatype SchedulerPc =
    | Waiting                               // at the select of schedulerLoop
    | Collecting                            // about to enter enqueueDueApps
    | Enqueuing(due: seq<App>)              // offering the collected names
    | Retrying(app: App, rest: seq<App>)    // the queue was full for `app`

  datatype WorkerPc =
    | Idle
    | Took(app: App)                        // received from the queue
    | Trying(app: App, lock: nat)           // has the mutex, before TryLock
    | Running(app: App, lock: nat)          // inside reconcileApp
    | Rescheduling(app: App)                // unlocked, before reschedule

  datatype CallerPc =                       // ReconcileNow or Rollback
    | Blocked(app: App, lock: nat)
    | Inside(app: App, lock: nat)

  datatype Client = Worker(w: nat) | Caller(c: nat)

  datatype State = State(
    schedule: map<App, Time>,
    queued: map<App, bool>,
    trigger: seq<App>,
    workQueue: seq<App>,
    capacity: nat,
    scheduler: SchedulerPc,
    workers: seq<WorkerPc>,
    callers: map<nat, CallerPc>,
    locks: map<App, nat>,
    nextLock: nat,
    held: map<nat, Client>)                 // locked mutexes, with who locked them

  const TRIGGER_CAPACITY := 16

  // ----- the shared maps -----

  /** Go's `r.queued[name]`: a missing key reads as false. */
  predicate Flagged(queued: map<App, bool>, a: App) {
    a in queued && queued[a]
  }

  /** `due` lists, once each and in some map order, the names whose time has come. */
  ghost predicate IsDueList(schedule: map<App, Time>, queued: map<App, bool>, now: Time, due: seq<App>) {
    && (forall i, j :: 0 <= i < j < |due| ==> due[i] != due[j])
    && (forall a :: a in due <==> a in schedule && schedule[a] <= now && !Flagged(queued, a))
  }

  /** Set the queued flag of every listed name. */
  function Mark(queued: map<App, bool>, due: seq<App>): map<App, bool> {
    if due == [] then queued
    else
      var last := |due| - 1;
      Mark(queued, due[..last])[due[last] := true]
  }

  lemma {:induction false} MarkFlags(queued: map<App, bool>, due: seq<App>, a: App)
    ensures Flagged(Mark(queued, due), a) <==> Flagged(queued, a) || a in due
  {
    if due != [] {
      var last := |due| - 1;
      MarkFlags(queued, due[..last], a);
      assert due == due[..last] + [due[last]];
    }
  }

  /** `t` is what a sweep for the earliest unqueued time must return. */
  ghost predicate IsNextWake(schedule: map<App, Time>, queued: map<App, bool>, t: Time) {
    if forall a :: a in schedule ==> Flagged(queued, a) then t == 0
    else
      && (exists a :: a in schedule && !Flagged(queued, a) && schedule[a] == t)
      && (forall a :: a in schedule && !Flagged(queued, a) ==> t <= schedule[a])
  }

  /** The scheduling fields of ReconcilerImpl and the methods that change them. */
  class ReconcilerImpl {
    var schedule: map<App, Time>
    var queued: map<App, bool>
    var workQueue: seq<App>
    var appLocks: map<App, nat>
    var breakers: map<App, nat>
    const capacity: nat

    constructor (workers: nat)
      ensures schedule == map[] && queued == map[] && workQueue == [] && appLocks == map[] && breakers == map[]
      ensures capacity == 2 * (if workers == 0 then 4 else workers)
    {
      schedule, queued, workQueue, appLocks, breakers := map[], map[], [], map[], map[];
      capacity := 2 * (if workers == 0 then 4 else workers);
    }

    method NextWakeTime() returns (earliest: Time)
      ensures (forall a :: a in schedule ==> schedule[a] != 0) ==> IsNextWake(schedule, queued, earliest)
    {
      earliest := 0;
      var todo := schedule.Keys;
      while todo != {}
        invariant todo <= schedule.Keys
        invariant (forall a :: a in schedule ==> schedule[a] != 0) ==>
          if forall a :: a in schedule && a !in todo ==> Flagged(queued, a) then earliest == 0
          else
            && (exists a :: a in schedule && a !in todo && !Flagged(queued, a) && schedule[a] == earliest)
            && (forall a :: a in schedule && a !in todo && !Flagged(queued, a) ==> earliest <= schedule[a])
        decreases |todo|
      {
        ghost var before := todo;
        var name :| name in todo;
        todo := todo - {name};
        assert forall a :: a in schedule && a !in todo <==> a in schedule && (a !in before || a == name);
        if !Flagged(queued, name) {
          if earliest == 0 || schedule[name] < earliest {
            earliest := schedule[name];
          }
        }
      }
    }

    /** The locked half of enqueueDueApps. */
    method CollectDue(now: Time) returns (due: seq<App>)
      modifies `queued
      ensures IsDueList(schedule, old(queued), now, due)
      ensures queued == Mark(old(queued), due)
    {
      due := [];
      var todo := schedule.Keys;
      while todo != {}
        invariant todo <= schedule.Keys
        invariant queued == Mark(old(queued), due)
        invariant forall i, j :: 0 <= i < j < |due| ==> due[i] != due[j]
        invariant forall a :: a in due <==>
          a in schedule && a !in todo && schedule[a] <= now && !Flagged(old(queued), a)
        decreases |todo|
      {
        var name :| name in todo;
        todo := todo - {name};
        MarkFlags(old(queued), due, name);
        if schedule[name] <= now && !Flagged(queued, name) {
          queued := queued[name := true];
          assert (due + [name])[..|due|] == due;
          due := due + [name];
        }
      }
    }

    method Enqueue(name: App) returns (ok: bool)
      modifies `workQueue
      ensures ok <==> |old(workQueue)| < capacity
      ensures workQueue == if ok then old(workQueue) + [name] else old(workQueue)
    {
      ok := |workQueue| < capacity;
      if ok {
        workQueue := workQueue + [name];
      }
    }

    /**
     * enqueueDueApps with no worker running meanwhile: the due names fill the
     * queue in order; those that do not fit are unflagged and pushed back.
     */
    method EnqueueDueApps(now: Time, retryAt: Time) returns (sent: seq<App>, pushed: seq<App>)
      requires |workQueue| <= capacity
      modifies `queued, `workQueue, `schedule
      ensures IsDueList(old(schedule), old(queued), now, sent + pushed)
      ensures workQueue == old(workQueue) + sent && |workQueue| <= capacity
      ensures pushed != [] ==> |workQueue| == capacity
      ensures forall a :: Flagged(queued, a) <==> Flagged(old(queued), a) || (a in sent && a !in pushed)
      ensures schedule.Keys == old(schedule.Keys)
      ensures forall a :: a in schedule ==> schedule[a] == if a in pushed then retryAt else old(schedule)[a]
    {
      var due := CollectDue(now);
      sent, pushed := [], [];
      forall a ensures Flagged(queued, a) <==> Flagged(old(queued), a) || a in due {
        MarkFlags(old(queued), due, a);
      }
      var i := 0;
      while i < |due|
        invariant 0 <= i <= |due| && due[..i] == sent + pushed
        invariant pushed != [] ==> |workQueue| == capacity
        invariant |workQueue| <= capacity && workQueue == old(workQueue) + sent
        invariant forall a :: Flagged(queued, a) <==> Flagged(old(queued), a) || (a in due && a !in pushed)
        invariant schedule.Keys == old(schedule.Keys)
        invariant forall a :: a in schedule ==> schedule[a] == if a in pushed then retryAt else old(schedule)[a]
      {
        var name := due[i];
        assert name in due && due[..i + 1] == due[..i] + [name];
        var ok := Enqueue(name);
        if ok {
          sent := sent + [name];
        } else {
          queued := queued[name := false];
          schedule := schedule[name := retryAt];
          pushed := pushed + [name];
        }
        i := i + 1;
      }
      assert due == sent + pushed;
    }

    method Reschedule(name: App, next: Time)
      modifies `schedule, `queued
      ensures schedule == old(schedule)[name := next]
      ensures queued == old(queued) - {name}
    {
      schedule := schedule[name := next];
      queued := queued - {name};
    }

    method AddApp(name: App, now: Time)
      modifies `schedule
      ensures schedule == old(schedule)[name := now]
    {
      schedule := schedule[name := now];
    }

    method RemoveApp(name: App)
      modifies `schedule, `queued, `appLocks, `breakers
      ensures schedule == old(schedule) - {name} && queued == old(queued) - {name}
      ensures appLocks == old(appLocks) - {name} && breakers == old(breakers) - {name}
    {
      schedule := schedule - {name};
      queued := queued - {name};
      appLocks := appLocks - {name};
      breakers := breakers - {name};
    }
  }

  // ----- the transition system -----

  datatype Label =
    | Trigger(a: App)                        // TriggerReconcile
    | TakeTrigger(now: Time)                 // the scheduler's trigger case
    | Tick                                   // the scheduler's timer case
    | Collect(now: Time, due: seq<App>)
    | Offer                                  // enqueue of the next due name
    | Retry(now: Time)                       // the full-queue branch
    | Take(w: nat)
    | GetLock(w: nat)
    | TryLock(w: nat)
    | Unlock(w: nat)
    | Reschedule(w: nat, next: Time)
    | Call(c: nat, a: App)                   // ReconcileNow or Rollback arrives
    | Acquire(c: nat)
    | Release(c: nat)
    | Add(a: App, now: Time)
    | RemoveSchedule(a: App)                 // RemoveApp, the part under scheduleMu
    | RemoveLock(a: App)                     // RemoveApp, appLocks.Delete

  ghost predicate Can(s: State, l: Label) {
    match l
    case Trigger(_) => true
    case TakeTrigger(_) => s.scheduler.Waiting? && s.trigger != []
    case Tick => s.scheduler.Waiting?
    case Collect(now, due) => s.scheduler.Collecting? && IsDueList(s.schedule, s.queued, now, due)
    case Offer => s.scheduler.Enqueuing? && s.scheduler.due != []
    case Retry(_) => s.scheduler.Retrying?
    case Take(w) => w < |s.workers| && s.workers[w].Idle? && s.workQueue != []
    case GetLock(w) => w < |s.workers| && s.workers[w].Took?
    case TryLock(w) => w < |s.workers| && s.workers[w].Trying?
    case Unlock(w) => w < |s.workers| && s.workers[w].Running?
    case Reschedule(w, _) => w < |s.workers| && s.workers[w].Rescheduling?
    case Call(c, _) => c !in s.callers
    case Acquire(c) => c in s.callers && s.callers[c].Blocked? && s.callers[c].lock !in s.held
    case Release(c) => c in s.callers && s.callers[c].Inside?
    case Add(_, _) => true
    case RemoveSchedule(_) => true
    case RemoveLock(_) => true
  }

  function Rest(due: seq<App>): SchedulerPc {
    if due == [] then Waiting else Enqueuing(due)
  }

  /** getAppLock: LoadOrStore of a fresh mutex. */
  function LockFor(s: State, a: App): nat {
    if a in s.locks then s.locks[a] else s.nextLock
  }

  function WithLock(s: State, a: App): State {
    if a in s.locks then s else s.(locks := s.locks[a := s.nextLock], nextLock := s.nextLock + 1)
  }

  function SetWorker(s: State, w: nat, pc: WorkerPc): State
    requires w < |s.workers|
  {
    s.(workers := s.workers[w := pc])
  }

  function Do(s: State, l: Label): State
    requires Can(s, l)
  {
    match l
    case Trigger(a) => if |s.trigger| < TRIGGER_CAPACITY then s.(trigger := s.trigger + [a]) else s
    case TakeTrigger(now) =>
      s.(trigger := s.trigger[1..], schedule := s.schedule[s.trigger[0] := now], scheduler := Collecting)
    case Tick => s.(scheduler := Collecting)
    case Collect(now, due) => s.(queued := Mark(s.queued, due), scheduler := Rest(due))
    case Offer =>
      var a, rest := s.scheduler.due[0], s.scheduler.due[1..];
      if |s.workQueue| < s.capacity then s.(workQueue := s.workQueue + [a], scheduler := Rest(rest))
      else s.(scheduler := Retrying(a, rest))
    case Retry(now) =>
      var a := s.scheduler.app;
      s.(queued := s.queued[a := false], schedule := s.schedule[a := now + 1], scheduler := Rest(s.scheduler.rest))
    case Take(w) => SetWorker(s, w, Took(s.workQueue[0])).(workQueue := s.workQueue[1..])
    case GetLock(w) =>
      var a := s.workers[w].app;
      SetWorker(WithLock(s, a), w, Trying(a, LockFor(s, a)))
    case TryLock(w) =>
      var Trying(a, lock) := s.workers[w];
      if lock in s.held then SetWorker(s, w, Idle)        // skipped: the flag stays set
      else SetWorker(s, w, Running(a, lock)).(held := s.held[lock := Worker(w)])
    case Unlock(w) =>
      var Running(a, lock) := s.workers[w];
      SetWorker(s, w, Rescheduling(a)).(held := s.held - {lock})
    case Reschedule(w, next) =>
      var a := s.workers[w].app;
      SetWorker(s, w, Idle).(schedule := s.schedule[a := next], queued := s.queued - {a})
    case Call(c, a) => WithLock(s, a).(callers := s.callers[c := Blocked(a, LockFor(s, a))])
    case Acquire(c) =>
      var Blocked(a, lock) := s.callers[c];
      s.(callers := s.callers[c := Inside(a, lock)], held := s.held[lock := Caller(c)])
    case Release(c) => s.(callers := s.callers - {c}, held := s.held - {s.callers[c].lock})
    case Add(a, now) => s.(schedule := s.schedule[a := now])
    case RemoveSchedule(a) => s.(schedule := s.schedule - {a}, queued := s.queued - {a})
    case RemoveLock(a) => s.(locks := s.locks - {a})
  }

  /** Start: any schedule, nothing queued, nobody running. */
  predicate Init(s: State) {
    && s.queued == map[] && s.trigger == [] && s.workQueue == [] && s.scheduler.Waiting?
    && (forall w :: 0 <= w < |s.workers| ==> s.workers[w].Idle?)
    && s.callers == map[] && s.locks == map[] && s.held == map[]
  }

  /** `run` is a sequence of steps the code can take one after another from `s`. */
  ghost predicate Legal(s: State, run: seq<Label>)
    decreases |run|
  {
    run == [] || (Can(s, run[0]) && Legal(Do(s, run[0]), run[1..]))
  }

  function Exec(s: State, run: seq<Label>): State
    requires Legal(s, run)
    decreases |run|
  {
    if run == [] then s else Exec(Do(s, run[0]), run[1..])
  }

  // ----- where an application name is -----

  function Count(names: seq<App>, a: App): nat {
    if names == [] then 0 else (if names[0] == a then 1 else 0) + Count(names[1..], a)
  }

  function InHand(pc: WorkerPc, a: App): nat {
    if !pc.Idle? && pc.app == a then 1 else 0
  }

  function InHands(ws: seq<WorkerPc>, a: App): nat {
    if ws == [] then 0 else InHand(ws[0], a) + InHands(ws[1..], a)
  }

  function DueNames(pc: SchedulerPc): seq<App> {
    match pc
    case Enqueuing(due) => due
    case Retrying(a, rest) => [a] + rest
    case _ => []
  }

  /** How often a name occurs across the due list, the queue and the workers' hands. */
  function Flight(s: State, a: App): nat {
    Count(DueNames(s.scheduler), a) + Count(s.workQueue, a) + InHands(s.workers, a)
  }

  lemma {:induction false} CountAppend(names: seq<App>, b: App, a: App)
    ensures Count(names + [b], a) == Count(names, a) + if a == b then 1 else 0
  {
    if names == [] {
      assert [b] == [b] + [];
    } else {
      CountAppend(names[1..], b, a);
      assert (names + [b])[1..] == names[1..] + [b];
    }
  }

  lemma {:induction false} CountIn(names: seq<App>, a: App)
    ensures Count(names, a) > 0 <==> a in names
    ensures (forall i, j :: 0 <= i < j < |names| ==> names[i] != names[j]) ==> Count(names, a) <= 1
  {
    if names != [] {
      CountIn(names[1..], a);
    }
  }

  lemma {:induction false} InHandsUpdate(ws: seq<WorkerPc>, w: nat, pc: WorkerPc, a: App)
    requires w < |ws|
    ensures InHands(ws[w := pc], a) == InHands(ws, a) + InHand(pc, a) - InHand(ws[w], a)
  {
    if w > 0 {
      InHandsUpdate(ws[1..], w - 1, pc, a);
      assert ws[w := pc][1..] == ws[1..][w - 1 := pc];
    } else {
      assert ws[w := pc][1..] == ws[1..];
    }
  }

  lemma {:induction false} InHandsIdle(ws: seq<WorkerPc>, a: App)
    requires forall w :: 0 <= w < |ws| ==> ws[w].Idle?
    ensures InHands(ws, a) == 0
  {
    if ws != [] {
      InHandsIdle(ws[1..], a);
    }
  }

  /** Each worker holding `a` counts separately. */
  lemma {:induction false} InHandsCounts(ws: seq<WorkerPc>, v: nat, w: nat, a: App)
    requires v <= w < |ws| && InHand(ws[v], a) == InHand(ws[w], a) == 1
    ensures InHands(ws, a) >= if v == w then 1 else 2
  {
    if v > 0 {
      InHandsCounts(ws[1..], v - 1, w - 1, a);
    } else if w > 0 {
      InHandsCounts(ws[1..], w - 1, w - 1, a);
    }
  }

  /** A worker that fails TryLock drops its application. */
  ghost predicate Skips(s: State, l: Label, a: App)
    requires Can(s, l)
  {
    l.TryLock? && s.workers[l.w].app == a && s.workers[l.w].lock in s.held
  }

  /** Steps after which one occurrence of `a` fewer is in flight. */
  ghost predicate Lands(s: State, l: Label, a: App)
    requires Can(s, l)
  {
    || (l.Retry? && s.scheduler.app == a)
    || (l.Reschedule? && s.workers[l.w].app == a)
    || Skips(s, l, a)
  }

  lemma FlightWorkerStep(s: State, l: Label, a: App)
    requires Can(s, l) && (l.Take? || l.GetLock? || l.TryLock? || l.Unlock? || l.Reschedule?)
    ensures Flight(s, a) == Flight(Do(s, l), a) + if Lands(s, l, a) then 1 else 0
  {
    var pc := Do(s, l).workers[l.w];
    InHandsUpdate(s.workers, l.w, pc, a);
  }

  lemma FlightCollect(s: State, l: Label, a: App)
    requires Can(s, l) && l.Collect?
    ensures Flight(Do(s, l), a) == Flight(s, a) + if a in l.due then 1 else 0
  {
    CountIn(l.due, a);
  }

  lemma FlightOffer(s: State, l: Label, a: App)
    requires Can(s, l) && l.Offer?
    ensures Flight(Do(s, l), a) == Flight(s, a)
  {
    var due := s.scheduler.due;
    OfferCounts(due, s.workQueue, a);
    assert DueNames(s.scheduler) == due;
    if |s.workQueue| < s.capacity {
      assert Do(s, l).workQueue == s.workQueue + [due[0]] && DueNames(Do(s, l).scheduler) == due[1..];
    } else {
      assert Do(s, l).workQueue == s.workQueue && DueNames(Do(s, l).scheduler) == [due[0]] + due[1..];
    }
  }

  lemma {:induction false} OfferCounts(due: seq<App>, queue: seq<App>, a: App)
    requires due != []
    ensures Count(due[1..], a) + Count(queue + [due[0]], a) == Count(due, a) + Count(queue, a)
    ensures [due[0]] + due[1..] == due
  {
    CountAppend(queue, due[0], a);
    CountCons(due[0], due[1..], a);
    assert [due[0]] + due[1..] == due;
  }

  lemma FlightRetry(s: State, l: Label, a: App)
    requires Can(s, l) && l.Retry?
    ensures Flight(Do(s, l), a) == Flight(s, a) - if Lands(s, l, a) then 1 else 0
  {
    CountCons(s.scheduler.app, s.scheduler.rest, a);
  }

  lemma CountCons(b: App, rest: seq<App>, a: App)
    ensures Count([b] + rest, a) == (if a == b then 1 else 0) + Count(rest, a)
  {
    assert ([b] + rest)[1..] == rest;
  }

  /** Names enter the flight only in Collect and leave it only by landing. */
  lemma FlightStep(s: State, l: Label, a: App)
    requires Can(s, l)
    ensures Flight(Do(s, l), a) ==
            Flight(s, a) + (if l.Collect? && a in l.due then 1 else 0) - if Lands(s, l, a) then 1 else 0
  {
    if l.Take? || l.GetLock? || l.TryLock? || l.Unlock? || l.Reschedule? {
      FlightWorkerStep(s, l, a);
    } else if l.Collect? {
      FlightCollect(s, l, a);
    } else if l.Offer? {
      FlightOffer(s, l, a);
    } else if l.Retry? {
      FlightRetry(s, l, a);
    }
  }

  // ----- at most one place, and always flagged -----

  ghost predicate AtMostOnce(s: State, a: App) {
    && Flight(s, a) <= 1
    && (Flight(s, a) > 0 ==> Flagged(s.queued, a))
  }

  /** Only Collect, Retry, Reschedule and RemoveApp touch a flag. */
  lemma FlagStep(s: State, l: Label, a: App)
    requires Can(s, l)
    ensures Flagged(Do(s, l).queued, a) <==>
            || (l.Collect? && a in l.due)
            || (Flagged(s.queued, a) && l != RemoveSchedule(a) && !(Lands(s, l, a) && !l.TryLock?))
  {
    if l.Collect? {
      MarkFlags(s.queued, l.due, a);
    }
  }

  /** Every removal of `a` from the schedule happens while the name is nowhere in flight. */
  ghost predicate RemovesIdle(s: State, run: seq<Label>, a: App)
    requires Legal(s, run)
    decreases |run|
  {
    run == [] ||
    ((run[0] == RemoveSchedule(a) ==> Flight(s, a) == 0) && RemovesIdle(Do(s, run[0]), run[1..], a))
  }

  lemma AtMostOnceStep(s: State, l: Label, a: App)
    requires Can(s, l) && (l == RemoveSchedule(a) ==> Flight(s, a) == 0)
    requires AtMostOnce(s, a)
    ensures AtMostOnce(Do(s, l), a)
  {
    FlightStep(s, l, a);
    FlagStep(s, l, a);
  }

  /** Two workers never hold the same application. */
  ghost predicate OneWorkerEach(s: State, a: App) {
    forall v, w :: 0 <= v < w < |s.workers| ==> InHand(s.workers[v], a) + InHand(s.workers[w], a) <= 1
  }

  /** A removal keeps the invariant exactly when the name is nowhere in flight. */
  lemma RemoveKeepsIffIdle(s: State, a: App)
    requires AtMostOnce(s, a)
    ensures AtMostOnce(Do(s, RemoveSchedule(a)), a) <==> Flight(s, a) == 0
  {
    FlightStep(s, RemoveSchedule(a), a);
    FlagStep(s, RemoveSchedule(a), a);
  }

  /**
   * In every run whose removals of `a` all happen while it is nowhere in
   * flight, the name occurs at most once across due list, queue and hands, it is
   * flagged whenever it occurs, and no two workers hold it.
   */
  lemma {:induction false} AtMostOnceAlways(s: State, run: seq<Label>, a: App)
    requires Legal(s, run) && RemovesIdle(s, run, a)
    requires Init(s) || AtMostOnce(s, a)
    ensures AtMostOnce(Exec(s, run), a) && OneWorkerEach(Exec(s, run), a)
    decreases |run|
  {
    if Init(s) {
      InHandsIdle(s.workers, a);
    }
    if run == [] {
      forall v, w | 0 <= v < w < |s.workers|
        ensures InHand(s.workers[v], a) + InHand(s.workers[w], a) <= 1
      {
        if InHand(s.workers[v], a) == InHand(s.workers[w], a) == 1 {
          InHandsCounts(s.workers, v, w, a);
        }
      }
    } else {
      AtMostOnceStep(s, run[0], a);
      AtMostOnceAlways(Do(s, run[0]), run[1..], a);
    }
  }

  // ----- lost wake-ups: a flag without a flight -----

  /** The scheduler believes `a` is queued, but it is nowhere. */
  ghost predicate Stuck(s: State, a: App) {
    Flagged(s.queued, a) && Flight(s, a) == 0
  }

  ghost predicate SkippedIn(s: State, run: seq<Label>, a: App)
    requires Legal(s, run)
    decreases |run|
  {
    run != [] && (Skips(s, run[0], a) || SkippedIn(Do(s, run[0]), run[1..], a))
  }

  /** Without a skip of `a`, a flagged application really is in flight; removals do not matter. */
  lemma {:induction false} FlaggedIsInFlight(s: State, run: seq<Label>, a: App)
    requires Legal(s, run) && !SkippedIn(s, run, a)
    requires !Stuck(s, a)
    ensures !Stuck(Exec(s, run), a)
    decreases |run|
  {
    if run != [] {
      FlightStep(s, run[0], a);
      FlagStep(s, run[0], a);
      FlaggedIsInFlight(Do(s, run[0]), run[1..], a);
    }
  }

  /**
   * After every run without a skip of `a`, if `a` is scheduled it is in flight or
   * nextWakeTime sees it: the scheduler does not sleep past its time.
   */
  lemma ScheduledIsSeen(s: State, run: seq<Label>, a: App, t: Time)
    requires Legal(s, run) && !SkippedIn(s, run, a) && (Init(s) || !Stuck(s, a))
    requires a in Exec(s, run).schedule && IsNextWake(Exec(s, run).schedule, Exec(s, run).queued, t)
    ensures Flight(Exec(s, run), a) > 0 || t <= Exec(s, run).schedule[a]
  {
    FlaggedIsInFlight(s, run, a);
  }

  /** A stuck application, though scheduled, has no say in when the scheduler wakes, in any later state. */
  lemma StuckIsUnseen(s: State, run: seq<Label>, a: App, t: Time)
    requires Legal(s, run) && RemoveSchedule(a) !in run && Stuck(s, a)
    ensures var u := Exec(s, run);
            IsNextWake(u.schedule, u.queued, t) <==> IsNextWake(u.schedule - {a}, u.queued, t)
  {
    StuckForever(s, run, a);
    var u := Exec(s, run);
    assert forall b :: b in u.schedule && !Flagged(u.queued, b) <==> b in u.schedule - {a} && !Flagged(u.queued, b);
  }

  /** Once stuck, no scheduler, trigger, worker or AddApp step brings the application back. */
  lemma {:induction false} StuckForever(s: State, run: seq<Label>, a: App)
    requires Legal(s, run) && RemoveSchedule(a) !in run
    requires Stuck(s, a)
    ensures Stuck(Exec(s, run), a)
    decreases |run|
  {
    if run != [] {
      FlightStep(s, run[0], a);
      FlagStep(s, run[0], a);
      StuckForever(Do(s, run[0]), run[1..], a);
    }
  }

  /** Some worker skipped `a`, and `a` was not removed from the schedule after that. */
  ghost predicate SkippedSince(s: State, run: seq<Label>, a: App)
    requires Legal(s, run)
    decreases |run|
  {
    run != [] && ((Skips(s, run[0], a) && RemoveSchedule(a) !in run[1..]) || SkippedSince(Do(s, run[0]), run[1..], a))
  }

  lemma StuckStep(s: State, l: Label, a: App)
    requires Can(s, l) && AtMostOnce(s, a)
    ensures Stuck(Do(s, l), a) <==> Skips(s, l, a) || (Stuck(s, a) && l != RemoveSchedule(a))
  {
    FlightStep(s, l, a);
    FlagStep(s, l, a);
    if Skips(s, l, a) {
      InHandsCounts(s.workers, l.w, l.w, a);
    }
  }

  lemma {:induction false} StuckAfter(s: State, run: seq<Label>, a: App)
    requires Legal(s, run) && AtMostOnce(s, a) && RemovesIdle(s, run, a)
    ensures Stuck(Exec(s, run), a) <==> SkippedSince(s, run, a) || (Stuck(s, a) && RemoveSchedule(a) !in run)
    decreases |run|
  {
    if run != [] {
      var l, rest := run[0], run[1..];
      assert run == [l] + rest;
      AtMostOnceStep(s, l, a);
      StuckStep(s, l, a);
      StuckAfter(Do(s, l), rest, a);
    }
  }

  /**
   * In every run whose removals of `a` happen while it is nowhere in flight, the
   * application ends up flagged but nowhere in flight exactly when some worker
   * failed TryLock on it and it was not removed since.
   */
  lemma StuckIffSkipped(s: State, run: seq<Label>, a: App)
    requires Legal(s, run) && RemovesIdle(s, run, a)
    requires Init(s) || (AtMostOnce(s, a) && !Stuck(s, a))
    ensures Stuck(Exec(s, run), a) <==> SkippedSince(s, run, a)
  {
    if Init(s) {
      InHandsIdle(s.workers, a);
    }
    StuckAfter(s, run, a);
  }

  // ----- times are kept -----

  /** `a` waits for the scheduler, and its time has come by `later`. */
  ghost predicate Due(s: State, a: App, later: Time) {
    a in s.schedule && s.schedule[a] <= later && !Flagged(s.queued, a)
  }

  /** The step gives `a` a new time while it is not in flight: a trigger or an AddApp. */
  ghost predicate Sets(s: State, l: Label, a: App, t: Time)
    requires Can(s, l)
  {
    (l.TakeTrigger? && s.trigger[0] == a && t == l.now) || l == Add(a, t)
  }

  /** Every trigger or AddApp of `a` in the run is made at `later` or before. */
  ghost predicate SetUpTo(s: State, run: seq<Label>, a: App, later: Time)
    requires Legal(s, run)
    decreases |run|
  {
    run == [] ||
    ((forall t :: Sets(s, run[0], a, t) ==> t <= later) && SetUpTo(Do(s, run[0]), run[1..], a, later))
  }

  ghost predicate CollectedIn(run: seq<Label>, a: App) {
    exists i :: 0 <= i < |run| && run[i].Collect? && a in run[i].due
  }

  /** Only a trigger, an AddApp, a full queue or a finished reconcile sets the time of `a`, and each to what it says. */
  lemma TimeStep(s: State, l: Label, a: App)
    requires Can(s, l) && l != RemoveSchedule(a)
    ensures a in s.schedule ==> a in Do(s, l).schedule
    ensures forall t :: Sets(s, l, a, t) ==> a in Do(s, l).schedule && Do(s, l).schedule[a] == t
    ensures l.Reschedule? && s.workers[l.w].app == a ==> a in Do(s, l).schedule && Do(s, l).schedule[a] == l.next
    ensures l.Retry? && s.scheduler.app == a ==> a in Do(s, l).schedule && Do(s, l).schedule[a] == l.now + 1
    ensures a in s.schedule && !(l.TakeTrigger? && s.trigger[0] == a) && !(l.Add? && l.a == a) && !Lands(s, l, a) ==>
              Do(s, l).schedule[a] == s.schedule[a]
  {
  }

  /** Nothing lands that is not in flight. */
  lemma {:induction false} LandsFromFlight(s: State, l: Label, a: App)
    requires Can(s, l) && Lands(s, l, a)
    ensures Flight(s, a) > 0
  {
    if l.Retry? {
      CountCons(s.scheduler.app, s.scheduler.rest, a);
    } else {
      InHandsCounts(s.workers, l.w, l.w, a);
    }
  }

  lemma DueStep(s: State, l: Label, a: App, later: Time)
    requires Can(s, l) && AtMostOnce(s, a) && Due(s, a, later) && l != RemoveSchedule(a)
    requires forall t :: Sets(s, l, a, t) ==> t <= later
    ensures (l.Collect? && a in l.due) || Due(Do(s, l), a, later)
  {
    FlagStep(s, l, a);
    TimeStep(s, l, a);
    if Lands(s, l, a) {
      LandsFromFlight(s, l, a);
    }
    if l.TakeTrigger? && s.trigger[0] == a {
      assert Sets(s, l, a, l.now);
    }
    if l.Add? && l.a == a {
      assert Sets(s, l, a, l.now);
    }
  }

  lemma {:induction false} DueUntilCollected(s: State, run: seq<Label>, a: App, later: Time)
    requires Legal(s, run) && AtMostOnce(s, a) && Due(s, a, later)
    requires RemoveSchedule(a) !in run && SetUpTo(s, run, a, later)
    ensures CollectedIn(run, a) || Due(Exec(s, run), a, later)
    decreases |run|
  {
    if run != [] {
      var l, rest := run[0], run[1..];
      DueStep(s, l, a, later);
      if !(l.Collect? && a in l.due) {
        AtMostOnceStep(s, l, a);
        DueUntilCollected(Do(s, l), rest, a, later);
        if CollectedIn(rest, a) {
          var i :| 0 <= i < |rest| && rest[i].Collect? && a in rest[i].due;
          assert run[i + 1] == rest[i];
        }
      }
    }
  }

  /**
   * Whatever happens in between, short of its removal, an application that is
   * due has been collected by the next collection at `later` at the latest.
   */
  lemma DueIsServed(s: State, run: seq<Label>, a: App, later: Time, due: seq<App>)
    requires Legal(s, run) && AtMostOnce(s, a) && Due(s, a, later)
    requires RemoveSchedule(a) !in run && SetUpTo(s, run, a, later)
    requires Can(Exec(s, run), Collect(later, due))
    ensures CollectedIn(run + [Collect(later, due)], a)
  {
    DueUntilCollected(s, run, a, later);
    var longer := run + [Collect(later, due)];
    if CollectedIn(run, a) {
      var i :| 0 <= i < |run| && run[i].Collect? && a in run[i].due;
      assert longer[i] == run[i];
    } else {
      assert longer[|run|] == Collect(later, due) && a in due;
    }
  }

  /** The step leaves `a` out of flight with the time `t`. */
  ghost predicate GivesTime(s: State, l: Label, a: App, t: Time)
    requires Can(s, l)
  {
    || (Sets(s, l, a, t) && !Flagged(s.queued, a))
    || (l.Reschedule? && s.workers[l.w].app == a && t == l.next)
    || (l.Retry? && s.scheduler.app == a && t == l.now + 1)
  }

  /**
   * A trigger or an AddApp of an application that is not queued, the time a
   * finished reconcile is given, and a second after a full queue: from that
   * time on the application is due.
   */
  lemma BecomesDue(s: State, l: Label, a: App, t: Time, later: Time)
    requires Can(s, l) && t <= later
    requires GivesTime(s, l, a, t)
    ensures Due(Do(s, l), a, later)
  {
    TimeStep(s, l, a);
    FlagStep(s, l, a);
  }

  /**
   * In every run: a trigger, an AddApp, a reschedule or a retry of an application at `t`
   * is followed, by the first collection at or after `t` at the latest, by
   * the application being collected.
   */
  lemma TimeIsServed(s: State, l: Label, a: App, t: Time, run: seq<Label>, later: Time, due: seq<App>)
    requires Can(s, l) && AtMostOnce(s, a) && t <= later
    requires GivesTime(s, l, a, t)
    requires Legal(Do(s, l), run) && RemoveSchedule(a) !in run && SetUpTo(Do(s, l), run, a, later)
    requires Can(Exec(Do(s, l), run), Collect(later, due))
    ensures CollectedIn(run + [Collect(later, due)], a)
  {
    BecomesDue(s, l, a, t, later);
    AtMostOnceStep(s, l, a);
    DueIsServed(Do(s, l), run, a, later, due);
  }

  /** No trigger or AddApp of `a` is taken in the run, and every collection is made before `t`. */
  ghost predicate EarlierThan(s: State, run: seq<Label>, a: App, t: Time)
    requires Legal(s, run)
    decreases |run|
  {
    run == [] ||
    (!(run[0].TakeTrigger? && s.trigger[0] == a) && !(run[0].Add? && run[0].a == a)
     && (run[0].Collect? ==> run[0].now < t) && EarlierThan(Do(s, run[0]), run[1..], a, t))
  }

  /** Nor is it collected before its time: it keeps the time it has until a collection at or after it. */
  lemma {:induction false} NotBeforeItsTime(s: State, run: seq<Label>, a: App, t: Time)
    requires Legal(s, run) && AtMostOnce(s, a) && a in s.schedule && s.schedule[a] == t && !Flagged(s.queued, a)
    requires RemoveSchedule(a) !in run && EarlierThan(s, run, a, t)
    ensures !CollectedIn(run, a)
    ensures a in Exec(s, run).schedule && Exec(s, run).schedule[a] == t && !Flagged(Exec(s, run).queued, a)
    decreases |run|
  {
    if run != [] {
      var l, rest := run[0], run[1..];
      TimeStep(s, l, a);
      FlagStep(s, l, a);
      if Lands(s, l, a) {
        LandsFromFlight(s, l, a);
      }
      AtMostOnceStep(s, l, a);
      NotBeforeItsTime(Do(s, l), rest, a, t);
      forall i | 0 <= i < |run| && run[i].Collect? ensures a !in run[i].due {
        assert i > 0 ==> rest[i - 1] == run[i];
      }
    }
  }

  // ----- mutual exclusion -----

  /** The mutex a client has looked up, with the application it stands for. */
  ghost predicate Has(s: State, x: Client, a: App, lock: nat) {
    match x
    case Worker(w) =>
      w < |s.workers| && (s.workers[w] == Trying(a, lock) || s.workers[w] == Running(a, lock))
    case Caller(c) =>
      c in s.callers && (s.callers[c] == Blocked(a, lock) || s.callers[c] == Inside(a, lock))
  }

  /** The client is between Lock and Unlock, reconciling or rolling back `a`. */
  ghost predicate Reconciles(s: State, x: Client, a: App, lock: nat) {
    match x
    case Worker(w) => w < |s.workers| && s.workers[w] == Running(a, lock)
    case Caller(c) => c in s.callers && s.callers[c] == Inside(a, lock)
  }

  /** A mutex is locked exactly while its owner, and nobody else, is inside. */
  ghost predicate MutexInvariant(s: State) {
    && (forall x: Client, a: App, k: nat :: Reconciles(s, x, a, k) ==> k in s.held && s.held[k] == x)
    && (forall k: nat :: k in s.held ==> exists a: App :: Reconciles(s, s.held[k], a, k))
  }

  /** Mutexes are fresh when made and registered for one application each. */
  ghost predicate NamesInvariant(s: State) {
    && (forall a :: a in s.locks ==> s.locks[a] < s.nextLock)
    && (forall a, b :: a in s.locks && b in s.locks && s.locks[a] == s.locks[b] ==> a == b)
    && (forall x: Client, a: App, k: nat :: Has(s, x, a, k) ==> k < s.nextLock)
    && (forall x: Client, a: App, k: nat :: Has(s, x, a, k) ==> forall b :: b in s.locks && s.locks[b] == k ==> a == b)
  }

  /** Every client working on `a` uses the mutex currently registered for `a`. */
  ghost predicate LockCurrent(s: State, a: App) {
    forall x: Client, k: nat :: Has(s, x, a, k) ==> a in s.locks && s.locks[a] == k
  }

  ghost predicate Enters(s: State, l: Label, x: Client, a: App, k: nat) {
    || (l.TryLock? && x == Worker(l.w) && Has(s, x, a, k) && k !in s.held)
    || (l.Acquire? && x == Caller(l.c) && Has(s, x, a, k))
  }

  ghost predicate Leaves(l: Label, x: Client) {
    (l.Unlock? && x == Worker(l.w)) || (l.Release? && x == Caller(l.c))
  }

  predicate WorkerStep(l: Label) {
    l.Take? || l.GetLock? || l.TryLock? || l.Unlock? || l.Reschedule?
  }

  predicate CallerStep(l: Label) {
    l.Call? || l.Acquire? || l.Release?
  }

  lemma ClientsKept(s: State, l: Label)
    requires Can(s, l) && !WorkerStep(l) && !CallerStep(l)
    ensures Do(s, l).workers == s.workers && Do(s, l).callers == s.callers
  {
  }

  lemma ReconcilesWorker(s: State, l: Label, x: Client, a: App, k: nat)
    requires Can(s, l) && WorkerStep(l)
    ensures Reconciles(Do(s, l), x, a, k) <==> Enters(s, l, x, a, k) || (Reconciles(s, x, a, k) && !Leaves(l, x))
  {
  }

  lemma ReconcilesCaller(s: State, l: Label, x: Client, a: App, k: nat)
    requires Can(s, l) && CallerStep(l)
    ensures Reconciles(Do(s, l), x, a, k) <==> Enters(s, l, x, a, k) || (Reconciles(s, x, a, k) && !Leaves(l, x))
  {
  }

  lemma ReconcilesStep(s: State, l: Label, x: Client, a: App, k: nat)
    requires Can(s, l)
    ensures Reconciles(Do(s, l), x, a, k) <==> Enters(s, l, x, a, k) || (Reconciles(s, x, a, k) && !Leaves(l, x))
  {
    if WorkerStep(l) {
      ReconcilesWorker(s, l, x, a, k);
    } else if CallerStep(l) {
      ReconcilesCaller(s, l, x, a, k);
    } else {
      ClientsKept(s, l);
    }
  }

  predicate LockLabel(l: Label) {
    l.TryLock? || l.Acquire? || l.Unlock? || l.Release?
  }

  lemma HeldStep(s: State, l: Label)
    requires Can(s, l) && !LockLabel(l)
    ensures Do(s, l).held == s.held
  {
  }

  lemma MutexOwners(s: State, l: Label, x: Client, a: App, k: nat)
    requires Can(s, l) && MutexInvariant(s) && Reconciles(Do(s, l), x, a, k)
    ensures k in Do(s, l).held && Do(s, l).held[k] == x
  {
    ReconcilesStep(s, l, x, a, k);
    if !LockLabel(l) {
      HeldStep(s, l);
    }
    if l.Unlock? {
      assert Reconciles(s, Worker(l.w), s.workers[l.w].app, s.workers[l.w].lock);
    } else if l.Release? {
      assert Reconciles(s, Caller(l.c), s.callers[l.c].app, s.callers[l.c].lock);
    }
  }

  /** A mutex locked before and not given up by its owner. */
  lemma MutexKept(s: State, l: Label, x: Client, k: nat)
    requires Can(s, l) && MutexInvariant(s) && k in s.held && s.held[k] == x && k in Do(s, l).held && Do(s, l).held[k] == x
    ensures exists a: App :: Reconciles(Do(s, l), x, a, k)
  {
    var a :| Reconciles(s, x, a, k);
    ReconcilesStep(s, l, x, a, k);
  }

  lemma MutexTaken(s: State, l: Label, x: Client, k: nat)
    requires Can(s, l) && k in Do(s, l).held && Do(s, l).held[k] == x && !(k in s.held && s.held[k] == x)
    ensures exists a: App :: Reconciles(Do(s, l), x, a, k)
  {
    if !LockLabel(l) {
      HeldStep(s, l);
    }
    var a := if l.TryLock? then s.workers[l.w].app else s.callers[l.c].app;
    ReconcilesStep(s, l, x, a, k);
  }

  lemma MutexHeld(s: State, l: Label, k: nat)
    requires Can(s, l) && MutexInvariant(s) && k in Do(s, l).held
    ensures exists a: App :: Reconciles(Do(s, l), Do(s, l).held[k], a, k)
  {
    var x := Do(s, l).held[k];
    if k in s.held && s.held[k] == x {
      MutexKept(s, l, x, k);
    } else {
      MutexTaken(s, l, x, k);
    }
  }

  lemma MutexStep(s: State, l: Label)
    requires Can(s, l) && MutexInvariant(s)
    ensures MutexInvariant(Do(s, l))
  {
    var t := Do(s, l);
    forall x: Client, a: App, k: nat | Reconciles(t, x, a, k) ensures k in t.held && t.held[k] == x {
      MutexOwners(s, l, x, a, k);
    }
    forall k: nat | k in t.held ensures exists a: App :: Reconciles(t, t.held[k], a, k) {
      MutexHeld(s, l, k);
    }
  }

  /** What a client newly has is the mutex registered for its application. */
  ghost predicate HasOrGets(s: State, t: State, x: Client, a: App, k: nat) {
    || Has(s, x, a, k)
    || (k == LockFor(s, a) && t.locks == WithLock(s, a).locks && t.nextLock == WithLock(s, a).nextLock)
  }

  lemma HasWorker(s: State, l: Label, x: Client, a: App, k: nat)
    requires Can(s, l) && WorkerStep(l) && Has(Do(s, l), x, a, k)
    ensures HasOrGets(s, Do(s, l), x, a, k)
  {
  }

  lemma HasCaller(s: State, l: Label, x: Client, a: App, k: nat)
    requires Can(s, l) && CallerStep(l) && Has(Do(s, l), x, a, k)
    ensures HasOrGets(s, Do(s, l), x, a, k)
  {
  }

  lemma HasStep(s: State, l: Label, x: Client, a: App, k: nat)
    requires Can(s, l) && Has(Do(s, l), x, a, k)
    ensures HasOrGets(s, Do(s, l), x, a, k)
  {
    if WorkerStep(l) {
      HasWorker(s, l, x, a, k);
    } else if CallerStep(l) {
      HasCaller(s, l, x, a, k);
    } else {
      ClientsKept(s, l);
    }
  }

  /** The registered mutexes of `t` are those of `s`, but for one removed or one made. */
  ghost predicate LocksGrow(s: State, l: Label, t: State) {
    && t.nextLock >= s.nextLock
    && (forall a :: a in t.locks && !(a in s.locks && t.locks[a] == s.locks[a]) ==>
          a !in s.locks && t.locks[a] == s.nextLock && t.nextLock == s.nextLock + 1)
    && (forall a, b :: a in t.locks && b in t.locks && a !in s.locks && b !in s.locks ==> a == b)
    && (forall a :: a in s.locks && l != RemoveLock(a) ==> a in t.locks && t.locks[a] == s.locks[a])
  }

  lemma WithLockGrows(s: State, a: App, l: Label, t: State)
    requires t.locks == WithLock(s, a).locks && t.nextLock == WithLock(s, a).nextLock
    ensures LocksGrow(s, l, t)
  {
  }

  lemma OtherLocks(s: State, l: Label, t: State)
    requires t.nextLock == s.nextLock && t.locks == if l.RemoveLock? then s.locks - {l.a} else s.locks
    ensures LocksGrow(s, l, t)
  {
  }

  lemma LocksStep(s: State, l: Label)
    requires Can(s, l)
    ensures LocksGrow(s, l, Do(s, l))
  {
    match l
    case GetLock(w) => WithLockGrows(s, s.workers[w].app, l, Do(s, l));
    case Call(_, a) => WithLockGrows(s, a, l, Do(s, l));
    case _ => OtherLocks(s, l, Do(s, l));
  }

  lemma NamesStep(s: State, l: Label)
    requires Can(s, l) && NamesInvariant(s)
    ensures NamesInvariant(Do(s, l))
  {
    var t := Do(s, l);
    LocksStep(s, l);
    forall x: Client, a: App, k: nat | Has(t, x, a, k)
      ensures k < t.nextLock && forall b :: b in t.locks && t.locks[b] == k ==> a == b
    {
      HasStep(s, l, x, a, k);
    }
  }

  /** No client has looked up a mutex for `a`. */
  ghost predicate NobodyHas(s: State, a: App) {
    forall x: Client, k: nat :: !Has(s, x, a, k)
  }

  /** Every time the mutex of `a` is dropped, no client has it. */
  ghost predicate DropsIdle(s: State, run: seq<Label>, a: App)
    requires Legal(s, run)
    decreases |run|
  {
    run == [] ||
    ((run[0] == RemoveLock(a) ==> NobodyHas(s, a)) && DropsIdle(Do(s, run[0]), run[1..], a))
  }

  lemma LockCurrentStep(s: State, l: Label, a: App)
    requires Can(s, l) && LockCurrent(s, a) && (l == RemoveLock(a) ==> NobodyHas(s, a))
    ensures LockCurrent(Do(s, l), a)
  {
    LocksStep(s, l);
    forall x: Client, k: nat | Has(Do(s, l), x, a, k)
      ensures a in Do(s, l).locks && Do(s, l).locks[a] == k
    {
      HasStep(s, l, x, a, k);
    }
  }

  /** Nobody but one client at a time reconciles or rolls back `a`. */
  ghost predicate OneReconciler(s: State, a: App) {
    forall x: Client, y: Client, j: nat, k: nat :: Reconciles(s, x, a, j) && Reconciles(s, y, a, k) ==> x == y
  }

  ghost predicate Exclusive(s: State, a: App) {
    MutexInvariant(s) && NamesInvariant(s) && LockCurrent(s, a)
  }

  lemma ExclusiveNow(s: State, a: App)
    requires Exclusive(s, a)
    ensures OneReconciler(s, a)
  {
    forall x: Client, y: Client, j: nat, k: nat | Reconciles(s, x, a, j) && Reconciles(s, y, a, k)
      ensures x == y
    {
      assert Has(s, x, a, j) && Has(s, y, a, k);
    }
  }

  /**
   * In every run that drops the mutex of `a` only while no client has it, at
   * most one reconcile or rollback of `a` is in its critical section, whatever
   * happens to other applications and their mutexes.
   */
  lemma {:induction false} ExclusionAlways(s: State, run: seq<Label>, a: App)
    requires Legal(s, run) && DropsIdle(s, run, a)
    requires Init(s) || Exclusive(s, a)
    ensures Exclusive(Exec(s, run), a) && OneReconciler(Exec(s, run), a)
    decreases |run|
  {
    if run == [] {
      ExclusiveNow(s, a);
    } else {
      MutexStep(s, run[0]);
      NamesStep(s, run[0]);
      LockCurrentStep(s, run[0], a);
      ExclusionAlways(Do(s, run[0]), run[1..], a);
    }
  }

  /**
   * A worker skips `a` only while a ReconcileNow or Rollback of that very
   * application is inside: this is the step that strands it.
   */
  lemma SkipNeedsCaller(s: State, run: seq<Label>, l: Label, a: App)
    requires Init(s) && Legal(s, run) && RemovesIdle(s, run, a) && DropsIdle(s, run, a)
    requires Can(Exec(s, run), l) && Skips(Exec(s, run), l, a)
    ensures exists c: nat, k: nat :: Reconciles(Exec(s, run), Caller(c), a, k)
  {
    var t := Exec(s, run);
    ExclusionAlways(s, run, a);
    AtMostOnceAlways(s, run, a);
    var k := t.workers[l.w].lock;
    assert Has(t, Worker(l.w), a, k);
    var x := t.held[k];
    var b :| Reconciles(t, x, b, k);
    assert Has(t, x, b, k);
    if x.Worker? {
      assert false;
    } else {
      assert Reconciles(t, Caller(x.c), a, k);
    }
  }

  lemma {:induction false} NoRemovalsIdle(s: State, run: seq<Label>, a: App)
    requires Legal(s, run) && RemoveSchedule(a) !in run
    ensures RemovesIdle(s, run, a)
    decreases |run|
  {
    if run != [] {
      NoRemovalsIdle(Do(s, run[0]), run[1..], a);
    }
  }

  lemma {:induction false} NoDropsIdle(s: State, run: seq<Label>, a: App)
    requires Legal(s, run) && RemoveLock(a) !in run
    ensures DropsIdle(s, run, a)
    decreases |run|
  {
    if run != [] {
      NoDropsIdle(Do(s, run[0]), run[1..], a);
    }
  }

  /**
   * In every interleaving without a RemoveApp of `a`: one place at most, flagged
   * whenever there, one worker at most, and one reconcile or rollback at a time.
   */
  lemma WithoutRemoveApp(s: State, run: seq<Label>, a: App)
    requires Init(s) && Legal(s, run) && RemoveSchedule(a) !in run && RemoveLock(a) !in run
    ensures AtMostOnce(Exec(s, run), a) && OneWorkerEach(Exec(s, run), a) && OneReconciler(Exec(s, run), a)
  {
    NoRemovalsIdle(s, run, a);
    NoDropsIdle(s, run, a);
    AtMostOnceAlways(s, run, a);
    ExclusionAlways(s, run, a);
  }

  // ----- what RemoveApp breaks -----

  /** Cons for runs: the shape in which concrete runs are checked. */
  lemma Then(s: State, l: Label, rest: seq<Label>)
    requires Can(s, l) && Legal(Do(s, l), rest)
    ensures Legal(s, [l] + rest) && Exec(s, [l] + rest) == Exec(Do(s, l), rest)
  {
    assert ([l] + rest)[1..] == rest;
  }

  function AfterEnter(s: State, c: nat, a: App): State {
    WithLock(s, a).(callers := s.callers[c := Inside(a, LockFor(s, a))], held := s.held[LockFor(s, a) := Caller(c)])
  }

  lemma EnterRuns(s: State, c: nat, a: App, rest: seq<Label>)
    requires c !in s.callers && LockFor(s, a) !in s.held
    requires Legal(AfterEnter(s, c, a), rest)
    ensures Legal(s, [Call(c, a)] + ([Acquire(c)] + rest))
    ensures Exec(s, [Call(c, a)] + ([Acquire(c)] + rest)) == Exec(AfterEnter(s, c, a), rest)
  {
    var s1 := Do(s, Call(c, a));
    assert s1.callers[c := Inside(a, LockFor(s, a))] == s.callers[c := Inside(a, LockFor(s, a))];
    Then(s1, Acquire(c), rest);
    Then(s, Call(c, a), [Acquire(c)] + rest);
  }

  lemma {:induction false} UnusedCaller(callers: map<nat, CallerPc>) returns (c: nat)
    ensures forall x :: x in callers ==> x < c
    decreases |callers|
  {
    c := 0;
    if callers != map[] {
      var x: nat :| x in callers;
      var rest := callers - {x};
      c := UnusedCaller(rest);
      assert forall y :: y in callers ==> y == x || y in rest;
      c := if x < c then c else x + 1;
    }
  }

  lemma HeldWereMade(s: State)
    requires MutexInvariant(s) && NamesInvariant(s)
    ensures forall k :: k in s.held ==> k < s.nextLock
  {
    forall k | k in s.held ensures k < s.nextLock {
      var b :| Reconciles(s, s.held[k], b, k);
      assert Has(s, s.held[k], b, k);
    }
  }

  /** A client already inside: after the drop another one gets in with a new mutex. */
  lemma DropThenEnter(s: State, a: App, x: Client, k: nat) returns (run: seq<Label>)
    requires Exclusive(s, a) && Reconciles(s, x, a, k)
    ensures var t := Do(s, RemoveLock(a)); Legal(t, run) && RemoveLock(a) !in run && !OneReconciler(Exec(t, run), a)
  {
    var t := Do(s, RemoveLock(a));
    var c := UnusedCaller(t.callers);
    assert LockFor(t, a) == s.nextLock;
    HeldWereMade(s);
    var u := AfterEnter(t, c, a);
    EnterRuns(t, c, a, []);
    run := [Call(c, a)] + ([Acquire(c)] + []);
    assert Reconciles(u, x, a, k) && Reconciles(u, Caller(c), a, s.nextLock) && x != Caller(c);
  }

  /** A client that has the mutex and can lock it: it does, after the drop. */
  function LockStep(x: Client): Label {
    match x
    case Worker(w) => TryLock(w)
    case Caller(c) => Acquire(c)
  }

  lemma DropThenLock(s: State, a: App, x: Client, k: nat)
    requires Can(s, LockStep(x)) && Has(s, x, a, k) && !Reconciles(s, x, a, k) && k !in s.held
    ensures var t := Do(s, RemoveLock(a));
            Can(t, LockStep(x)) && Do(t, LockStep(x)) == Do(Do(s, LockStep(x)), RemoveLock(a))
    ensures Reconciles(Do(s, LockStep(x)), x, a, k)
  {
  }

  lemma WaiterLocks(s: State, a: App, x: Client, k: nat) returns (run: seq<Label>)
    requires Exclusive(s, a) && Has(s, x, a, k) && !Reconciles(s, x, a, k) && k !in s.held
    ensures var t := Do(s, RemoveLock(a)); Legal(t, run) && RemoveLock(a) !in run && !OneReconciler(Exec(t, run), a)
  {
    var l, t := LockStep(x), Do(s, RemoveLock(a));
    assert Can(s, l);
    DropThenLock(s, a, x, k);
    var u := Do(s, l);
    MutexStep(s, l);
    NamesStep(s, l);
    LockCurrentStep(s, l, a);
    var rest := DropThenEnter(u, a, x, k);
    Then(t, l, rest);
    run := [l] + rest;
  }

  /**
   * Dropping the mutex of `a` while any client has it, inside or still before
   * the lock, can be followed by two reconciles of `a` at once.
   */
  lemma RemoveBreaksExclusion(s: State, a: App, x: Client, k: nat) returns (run: seq<Label>)
    requires Exclusive(s, a) && Has(s, x, a, k)
    ensures var t := Do(s, RemoveLock(a)); Legal(t, run) && RemoveLock(a) !in run && !OneReconciler(Exec(t, run), a)
  {
    if Reconciles(s, x, a, k) {
      run := DropThenEnter(s, a, x, k);
    } else if k in s.held {
      var y := s.held[k];
      var b :| Reconciles(s, y, b, k);
      assert Has(s, y, b, k);
      assert a == b;
      run := DropThenEnter(s, a, y, k);
    } else {
      run := WaiterLocks(s, a, x, k);
    }
  }

  /** Nothing that follows, short of another such drop, puts two reconcilers of `a` inside. */
  ghost predicate StaysExclusive(s: State, a: App) {
    forall run :: Legal(s, run) && DropsIdle(s, run, a) ==> OneReconciler(Exec(s, run), a)
  }

  /** Dropping the mutex of `a` is safe for all that follows if and only if no client has it. */
  lemma DropSafeIffIdle(s: State, a: App)
    requires Exclusive(s, a)
    ensures StaysExclusive(Do(s, RemoveLock(a)), a) <==> NobodyHas(s, a)
  {
    var l, t := RemoveLock(a), Do(s, RemoveLock(a));
    if NobodyHas(s, a) {
      MutexStep(s, l);
      NamesStep(s, l);
      LockCurrentStep(s, l, a);
      forall run | Legal(t, run) && DropsIdle(t, run, a) ensures OneReconciler(Exec(t, run), a) {
        ExclusionAlways(t, run, a);
      }
    } else {
      var x: Client, k: nat :| Has(s, x, a, k);
      var run := RemoveBreaksExclusion(s, a, x, k);
      NoDropsIdle(t, run, a);
    }
  }

  /** The names due at any time can be listed, in some order. */
  lemma {:induction false} DueList(schedule: map<App, Time>, queued: map<App, bool>, now: Time) returns (due: seq<App>)
    ensures IsDueList(schedule, queued, now, due)
    decreases |schedule|
  {
    due := [];
    if schedule != map[] {
      var b :| b in schedule;
      var rest := schedule - {b};
      due := DueList(rest, queued, now);
      assert forall y :: y in schedule <==> y == b || y in rest;
      if schedule[b] <= now && !Flagged(queued, b) {
        due := due + [b];
      }
    }
  }

  /** The due names still to be offered find room, and none of them is `a` being pushed back. */
  predicate Drainable(s: State, a: App) {
    && |s.workQueue| + |DueNames(s.scheduler)| <= s.capacity
    && (s.scheduler.Retrying? ==> s.scheduler.app != a)
    && (s.scheduler.Enqueuing? ==> s.scheduler.due != [])
  }

  /** The scheduler finishes what it is at and waits again; the name stays where it is, or moves to the queue. */
  lemma {:induction false} Drain(s: State, a: App, now: Time) returns (run: seq<Label>)
    requires Drainable(s, a)
    ensures Legal(s, run) && RemoveSchedule(a) !in run
    ensures var t := Exec(s, run);
            && (t.scheduler.Waiting? || t.scheduler.Collecting?)
            && Flight(t, a) == Flight(s, a) && (Flagged(t.queued, a) <==> Flagged(s.queued, a))
    decreases |DueNames(s.scheduler)|
  {
    if s.scheduler.Waiting? || s.scheduler.Collecting? {
      run := [];
    } else {
      var l := if s.scheduler.Enqueuing? then Offer else Retry(now);
      FlightStep(s, l, a);
      FlagStep(s, l, a);
      var t := Do(s, l);
      var rest := Drain(t, a, now);
      Then(s, l, rest);
      run := [l] + rest;
    }
  }

  /** From a scheduler about to collect, an unflagged name that is added is collected again. */
  lemma CollectAgain(s: State, a: App, now: Time) returns (run: seq<Label>)
    requires (s.scheduler.Waiting? || s.scheduler.Collecting?) && !Flagged(s.queued, a)
    ensures Legal(s, run) && RemoveSchedule(a) !in run && Flight(Exec(s, run), a) == Flight(s, a) + 1
  {
    var s1 := Do(s, Add(a, now));
    var due := DueList(s1.schedule, s1.queued, now);
    var collect := Collect(now, due);
    FlightStep(s, Add(a, now), a);
    if s.scheduler.Collecting? {
      FlightStep(s1, collect, a);
      Then(s1, collect, []);
      run := [collect] + [];
    } else {
      var s2 := Do(s1, Tick);
      FlightStep(s1, Tick, a);
      FlightStep(s2, collect, a);
      Then(s2, collect, []);
      Then(s1, Tick, [collect] + []);
      run := [Tick] + ([collect] + []);
    }
    Then(s, Add(a, now), run);
    run := [Add(a, now)] + run;
  }

  /**
   * Removing `a` while its name is in flight, in the due list, the queue or a
   * worker's hands, and adding it again at any time puts the name in flight
   * twice, if the due names still to be offered find room.
   */
  lemma RemoveBreaksAtMostOnce(s: State, a: App, now: Time) returns (run: seq<Label>)
    requires Flight(s, a) > 0 && Drainable(s, a)
    ensures var u := Do(s, RemoveSchedule(a)); Legal(u, run) && RemoveSchedule(a) !in run && Flight(Exec(u, run), a) >= 2
  {
    var u := Do(s, RemoveSchedule(a));
    FlightStep(s, RemoveSchedule(a), a);
    FlagStep(s, RemoveSchedule(a), a);
    var first := Drain(u, a, now);
    var second := CollectAgain(Exec(u, first), a, now);
    Appended(u, first, second);
    run := first + second;
  }

  lemma {:induction false} Appended(s: State, a: seq<Label>, b: seq<Label>)
    requires Legal(s, a) && Legal(Exec(s, a), b)
    ensures Legal(s, a + b) && Exec(s, a + b) == Exec(Exec(s, a), b)
    decreases |a|
  {
    if a == [] {
      assert a + b == b;
    } else {
      assert (a + b)[1..] == a[1..] + b;
      Appended(Do(s, a[0]), a[1..], b);
    }
  }
}
