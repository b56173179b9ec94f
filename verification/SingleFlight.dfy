/**
 * The two caches in front of the Docker sampler. A call of `get` is a sequence
 * of sections under the cache's mutex, with the sampler call and the wait on
 * a channel between them; any number of calls interleave.
 */
module SingleFlight {
  import opened Options

  /** Times and durations in milliseconds. */
  const HOST_STATS_TTL := 5000
  const CAPACITY_TTL := 5000
  const CAPACITY_FAILURE_TTL := 1000

  datatype Kind = Capacity | HostStats

  datatype Chan = Chan(id: nat)

  datatype Caller = Caller(id: nat)

  /** What a sampler call returns; nothing ties the two parts to each other. */
  datatype Result<V> = Result(sample: Option<V>, err: Option<string>)

  /** The guarded fields; `fetchedAt` is `None` for the zero time. The host statistics cache keeps no error. */
  datatype Cache<V> = Cache(sample: Option<V>, err: Option<string>, fetchedAt: Option<int>, wait: Option<Chan>)

  // ----- the two sections under the mutex -----

  predicate Valid<V>(kind: Kind, c: Cache<V>, now: int) {
    c.fetchedAt.Some? &&
    var age := now - c.fetchedAt.value;
    match kind
    case Capacity => (c.err.None? && age < CAPACITY_TTL) || (c.err.Some? && age < CAPACITY_FAILURE_TTL)
    case HostStats => c.sample.Some? && age < HOST_STATS_TTL
  }

  datatype Outcome<V> = Cached(result: Result<V>) | MustFetch | MustWait(on: Chan)

  function Looked<V>(kind: Kind, c: Cache<V>, now: int): Outcome<V> {
    if Valid(kind, c, now) then Cached(Result(c.sample, if kind.Capacity? then c.err else None))
    else if c.wait.None? then MustFetch
    else MustWait(c.wait.value)
  }

  function Stored<V>(kind: Kind, c: Cache<V>, now: int, r: Result<V>): Cache<V> {
    match kind
    case Capacity => Cache(r.sample, r.err, Some(now), None)
    case HostStats =>
      if r.err.None? then c.(sample := r.sample, fetchedAt := Some(now), wait := None) else c.(wait := None)
  }

  class CapacityCache<V(==)> {
    var sample: Option<V>
    var err: Option<string>
    var fetchedAt: Option<int>
    var wait: Option<Chan>

    ghost function View(): Cache<V> reads this { Cache(sample, err, fetchedAt, wait) }

    constructor ()
      ensures View() == Cache(None, None, None, None)
    {
      sample, err, fetchedAt, wait := None, None, None, None;
    }

    /** The section that opens each turn of the loop; `made` is the channel it would make. */
    method Look(now: int, made: Chan) returns (o: Outcome<V>)
      modifies this
      ensures o == Looked(Capacity, old(View()), now)
      ensures View() == if o.MustFetch? then old(View()).(wait := Some(made)) else old(View())
    {
      if fetchedAt.Some? {
        var age := now - fetchedAt.value;
        if (err.None? && age < CAPACITY_TTL) || (err.Some? && age < CAPACITY_FAILURE_TTL) {
          return Cached(Result(sample, err));
        }
      }
      if wait.None? {
        wait := Some(made);
        return MustFetch;
      }
      return MustWait(wait.value);
    }

    method Publish(now: int, r: Result<V>)
      modifies this
      ensures View() == Stored(Capacity, old(View()), now, r)
    {
      sample, err, fetchedAt, wait := r.sample, r.err, Some(now), None;
    }
  }

  class HostStatsCache<V(==)> {
    var stats: Option<V>
    var fetchedAt: Option<int>
    var wait: Option<Chan>

    ghost function View(): Cache<V> reads this { Cache(stats, None, fetchedAt, wait) }

    constructor ()
      ensures View() == Cache(None, None, None, None)
    {
      stats, fetchedAt, wait := None, None, None;
    }

    method Look(now: int, made: Chan) returns (o: Outcome<V>)
      modifies this
      ensures o == Looked(HostStats, old(View()), now)
      ensures View() == if o.MustFetch? then old(View()).(wait := Some(made)) else old(View())
    {
      if stats.Some? && fetchedAt.Some? && now - fetchedAt.value < HOST_STATS_TTL {
        return Cached(Result(stats, None));
      }
      if wait.None? {
        wait := Some(made);
        return MustFetch;
      }
      return MustWait(wait.value);
    }

    method Publish(now: int, r: Result<V>)
      modifies this
      ensures View() == Stored(HostStats, old(View()), now, r)
    {
      if r.err.None? {
        stats := r.sample;
        fetchedAt := Some(now);
      }
      wait := None;
    }
  }

  // ----- interleaved callers -----

  datatype PC<V> =
    | Start
    | Waiting(on: Chan)
    | Fetching(own: Chan)
    | Done(answer: Option<Result<V>>)

  datatype State<V> = State(cache: Cache<V>, pcs: map<Caller, PC<V>>, closed: set<Chan>, next: nat, clock: int)

  datatype Step<V> =
    | Arrive(c: Caller)
    | Enter(c: Caller, now: int)
    | Publish(c: Caller, now: int, result: Result<V>)
    | Wake(c: Caller)
    | Cancel(c: Caller)

  function Init<V>(): State<V> {
    State(Cache(None, None, None, None), map[], {}, 0, 0)
  }

  /** Go's clock readings are monotonic, and both are taken under the mutex. */
  predicate Can<V>(s: State<V>, e: Step<V>) {
    match e
    case Arrive(c) => c !in s.pcs
    case Enter(c, now) => c in s.pcs && s.pcs[c].Start? && s.clock <= now
    case Publish(c, now, _) => c in s.pcs && s.pcs[c].Fetching? && s.clock <= now
    case Wake(c) => c in s.pcs && s.pcs[c].Waiting? && s.pcs[c].on in s.closed
    case Cancel(c) => c in s.pcs && s.pcs[c].Waiting?
  }

  function Entered<V>(kind: Kind, s: State<V>, c: Caller, now: int): State<V> {
    match Looked(kind, s.cache, now)
    case Cached(r) => s.(pcs := s.pcs[c := Done(Some(r))], clock := now)
    case MustFetch =>
      s.(cache := s.cache.(wait := Some(Chan(s.next))), pcs := s.pcs[c := Fetching(Chan(s.next))], next := s.next + 1, clock := now)
    case MustWait(ch) => s.(pcs := s.pcs[c := Waiting(ch)], clock := now)
  }

  function Do<V>(kind: Kind, s: State<V>, e: Step<V>): State<V>
    requires Can(s, e)
  {
    match e
    case Arrive(c) => s.(pcs := s.pcs[c := Start])
    case Enter(c, now) => Entered(kind, s, c, now)
    case Publish(c, now, r) =>
      State(Stored(kind, s.cache, now, r), s.pcs[c := Done(Some(r))], s.closed + {s.pcs[c].own}, s.next, now)
    case Wake(c) => s.(pcs := s.pcs[c := Start])
    case Cancel(c) => s.(pcs := s.pcs[c := Done(None)])
  }

  predicate Legal<V>(kind: Kind, run: seq<Step<V>>)
    decreases |run|, 0
  {
    run == [] || var k := |run| - 1; Legal(kind, run[..k]) && Can(Exec(kind, run[..k]), run[k])
  }

  function Exec<V>(kind: Kind, run: seq<Step<V>>): State<V>
    requires Legal(kind, run)
    decreases |run|, 1
  {
    if run == [] then Init() else var k := |run| - 1; Do(kind, Exec(kind, run[..k]), run[k])
  }

  /** How long a published result answers later callers. */
  function Life<V>(kind: Kind, r: Result<V>): int {
    match kind
    case Capacity => if r.err.None? then CAPACITY_TTL else CAPACITY_FAILURE_TTL
    case HostStats => if r.err.None? && r.sample.Some? then HOST_STATS_TTL else 0
  }

  /** The last publication of a run. */
  function Last<V>(run: seq<Step<V>>): Option<(int, Result<V>)> {
    if run == [] then None
    else if run[|run| - 1].Publish? then Some((run[|run| - 1].now, run[|run| - 1].result))
    else Last(run[..|run| - 1])
  }

  // ----- what every interleaving keeps -----

  /** Some caller is fetching for the channel. */
  ghost predicate BeingFetched<V>(s: State<V>, ch: Chan) {
    exists f :: f in s.pcs && s.pcs[f] == Fetching(ch)
  }

  /** `wait` is set exactly while one caller fetches, and every waiter waits on its channel or on a closed one. */
  ghost predicate Coordinated<V>(s: State<V>) {
    && (forall c :: c in s.pcs && s.pcs[c].Fetching? ==> s.cache.wait == Some(s.pcs[c].own))
    && (s.cache.wait.Some? ==> BeingFetched(s, s.cache.wait.value))
    && (forall c, d :: c in s.pcs && d in s.pcs && s.pcs[c].Fetching? && s.pcs[d].Fetching? ==> c == d)
    && (forall c :: c in s.pcs && s.pcs[c].Waiting? ==> s.pcs[c].on in s.closed || s.cache.wait == Some(s.pcs[c].on))
    && (s.cache.wait.Some? ==> s.cache.wait.value !in s.closed && s.cache.wait.value.id < s.next)
    && (forall ch :: ch in s.closed ==> ch.id < s.next)
  }

  lemma EnteredCoordinated<V>(kind: Kind, s: State<V>, c: Caller, now: int)
    requires Coordinated(s) && Can(s, Enter(c, now))
    ensures Coordinated(Entered(kind, s, c, now))
  {
    var t := Entered(kind, s, c, now);
    if Looked(kind, s.cache, now).MustFetch? {
      assert t.pcs[c] == Fetching(t.cache.wait.value);
    } else if s.cache.wait.Some? {
      var f :| f in s.pcs && s.pcs[f] == Fetching(s.cache.wait.value);
      assert t.pcs[f] == Fetching(t.cache.wait.value);
    }
  }

  lemma StepCoordinated<V>(kind: Kind, s: State<V>, e: Step<V>)
    requires Coordinated(s) && Can(s, e)
    ensures Coordinated(Do(kind, s, e))
  {
    var t := Do(kind, s, e);
    match e
    case Enter(c, now) => EnteredCoordinated(kind, s, c, now);
    case Publish(c, now, r) =>
    case _ =>
      if s.cache.wait.Some? {
        var f :| f in s.pcs && s.pcs[f] == Fetching(s.cache.wait.value);
        assert t.pcs[f] == Fetching(t.cache.wait.value);
      }
  }

  lemma {:induction false} CoordinatedAlways<V>(kind: Kind, run: seq<Step<V>>)
    requires Legal(kind, run)
    ensures Coordinated(Exec(kind, run))
  {
    if run != [] {
      var k := |run| - 1;
      CoordinatedAlways(kind, run[..k]);
      StepCoordinated(kind, Exec(kind, run[..k]), run[k]);
    }
  }

  predicate Blocked<V>(s: State<V>, c: Caller) {
    c in s.pcs && s.pcs[c].Waiting? && !Can(s, Wake(c))
  }

  /**
   * No lost wakeup: a blocked waiter is blocked on the channel of the one
   * caller that is fetching, and whenever that caller publishes, whatever it
   * publishes, the waiter can go on.
   */
  lemma NoLostWakeup<V>(kind: Kind, run: seq<Step<V>>, c: Caller)
    requires Legal(kind, run) && Blocked(Exec(kind, run), c)
    ensures BeingFetched(Exec(kind, run), Exec(kind, run).pcs[c].on)
    ensures forall f, now, r :: Can(Exec(kind, run), Publish(f, now, r)) ==>
              Can(Do(kind, Exec(kind, run), Publish(f, now, r)), Wake(c))
  {
    CoordinatedAlways(kind, run);
    var s := Exec(kind, run);
    assert s.cache.wait == Some(s.pcs[c].on);
    assert BeingFetched(s, s.cache.wait.value);
  }

  /** An open channel is never closed twice, which would panic. */
  lemma ClosesOnce<V>(kind: Kind, run: seq<Step<V>>, c: Caller, now: int, r: Result<V>)
    requires Legal(kind, run + [Publish(c, now, r)])
    ensures var s := Exec(kind, (run + [Publish(c, now, r)])[..|run|]);
            s.pcs[c].own !in s.closed && Exec(kind, run + [Publish(c, now, r)]).cache.wait.None?
  {
    CoordinatedAlways(kind, (run + [Publish(c, now, r)])[..|run|]);
  }

  // ----- what a cached answer is worth -----

  /**
   * A look at or after the present finds the cache valid exactly while the last
   * publication is younger than its life, and answers with that publication;
   * a fetch is under way only when that is over.
   */
  ghost predicate Faithful<V>(kind: Kind, s: State<V>, last: Option<(int, Result<V>)>) {
    && (last.Some? ==> last.value.0 <= s.clock)
    && (s.cache.fetchedAt.Some? ==> s.cache.fetchedAt.value <= s.clock)
    && (forall now: int {:trigger Valid(kind, s.cache, now)} :: s.clock <= now ==>
          (Valid(kind, s.cache, now) <==> last.Some? && now - last.value.0 < Life(kind, last.value.1)))
    && (forall now: int {:trigger Looked(kind, s.cache, now)} :: s.clock <= now && Valid(kind, s.cache, now) ==>
          Looked(kind, s.cache, now) == Cached(last.value.1))
    && (s.cache.wait.Some? ==> !Valid(kind, s.cache, s.clock))
  }

  lemma StepFaithful<V>(kind: Kind, s: State<V>, e: Step<V>, last: Option<(int, Result<V>)>)
    requires Coordinated(s) && Can(s, e) && Faithful(kind, s, last)
    ensures Faithful(kind, Do(kind, s, e), if e.Publish? then Some((e.now, e.result)) else last)
  {
    assert !Valid(kind, s.cache, s.clock) ==> forall now: int :: s.clock <= now ==> !Valid(kind, s.cache, now);
  }

  lemma {:induction false} FaithfulAlways<V>(kind: Kind, run: seq<Step<V>>)
    requires Legal(kind, run)
    ensures Faithful(kind, Exec(kind, run), Last(run))
  {
    if run != [] {
      var k := |run| - 1;
      FaithfulAlways(kind, run[..k]);
      CoordinatedAlways(kind, run[..k]);
      StepFaithful(kind, Exec(kind, run[..k]), run[k], Last(run[..k]));
    }
  }

  /**
   * In every run, what a caller meets on entry is settled by the trace alone:
   * the last published result while it lives, else the fetch under way, else
   * a fetch of its own.
   */
  lemma EntryFollowsTrace<V>(kind: Kind, run: seq<Step<V>>, c: Caller, now: int)
    requires Legal(kind, run) && Can(Exec(kind, run), Enter(c, now))
    ensures var s, last := Exec(kind, run), Last(run);
            var alive := last.Some? && now - last.value.0 < Life(kind, last.value.1);
            match Looked(kind, s.cache, now)
            case Cached(r) => alive && r == last.value.1
            case MustWait(ch) => !alive && BeingFetched(s, ch)
            case MustFetch => !alive && forall f :: f in s.pcs ==> !s.pcs[f].Fetching?
  {
    FaithfulAlways(kind, run);
    CoordinatedAlways(kind, run);
  }

  // ----- how often the sampler runs -----

  predicate StartsAt<V>(kind: Kind, run: seq<Step<V>>, k: nat)
    requires Legal(kind, run) && k < |run|
  {
    run[k].Enter? && Legal(kind, run[..k]) && Looked(kind, Exec(kind, run[..k]).cache, run[k].now).MustFetch?
  }

  /** Sampler starts among the steps from index `k` on. */
  function StartsSince<V>(kind: Kind, run: seq<Step<V>>, k: nat): nat
    requires Legal(kind, run)
  {
    if |run| <= k then 0
    else
      var n := |run| - 1;
      StartsSince(kind, run[..n], k) + if StartsAt(kind, run, n) then 1 else 0
  }

  /** A publication that answers nobody after it. */
  predicate Dead<V>(kind: Kind, e: Step<V>) {
    e.Publish? && Life(kind, e.result) <= 0
  }

  function DeadSince<V>(kind: Kind, run: seq<Step<V>>, k: nat): nat {
    if |run| <= k then 0
    else
      var n := |run| - 1;
      DeadSince(kind, run[..n], k) + if Dead(kind, run[n]) then 1 else 0
  }

  /** The shortest life of a publication that has one. */
  function ShortestLife(kind: Kind): nat {
    match kind
    case Capacity => CAPACITY_FAILURE_TTL
    case HostStats => HOST_STATS_TTL
  }

  lemma {:induction false} ClockMonotone<V>(kind: Kind, run: seq<Step<V>>, k: nat)
    requires Legal(kind, run) && k <= |run|
    ensures Legal(kind, run[..k]) && Exec(kind, run[..k]).clock <= Exec(kind, run).clock
  {
    if k < |run| {
      var n := |run| - 1;
      assert run[..n][..k] == run[..k];
      ClockMonotone(kind, run[..n], k);
    } else {
      assert run[..k] == run;
    }
  }

  /**
   * `n` starts since time `from`, all but `dead` of them published with a life,
   * fit one life after another before the fetch under way or the last publication.
   */
  ghost predicate Spaced<V>(kind: Kind, s: State<V>, last: Option<(int, Result<V>)>, n: nat, dead: nat, from: int) {
    n > 0 ==>
      && (s.cache.wait.None? ==> last.Some?)
      && var life := ShortestLife(kind);
         if s.cache.wait.Some? then (n - 1 - dead) * life <= s.clock - from
         else if Life(kind, last.value.1) <= 0 then (n - dead) * life <= last.value.0 - from
         else (n - 1 - dead) * life <= last.value.0 - from
  }

  lemma OneLess(n: int, life: int)
    ensures n * life == (n - 1) * life + life
  {
  }

  lemma NotPositive(n: int, life: nat)
    requires n <= 0
    ensures n * life <= 0
  {
  }

  lemma StepSpaced<V>(kind: Kind, s: State<V>, e: Step<V>, last: Option<(int, Result<V>)>, n: nat, dead: nat, from: int)
    requires Coordinated(s) && Can(s, e) && Faithful(kind, s, last) && Spaced(kind, s, last, n, dead, from) && from <= s.clock
    ensures Spaced(kind, Do(kind, s, e), if e.Publish? then Some((e.now, e.result)) else last,
                   if e.Enter? && Looked(kind, s.cache, e.now).MustFetch? then n + 1 else n,
                   if Dead(kind, e) then dead + 1 else dead, from)
  {
    OneLess(n - dead, ShortestLife(kind));
    if e.Enter? && Looked(kind, s.cache, e.now).MustFetch? {
      assert !Valid(kind, s.cache, e.now);
      if n == 0 {
        NotPositive(0 - dead, ShortestLife(kind));
      }
    }
  }

  lemma {:induction false} SpacedOn<V>(kind: Kind, pre: seq<Step<V>>, e: Step<V>, k: nat, from: int)
    requires Legal(kind, pre) && Can(Exec(kind, pre), e) && k <= |pre| && from <= Exec(kind, pre).clock
    requires Spaced(kind, Exec(kind, pre), Last(pre), StartsSince(kind, pre, k), DeadSince(kind, pre, k), from)
    ensures var run := pre + [e];
            && Legal(kind, run)
            && Spaced(kind, Exec(kind, run), Last(run), StartsSince(kind, run, k), DeadSince(kind, run, k), from)
  {
    var run := pre + [e];
    assert run[..|pre|] == pre;
    FaithfulAlways(kind, pre);
    CoordinatedAlways(kind, pre);
    StepSpaced(kind, Exec(kind, pre), e, Last(pre), StartsSince(kind, pre, k), DeadSince(kind, pre, k), from);
  }

  lemma {:induction false} StartsSpaced<V>(kind: Kind, run: seq<Step<V>>, k: nat)
    requires Legal(kind, run) && k <= |run|
    ensures Legal(kind, run[..k])
    ensures Spaced(kind, Exec(kind, run), Last(run), StartsSince(kind, run, k), DeadSince(kind, run, k), Exec(kind, run[..k]).clock)
  {
    ClockMonotone(kind, run, k);
    if k < |run| {
      var m := |run| - 1;
      var pre := run[..m];
      assert pre[..k] == run[..k] && run == pre + [run[m]];
      StartsSpaced(kind, pre, k);
      ClockMonotone(kind, pre, k);
      SpacedOn(kind, pre, run[m], k, Exec(kind, run[..k]).clock);
    }
  }

  /**
   * Over any stretch of any run, after the first start and not counting one for
   * each publication of the stretch that answers nobody, each start has cost a
   * whole life.
   */
  lemma {:induction false} StartsBound<V>(kind: Kind, run: seq<Step<V>>, k: nat)
    requires Legal(kind, run) && k <= |run|
    ensures Legal(kind, run[..k])
    ensures var n, dead := StartsSince(kind, run, k), DeadSince(kind, run, k);
            n > 0 ==> (n - 1 - dead) * ShortestLife(kind) <= Exec(kind, run).clock - Exec(kind, run[..k]).clock
  {
    StartsSpaced(kind, run, k);
    FaithfulAlways(kind, run);
    OneLess(StartsSince(kind, run, k) - DeadSince(kind, run, k), ShortestLife(kind));
  }

  lemma {:induction false} CapacityNeverDead<V>(run: seq<Step<V>>, k: nat)
    ensures DeadSince(Capacity, run, k) == 0
    decreases |run|
  {
    if |run| > k {
      CapacityNeverDead(run[..|run| - 1], k);
    }
  }

  /** Every capacity publication has a life: at most one start a second, and one more. */
  lemma {:induction false} CapacityStartsBound<V>(run: seq<Step<V>>, k: nat)
    requires Legal(Capacity, run) && k <= |run|
    ensures Legal(Capacity, run[..k])
    ensures var n := StartsSince(Capacity, run, k);
            n > 0 ==> (n - 1) * CAPACITY_FAILURE_TTL <= Exec(Capacity, run).clock - Exec(Capacity, run[..k]).clock
  {
    StartsBound(Capacity, run, k);
    CapacityNeverDead(run, k);
    assert StartsSince(Capacity, run, k) - 1 - DeadSince(Capacity, run, k) == StartsSince(Capacity, run, k) - 1;
  }

  // ----- host statistics: a failure is not remembered -----

  function Good(outcomes: seq<bool>): (n: nat)
    ensures n <= |outcomes|
  {
    if outcomes == [] then 0 else Good(outcomes[..|outcomes| - 1]) + if outcomes[|outcomes| - 1] then 1 else 0
  }

  function ResultOf<V>(ok: bool, v: V): Result<V> {
    if ok then Result(Some(v), None) else Result(None, Some("unreachable"))
  }

  /** Callers one after the other, each fetching as soon as the cache lets it, with these outcomes. */
  function Calls<V>(outcomes: seq<bool>, v: V): seq<Step<V>> {
    if outcomes == [] then []
    else
      var k := |outcomes| - 1;
      var c, now := Caller(k), Good(outcomes[..k]) * HOST_STATS_TTL;
      Calls(outcomes[..k], v) + [Arrive(c)] + [Enter(c, now)] + [Publish(c, now, ResultOf(outcomes[k], v))]
  }

  /** The run leads to `s`, with so many starts and so many dead publications. */
  ghost predicate Leads<V>(run: seq<Step<V>>, s: State<V>, starts: nat, dead: nat) {
    && Legal(HostStats, run) && Exec(HostStats, run) == s
    && StartsSince(HostStats, run, 0) == starts && DeadSince(HostStats, run, 0) == dead
  }

  lemma {:induction false} LeadsOn<V>(run: seq<Step<V>>, s: State<V>, starts: nat, dead: nat, e: Step<V>)
    requires Leads(run, s, starts, dead) && Can(s, e)
    ensures Leads(run + [e], Do(HostStats, s, e),
                  starts + (if e.Enter? && Looked(HostStats, s.cache, e.now).MustFetch? then 1 else 0),
                  dead + if Dead(HostStats, e) then 1 else 0)
  {
    assert (run + [e])[..|run|] == run;
  }

  /** The callers are done, nobody fetches, and at `now` the cache has nothing to give. */
  ghost predicate Ready<V>(s: State<V>, n: nat, now: int) {
    && s.cache.wait.None? && s.clock <= now && !Valid(HostStats, s.cache, now)
    && forall c :: c in s.pcs ==> c.id < n
  }

  function Fetch<V>(s: State<V>, n: nat, now: int): State<V> {
    State(s.cache.(wait := Some(Chan(s.next))), s.pcs[Caller(n) := Start][Caller(n) := Fetching(Chan(s.next))],
          s.closed, s.next + 1, now)
  }

  /** A caller that comes at `now` starts a fetch. */
  lemma {:induction false} StartFetch<V>(run: seq<Step<V>>, s: State<V>, starts: nat, dead: nat, n: nat, now: int)
    requires Leads(run, s, starts, dead) && Ready(s, n, now)
    ensures Leads(run + [Arrive(Caller(n))] + [Enter(Caller(n), now)], Fetch(s, n, now), starts + 1, dead)
  {
    var c := Caller(n);
    var s1 := Do(HostStats, s, Arrive(c));
    LeadsOn(run, s, starts, dead, Arrive(c));
    assert Looked(HostStats, s1.cache, now).MustFetch?;
    LeadsOn(run + [Arrive(c)], s1, starts, dead, Enter(c, now));
  }

  function Published<V>(s: State<V>, n: nat, now: int, ok: bool, v: V): State<V> {
    var t := Fetch(s, n, now);
    State(Stored(HostStats, t.cache, now, ResultOf(ok, v)), t.pcs[Caller(n) := Done(Some(ResultOf(ok, v)))],
          t.closed + {Chan(s.next)}, t.next, now)
  }

  lemma {:induction false} PublishedReady<V>(s: State<V>, n: nat, now: int, ok: bool, v: V)
    requires Ready(s, n, now)
    ensures Ready(Published(s, n, now, ok, v), n + 1, if ok then now + HOST_STATS_TTL else now)
  {
  }

  /** One more caller: it starts a fetch, and if that succeeds the next must wait a whole life. */
  lemma {:induction false} OneCall<V>(run: seq<Step<V>>, s: State<V>, starts: nat, dead: nat, n: nat, now: int, ok: bool, v: V)
    requires Leads(run, s, starts, dead) && Ready(s, n, now)
    ensures Leads(run + [Arrive(Caller(n))] + [Enter(Caller(n), now)] + [Publish(Caller(n), now, ResultOf(ok, v))],
                  Published(s, n, now, ok, v), starts + 1, dead + if ok then 0 else 1)
  {
    var c := Caller(n);
    StartFetch(run, s, starts, dead, n, now);
    LeadsOn(run + [Arrive(c)] + [Enter(c, now)], Fetch(s, n, now), starts + 1, dead, Publish(c, now, ResultOf(ok, v)));
  }

  lemma {:induction false} CallsRun<V>(outcomes: seq<bool>, v: V) returns (s: State<V>)
    ensures Leads(Calls(outcomes, v), s, |outcomes|, |outcomes| - Good(outcomes))
    ensures Ready(s, |outcomes|, Good(outcomes) * HOST_STATS_TTL)
  {
    if outcomes == [] {
      s := Init();
    } else {
      var k := |outcomes| - 1;
      var before, now := outcomes[..k], Good(outcomes[..k]) * HOST_STATS_TTL;
      var t := CallsRun(before, v);
      OneCall(Calls(before, v), t, k, k - Good(before), k, now, outcomes[k], v);
      PublishedReady(t, k, now, outcomes[k], v);
      s := Published(t, k, now, outcomes[k], v);
    }
  }

  /**
   * The bound is met by every pattern of outcomes: callers that come as early as
   * the cache lets them start one fetch each, and time passes only for the
   * successful ones. While all collections fail, any number start in an instant.
   */
  lemma HostStatsBoundIsTight<V>(outcomes: seq<bool>, v: V) returns (run: seq<Step<V>>)
    ensures Legal(HostStats, run) && StartsSince(HostStats, run, 0) == |outcomes| + 1
    ensures DeadSince(HostStats, run, 0) == |outcomes| - Good(outcomes)
    ensures (StartsSince(HostStats, run, 0) - 1 - DeadSince(HostStats, run, 0)) * HOST_STATS_TTL == Exec(HostStats, run).clock
  {
    var n, good := |outcomes|, Good(outcomes);
    var s := CallsRun(outcomes, v);
    StartFetch(Calls(outcomes, v), s, n, n - good, n, good * HOST_STATS_TTL);
    run := Calls(outcomes, v) + [Arrive(Caller(n))] + [Enter(Caller(n), good * HOST_STATS_TTL)];
  }
}
