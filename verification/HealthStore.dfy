/**
 * Application rows under concurrent writers: status updates from reconcilers,
 * manifest updates, creation and deletion, and health checks that read a row,
 * inspect Docker, and write back with a compare-and-set on updated_at.
 */
module HealthStore {
  import opened Options

  type Time = int
  datatype Name = Name(text: string)

  datatype Row = Row(
    manifest: string,
    source: string,
    syncStatus: string,
    healthStatus: string,
    lastSyncedSHA: string,
    headSHA: string,
    lastSyncTime: Option<Time>,
    lastError: string,
    servicesJSON: string,
    conditionsJSON: string,
    lastObservationTime: Option<Time>,
    lastObservedHealthStatus: string,
    updatedAt: Time)

  datatype StatusUpdate = StatusUpdate(
    syncStatus: string,
    healthStatus: string,
    lastSyncedSHA: string,
    headSHA: string,
    lastSyncTime: Option<Time>,
    lastError: Option<string>,
    servicesJSON: string,
    conditionsJSON: string)

  /** An update that sets no column: no statement is issued for it. */
  predicate Nothing(u: StatusUpdate) {
    u == StatusUpdate("", "", "", "", None, None, "", "")
  }

  function Pick(value: string, current: string): string {
    if value != "" then value else current
  }

  function Updated(r: Row, u: StatusUpdate, now: Time): Row {
    if Nothing(u) then r
    else r.(syncStatus := Pick(u.syncStatus, r.syncStatus),
            healthStatus := Pick(u.healthStatus, r.healthStatus),
            lastSyncedSHA := Pick(u.lastSyncedSHA, r.lastSyncedSHA),
            headSHA := Pick(u.headSHA, r.headSHA),
            lastSyncTime := if u.lastSyncTime.Some? then u.lastSyncTime else r.lastSyncTime,
            lastError := if u.lastError.Some? then u.lastError.value else r.lastError,
            servicesJSON := Pick(u.servicesJSON, r.servicesJSON),
            conditionsJSON := Pick(u.conditionsJSON, r.conditionsJSON),
            updatedAt := now)
  }

  function Observed(r: Row, health: string, services: string, at: Time, now: Time): Row {
    r.(healthStatus := health, lastObservedHealthStatus := health, servicesJSON := services,
       lastObservationTime := Some(at), updatedAt := now)
  }

  function NewRow(manifest: string, source: string, sync: string, health: string, now: Time): Row {
    Row(manifest, if source == "" then "api" else source, sync, health, "", "", None, "", "", "", None, "", now)
  }

  class SQLiteStore {
    var rows: map<Name, Row>

    method UpdateApplicationStatus(name: Name, u: StatusUpdate, now: Time) returns (ok: bool)
      modifies this
      ensures ok <==> Nothing(u) || name in old(rows)
      ensures rows == if name in old(rows) then old(rows)[name := Updated(old(rows)[name], u, now)] else old(rows)
    {
      if Nothing(u) {
        assert name in rows ==> rows == rows[name := rows[name]];
        return true;
      }
      if name !in rows {
        return false;
      }
      rows := rows[name := Updated(rows[name], u, now)];
      return true;
    }

    method RecordHealthObservation(name: Name, expectedUpdatedAt: Time, health: string, services: string,
                                   observedAt: Time, now: Time) returns (updated: bool)
      modifies this
      ensures updated <==> name in old(rows) && old(rows)[name].updatedAt == expectedUpdatedAt
      ensures rows == if updated then old(rows)[name := Observed(old(rows)[name], health, services, observedAt, now)]
                      else old(rows)
    {
      updated := name in rows && rows[name].updatedAt == expectedUpdatedAt;
      if updated {
        rows := rows[name := Observed(rows[name], health, services, observedAt, now)];
      }
    }

    method UpdateManifest(name: Name, manifest: string, now: Time)
      modifies this
      ensures rows == if name in old(rows) then old(rows)[name := old(rows)[name].(manifest := manifest, updatedAt := now)]
                      else old(rows)
    {
      if name in rows {
        rows := rows[name := rows[name].(manifest := manifest, updatedAt := now)];
      }
    }

    method SetApplicationSource(name: Name, source: string, now: Time)
      modifies this
      ensures rows == if name in old(rows) then old(rows)[name := old(rows)[name].(source := source, updatedAt := now)]
                      else old(rows)
    {
      if name in rows {
        rows := rows[name := rows[name].(source := source, updatedAt := now)];
      }
    }
  }

  // ----- the protocol -----

  /** A running CheckApp. */
  datatype Check =
    | Reading(name: Name, expected: Time)
    | Inspected(name: Name, expected: Time, health: string, services: string, at: Time)

  datatype Observation = Observation(name: Name, health: string, services: string, at: Time)

  /** `clock` is the present; `made` is history. */
  datatype State = State(
    rows: map<Name, Row>,
    checks: map<nat, Check>,
    clock: Time,
    made: set<Observation>)

  /**
   * A writer reads the clock before its statement reaches the database, which
   * may make it wait: `now` is that earlier reading.
   */
  datatype Label =
    | Tick(now: Time)
    | Status(n: Name, u: StatusUpdate, now: Time)
    | Manifest(n: Name, m: string, now: Time)
    | Source(n: Name, source: string, now: Time)
    | Create(n: Name, manifest: string, source: string, sync: string, health: string, now: Time)
    | Delete(n: Name)
    | Begin(c: nat, n: Name)
    | Inspect(c: nat, health: string, services: string)
    | Commit(c: nat, now: Time)
    | Abandon(c: nat)

  /** The row a label would write or remove, if any. */
  ghost predicate Touches(s: State, l: Label, n: Name) {
    match l
    case Status(m, u, _) => m == n && n in s.rows && !Nothing(u)
    case Manifest(m, _, _) => m == n && n in s.rows
    case Source(m, _, _) => m == n && n in s.rows
    case Create(m, _, _, _, _, _) => m == n
    case Delete(m) => m == n
    case Commit(c, _) => c in s.checks && s.checks[c].Inspected? && s.checks[c].name == n && Wins(s, s.checks[c])
    case _ => false
  }

  /** The guard of RecordHealthObservation's UPDATE. */
  predicate Wins(s: State, k: Check) {
    k.name in s.rows && s.rows[k.name].updatedAt == k.expected
  }

  /** Stamps are readings of the past, in no particular order; a commit reads its own after it has observed. */
  ghost predicate Timely(s: State, l: Label) {
    match l
    case Tick(now) => s.clock <= now
    case Delete(_) => true
    case Begin(_, _) => true
    case Inspect(_, _, _) => true
    case Abandon(_) => true
    case Commit(c, now) => c in s.checks && s.checks[c].Inspected? && s.checks[c].at <= now <= s.clock
    case _ => l.now <= s.clock
  }

  ghost predicate Can(s: State, l: Label) {
    && Timely(s, l)
    && match l
       case Create(n, _, _, _, _, _) => n !in s.rows
       case Begin(c, n) => c !in s.checks && n in s.rows
       case Inspect(c, _, _) => c in s.checks && s.checks[c].Reading?
       case Abandon(c) => c in s.checks
       case _ => true
  }

  function Put(s: State, n: Name, r: Row): State {
    s.(rows := s.rows[n := r])
  }

  function Do(s: State, l: Label): State
    requires Can(s, l)
  {
    match l
    case Tick(now) => s.(clock := now)
    case Status(n, u, now) => if n in s.rows && !Nothing(u) then Put(s, n, Updated(s.rows[n], u, now)) else s
    case Manifest(n, m, now) => if n in s.rows then Put(s, n, s.rows[n].(manifest := m, updatedAt := now)) else s
    case Source(n, source, now) => if n in s.rows then Put(s, n, s.rows[n].(source := source, updatedAt := now)) else s
    case Create(n, manifest, source, sync, health, now) => Put(s, n, NewRow(manifest, source, sync, health, now))
    case Delete(n) => s.(rows := s.rows - {n})
    case Begin(c, n) => s.(checks := s.checks[c := Reading(n, s.rows[n].updatedAt)])
    case Inspect(c, health, services) =>
      var Reading(n, e) := s.checks[c];
      s.(checks := s.checks[c := Inspected(n, e, health, services, s.clock)],
         made := s.made + {Observation(n, health, services, s.clock)})
    case Commit(c, now) =>
      var k := s.checks[c];
      var t := s.(checks := s.checks - {c});
      if Wins(s, k) then Put(t, k.name, Observed(s.rows[k.name], k.health, k.services, k.at, now)) else t
    case Abandon(c) => s.(checks := s.checks - {c})
  }

  ghost predicate Legal(s: State, run: seq<Label>)
    decreases |run|
  {
    run == [] || (Can(s, run[0]) && Legal(Do(s, run[0]), run[1..]))
  }

  function Exec(s: State, run: seq<Label>): State
    requires Legal(s, run)
    decreases |run|
  {
    if run == [] then s else Exec(Do(s, run[0]), run[1..])
  }

  ghost predicate Init(s: State) {
    s.rows == map[] && s.checks == map[] && s.made == {}
  }

  // ----- the invariant -----

  /** A row's observation is one that some check made. */
  ghost predicate RowFine(s: State, n: Name) {
    n in s.rows ==>
      var r := s.rows[n];
      && r.updatedAt <= s.clock
      && (r.lastObservationTime.Some? ==>
            && r.lastObservationTime.value <= s.clock
            && exists o :: o in s.made && o.name == n && o.health == r.lastObservedHealthStatus
                           && Some(o.at) == r.lastObservationTime)
  }

  ghost predicate CheckFine(s: State, k: Check) {
    && k.expected <= s.clock
    && (k.Inspected? ==>
          && k.expected <= k.at <= s.clock
          && Observation(k.name, k.health, k.services, k.at) in s.made)
  }

  ghost predicate Invariant(s: State) {
    && (forall n :: n in s.rows ==> RowFine(s, n))
    && (forall c :: c in s.checks ==> CheckFine(s, s.checks[c]))
  }

  lemma ClockStep(s: State, l: Label)
    requires Can(s, l)
    ensures s.clock <= Do(s, l).clock && s.made <= Do(s, l).made
  {
  }

  lemma CheckStep(s: State, l: Label, c: nat)
    requires Can(s, l) && Invariant(s) && c in Do(s, l).checks
    ensures CheckFine(Do(s, l), Do(s, l).checks[c])
  {
    ClockStep(s, l);
    assert c in s.checks ==> CheckFine(s, s.checks[c]);
    assert l.Begin? ==> RowFine(s, l.n);
  }

  lemma RowStep(s: State, l: Label, n: Name)
    requires Can(s, l) && Invariant(s) && n in Do(s, l).rows
    ensures RowFine(Do(s, l), n)
  {
    ClockStep(s, l);
    assert n in s.rows ==> RowFine(s, n);
    assert l.Commit? ==> CheckFine(s, s.checks[l.c]);
  }

  lemma InvariantStep(s: State, l: Label)
    requires Can(s, l) && Invariant(s)
    ensures Invariant(Do(s, l))
  {
    forall n | n in Do(s, l).rows ensures RowFine(Do(s, l), n) {
      RowStep(s, l, n);
    }
    forall c | c in Do(s, l).checks ensures CheckFine(Do(s, l), Do(s, l).checks[c]) {
      CheckStep(s, l, c);
    }
  }

  lemma {:induction false} InvariantAlways(s: State, run: seq<Label>)
    requires Legal(s, run) && (Init(s) || Invariant(s))
    ensures Invariant(Exec(s, run))
    decreases |run|
  {
    if run != [] {
      InvariantStep(s, run[0]);
      InvariantAlways(Do(s, run[0]), run[1..]);
    }
  }

  /** The stored observed status and observation time always come from one and the same inspection. */
  lemma ObservationFromOneCheck(s: State, run: seq<Label>, n: Name)
    requires Init(s) && Legal(s, run)
    requires n in Exec(s, run).rows && Exec(s, run).rows[n].lastObservationTime.Some?
    ensures var t := Exec(s, run);
            exists o :: o in t.made && o.name == n && o.health == t.rows[n].lastObservedHealthStatus
                        && Some(o.at) == t.rows[n].lastObservationTime
  {
    InvariantAlways(s, run);
    assert RowFine(Exec(s, run), n);
  }

  // ----- when a check's commit succeeds -----

  /** The timestamp a step writes. */
  function StampOf(l: Label): Option<Time> {
    match l
    case Delete(_) => None
    case Begin(_, _) => None
    case Inspect(_, _, _) => None
    case Abandon(_) => None
    case _ => Some(l.now)
  }

  /** The last step of a run that wrote, created or deleted the row, with the timestamp it left there. */
  ghost function LastTouch(s: State, run: seq<Label>, n: Name): Option<Option<Time>>
    requires Legal(s, run)
    decreases |run|
  {
    if run == [] then None
    else
      var later := LastTouch(Do(s, run[0]), run[1..], n);
      if later.Some? then later
      else if Touches(s, run[0], n) then Some(StampOf(run[0]))
      else None
  }

  function RowStamp(s: State, n: Name): Option<Time> {
    if n in s.rows then Some(s.rows[n].updatedAt) else None
  }

  lemma RowStampStep(s: State, l: Label, n: Name)
    requires Can(s, l)
    ensures RowStamp(Do(s, l), n) == if Touches(s, l, n) then StampOf(l) else RowStamp(s, n)
  {
  }

  lemma {:induction false} RowStampAfter(s: State, run: seq<Label>, n: Name)
    requires Legal(s, run)
    ensures RowStamp(Exec(s, run), n) ==
            if LastTouch(s, run, n).Some? then LastTouch(s, run, n).value else RowStamp(s, n)
    decreases |run|
  {
    if run != [] {
      RowStampStep(s, run[0], n);
      RowStampAfter(Do(s, run[0]), run[1..], n);
    }
  }

  /** The check that Begin(c, n) started is still the one under `c`. */
  ghost predicate SameCheck(run: seq<Label>, c: nat) {
    forall i :: 0 <= i < |run| ==> !(run[i].Commit? && run[i].c == c) && run[i] != Abandon(c)
  }

  lemma {:induction false} CheckKept(s: State, run: seq<Label>, c: nat)
    requires Legal(s, run) && SameCheck(run, c) && c in s.checks
    ensures c in Exec(s, run).checks
    ensures Exec(s, run).checks[c].name == s.checks[c].name
    ensures Exec(s, run).checks[c].expected == s.checks[c].expected
    decreases |run|
  {
    if run != [] {
      CheckKept(Do(s, run[0]), run[1..], c);
    }
  }

  /** Check `c` reads row `n` in `s`, other steps follow, and then it commits. */
  ghost predicate CheckRun(s: State, c: nat, n: Name, during: seq<Label>, now: Time) {
    && Can(s, Begin(c, n)) && Legal(Do(s, Begin(c, n)), during) && SameCheck(during, c)
    && Can(Exec(Do(s, Begin(c, n)), during), Commit(c, now))
  }

  ghost predicate Commits(s: State, c: nat, n: Name, during: seq<Label>, now: Time)
    requires CheckRun(s, c, n, during, now)
  {
    Touches(Exec(Do(s, Begin(c, n)), during), Commit(c, now), n)
  }

  /**
   * In whatever order the stamps arrive, the commit succeeds if and only if
   * nothing wrote, created or deleted the row since the read, or the last
   * step that did left the very timestamp the check had read.
   */
  lemma CommitIffStampBack(s: State, c: nat, n: Name, during: seq<Label>, now: Time)
    requires CheckRun(s, c, n, during, now)
    ensures Commits(s, c, n, during, now) <==>
            var last := LastTouch(Do(s, Begin(c, n)), during, n);
            last.None? || last.value == Some(s.rows[n].updatedAt)
  {
    var t := Do(s, Begin(c, n));
    RowStampAfter(t, during, n);
    CheckKept(t, during, c);
  }

  // ----- rows whose writes carry distinct timestamps -----

  /** The stamp a step leaves on the row `n`, if it writes it. */
  ghost function Stamped(s: State, l: Label, n: Name): set<Time>
    requires Can(s, l)
  {
    if Touches(s, l, n) && StampOf(l).Some? then {StampOf(l).value} else {}
  }

  /** The stamps in `used` and those the run leaves on the row `n`. */
  ghost function Stamps(s: State, run: seq<Label>, n: Name, used: set<Time>): set<Time>
    requires Legal(s, run)
    decreases |run|
  {
    if run == [] then used else Stamps(Do(s, run[0]), run[1..], n, used + Stamped(s, run[0], n))
  }

  /** No write of the row `n` repeats a stamp, of the run or of `used`. */
  ghost predicate StampsDistinct(s: State, run: seq<Label>, n: Name, used: set<Time>)
    requires Legal(s, run)
    decreases |run|
  {
    run == [] ||
    (Stamped(s, run[0], n) !! used && StampsDistinct(Do(s, run[0]), run[1..], n, used + Stamped(s, run[0], n)))
  }

  lemma {:induction false} NewStamps(s: State, run: seq<Label>, n: Name, used: set<Time>)
    requires Legal(s, run) && StampsDistinct(s, run, n, used)
    ensures var last := LastTouch(s, run, n); last.Some? && last.value.Some? ==> last.value.value !in used
    decreases |run|
  {
    if run != [] {
      NewStamps(Do(s, run[0]), run[1..], n, used + Stamped(s, run[0], n));
    }
  }

  /** The stamp a row carries is one of those written. */
  lemma {:induction false} RowStampUsed(s: State, run: seq<Label>, n: Name, used: set<Time>)
    requires Legal(s, run) && (n in s.rows ==> s.rows[n].updatedAt in used)
    ensures n in Exec(s, run).rows ==> Exec(s, run).rows[n].updatedAt in Stamps(s, run, n, used)
    decreases |run|
  {
    if run != [] {
      RowStampStep(s, run[0], n);
      RowStampUsed(Do(s, run[0]), run[1..], n, used + Stamped(s, run[0], n));
    }
  }

  /**
   * In every run in which no two writes of the row carry the same timestamp, in
   * whatever order they arrive, a check's commit succeeds if and only if nothing
   * wrote, created or deleted the row since the check read it.
   */
  lemma CommitIffUnwritten(s: State, before: seq<Label>, c: nat, n: Name, during: seq<Label>, now: Time)
    requires Init(s) && Legal(s, before) && CheckRun(Exec(s, before), c, n, during, now)
    requires StampsDistinct(Do(Exec(s, before), Begin(c, n)), during, n, Stamps(s, before, n, {}))
    ensures Commits(Exec(s, before), c, n, during, now) <==>
            LastTouch(Do(Exec(s, before), Begin(c, n)), during, n).None?
  {
    var r, used := Exec(s, before), Stamps(s, before, n, {});
    CommitIffStampBack(r, c, n, during, now);
    RowStampUsed(s, before, n, {});
    NewStamps(Do(r, Begin(c, n)), during, n, used);
  }

  // ----- the observation time -----

  ghost predicate NotEarlier(a: Option<Time>, b: Option<Time>) {
    a.Some? ==> b.Some? && a.value <= b.value
  }

  /** A check that would win has not observed before the row's own observation. */
  ghost predicate CheckCurrent(s: State, k: Check, used: set<Time>) {
    && k.expected in used
    && (k.Inspected? && Wins(s, k) ==> NotEarlier(s.rows[k.name].lastObservationTime, Some(k.at)))
  }

  /** `used` holds the stamps of the row and of the checks that read it. */
  ghost predicate Current(s: State, n: Name, used: set<Time>) {
    && (n in s.rows ==> s.rows[n].updatedAt in used)
    && (forall c :: c in s.checks && s.checks[c].name == n ==> CheckCurrent(s, s.checks[c], used))
  }

  lemma CheckCurrentStep(s: State, l: Label, n: Name, used: set<Time>, c: nat)
    requires Can(s, l) && Invariant(s) && Current(s, n, used) && Stamped(s, l, n) !! used
    requires c in Do(s, l).checks && Do(s, l).checks[c].name == n
    ensures CheckCurrent(Do(s, l), Do(s, l).checks[c], used + Stamped(s, l, n))
  {
    RowStampStep(s, l, n);
    assert n in s.rows ==> RowFine(s, n);
    if Touches(s, l, n) {
      assert c in s.checks && Do(s, l).checks[c] == s.checks[c];
    } else {
      assert n in Do(s, l).rows ==> n in s.rows && Do(s, l).rows[n] == s.rows[n];
    }
  }

  lemma CurrentStep(s: State, l: Label, n: Name, used: set<Time>)
    requires Can(s, l) && Invariant(s) && Current(s, n, used) && Stamped(s, l, n) !! used
    ensures Current(Do(s, l), n, used + Stamped(s, l, n))
    ensures n in s.rows && l != Delete(n) ==>
              n in Do(s, l).rows && NotEarlier(s.rows[n].lastObservationTime, Do(s, l).rows[n].lastObservationTime)
  {
    RowStampStep(s, l, n);
    assert l.Commit? && s.checks[l.c].name == n ==> CheckCurrent(s, s.checks[l.c], used);
    forall c | c in Do(s, l).checks && Do(s, l).checks[c].name == n
      ensures CheckCurrent(Do(s, l), Do(s, l).checks[c], used + Stamped(s, l, n))
    {
      CheckCurrentStep(s, l, n, used, c);
    }
  }

  /** The state to which a run leads from `s` before its step `i`. */
  ghost function At(s: State, run: seq<Label>, i: nat): State
    requires Legal(s, run) && i <= |run|
    decreases |run|
  {
    if i == 0 then s else At(Do(s, run[0]), run[1..], i - 1)
  }

  lemma {:induction false} MonotoneFrom(s: State, run: seq<Label>, n: Name, used: set<Time>, i: nat, j: nat)
    requires Legal(s, run) && Invariant(s) && Current(s, n, used) && StampsDistinct(s, run, n, used)
    requires i <= j <= |run| && n in At(s, run, i).rows && forall k :: i <= k < j ==> run[k] != Delete(n)
    ensures n in At(s, run, j).rows
    ensures NotEarlier(At(s, run, i).rows[n].lastObservationTime, At(s, run, j).rows[n].lastObservationTime)
    decreases |run|, i, j
  {
    if i > 0 {
      InvariantStep(s, run[0]);
      CurrentStep(s, run[0], n, used);
      MonotoneFrom(Do(s, run[0]), run[1..], n, used + Stamped(s, run[0], n), i - 1, j - 1);
    } else if j > 0 {
      InvariantStep(s, run[0]);
      CurrentStep(s, run[0], n, used);
      MonotoneFrom(Do(s, run[0]), run[1..], n, used + Stamped(s, run[0], n), 0, j - 1);
    }
  }

  /**
   * In every run in which no two writes of the row carry the same timestamp, in
   * whatever order they arrive, its observation time never decreases while the
   * row is not deleted.
   */
  lemma ObservationTimeMonotone(s: State, run: seq<Label>, n: Name, i: nat, j: nat)
    requires Init(s) && Legal(s, run) && StampsDistinct(s, run, n, {})
    requires i <= j <= |run| && n in At(s, run, i).rows && forall k :: i <= k < j ==> run[k] != Delete(n)
    ensures n in At(s, run, j).rows
    ensures NotEarlier(At(s, run, i).rows[n].lastObservationTime, At(s, run, j).rows[n].lastObservationTime)
  {
    MonotoneFrom(s, run, n, {}, i, j);
  }

  // ----- rows whose timestamps never decrease -----

  /** No write of the row `n` carries a stamp before the row's own. */
  ghost predicate StampsOrdered(s: State, run: seq<Label>, n: Name)
    requires Legal(s, run)
    decreases |run|
  {
    run == [] ||
    ((Touches(s, run[0], n) && n in s.rows && StampOf(run[0]).Some? ==> s.rows[n].updatedAt <= StampOf(run[0]).value)
     && StampsOrdered(Do(s, run[0]), run[1..], n))
  }

  ghost predicate ObservedBeforeWrite(s: State, n: Name) {
    n in s.rows ==> NotEarlier(s.rows[n].lastObservationTime, Some(s.rows[n].updatedAt))
  }

  lemma OrderedStep(s: State, l: Label, n: Name)
    requires Can(s, l) && Invariant(s) && ObservedBeforeWrite(s, n) && n in s.rows && l != Delete(n)
    requires Touches(s, l, n) && StampOf(l).Some? ==> s.rows[n].updatedAt <= StampOf(l).value
    ensures ObservedBeforeWrite(Do(s, l), n)
    ensures n in Do(s, l).rows && NotEarlier(s.rows[n].lastObservationTime, Do(s, l).rows[n].lastObservationTime)
  {
    assert l.Commit? ==> CheckFine(s, s.checks[l.c]);
  }

  /** The same where stamps may repeat, but each write of the row carries one no earlier than the last. */
  lemma {:induction false} ObservationTimeMonotoneOrdered(s: State, run: seq<Label>, n: Name)
    requires Invariant(s) && ObservedBeforeWrite(s, n) && Legal(s, run) && StampsOrdered(s, run, n)
    requires n in s.rows && Delete(n) !in run
    ensures n in Exec(s, run).rows
    ensures NotEarlier(s.rows[n].lastObservationTime, Exec(s, run).rows[n].lastObservationTime)
    decreases |run|
  {
    if run != [] {
      OrderedStep(s, run[0], n);
      InvariantStep(s, run[0]);
      ObservationTimeMonotoneOrdered(Do(s, run[0]), run[1..], n);
    }
  }

  // ----- a late write that repeats a timestamp -----

  lemma {:induction false} Then(s: State, l: Label, rest: seq<Label>)
    requires Can(s, l) && Legal(Do(s, l), rest)
    ensures Legal(s, [l] + rest) && Exec(s, [l] + rest) == Exec(Do(s, l), rest)
  {
    assert ([l] + rest)[1..] == rest;
  }

  function FirstRow(): Row {
    NewRow("", "", "", "", 5)
  }

  /** The checks look, one at 6 and one at 7. */
  lemma TwoLooks(n: Name) returns (run: seq<Label>)
    ensures var s := State(map[n := FirstRow()], map[0 := Reading(n, 5), 1 := Reading(n, 5)], 5, {});
            && Legal(s, run) && Delete(n) !in run
            && Exec(s, run) == State(map[n := FirstRow()], map[0 := Inspected(n, 5, "", "", 6), 1 := Inspected(n, 5, "", "", 7)], 8,
                                     {Observation(n, "", "", 6), Observation(n, "", "", 7)})
  {
    var rows, o6, o7 := map[n := FirstRow()], Observation(n, "", "", 6), Observation(n, "", "", 7);
    var a5, a6, b7 := Reading(n, 5), Inspected(n, 5, "", "", 6), Inspected(n, 5, "", "", 7);
    var s3, s4 := State(rows, map[0 := a5, 1 := a5], 5, {}), State(rows, map[0 := a5, 1 := a5], 6, {});
    var s5, s6 := State(rows, map[0 := a6, 1 := a5], 6, {o6}), State(rows, map[0 := a6, 1 := a5], 7, {o6});
    var s7, s8 := State(rows, map[0 := a6, 1 := b7], 7, {o6, o7}), State(rows, map[0 := a6, 1 := b7], 8, {o6, o7});
    assert Do(s3, Tick(6)) == s4 && Do(s4, Inspect(0, "", "")) == s5 && Do(s5, Tick(7)) == s6;
    assert Do(s6, Inspect(1, "", "")) == s7 && Do(s7, Tick(8)) == s8;
    Then(s7, Tick(8), []);
    run := [Tick(8)] + [];
    Then(s6, Inspect(1, "", ""), run);
    run := [Inspect(1, "", "")] + run;
    Then(s5, Tick(7), run);
    run := [Tick(7)] + run;
    Then(s4, Inspect(0, "", ""), run);
    run := [Inspect(0, "", "")] + run;
    Then(s3, Tick(6), run);
    run := [Tick(6)] + run;
  }

  /** The row is written at 5 and two checks read it before they look. */
  lemma TwoChecks(n: Name) returns (s: State, run: seq<Label>)
    ensures Init(s) && Legal(s, run) && Delete(n) !in run
    ensures Exec(s, run) == State(map[n := FirstRow()], map[0 := Inspected(n, 5, "", "", 6), 1 := Inspected(n, 5, "", "", 7)], 8,
                                  {Observation(n, "", "", 6), Observation(n, "", "", 7)})
  {
    var rows, create := map[n := FirstRow()], Create(n, "", "", "", "", 5);
    s := State(map[], map[], 5, {});
    var s1, s2 := State(rows, map[], 5, {}), State(rows, map[0 := Reading(n, 5)], 5, {});
    var s3 := State(rows, map[0 := Reading(n, 5), 1 := Reading(n, 5)], 5, {});
    assert Do(s, create) == s1 && Do(s1, Begin(0, n)) == s2 && Do(s2, Begin(1, n)) == s3;
    run := TwoLooks(n);
    Then(s2, Begin(1, n), run);
    run := [Begin(1, n)] + run;
    Then(s1, Begin(0, n), run);
    run := [Begin(0, n)] + run;
    Then(s, create, run);
    run := [create] + run;
  }

  /**
   * Without either hypothesis the observation time can go back. Two checks read
   * the row at stamp 5 and look at 6 and at 7; the second commits; a status
   * write that read the clock at 5 lands only now; and the first check, whose
   * stamp is back, commits over it.
   */
  lemma LateWriteTurnsBack(n: Name, status: string) returns (s: State, run: seq<Label>, more: seq<Label>)
    requires status != ""
    ensures Init(s) && Legal(s, run) && Legal(Exec(s, run), more) && Delete(n) !in run + more
    ensures n in Exec(s, run).rows && Exec(s, run).rows[n].lastObservationTime == Some(7)
    ensures n in Exec(Exec(s, run), more).rows && Exec(Exec(s, run), more).rows[n].lastObservationTime == Some(6)
  {
    var first;
    s, first := TwoChecks(n);
    var u := StatusUpdate(status, "", "", "", None, None, "", "");
    var t := Exec(s, first);
    var t1 := Do(t, Commit(1, 8));
    var t2 := Do(t1, Status(n, u, 5));
    var t3 := Do(t2, Commit(0, 8));
    assert t1.rows[n].lastObservationTime == Some(7) && t2.rows[n].updatedAt == 5 && t3.rows[n].lastObservationTime == Some(6);
    Then(t2, Commit(0, 8), []);
    Then(t1, Status(n, u, 5), [Commit(0, 8)] + []);
    more := [Status(n, u, 5)] + ([Commit(0, 8)] + []);
    run := first + [Commit(1, 8)];
    Then(t, Commit(1, 8), []);
    Appended(s, first, [Commit(1, 8)] + []);
    assert [Commit(1, 8)] + [] == [Commit(1, 8)];
  }

  lemma {:induction false} Appended(s: State, a: seq<Label>, b: seq<Label>)
    requires Legal(s, a) && Legal(Exec(s, a), b)
    ensures Legal(s, a + b) && Exec(s, a + b) == Exec(Exec(s, a), b)
    decreases |a|
  {
    if a == [] {
      assert a + b == b;
    } else {
      assert (a + b)[1..] == a[1..] + b;
      Appended(Do(s, a[0]), a[1..], b);
    }
  }

  // ----- what the columns hold -----

  /** The last value that is given, or the one before them all. */
  function Last(values: seq<string>, before: string): string {
    if values == [] then before
    else if values[|values| - 1] != "" then values[|values| - 1]
    else Last(values[..|values| - 1], before)
  }

  function LastSome<T>(values: seq<Option<T>>): Option<T> {
    if values == [] then None
    else if values[|values| - 1].Some? then values[|values| - 1]
    else LastSome(values[..|values| - 1])
  }

  datatype Write = Write(u: StatusUpdate, now: Time)

  /** Status updates one after the other. */
  function Written(r: Row, ws: seq<Write>): Row {
    if ws == [] then r
    else
      var k := |ws| - 1;
      Updated(Written(r, ws[..k]), ws[k].u, ws[k].now)
  }

  /** The text columns a status update can set. */
  datatype Column = SyncStatus | HealthStatus | LastSyncedSHA | HeadSHA | ServicesJSON | ConditionsJSON

  function Given(u: StatusUpdate, c: Column): string {
    match c
    case SyncStatus => u.syncStatus
    case HealthStatus => u.healthStatus
    case LastSyncedSHA => u.lastSyncedSHA
    case HeadSHA => u.headSHA
    case ServicesJSON => u.servicesJSON
    case ConditionsJSON => u.conditionsJSON
  }

  function Held(r: Row, c: Column): string {
    match c
    case SyncStatus => r.syncStatus
    case HealthStatus => r.healthStatus
    case LastSyncedSHA => r.lastSyncedSHA
    case HeadSHA => r.headSHA
    case ServicesJSON => r.servicesJSON
    case ConditionsJSON => r.conditionsJSON
  }

  function Texts(ws: seq<Write>, c: Column): seq<string> {
    seq(|ws|, i requires 0 <= i < |ws| => Given(ws[i].u, c))
  }

  /** After any sequence of updates each text column holds the last value an update gave for it. */
  lemma {:induction false} StatusColumns(r: Row, ws: seq<Write>, c: Column)
    ensures Held(Written(r, ws), c) == Last(Texts(ws, c), Held(r, c))
  {
    if ws != [] {
      var k := |ws| - 1;
      StatusColumns(r, ws[..k], c);
      assert Texts(ws, c)[..k] == Texts(ws[..k], c);
    }
  }

  function SyncTimes(ws: seq<Write>): seq<Option<Time>> {
    seq(|ws|, i requires 0 <= i < |ws| => ws[i].u.lastSyncTime)
  }

  function Errors(ws: seq<Write>): seq<Option<string>> {
    seq(|ws|, i requires 0 <= i < |ws| => ws[i].u.lastError)
  }

  /** An error can also be cleared, a sync time only replaced; nothing else is touched. */
  lemma {:induction false} OtherColumns(r: Row, ws: seq<Write>)
    ensures var t := LastSome(SyncTimes(ws)); Written(r, ws).lastSyncTime == if t.Some? then t else r.lastSyncTime
    ensures var e := LastSome(Errors(ws)); Written(r, ws).lastError == if e.Some? then e.value else r.lastError
    ensures Written(r, ws).manifest == r.manifest && Written(r, ws).source == r.source
    ensures Written(r, ws).lastObservationTime == r.lastObservationTime
    ensures Written(r, ws).lastObservedHealthStatus == r.lastObservedHealthStatus
  {
    if ws != [] {
      var k := |ws| - 1;
      OtherColumns(r, ws[..k]);
      assert SyncTimes(ws)[..k] == SyncTimes(ws[..k]) && Errors(ws)[..k] == Errors(ws[..k]);
    }
  }

  /** What a check found is in the row when its commit succeeds, and a reconciler's columns are as they were. */
  lemma CommitColumns(s: State, c: nat, now: Time)
    requires Can(s, Commit(c, now)) && Wins(s, s.checks[c])
    ensures var k, n := s.checks[c], s.checks[c].name;
            var r, q := s.rows[n], Do(s, Commit(c, now)).rows[n];
            && q.healthStatus == k.health == q.lastObservedHealthStatus && q.servicesJSON == k.services
            && q.lastObservationTime == Some(k.at) && q.updatedAt == now
            && q.lastSyncedSHA == r.lastSyncedSHA && q.headSHA == r.headSHA && q.syncStatus == r.syncStatus
            && q.lastSyncTime == r.lastSyncTime && q.lastError == r.lastError && q.manifest == r.manifest
            && q.source == r.source && q.conditionsJSON == r.conditionsJSON
  {
  }
}
