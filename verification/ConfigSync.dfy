/**
 * Manifest convergence: one pass of syncConfigManifests from the manifests
 * collected from disk. Every call into the store, the scheduler and the
 * deployer is logged; any store call may fail.
 */
module ConfigSync {
  import opened Options

  /** The columns a pass reads or that a new record resets. */
  datatype Record = Record(manifest: string, source: string, syncStatus: string, healthStatus: string, lastSyncedSHA: string)

  datatype Op = Create | Update | Delete | Down | AddApp | RemoveApp

  /** `ok` is what the call returned; Down's own error is only logged. */
  datatype Call = Call(op: Op, name: string, ok: bool)

  /** What the environment decides: which store calls fail and which stored manifests parse. */
  datatype Env = Env(failing: set<(Op, string)>, parses: string -> bool)

  /** Manifests by name, as json.Marshal renders them; `None` where it fails. */
  type Disk = map<string, Option<string>>

  function Lookup<V>(m: map<string, V>, n: string): Option<V> {
    if n in m then Some(m[n]) else None
  }

  // ----- one name -----

  function FreshRecord(text: string): Record {
    Record(text, "manifest", "Unknown", "Unknown", "")
  }

  datatype Todo = Nothing | Register(text: string) | Rewrite(text: string) | Withdraw

  /** What one name needs: its stored record against its manifest on disk. */
  function Needed(rec: Option<Record>, disk: Option<Option<string>>): Todo {
    match disk
    case None => if rec.Some? && rec.value.source == "manifest" then Withdraw else Nothing
    case Some(None) => Nothing
    case Some(Some(text)) =>
      if rec.None? then Register(text)
      else if rec.value.source == "manifest" && rec.value.manifest != text then Rewrite(text)
      else Nothing
  }

  function StoreOp(todo: Todo): Op
    requires !todo.Nothing?
  {
    match todo
    case Register(_) => Create
    case Rewrite(_) => Update
    case Withdraw => Delete
  }

  predicate Succeeds(n: string, todo: Todo, env: Env) {
    !todo.Nothing? && (StoreOp(todo), n) !in env.failing
  }

  /** The record afterwards; a failed store call leaves it as it was. */
  function After(n: string, rec: Option<Record>, disk: Option<Option<string>>, env: Env): Option<Record> {
    var todo := Needed(rec, disk);
    if !Succeeds(n, todo, env) then rec
    else
      match todo
      case Register(text) => Some(FreshRecord(text))
      case Rewrite(text) => Some(rec.value.(manifest := text))
      case Withdraw => None
  }

  /** The calls made for the name, in order. */
  function Calls(n: string, rec: Option<Record>, disk: Option<Option<string>>, env: Env): seq<Call> {
    var todo := Needed(rec, disk);
    if todo.Nothing? then []
    else
      var ok := Succeeds(n, todo, env);
      (if todo.Withdraw? && env.parses(rec.value.manifest) then [Call(Down, n, true)] else [])
      + [Call(StoreOp(todo), n, ok)]
      + (if ok then [Call(if todo.Withdraw? then RemoveApp else AddApp, n, true)] else [])
  }

  /** The calls of a log that concern one name. */
  function For(n: string, log: seq<Call>): seq<Call> {
    if log == [] then []
    else For(n, log[..|log| - 1]) + if log[|log| - 1].name == n then [log[|log| - 1]] else []
  }

  lemma {:induction false} ForConcat(n: string, a: seq<Call>, b: seq<Call>)
    ensures For(n, a + b) == For(n, a) + For(n, b)
  {
    if b == [] {
      assert a + b == a;
    } else {
      var k := |b| - 1;
      assert (a + b)[..|a + b| - 1] == a + b[..k];
      ForConcat(n, a, b[..k]);
    }
  }

  lemma {:induction false} ForOwn(n: string, m: string, log: seq<Call>)
    requires forall i :: 0 <= i < |log| ==> log[i].name == m
    ensures For(n, log) == if n == m then log else []
  {
    if log != [] {
      var rest, last := log[..|log| - 1], log[|log| - 1];
      assert log == rest + [last] && last.name == m;
      ForOwn(n, m, rest);
    }
  }

  type Store = map<string, Record>

  datatype Progress = Progress(store: Store, log: seq<Call>)

  /** One name is dealt with. */
  function StepOne(p: Progress, name: string, disk: Disk, env: Env): Progress {
    var rec, want := Lookup(p.store, name), Lookup(disk, name);
    var after := After(name, rec, want, env);
    Progress(if after.None? then p.store - {name} else p.store[name := after.value], p.log + Calls(name, rec, want, env))
  }

  /** Names are dealt with one after the other. */
  function Walk(p: Progress, order: seq<string>, disk: Disk, env: Env): Progress {
    if order == [] then p
    else StepOne(Walk(p, order[..|order| - 1], disk, env), order[|order| - 1], disk, env)
  }

  predicate Once(order: seq<string>) {
    forall i, j :: 0 <= i < j < |order| ==> order[i] != order[j]
  }

  /** Each of `names` was dealt with once, in some order, and no other name. */
  ghost predicate Handled(p: Progress, names: seq<string>, disk: Disk, env: Env, q: Progress) {
    forall n :: Sees(p, q, n, n in names, disk, env)
  }

  /** What one name sees of dealing with some names. */
  ghost predicate Sees(p: Progress, q: Progress, n: string, dealt: bool, disk: Disk, env: Env) {
    && Lookup(q.store, n) == (if dealt then After(n, Lookup(p.store, n), Lookup(disk, n), env) else Lookup(p.store, n))
    && For(n, q.log) == For(n, p.log) + if dealt then Calls(n, Lookup(p.store, n), Lookup(disk, n), env) else []
  }

  lemma {:induction false} WalkOne(p: Progress, order: seq<string>, disk: Disk, env: Env, n: string)
    requires Once(order)
    ensures Sees(p, Walk(p, order, disk, env), n, n in order, disk, env)
  {
    if order != [] {
      var k := |order| - 1;
      var earlier, name := order[..k], order[k];
      assert order == earlier + [name] && name !in earlier;
      WalkOne(p, earlier, disk, env, n);
      StepOther(Walk(p, earlier, disk, env), name, disk, env, n);
      SeesOn(p, Walk(p, earlier, disk, env), Walk(p, order, disk, env), n, n in earlier, n == name, disk, env);
    }
  }

  lemma {:induction false} SeesOn(p: Progress, q: Progress, r: Progress, n: string, before: bool, now: bool, disk: Disk, env: Env)
    requires Sees(p, q, n, before, disk, env) && Sees(q, r, n, now, disk, env) && !(before && now)
    ensures Sees(p, r, n, before || now, disk, env)
  {
  }

  lemma {:induction false} StepOther(t: Progress, name: string, disk: Disk, env: Env, n: string)
    ensures Sees(t, StepOne(t, name, disk, env), n, n == name, disk, env)
  {
    CallsOwn(name, Lookup(t.store, name), Lookup(disk, name), env);
    var calls := Calls(name, Lookup(t.store, name), Lookup(disk, name), env);
    ForConcat(n, t.log, calls);
    ForOwn(n, name, calls);
  }

  lemma CallsOwn(name: string, rec: Option<Record>, disk: Option<Option<string>>, env: Env)
    ensures forall i :: 0 <= i < |Calls(name, rec, disk, env)| ==> Calls(name, rec, disk, env)[i].name == name
  {
  }

  lemma WalkHandled(p: Progress, order: seq<string>, disk: Disk, env: Env)
    requires Once(order)
    ensures Handled(p, order, disk, env, Walk(p, order, disk, env))
  {
    forall n {
      WalkOne(p, order, disk, env, n);
    }
  }

  lemma WalkSnoc(p: Progress, order: seq<string>, disk: Disk, env: Env, name: string)
    requires Once(order) && name !in order
    ensures Once(order + [name])
    ensures Walk(p, order + [name], disk, env) == StepOne(Walk(p, order, disk, env), name, disk, env)
  {
    assert (order + [name])[..|order|] == order;
  }

  /** `after` is what a pass leaves of `before`. */
  ghost predicate Passed(before: Store, disk: Disk, env: Env, after: Store) {
    forall n :: Lookup(after, n) == After(n, Lookup(before, n), Lookup(disk, n), env)
  }

  /** A pass adds to each name's calls exactly the ones due for it, in their order. */
  ghost predicate Logged(before: Store, log: seq<Call>, disk: Disk, env: Env, longer: seq<Call>) {
    forall n :: For(n, longer) == For(n, log) + Calls(n, Lookup(before, n), Lookup(disk, n), env)
  }

  // ----- the pass -----

  class Syncer {
    var store: map<string, Record>
    var log: seq<Call>

    constructor (records: map<string, Record>)
      ensures store == records && log == []
    {
      store, log := records, [];
    }

    /** The body of the registering loop. */
    method RegisterOne(name: string, disk: Disk, storeApps: Store, env: Env)
      requires name in disk && Lookup(store, name) == Lookup(storeApps, name)
      modifies this
      ensures Progress(store, log) == StepOne(Progress(old(store), old(log)), name, disk, env)
    {
      var rendered := disk[name];
      if rendered.None? {
        return;
      }
      if name !in storeApps {
        if (Create, name) in env.failing {
          log := log + [Call(Create, name, false)];
          return;
        }
        store := store[name := FreshRecord(rendered.value)];
        log := log + [Call(Create, name, true), Call(AddApp, name, true)];
        return;
      }
      var existing := storeApps[name];
      if existing.source == "manifest" && existing.manifest != rendered.value {
        if (Update, name) in env.failing {
          log := log + [Call(Update, name, false)];
          return;
        }
        store := store[name := store[name].(manifest := rendered.value)];
        log := log + [Call(Update, name, true), Call(AddApp, name, true)];
      }
    }

    /** The body of the removing loop. */
    method RemoveOne(name: string, disk: Disk, storeApps: Store, env: Env)
      requires name in storeApps && (name !in disk ==> Lookup(store, name) == Some(storeApps[name]))
      modifies this
      ensures name in disk ==> store == old(store) && log == old(log)
      ensures name !in disk ==> Progress(store, log) == StepOne(Progress(old(store), old(log)), name, disk, env)
    {
      var rec := storeApps[name];
      if rec.source != "manifest" {
        return;
      }
      if name in disk {
        return;
      }
      if env.parses(rec.manifest) {
        log := log + [Call(Down, name, true)];
      }
      if (Delete, name) in env.failing {
        log := log + [Call(Delete, name, false)];
        return;
      }
      store := store - {name};
      log := log + [Call(Delete, name, true)];
      log := log + [Call(RemoveApp, name, true)];
    }

    method RegisterAll(disk: Disk, env: Env) returns (ghost order: seq<string>)
      modifies this
      ensures Once(order) && forall n :: n in order <==> n in disk
      ensures Progress(store, log) == Walk(Progress(old(store), old(log)), order, disk, env)
    {
      var storeApps := store;
      ghost var start := Progress(store, log);
      var todo := disk.Keys;
      order := [];
      while todo != {}
        invariant todo <= disk.Keys
        invariant Once(order) && forall n :: n in order <==> n in disk.Keys - todo
        invariant Progress(store, log) == Walk(start, order, disk, env)
        decreases |todo|
      {
        var name :| name in todo;
        WalkOne(start, order, disk, env, name);
        WalkSnoc(start, order, disk, env, name);
        RegisterOne(name, disk, storeApps, env);
        todo := todo - {name};
        order := order + [name];
      }
    }

    method RemoveAll(disk: Disk, storeApps: Store, env: Env) returns (ghost order: seq<string>)
      requires forall n :: n !in disk ==> Lookup(store, n) == Lookup(storeApps, n)
      modifies this
      ensures Once(order) && forall n :: n in order <==> n in storeApps && n !in disk
      ensures Progress(store, log) == Walk(Progress(old(store), old(log)), order, disk, env)
    {
      ghost var start := Progress(store, log);
      var todo := storeApps.Keys;
      order := [];
      while todo != {}
        invariant todo <= storeApps.Keys
        invariant Once(order) && forall n :: n in order <==> n in storeApps.Keys - todo && n !in disk
        invariant Progress(store, log) == Walk(start, order, disk, env)
        decreases |todo|
      {
        var name :| name in todo;
        WalkOne(start, order, disk, env, name);
        WalkSnoc(start, order, disk, env, name);
        RemoveOne(name, disk, storeApps, env);
        todo := todo - {name};
        if name !in disk {
          order := order + [name];
        }
      }
    }

    /**
     * syncConfigManifests from the collected manifests. Whatever order the maps
     * are walked in, each name is dealt with by itself: its record and
     * its calls, in their order, are those `After` and `Calls` give it.
     */
    method SyncConfigManifests(disk: Disk, listFails: bool, env: Env)
      modifies this
      ensures listFails ==> store == old(store) && log == old(log)
      ensures !listFails ==> Passed(old(store), disk, env, store) && Logged(old(store), old(log), disk, env, log)
    {
      if listFails {
        return;
      }
      var storeApps := store;
      ghost var start := Progress(store, log);
      ghost var first := RegisterAll(disk, env);
      ghost var middle := Progress(store, log);
      WalkHandled(start, first, disk, env);
      assert forall n :: n !in disk ==> Lookup(middle.store, n) == Lookup(storeApps, n) by {
        assert forall n :: Sees(start, middle, n, n in first, disk, env);
      }
      ghost var second := RemoveAll(disk, storeApps, env);
      WalkHandled(middle, second, disk, env);
      HandledTwice(start, first, disk, env, middle, second, Progress(store, log));
    }
  }

  /** Registering deals with the names on disk, removing with the stored names that are not; nothing is due for any other. */
  lemma HandledTwice(p: Progress, first: seq<string>, disk: Disk, env: Env, q: Progress, second: seq<string>, r: Progress)
    requires Handled(p, first, disk, env, q) && Handled(q, second, disk, env, r)
    requires forall n :: n in first <==> n in disk
    requires forall n :: n in second <==> n in p.store && n !in disk
    ensures Passed(p.store, disk, env, r.store) && Logged(p.store, p.log, disk, env, r.log)
  {
    forall n
      ensures Lookup(r.store, n) == After(n, Lookup(p.store, n), Lookup(disk, n), env)
      ensures For(n, r.log) == For(n, p.log) + Calls(n, Lookup(p.store, n), Lookup(disk, n), env)
    {
      assert Sees(p, q, n, n in first, disk, env) && Sees(q, r, n, n in second, disk, env);
    }
  }

  // ----- what is registered -----

  /**
   * A name is created exactly when its manifest is new, updated exactly when the
   * manifest of a manifest-sourced record has changed, and scheduled exactly when
   * that succeeded, right after it.
   */
  lemma ScheduledIff(n: string, before: Store, disk: Disk, env: Env)
    ensures var calls := Calls(n, Lookup(before, n), Lookup(disk, n), env);
            var readable := n in disk && disk[n].Some?;
            var isNew := readable && n !in before;
            var changed := readable && n in before && before[n].source == "manifest" && disk[n].value != before[n].manifest;
            && (Call(Create, n, true) in calls <==> isNew && (Create, n) !in env.failing)
            && (Call(Create, n, false) in calls <==> isNew && (Create, n) in env.failing)
            && (Call(Update, n, true) in calls <==> changed && (Update, n) !in env.failing)
            && (Call(Update, n, false) in calls <==> changed && (Update, n) in env.failing)
            && (Call(AddApp, n, true) in calls <==> Call(Create, n, true) in calls || Call(Update, n, true) in calls)
            && (Call(AddApp, n, true) in calls ==> calls[1] == Call(AddApp, n, true))
  {
  }

  /** A new record is unsynced and of manifest source; a rewritten one keeps all but its manifest. */
  lemma RegisteredRecord(n: string, before: Store, disk: Disk, env: Env, after: Store)
    requires Passed(before, disk, env, after) && n in disk && disk[n].Some?
    ensures n !in before && (Create, n) !in env.failing ==>
              n in after && after[n] == Record(disk[n].value, "manifest", "Unknown", "Unknown", "")
    ensures n in before && before[n].source == "manifest" && (Update, n) !in env.failing ==>
              n in after && after[n].manifest == disk[n].value && after[n].source == "manifest"
              && SameState(after[n], before[n])
  {
    assert Lookup(after, n) == After(n, Lookup(before, n), Lookup(disk, n), env);
  }

  // ----- convergence -----

  /** Every name on disk is stored, and the manifest-sourced records are exactly current. */
  ghost predicate Converged(s: Store, disk: Disk) {
    && (forall n :: n in disk && disk[n].Some? ==> n in s)
    && (forall n :: n in s && s[n].source == "manifest" ==> n in disk && (disk[n] == None || disk[n] == Some(s[n].manifest)))
  }

  ghost predicate Quiet(s: Store, disk: Disk) {
    forall n :: Needed(Lookup(s, n), Lookup(disk, n)).Nothing?
  }

  lemma QuietIffConverged(s: Store, disk: Disk)
    ensures Quiet(s, disk) <==> Converged(s, disk)
  {
    if Quiet(s, disk) {
      forall n | n in disk && disk[n].Some? ensures n in s {
        assert Needed(Lookup(s, n), Lookup(disk, n)).Nothing?;
      }
      forall n | n in s && s[n].source == "manifest" ensures n in disk && (disk[n] == None || disk[n] == Some(s[n].manifest)) {
        assert Needed(Lookup(s, n), Lookup(disk, n)).Nothing?;
      }
    }
  }

  /** Some store call the pass had to make failed. */
  ghost predicate Hindered(before: Store, disk: Disk, env: Env) {
    exists n :: Stuck(n, Lookup(before, n), Lookup(disk, n), env)
  }

  predicate Stuck(n: string, rec: Option<Record>, disk: Option<Option<string>>, env: Env) {
    var todo := Needed(rec, disk);
    !todo.Nothing? && (StoreOp(todo), n) in env.failing
  }

  lemma OneName(n: string, rec: Option<Record>, disk: Option<Option<string>>, env: Env)
    ensures Needed(After(n, rec, disk, env), disk).Nothing? <==> !Stuck(n, rec, disk, env)
    ensures rec.Some? && rec.value.source != "manifest" ==> After(n, rec, disk, env) == rec && Calls(n, rec, disk, env) == []
  {
  }

  /**
   * A pass reaches convergence exactly when none of the store calls it needed
   * failed, and then a further pass over the same manifests changes nothing and
   * calls nothing, whatever fails.
   */
  lemma PassConverges(before: Store, disk: Disk, env: Env, after: Store)
    requires Passed(before, disk, env, after)
    ensures Converged(after, disk) <==> !Hindered(before, disk, env)
    ensures Converged(after, disk) ==> forall n, env2 ::
              Calls(n, Lookup(after, n), Lookup(disk, n), env2) == []
  {
    forall n ensures Needed(Lookup(after, n), Lookup(disk, n)).Nothing? <==> !Stuck(n, Lookup(before, n), Lookup(disk, n), env) {
      OneName(n, Lookup(before, n), Lookup(disk, n), env);
    }
    QuietIffConverged(after, disk);
  }

  lemma QuietPass(s: Store, disk: Disk, env: Env, after: Store)
    requires Converged(s, disk) && Passed(s, disk, env, after)
    ensures after == s
  {
    QuietIffConverged(s, disk);
    forall n ensures Lookup(after, n) == Lookup(s, n) {
      assert Needed(Lookup(s, n), Lookup(disk, n)).Nothing?;
    }
    SameStore(after, s);
  }

  lemma SameStore(a: Store, b: Store)
    requires forall n :: Lookup(a, n) == Lookup(b, n)
    ensures a == b
  {
    forall n ensures n in a <==> n in b {
      assert Lookup(a, n) == Lookup(b, n);
    }
    forall n | n in a ensures a[n] == b[n] {
      assert Lookup(a, n) == Lookup(b, n);
    }
  }

  /** Any number of passes, each with its own manifests and its own failures. */
  ghost predicate Passes(stores: seq<Store>, disks: seq<Disk>, envs: seq<Env>) {
    && |stores| == |disks| + 1 == |envs| + 1
    && forall i :: 0 <= i < |disks| ==> Passed(stores[i], disks[i], envs[i], stores[i + 1])
  }

  lemma NextRecord(stores: seq<Store>, disks: seq<Disk>, envs: seq<Env>, i: nat, n: string)
    requires Passes(stores, disks, envs) && i < |disks|
    ensures Lookup(stores[i + 1], n) == After(n, Lookup(stores[i], n), Lookup(disks[i], n), envs[i])
  {
    assert Passed(stores[i], disks[i], envs[i], stores[i + 1]);
  }

  /** Over any run of passes, records from the API never change; while the manifests match what is stored, nothing does. */
  lemma {:induction false} PassesSettle(stores: seq<Store>, disks: seq<Disk>, envs: seq<Env>, i: nat, j: nat)
    requires Passes(stores, disks, envs) && i <= j < |stores|
    ensures forall n :: n in stores[i] && stores[i][n].source != "manifest" ==>
              n in stores[j] && stores[j][n] == stores[i][n]
    ensures (forall k :: i <= k < j ==> Converged(stores[i], disks[k])) ==> stores[j] == stores[i]
    decreases j
  {
    if i < j {
      PassesSettle(stores, disks, envs, i, j - 1);
      var s, t, disk, env := stores[j - 1], stores[j], disks[j - 1], envs[j - 1];
      forall n | n in stores[i] && stores[i][n].source != "manifest" ensures n in t && t[n] == stores[i][n] {
        NextRecord(stores, disks, envs, j - 1, n);
        OneName(n, Lookup(s, n), Lookup(disk, n), env);
      }
      if forall k :: i <= k < j ==> Converged(stores[i], disks[k]) {
        assert Passed(s, disk, env, stores[j - 1 + 1]);
        QuietPass(s, disk, env, t);
      }
    }
  }

  // ----- what a record keeps -----

  /** The columns that remember what was deployed. */
  predicate SameState(r: Record, q: Record) {
    r.syncStatus == q.syncStatus && r.healthStatus == q.healthStatus && r.lastSyncedSHA == q.lastSyncedSHA
  }

  /** Pass `i` leaves the application alone: its manifest is there, or the delete fails. */
  predicate Spared(n: string, disks: seq<Disk>, envs: seq<Env>, i: nat)
    requires i < |disks| == |envs|
  {
    n in disks[i] || (Delete, n) in envs[i].failing
  }

  /** The application is stored from the start to `j`, and remembers what was deployed. */
  ghost predicate Remembered(n: string, stores: seq<Store>, j: nat)
    requires j < |stores|
  {
    forall k :: 0 <= k <= j ==> n in stores[k] && n in stores[0] && SameState(stores[k][n], stores[0][n])
  }

  lemma {:induction false} SparedKeeps(n: string, stores: seq<Store>, disks: seq<Disk>, envs: seq<Env>, j: nat)
    requires Passes(stores, disks, envs) && j < |stores| && n in stores[0] && stores[0][n].source == "manifest"
    requires forall i :: 0 <= i < j ==> Spared(n, disks, envs, i)
    ensures Remembered(n, stores, j) && stores[j][n].source == "manifest"
    decreases j
  {
    if j > 0 {
      SparedKeeps(n, stores, disks, envs, j - 1);
      NextRecord(stores, disks, envs, j - 1, n);
      assert Spared(n, disks, envs, j - 1);
    }
  }

  /**
   * Over passes with any manifests and any failures, a manifest-sourced
   * application stays stored and keeps its sync state through pass `j` if and
   * only if every earlier pass finds its manifest or fails to delete it.
   */
  lemma {:induction false} RememberedIffSpared(n: string, stores: seq<Store>, disks: seq<Disk>, envs: seq<Env>, j: nat)
    requires Passes(stores, disks, envs) && j < |stores| && n in stores[0] && stores[0][n].source == "manifest"
    ensures Remembered(n, stores, j) <==> forall i :: 0 <= i < j ==> Spared(n, disks, envs, i)
    decreases j
  {
    if forall i :: 0 <= i < j ==> Spared(n, disks, envs, i) {
      SparedKeeps(n, stores, disks, envs, j);
    } else if j > 0 {
      RememberedIffSpared(n, stores, disks, envs, j - 1);
      if Remembered(n, stores, j - 1) {
        SparedKeeps(n, stores, disks, envs, j - 1);
        NextRecord(stores, disks, envs, j - 1, n);
        assert !Spared(n, disks, envs, j - 1);
        assert n !in stores[j];
      }
    }
  }

  /**
   * Once an application is not stored, whatever later pass registers it again,
   * it has forgotten its sync state: it is as new, in every state of the run.
   */
  lemma {:induction false} ForgottenForGood(n: string, stores: seq<Store>, disks: seq<Disk>, envs: seq<Env>, i: nat, j: nat)
    requires Passes(stores, disks, envs) && i <= j < |stores| && n !in stores[i]
    ensures n in stores[j] ==> stores[j][n].source == "manifest" && SameState(stores[j][n], FreshRecord(""))
    decreases j
  {
    if i < j {
      ForgottenForGood(n, stores, disks, envs, i, j - 1);
      NextRecord(stores, disks, envs, j - 1, n);
    }
  }

  // ----- what is torn down -----

  /**
   * A name is brought down exactly when it is manifest-sourced, absent from
   * disk and its stored manifest parses; its record goes exactly when the
   * delete succeeds, after the Down.
   */
  lemma TornDownIff(n: string, before: Store, disk: Disk, env: Env)
    ensures var calls := Calls(n, Lookup(before, n), Lookup(disk, n), env);
            var gone := n in before && before[n].source == "manifest" && n !in disk;
            && (Call(Down, n, true) in calls <==> gone && env.parses(before[n].manifest))
            && (Call(Delete, n, true) in calls <==> gone && (Delete, n) !in env.failing)
            && (Call(RemoveApp, n, true) in calls <==> Call(Delete, n, true) in calls)
            && (Call(Down, n, true) in calls ==> calls[0] == Call(Down, n, true))
  {
  }
}
