/**
 * reconcileApp: look up, ask the breaker, compute the diff, decide, deploy (in
 * one piece, blue-green, or wave by wave), and record the outcome. The model
 * records the deployment steps, the status writes and the breaker calls.
 */
module Reconcile {
  import opened Services
  import opened Waves

  // ----- the multi-wave deployment -----

  datatype Step =
    | PreHook(k: nat, service: string)
    | PullImages
    | DeployWave(wave: nat)       // position in the list of groups
    | HealthGate(wave: nat)
    | PostHook(k: nat, service: string)

  /** A step that was attempted, whether it succeeded, and what a gate saw last. */
  datatype Done = Done(step: Step, ok: bool, evidence: Poll)

  datatype Request = Request(
    pre: seq<string>, post: seq<string>, pull: bool, waves: seq<WaveGroup>, monitored: bool)

  /** What the deployer and the health monitor answer. */
  datatype Answers = Answers(
    preOk: nat -> bool, pullOk: bool, waveOk: nat -> bool, polls: nat -> seq<Poll>, postOk: nat -> bool)

  function PreSteps(names: seq<string>): seq<Step> {
    seq(|names|, i requires 0 <= i < |names| => PreHook(i, names[i]))
  }

  function PostSteps(names: seq<string>): seq<Step> {
    seq(|names|, i requires 0 <= i < |names| => PostHook(i, names[i]))
  }

  function WaveSteps(n: nat, monitored: bool): seq<Step> {
    if n == 0 then []
    else WaveSteps(n - 1, monitored) + [DeployWave(n - 1)] + if monitored then [HealthGate(n - 1)] else []
  }

  /** Everything a multi-wave deployment does when nothing fails, in order. */
  function Plan(r: Request): seq<Step> {
    PreSteps(r.pre) + (if r.pull then [PullImages] else []) + WaveSteps(|r.waves|, r.monitored) + PostSteps(r.post)
  }

  function Steps(done: seq<Done>): seq<Step> {
    seq(|done|, i requires 0 <= i < |done| => done[i].step)
  }

  /** Only a post-sync hook may fail without ending the deployment. */
  predicate Clean(done: seq<Done>) {
    forall i :: 0 <= i < |done| ==> done[i].ok || done[i].step.PostHook?
  }

  /** How a step turns out, given what is answered from outside. */
  ghost predicate Answered(r: Request, a: Answers, step: Step) {
    match step
    case PreHook(k, _) => a.preOk(k)
    case PullImages => a.pullOk
    case DeployWave(w) => a.waveOk(w)
    case HealthGate(w) => w < |r.waves| && GateOpens(r.waves[w].services, a.polls(w))
    case PostHook(k, _) => a.postOk(k)
  }

  ghost predicate GateOpens(names: seq<string>, polls: seq<Poll>) {
    names == [] || exists p :: p in polls && AllHealthyIn(p, names)
  }

  /**
   * Each step is recorded as it turned out, and a passed gate with a snapshot
   * that shows all services of its wave healthy.
   */
  ghost predicate Evidenced(r: Request, a: Answers, done: seq<Done>) {
    forall i :: 0 <= i < |done| ==>
      var d := done[i];
      && (d.ok <==> Answered(r, a, d.step))
      && (d.step.HealthGate? && d.ok ==>
            var w := d.step.wave;
            r.waves[w].services == [] || (d.evidence in a.polls(w) && AllHealthyIn(d.evidence, r.waves[w].services)))
  }

  lemma StepsAppend(done: seq<Done>, d: Done)
    ensures Steps(done + [d]) == Steps(done) + [d.step]
  {
  }

  /** A run that went well so far: a clean, evidenced record of exactly the steps `p`. */
  ghost predicate Did(r: Request, a: Answers, done: seq<Done>, p: seq<Step>) {
    Steps(done) == p && Clean(done) && Evidenced(r, a, done)
  }

  lemma DidAppend(r: Request, a: Answers, done: seq<Done>, p: seq<Step>, d: Done)
    requires Did(r, a, done, p) && (d.ok || d.step.PostHook?) && Evidenced(r, a, [d])
    ensures Did(r, a, done + [d], p + [d.step])
  {
    StepsAppend(done, d);
    assert [d][0] == d;
  }

  /** The record of a run: complete, or stopped at its first failing step. */
  ghost predicate Recorded(r: Request, a: Answers, done: seq<Done>, ok: bool) {
    if ok then Did(r, a, done, Plan(r))
    else
      && done != []
      && Steps(done) <= Plan(r)
      && Clean(done[..|done| - 1]) && Evidenced(r, a, done)
      && !done[|done| - 1].ok && !done[|done| - 1].step.PostHook?
  }

  lemma FailedAt(r: Request, a: Answers, done: seq<Done>, p: seq<Step>, d: Done)
    requires Did(r, a, done, p) && p + [d.step] <= Plan(r)
    requires !d.ok && !d.step.PostHook? && Evidenced(r, a, [d])
    ensures Recorded(r, a, done + [d], false)
  {
    StepsAppend(done, d);
    assert (done + [d])[..|done|] == done;
    assert [d][0] == d;
  }

  method RunPreHooks(r: Request, a: Answers) returns (ok: bool, done: seq<Done>)
    ensures ok ==> Did(r, a, done, PreSteps(r.pre))
    ensures !ok ==> Recorded(r, a, done, false)
  {
    done := [];
    for i := 0 to |r.pre|
      invariant Did(r, a, done, PreSteps(r.pre)[..i])
    {
      var d := Done(PreHook(i, r.pre[i]), a.preOk(i), CheckError);
      assert PreSteps(r.pre)[..i + 1] == PreSteps(r.pre)[..i] + [d.step];
      if !d.ok {
        assert PreSteps(r.pre)[..i + 1] <= PreSteps(r.pre) <= Plan(r);
        FailedAt(r, a, done, PreSteps(r.pre)[..i], d);
        return false, done + [d];
      }
      DidAppend(r, a, done, PreSteps(r.pre)[..i], d);
      done := done + [d];
    }
    assert PreSteps(r.pre)[..|r.pre|] == PreSteps(r.pre);
    return true, done;
  }

  function Head(r: Request): seq<Step> {
    PreSteps(r.pre) + if r.pull then [PullImages] else []
  }

  lemma {:induction false} WaveStepsPrefix(m: nat, n: nat, monitored: bool)
    requires m <= n
    ensures WaveSteps(m, monitored) <= WaveSteps(n, monitored)
  {
    if m < n {
      WaveStepsPrefix(m, n - 1, monitored);
    }
  }

  method RunWave(r: Request, a: Answers, done0: seq<Done>, i: nat) returns (ok: bool, done: seq<Done>)
    requires i < |r.waves| && Did(r, a, done0, Head(r) + WaveSteps(i, r.monitored))
    ensures ok ==> Did(r, a, done, Head(r) + WaveSteps(i + 1, r.monitored))
    ensures !ok ==> Recorded(r, a, done, false)
  {
    var p := Head(r) + WaveSteps(i, r.monitored);
    WaveStepsPrefix(i + 1, |r.waves|, r.monitored);
    assert Head(r) + WaveSteps(i + 1, r.monitored) <= Plan(r);
    var d := Done(DeployWave(i), a.waveOk(i), CheckError);
    assert p + [d.step] <= Head(r) + WaveSteps(i + 1, r.monitored);
    if !d.ok {
      FailedAt(r, a, done0, p, d);
      return false, done0 + [d];
    }
    DidAppend(r, a, done0, p, d);
    done := done0 + [d];
    if r.monitored {
      var passed, evidence := WaitForServicesHealthy(r.waves[i].services, a.polls(i));
      var g := Done(HealthGate(i), passed, evidence);
      assert p + [d.step] + [g.step] == Head(r) + WaveSteps(i + 1, r.monitored);
      if !passed {
        FailedAt(r, a, done, p + [d.step], g);
        return false, done + [g];
      }
      DidAppend(r, a, done, p + [d.step], g);
      done := done + [g];
    } else {
      assert p + [d.step] == Head(r) + WaveSteps(i + 1, r.monitored);
    }
    return true, done;
  }

  method RunPostHooks(r: Request, a: Answers, done0: seq<Done>) returns (done: seq<Done>)
    requires Did(r, a, done0, Head(r) + WaveSteps(|r.waves|, r.monitored))
    ensures Did(r, a, done, Plan(r))
  {
    done := done0;
    ghost var p := Head(r) + WaveSteps(|r.waves|, r.monitored);
    for i := 0 to |r.post|
      invariant Did(r, a, done, p + PostSteps(r.post)[..i])
    {
      var d := Done(PostHook(i, r.post[i]), a.postOk(i), CheckError);
      assert p + PostSteps(r.post)[..i + 1] == p + PostSteps(r.post)[..i] + [d.step];
      DidAppend(r, a, done, p + PostSteps(r.post)[..i], d);
      done := done + [d];
    }
    assert p + PostSteps(r.post)[..|r.post|] == Plan(r);
  }

  /**
   * The multi-wave branch of reconcileApp. Whatever fails, the steps taken are a
   * prefix of the plan that ends at the first failure; a failing post-sync hook
   * is not one; success means the whole plan was carried out.
   */
  method DeployWaves(r: Request, a: Answers) returns (ok: bool, done: seq<Done>)
    ensures Recorded(r, a, done, ok)
  {
    ok, done := RunPreHooks(r, a);
    if !ok {
      return;
    }
    if r.pull {
      var d := Done(PullImages, a.pullOk, CheckError);
      assert PreSteps(r.pre) + [d.step] == Head(r) && Head(r) <= Plan(r);
      if !d.ok {
        FailedAt(r, a, done, PreSteps(r.pre), d);
        return false, done + [d];
      }
      DidAppend(r, a, done, PreSteps(r.pre), d);
      done := done + [d];
    }
    assert Head(r) + WaveSteps(0, r.monitored) == Head(r);
    for i := 0 to |r.waves|
      invariant Did(r, a, done, Head(r) + WaveSteps(i, r.monitored))
    {
      ok, done := RunWave(r, a, done, i);
      if !ok {
        return;
      }
    }
    done := RunPostHooks(r, a, done);
    return true, done;
  }

  /** Pre-sync hooks come first, then the pull, then waves and gates, then post-sync hooks. */
  function Phase(step: Step): nat {
    match step
    case PreHook(_, _) => 0
    case PullImages => 1
    case DeployWave(_) => 2
    case HealthGate(_) => 2
    case PostHook(_, _) => 3
  }

  lemma {:induction false} WavePhase(n: nat, monitored: bool)
    ensures forall i :: 0 <= i < |WaveSteps(n, monitored)| ==> Phase(WaveSteps(n, monitored)[i]) == 2
  {
    if n > 0 {
      WavePhase(n - 1, monitored);
    }
  }

  lemma PlanInPhases(r: Request, i: nat, j: nat)
    requires i < j < |Plan(r)|
    ensures Phase(Plan(r)[i]) <= Phase(Plan(r)[j])
  {
    WavePhase(|r.waves|, r.monitored);
  }

  lemma {:induction false} WaveListed(n: nat, monitored: bool, w: nat)
    ensures DeployWave(w) in WaveSteps(n, monitored) <==> w < n
    ensures HealthGate(w) in WaveSteps(n, monitored) <==> w < n && monitored
  {
    if n > 0 {
      WaveListed(n - 1, monitored, w);
    }
  }

  /** And the plan holds every hook, wave and gate, and a pull if one is asked for. */
  lemma PlanHolds(r: Request, k: nat)
    ensures k < |r.pre| ==> PreHook(k, r.pre[k]) in Plan(r)
    ensures k < |r.post| ==> PostHook(k, r.post[k]) in Plan(r)
    ensures PullImages in Plan(r) <==> r.pull
    ensures DeployWave(k) in Plan(r) <==> k < |r.waves|
    ensures HealthGate(k) in Plan(r) <==> k < |r.waves| && r.monitored
  {
    WaveListed(|r.waves|, r.monitored, k);
    WavePhase(|r.waves|, r.monitored);
    if k < |r.pre| {
      assert PreSteps(r.pre)[k] == PreHook(k, r.pre[k]);
    }
    if k < |r.post| {
      assert PostSteps(r.post)[k] == PostHook(k, r.post[k]);
    }
  }

  /** No step that matters is refused. */
  ghost predicate NothingRefused(r: Request, a: Answers) {
    forall i :: 0 <= i < |Plan(r)| ==> Plan(r)[i].PostHook? || Answered(r, a, Plan(r)[i])
  }

  /** The deployment succeeds exactly when no hook, pull, wave or health gate of the plan fails. */
  lemma OkIffNothingRefused(r: Request, a: Answers, done: seq<Done>, ok: bool)
    requires Recorded(r, a, done, ok)
    ensures ok <==> NothingRefused(r, a)
  {
    if ok {
      forall i | 0 <= i < |Plan(r)| ensures Plan(r)[i].PostHook? || Answered(r, a, Plan(r)[i]) {
        assert Steps(done)[i] == Plan(r)[i];
      }
    } else {
      var n := |done| - 1;
      assert Steps(done)[n] == Plan(r)[n];
    }
  }

  // ----- no wave starts before the lower waves were healthy -----

  lemma {:induction false} WaveStepsOrder(n: nat, i: nat)
    requires i < n
    ensures |WaveSteps(n, true)| == 2 * n
    ensures WaveSteps(n, true)[2 * i] == DeployWave(i) && WaveSteps(n, true)[2 * i + 1] == HealthGate(i)
  {
    WaveStepsLength(n);
    WaveStepsLength(n - 1);
    if i < n - 1 {
      WaveStepsOrder(n - 1, i);
    }
  }

  lemma {:induction false} WaveStepsLength(n: nat)
    ensures |WaveSteps(n, true)| == 2 * n
  {
    if n > 0 {
      WaveStepsLength(n - 1);
    }
  }

  /** Where each deploy step stands in the plan. */
  lemma DeployPosition(r: Request, i: nat, k: nat)
    requires r.monitored && i < |Plan(r)| && Plan(r)[i] == DeployWave(k)
    ensures k < |r.waves| && i == |Head(r)| + 2 * k
  {
    var n := |r.waves|;
    WaveStepsLength(n);
    assert Plan(r) == Head(r) + WaveSteps(n, true) + PostSteps(r.post);
    assert i >= |Head(r)|;
    var j := i - |Head(r)|;
    assert j < 2 * n;
    WaveStepsOrder(n, j / 2);
  }

  /**
   * With a health monitor, in every record of DeployWaves: when a wave is
   * deployed, every service of every lower wave has been seen healthy, one whole
   * wave in one snapshot, after that wave's own deployment.
   */
  lemma LowerWavesHealthyFirst(r: Request, a: Answers, done: seq<Done>, ok: bool, i: nat, k: nat, lower: nat)
    requires r.monitored && Recorded(r, a, done, ok)
    requires i < |done| && done[i].step == DeployWave(k) && lower < k
    requires lower < |r.waves| && r.waves[lower].services != []
    ensures k < |r.waves|
    ensures exists g :: LowerGate(r, done, g, i, lower)
  {
    assert Steps(done)[i] == Plan(r)[i];
    DeployPosition(r, i, k);
    WaveStepsOrder(|r.waves|, lower);
    WaveStepsLength(|r.waves|);
    var g := |Head(r)| + 2 * lower + 1;
    assert Plan(r) == Head(r) + WaveSteps(|r.waves|, true) + PostSteps(r.post);
    assert Plan(r)[g] == HealthGate(lower) && Plan(r)[g - 1] == DeployWave(lower);
    assert Steps(done)[g] == Plan(r)[g] && Steps(done)[g - 1] == Plan(r)[g - 1];
    if !ok {
      var kept := done[..|done| - 1];
      assert kept[g] == done[g] && kept[g - 1] == done[g - 1];
    }
    assert LowerGate(r, done, g, i, lower);
  }

  /** A gate before step `i` that saw the service in a snapshot, healthy, after its own wave was deployed. */
  ghost predicate SeenHealthyBefore(r: Request, done: seq<Done>, i: nat, name: string) {
    exists g :: 0 < g < i <= |done| && GateFor(r, done[g - 1], done[g], name)
  }

  ghost predicate GateFor(r: Request, deploy: Done, gate: Done, name: string) {
    && deploy.step.DeployWave? && deploy.ok && gate.step == HealthGate(deploy.step.wave) && gate.ok
    && deploy.step.wave < |r.waves| && name in r.waves[deploy.step.wave].services
    && AllHealthyIn(gate.evidence, r.waves[deploy.step.wave].services)
  }

  /**
   * In service terms: with a health monitor, when the wave of a service `t` is
   * deployed, every service of a lower wave has been deployed before and then
   * seen healthy, in one snapshot with the rest of its wave.
   */
  lemma ServicesInWaveOrder(services: seq<Service>, r: Request, a: Answers, done: seq<Done>, ok: bool, i: nat, k: nat, s: Service, t: Service)
    requires IsGrouping(services, r.waves) && r.monitored && Recorded(r, a, done, ok)
    requires DistinctNames(services)
    requires s in services && t in services && !IsHook(s) && !IsHook(t) && WaveOf(s) < WaveOf(t)
    requires i < |done| && done[i].step == DeployWave(k) && k < |r.waves| && t.name in r.waves[k].services
    ensures SeenHealthyBefore(r, done, i, s.name)
  {
    var lower := LowerGroup(services, r.waves, k, s, t);
    LowerWavesHealthyFirst(r, a, done, ok, i, k, lower);
    GateFound(r, done, i, lower, s.name);
  }

  lemma LowerGroup(services: seq<Service>, waves: seq<WaveGroup>, k: nat, s: Service, t: Service) returns (lower: nat)
    requires IsGrouping(services, waves) && k < |waves| && t.name in waves[k].services
    requires DistinctNames(services)
    requires s in services && t in services && !IsHook(s) && !IsHook(t) && WaveOf(s) < WaveOf(t)
    ensures lower < k && s.name in waves[lower].services
  {
    lower := GroupOf(services, waves, s);
    WaveOfListed(services, waves, k, t);
  }

  ghost predicate LowerGate(r: Request, done: seq<Done>, g: int, i: nat, lower: nat)
    requires i <= |done| && lower < |r.waves|
  {
    && 0 < g < i && done[g - 1].step == DeployWave(lower) && done[g - 1].ok
    && done[g].step == HealthGate(lower) && done[g].ok
    && AllHealthyIn(done[g].evidence, r.waves[lower].services)
  }

  lemma GateFound(r: Request, done: seq<Done>, i: nat, lower: nat, name: string)
    requires i <= |done| && lower < |r.waves| && name in r.waves[lower].services
    requires exists g :: LowerGate(r, done, g, i, lower)
    ensures SeenHealthyBefore(r, done, i, name)
  {
    var g :| LowerGate(r, done, g, i, lower);
    assert GateFor(r, done[g - 1], done[g], name);
  }

  // ----- the decision -----

  datatype Lookup = StoreError | Missing | Found
  datatype ComputeError = GitFailed | RepoMissing | ParseFailed | NilSpec | PortConflict | InspectFailed
  datatype Diff = InSync | Drift(imageChanges: bool)
  datatype Computed =
    | Error(why: ComputeError, head: string)    // head is meaningless when Git failed
    | NoChange(head: string)
    | Compared(head: string, services: seq<Service>, diff: Diff)
  datatype PostCheck = PostCheckError | ActiveHealth(health: Health)

  /** Everything reconcileApp learns from outside. */
  datatype World = World(
    lookup: Lookup, manifestOk: bool, admitted: bool, computed: Computed,
    forced: bool, automated: bool, monitored: bool,
    deployOk: bool, answers: Answers, postCheck: PostCheck)

  datatype Result = Nothing | Success | Failure | Skipped
  datatype Sync = Keep | Synced | OutOfSync | ManuallyManaged
  datatype Write = Write(sync: Sync, lastSyncedSHA: string, headSHA: string)
  datatype Verdict = RecordSuccess | RecordFailure

  predicate BlueGreen(services: seq<Service>) {
    exists s :: s in services && STRATEGY_LABEL in s.labels && s.labels[STRATEGY_LABEL] == "blue-green"
  }

  function Hooks(services: seq<Service>, phase: string): seq<string> {
    if services == [] then []
    else
      var last := |services| - 1;
      Hooks(services[..last], phase) +
      if HOOK_LABEL in services[last].labels && services[last].labels[HOOK_LABEL] == phase
      then [services[last].name] else []
  }

  method ScanHooks(services: seq<Service>) returns (pre: seq<string>, post: seq<string>)
    ensures pre == Hooks(services, "pre-sync") && post == Hooks(services, "post-sync")
  {
    pre, post := [], [];
    for i := 0 to |services|
      invariant pre == Hooks(services[..i], "pre-sync") && post == Hooks(services[..i], "post-sync")
    {
      var svc := services[i];
      assert services[..i + 1][..i] == services[..i];
      assert "pre-sync"[1] != "post-sync"[1];
      if HOOK_LABEL in svc.labels {
        match svc.labels[HOOK_LABEL]
        case "pre-sync" => pre := pre + [svc.name];
        case "post-sync" => post := post + [svc.name];
        case _ =>
      }
    }
    assert services[..|services|] == services;
  }

  /** The hooks of a file are those of its parts, in order, so Hooks lists the services of the phase as the file does. */
  lemma {:induction false} HooksConcat(a: seq<Service>, b: seq<Service>, phase: string)
    ensures Hooks(a + b, phase) == Hooks(a, phase) + Hooks(b, phase)
    decreases |b|
  {
    if b == [] {
      assert a + b == a;
    } else {
      var last := |b| - 1;
      assert (a + b)[..|a + b| - 1] == a + b[..last];
      HooksConcat(a, b[..last], phase);
    }
  }

  lemma HooksOne(s: Service, phase: string)
    ensures Hooks([s], phase) == if HOOK_LABEL in s.labels && s.labels[HOOK_LABEL] == phase then [s.name] else []
  {
    assert [s][..0] == [];
  }

  /** A name is listed exactly when some service of that name carries the phase. */
  lemma {:induction false} HooksListed(services: seq<Service>, phase: string, name: string)
    ensures name in Hooks(services, phase) <==>
            exists s :: s in services && HOOK_LABEL in s.labels && s.labels[HOOK_LABEL] == phase && s.name == name
  {
    if services != [] {
      var k := |services| - 1;
      HooksListed(services[..k], phase, name);
      assert services == services[..k] + [services[k]];
    }
  }

  /** computeDiff's own status writes: the head once Git has synced, an error text otherwise. */
  function ComputeWrites(c: Computed): seq<Write> {
    match c
    case Error(GitFailed, _) => [Write(Keep, "", "")]
    case Error(RepoMissing, head) => [Write(Keep, "", head)]
    case Error(NilSpec, head) => [Write(Keep, "", head)]
    case Error(_, head) => [Write(Keep, "", head), Write(Keep, "", "")]
    case NoChange(head) => [Write(Keep, "", head)]
    case Compared(head, _, _) => [Write(Keep, "", head)]
  }

  /** The run got as far as comparing, found drift, and may act on it. */
  predicate Acts(w: World) {
    && w.lookup.Found? && w.manifestOk && w.admitted
    && w.computed.Compared? && w.computed.diff.Drift? && (w.automated || w.forced)
  }

  predicate FoundInSync(w: World) {
    && w.lookup.Found? && w.manifestOk && w.admitted
    && w.computed.Compared? && w.computed.diff.InSync?
  }

  /** One Deploy call for everything: blue-green, or at most one wave. */
  predicate OnePiece(services: seq<Service>) {
    BlueGreen(services) || !ManyWaves(services)
  }

  /** The deployment, and for blue-green the check after it, went through. */
  ghost predicate Delivered(w: World, request: Request)
    requires w.computed.Compared?
  {
    if OnePiece(w.computed.services)
    then w.deployOk && (BlueGreen(w.computed.services) ==> w.postCheck == ActiveHealth(Healthy))
    else NothingRefused(request, w.answers)
  }

  /** The request a multi-wave deployment is made from. */
  ghost predicate Requested(w: World, request: Request)
    requires w.computed.Compared? && w.computed.diff.Drift?
  {
    var services := w.computed.services;
    && request.pre == Hooks(services, "pre-sync") && request.post == Hooks(services, "post-sync")
    && request.pull == w.computed.diff.imageChanges && request.monitored == w.monitored
    && IsGrouping(services, request.waves)
  }

  /** The status writes of a run, in order. */
  ghost function StatusWrites(w: World, result: Result): seq<Write> {
    if !w.lookup.Found? || !w.manifestOk || !w.admitted then [] else ComputeWrites(w.computed) + OutcomeWrites(w, result)
  }

  ghost function OutcomeWrites(w: World, result: Result): seq<Write> {
    if !w.computed.Compared? then []
    else if w.computed.diff.InSync? then [Write(Synced, w.computed.head, "")]
    else if !w.automated && !w.forced then [Write(ManuallyManaged, "", "")]
    else [Write(OutOfSync, "", ""), Write(Keep, "", ""),
          if result.Success? then Write(Synced, w.computed.head, "") else Write(Keep, "", "")]
  }

  /** No new commit, no drift, or drift that is not this run's to repair. */
  predicate NothingToDo(w: World) {
    w.computed.NoChange? || (w.computed.Compared? && (w.computed.diff.InSync? || (!w.automated && !w.forced)))
  }

  /** The result of a run, given what it learns from outside. */
  ghost predicate IsOutcome(w: World, request: Request, result: Result) {
    && (result.Success? <==> Acts(w) && Delivered(w, request))
    && (result.Nothing? <==> w.lookup.Missing?)
    && (result.Skipped? <==> w.lookup.Found? && w.manifestOk && (!w.admitted || NothingToDo(w)))
  }

  /** A write that marks a revision as deployed. */
  ghost predicate MarksSynced(writes: seq<Write>) {
    exists i :: 0 <= i < |writes| && writes[i].lastSyncedSHA != ""
  }

  /**
   * reconcileApp. It succeeds exactly when it acts and everything it depends on
   * goes through. LastSyncedSHA is written exactly when the diff was in sync or
   * the run succeeded, only by the last write, with the Synced status and the
   * compared head; never on a failure path. A multi-wave deployment leaves a
   * record as DeployWaves describes it, complete on success.
   */
  method ReconcileApp(w: World) returns (result: Result, writes: seq<Write>, verdicts: seq<Verdict>, request: Request, done: seq<Done>)
    ensures MarksSynced(writes) <==> (result.Success? || FoundInSync(w)) && w.computed.head != ""
    ensures writes == StatusWrites(w, result) && verdicts == Verdicts(w, result)
    ensures IsOutcome(w, request, result)
    ensures result.Failure? ==> !MarksSynced(writes)
    ensures done != [] <==> Acts(w) && !OnePiece(w.computed.services)
    ensures done != [] ==> Requested(w, request) && Recorded(request, w.answers, done, result.Success?)
  {
    result, writes, verdicts, done := Nothing, [], [], [];
    request := Request([], [], false, [], false);
    if w.lookup.StoreError? {
      return Failure, writes, verdicts, request, done;
    }
    if w.lookup.Missing? {
      return;
    }
    if !w.manifestOk {
      return Failure, writes, verdicts, request, done;
    }
    if !w.admitted {
      return Skipped, writes, verdicts, request, done;
    }
    writes := ComputeWrites(w.computed);
    if w.computed.Error? {
      return Failure, writes, [RecordFailure], request, done;
    }
    if w.computed.NoChange? {
      return Skipped, writes, verdicts, request, done;
    }
    var Compared(head, services, diff) := w.computed;
    if diff.InSync? {
      writes := writes + [Write(Synced, head, "")];
      assert writes[|writes| - 1].lastSyncedSHA == head;
      return Skipped, writes, [RecordSuccess], request, done;
    }
    if !w.automated && !w.forced {
      return Skipped, writes + [Write(ManuallyManaged, "", "")], verdicts, request, done;
    }
    writes := writes + [Write(OutOfSync, "", ""), Write(Keep, "", "")];
    var delivered;
    delivered, verdicts, request, done := DeployDrift(w);
    if !delivered {
      return Failure, writes + [Write(Keep, "", "")], verdicts, request, done;
    }
    writes := writes + [Write(Synced, head, "")];
    assert writes[|writes| - 1].lastSyncedSHA == head;
    return Success, writes, verdicts, request, done;
  }

  /** Steps 7 and 8: deploy in one piece or wave by wave, and check a blue-green deployment again. */
  method DeployDrift(w: World) returns (ok: bool, verdicts: seq<Verdict>, request: Request, done: seq<Done>)
    requires w.computed.Compared? && w.computed.diff.Drift?
    ensures ok <==> Delivered(w, request)
    ensures verdicts == DeployVerdicts(w, ok)
    ensures done != [] <==> !OnePiece(w.computed.services)
    ensures done != [] ==> Requested(w, request) && Recorded(request, w.answers, done, ok)
  {
    var services := w.computed.services;
    done := [];
    request := Request([], [], false, [], false);
    var pre, post := ScanHooks(services);
    var blueGreen := BlueGreen(services);
    var waves := GroupByWave(services);
    ManyWavesGrouped(services, waves);
    if |waves| <= 1 || blueGreen {
      if !w.deployOk {
        return false, [RecordFailure], request, done;
      }
    } else {
      request := Request(pre, post, w.computed.diff.imageChanges, waves, w.monitored);
      ok, done := DeployWaves(request, w.answers);
      OkIffNothingRefused(request, w.answers, done, ok);
      if !ok {
        return false, [RecordFailure], request, done;
      }
    }
    verdicts := [RecordSuccess];
    if blueGreen {
      if w.postCheck.PostCheckError? || !w.postCheck.health.Healthy? {
        return false, verdicts + [RecordFailure], request, done;
      }
    }
    return true, verdicts, request, done;
  }

  ghost function DeployVerdicts(w: World, ok: bool): seq<Verdict>
    requires w.computed.Compared?
  {
    if ok then [RecordSuccess]
    else if BlueGreen(w.computed.services) && w.deployOk then [RecordSuccess, RecordFailure]
    else [RecordFailure]
  }

  /**
   * What the breaker is told: nothing when it did not admit the run or nothing
   * was compared or done, one verdict otherwise; after a blue-green deployment
   * whose final health check fails it hears success first and failure second.
   */
  ghost function Verdicts(w: World, result: Result): seq<Verdict> {
    if !w.lookup.Found? || !w.manifestOk || !w.admitted || w.computed.NoChange? then []
    else if w.computed.Error? then [RecordFailure]
    else if w.computed.diff.InSync? then [RecordSuccess]
    else if !Acts(w) then []
    else DeployVerdicts(w, result.Success?)
  }

  /** The run ends with this sync status written. */
  predicate EndsWith(writes: seq<Write>, sync: Sync) {
    writes != [] && writes[|writes| - 1].sync == sync
  }

  /**
   * In every run: the last status written is Synced exactly when the diff was in
   * sync or the deployment was delivered, ManuallyManaged exactly when there was
   * drift that is not to be repaired, and OutOfSync is written exactly when the
   * run acts, and then not last.
   */
  lemma StatusFollowsOutcome(w: World, request: Request, result: Result)
    requires IsOutcome(w, request, result)
    ensures var writes := StatusWrites(w, result);
            && (EndsWith(writes, Synced) <==> FoundInSync(w) || (Acts(w) && Delivered(w, request)))
            && (EndsWith(writes, ManuallyManaged) <==>
                  w.lookup.Found? && w.manifestOk && w.admitted && w.computed.Compared? && w.computed.diff.Drift? && !w.automated && !w.forced)
            && ((exists i :: 0 <= i < |writes| && writes[i].sync == OutOfSync) <==> Acts(w))
            && !EndsWith(writes, OutOfSync)
  {
    var writes := StatusWrites(w, result);
    if Acts(w) {
      assert writes[|writes| - 3].sync == OutOfSync;
    }
  }
}
