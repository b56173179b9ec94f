/**
 * Blue-green deployment: find the active colour, bring up the other one, wait
 * until it is healthy, stop the old one. Every call to Docker may fail; what
 * the calls answer is given by a script, and what the deployer does is recorded
 * as a trace of effects.
 */
module BlueGreen {
  import opened Options
  import opened Services

  datatype Color = Blue | Green
  datatype Container = Container(name: string, status: string, health: Health)

  /** What Inspect answers: an error, or the project's containers. */
  datatype Inspection = Failed | States(list: seq<Container>)

  /**
   * The environment's answers to one Deploy: both detection inspections, the
   * inner Deploy, the inspections at successive ticks (when they are used up the
   * deadline fires or the context ends), and the inner Down.
   */
  datatype Script = Script(blue: Inspection, green: Inspection, deployOk: bool, polls: seq<Inspection>, downOk: bool)

  datatype Effect =
    | Inspected(project: string, seen: Inspection)
    | Deployed(project: string, ok: bool)
    | GaveUp(project: string)
    | Downed(project: string, ok: bool)

  function ColorName(c: Color): string {
    if c.Blue? then "blue" else "green"
  }

  function ColoredProject(project: string, c: Color): string {
    project + "-" + ColorName(c)
  }

  /** oppositeColor: green and "no colour yet" both give blue. */
  function Opposite(active: Option<Color>): Color {
    if active == Some(Blue) then Green else Blue
  }

  lemma ColoredProjectInjective(project: string)
    ensures ColoredProject(project, Blue) != ColoredProject(project, Green)
  {
    assert ColoredProject(project, Blue)[|project| + 1] == 'b';
    assert ColoredProject(project, Green)[|project| + 1] == 'g';
  }

  predicate AnyRunning(states: seq<Container>) {
    exists s :: s in states && s.status == "running"
  }

  /** A snapshot that passes the health gate. */
  predicate GoodSnapshot(seen: Inspection) {
    seen.States? && seen.list != [] && forall s :: s in seen.list ==> s.health.Healthy?
  }

  // ----- the code -----

  method AllHealthy(states: seq<Container>) returns (ok: bool)
    ensures ok <==> GoodSnapshot(States(states))
  {
    if |states| == 0 {
      return false;
    }
    for i := 0 to |states|
      invariant forall s :: s in states[..i] ==> s.health.Healthy?
    {
      assert states[..i + 1] == states[..i] + [states[i]];
      if !states[i].health.Healthy? {
        assert states[i] in states;
        return false;
      }
    }
    assert states[..|states|] == states;
    return true;
  }

  /** ActiveBlueGreenState: blue first, then green; the first with a running container wins. */
  method ActiveBlueGreenState(project: string, script: Script) returns (ok: bool, active: Option<Color>, trace: seq<Effect>)
    ensures ok <==> Detects(script)
    ensures ok ==> active == Active(script)
    ensures trace == DetectTrace(project, script)
  {
    trace := [];
    var colors := [Blue, Green];
    for c := 0 to |colors|
      invariant c == 0 ==> trace == []
      invariant c == 1 ==> trace == [Inspected(ColoredProject(project, Blue), script.blue)]
                           && script.blue.States? && !AnyRunning(script.blue.list)
      invariant c == 2 ==> trace == DetectTrace(project, script) && Detects(script) && Active(script) == None
    {
      var seen := if colors[c].Blue? then script.blue else script.green;
      trace := trace + [Inspected(ColoredProject(project, colors[c]), seen)];
      if seen.Failed? {
        return false, None, trace;
      }
      for i := 0 to |seen.list|
        invariant forall s :: s in seen.list[..i] ==> s.status != "running"
      {
        if seen.list[i].status == "running" {
          assert seen.list[i] in seen.list;
          return true, Some(colors[c]), trace;
        }
        assert seen.list[..i + 1] == seen.list[..i] + [seen.list[i]];
      }
      assert seen.list[..|seen.list|] == seen.list;
    }
    return true, None, trace;
  }

  /** waitForHealthy: poll until a good snapshot or until the time is up. */
  method WaitForHealthy(project: string, polls: seq<Inspection>) returns (ok: bool, trace: seq<Effect>)
    ensures ok <==> Passes(polls)
    ensures trace == WaitTrace(project, polls)
  {
    trace := [];
    var i := 0;
    assert polls[0..] == polls;
    while i < |polls|
      invariant 0 <= i <= |polls| && Waited(project, polls, trace, i)
    {
      var seen := polls[i];
      WaitedNext(project, polls, trace, i);
      trace := trace + [Inspected(project, seen)];
      if seen.States? {
        var healthy := AllHealthy(seen.list);
        if healthy {
          return true, trace;
        }
      }
      i := i + 1;
    }
    assert polls[i..] == [];
    trace := trace + [GaveUp(project)];
    return false, trace;
  }

  /** So far no poll was good, and the trace holds the polls so far. */
  ghost predicate Waited(project: string, polls: seq<Inspection>, trace: seq<Effect>, i: nat) {
    && i <= |polls| && (Passes(polls) <==> Passes(polls[i..]))
    && WaitTrace(project, polls) == trace + WaitTrace(project, polls[i..])
  }

  lemma {:induction false} WaitedNext(project: string, polls: seq<Inspection>, trace: seq<Effect>, i: nat)
    requires i < |polls| && Waited(project, polls, trace, i)
    ensures var longer := trace + [Inspected(project, polls[i])];
            if GoodSnapshot(polls[i]) then Passes(polls) && WaitTrace(project, polls) == longer
            else Waited(project, polls, longer, i + 1)
  {
    var rest := polls[i..];
    assert rest[0] == polls[i] && rest[1..] == polls[i + 1..];
    if !GoodSnapshot(polls[i]) {
      Regroup(trace, Inspected(project, polls[i]), WaitTrace(project, rest[1..]));
    }
  }

  lemma Regroup(a: seq<Effect>, e: Effect, b: seq<Effect>)
    ensures a + ([e] + b) == (a + [e]) + b
  {
  }

  method Deploy(project: string, script: Script) returns (ok: bool, trace: seq<Effect>)
    ensures ok <==> Succeeds(script)
    ensures trace == DeployTrace(project, script)
  {
    var detected, active;
    detected, active, trace := ActiveBlueGreenState(project, script);
    if !detected {
      return false, trace;
    }
    var newProject := ColoredProject(project, Opposite(active));
    trace := trace + [Deployed(newProject, script.deployOk)];
    if !script.deployOk {
      return false, trace;
    }
    var healthy, waited := WaitForHealthy(newProject, script.polls);
    trace := trace + waited;
    if !healthy {
      trace := trace + [Downed(newProject, script.downOk)];
      return false, trace;
    }
    if active.Some? {
      trace := trace + [Downed(ColoredProject(project, active.value), script.downOk)];
    }
    return true, trace;
  }

  /** Down stops both colours whatever happens and fails if either did. */
  method Down(project: string, blueOk: bool, greenOk: bool) returns (ok: bool, trace: seq<Effect>)
    ensures ok <==> blueOk && greenOk
    ensures trace == [Downed(ColoredProject(project, Blue), blueOk), Downed(ColoredProject(project, Green), greenOk)]
  {
    ok, trace := true, [];
    var colors := [Blue, Green];
    for c := 0 to 2
      invariant ok <==> (c > 0 ==> blueOk) && (c > 1 ==> greenOk)
      invariant trace == [Downed(ColoredProject(project, Blue), blueOk),
                          Downed(ColoredProject(project, Green), greenOk)][..c]
    {
      var downOk := if colors[c].Blue? then blueOk else greenOk;
      trace := trace + [Downed(ColoredProject(project, colors[c]), downOk)];
      if !downOk {
        ok := false;
      }
    }
  }

  // ----- its specification -----

  predicate Detects(script: Script) {
    script.blue.States? && (AnyRunning(script.blue.list) || script.green.States?)
  }

  function Active(script: Script): Option<Color>
    requires Detects(script)
  {
    if AnyRunning(script.blue.list) then Some(Blue)
    else if AnyRunning(script.green.list) then Some(Green)
    else None
  }

  predicate Passes(polls: seq<Inspection>) {
    polls != [] && (GoodSnapshot(polls[0]) || Passes(polls[1..]))
  }

  predicate Succeeds(script: Script) {
    Detects(script) && script.deployOk && Passes(script.polls)
  }

  function DetectTrace(project: string, script: Script): seq<Effect> {
    [Inspected(ColoredProject(project, Blue), script.blue)] +
    if script.blue.Failed? || AnyRunning(script.blue.list) then []
    else [Inspected(ColoredProject(project, Green), script.green)]
  }

  function WaitTrace(project: string, polls: seq<Inspection>): seq<Effect> {
    if polls == [] then [GaveUp(project)]
    else [Inspected(project, polls[0])] + if GoodSnapshot(polls[0]) then [] else WaitTrace(project, polls[1..])
  }

  function DeployTrace(project: string, script: Script): seq<Effect> {
    var detect := DetectTrace(project, script);
    if !Detects(script) then detect
    else
      var active := Active(script);
      var target := ColoredProject(project, Opposite(active));
      var deploy := detect + [Deployed(target, script.deployOk)];
      if !script.deployOk then deploy
      else
        var wait := deploy + WaitTrace(target, script.polls);
        if !Passes(script.polls) then wait + [Downed(target, script.downOk)]
        else if active.Some? then wait + [Downed(ColoredProject(project, active.value), script.downOk)]
        else wait
  }

  // ----- the old colour goes down only behind a healthy new one -----

  lemma {:induction false} WaitShows(project: string, polls: seq<Inspection>)
    ensures Passes(polls) ==>
              var w := WaitTrace(project, polls);
              w[|w| - 1].Inspected? && w[|w| - 1].project == project && GoodSnapshot(w[|w| - 1].seen)
    ensures !Passes(polls) ==> WaitTrace(project, polls)[|WaitTrace(project, polls)| - 1] == GaveUp(project)
    ensures WaitTrace(project, polls) != []
    ensures forall i :: 0 <= i < |WaitTrace(project, polls)| ==>
              !WaitTrace(project, polls)[i].Downed? && !WaitTrace(project, polls)[i].Deployed?
  {
    if polls != [] && !GoodSnapshot(polls[0]) {
      WaitShows(project, polls[1..]);
    }
  }

  /**
   * In every Deploy trace, whatever the calls answer: a Down is the last effect;
   * if it stops the old colour it directly follows a non-empty all-healthy
   * snapshot of the new colour; otherwise it stops the new colour, directly
   * after the health gate gave up, and Deploy fails.
   */
  lemma DownIsGated(project: string, script: Script, i: nat)
    requires i < |DeployTrace(project, script)| && DeployTrace(project, script)[i].Downed?
    ensures Detects(script)
    ensures var trace := DeployTrace(project, script);
            var target := ColoredProject(project, Opposite(Active(script)));
            && i == |trace| - 1 > 0
            && if trace[i].project == target
               then trace[i - 1] == GaveUp(target) && !Succeeds(script)
               else && Active(script).Some? && trace[i].project == ColoredProject(project, Active(script).value)
                    && trace[i - 1].Inspected? && trace[i - 1].project == target && GoodSnapshot(trace[i - 1].seen)
                    && Succeeds(script)
  {
    ColoredProjectInjective(project);
    if Detects(script) && script.deployOk {
      var target := ColoredProject(project, Opposite(Active(script)));
      WaitShows(target, script.polls);
      var wait := DetectTrace(project, script) + [Deployed(target, true)] + WaitTrace(target, script.polls);
      assert wait[|wait| - 1] == WaitTrace(target, script.polls)[|WaitTrace(target, script.polls)| - 1];
      assert forall j :: 0 <= j < |wait| ==> !wait[j].Downed?;
    }
  }

  // ----- which colours are up, over any sequence of deployments -----

  /** Inner Deploy and Down are all or nothing. */
  function Apply(project: string, up: set<Color>, e: Effect): set<Color> {
    match e
    case Deployed(p, ok) => if ok then up + {ColorOf(project, p)} else up
    case Downed(p, ok) => if ok then up - {ColorOf(project, p)} else up
    case _ => up
  }

  function ColorOf(project: string, colored: string): Color {
    if colored == ColoredProject(project, Blue) then Blue else Green
  }

  function After(project: string, up: set<Color>, trace: seq<Effect>): set<Color> {
    if trace == [] then up
    else
      var last := |trace| - 1;
      Apply(project, After(project, up, trace[..last]), trace[last])
  }

  /** The detection inspections tell the truth about what is up. */
  ghost predicate Honest(up: set<Color>, script: Script) {
    && (script.blue.States? ==> (AnyRunning(script.blue.list) <==> Blue in up))
    && (script.green.States? ==> (AnyRunning(script.green.list) <==> Green in up))
  }

  lemma AfterAppend(project: string, up: set<Color>, trace: seq<Effect>, e: Effect)
    ensures After(project, up, trace + [e]) == Apply(project, After(project, up, trace), e)
  {
    assert (trace + [e])[..|trace|] == trace;
  }

  /** Inspecting and giving up change nothing. */
  lemma {:induction false} AfterQuiet(project: string, up: set<Color>, trace: seq<Effect>, quiet: seq<Effect>)
    requires Quiet(quiet)
    ensures After(project, up, trace + quiet) == After(project, up, trace)
  {
    if quiet == [] {
      assert trace + quiet == trace;
    } else {
      var last := |quiet| - 1;
      AfterQuiet(project, up, trace, quiet[..last]);
      assert trace + quiet == (trace + quiet[..last]) + [quiet[last]];
      AfterAppend(project, up, trace + quiet[..last], quiet[last]);
    }
  }

  /** The colours up when Deploy returns. */
  ghost function Result(up: set<Color>, script: Script): set<Color> {
    if !Detects(script) || !script.deployOk then up
    else
      var target := Opposite(Active(script));
      if !Passes(script.polls) then if script.downOk then up - {target} else up + {target}
      else if Active(script).Some? && script.downOk then up + {target} - {Active(script).value}
      else up + {target}
  }

  lemma ColorOfColored(project: string, c: Color)
    ensures ColorOf(project, ColoredProject(project, c)) == c
  {
    ColoredProjectInjective(project);
  }

  predicate Quiet(trace: seq<Effect>) {
    forall i :: 0 <= i < |trace| ==> !trace[i].Deployed? && !trace[i].Downed?
  }

  lemma AfterUp(project: string, up: set<Color>, detect: seq<Effect>, target: string, wait: seq<Effect>)
    requires Quiet(detect) && Quiet(wait)
    ensures After(project, up, detect + [Deployed(target, true)] + wait) == up + {ColorOf(project, target)}
  {
    AfterQuiet(project, up, [], detect);
    assert [] + detect == detect;
    AfterAppend(project, up, detect, Deployed(target, true));
    AfterQuiet(project, up, detect + [Deployed(target, true)], wait);
  }

  /** The new colour is up while Deploy waits for it. */
  lemma AfterWait(project: string, up: set<Color>, script: Script)
    requires Detects(script) && script.deployOk
    ensures var target := ColoredProject(project, Opposite(Active(script)));
            After(project, up, DetectTrace(project, script) + [Deployed(target, true)] + WaitTrace(target, script.polls))
            == up + {Opposite(Active(script))}
  {
    var target := ColoredProject(project, Opposite(Active(script)));
    ColorOfColored(project, Opposite(Active(script)));
    WaitShows(target, script.polls);
    AfterUp(project, up, DetectTrace(project, script), target, WaitTrace(target, script.polls));
  }

  lemma EarlyResult(project: string, up: set<Color>, script: Script)
    requires !Detects(script) || !script.deployOk
    ensures After(project, up, DeployTrace(project, script)) == up
  {
    var detect := DetectTrace(project, script);
    AfterQuiet(project, up, [], detect);
    assert [] + detect == detect;
    if Detects(script) {
      AfterAppend(project, up, detect, Deployed(ColoredProject(project, Opposite(Active(script))), false));
    }
  }

  /** One Down, of one colour, at the end of the trace. */
  lemma LastDown(project: string, up: set<Color>, wait: seq<Effect>, c: Color, ok: bool)
    ensures After(project, up, wait + [Downed(ColoredProject(project, c), ok)])
            == if ok then After(project, up, wait) - {c} else After(project, up, wait)
  {
    AfterAppend(project, up, wait, Downed(ColoredProject(project, c), ok));
    ColorOfColored(project, c);
  }

  lemma DeployResult(project: string, up: set<Color>, script: Script)
    ensures After(project, up, DeployTrace(project, script)) == Result(up, script)
  {
    if !Detects(script) || !script.deployOk {
      EarlyResult(project, up, script);
    } else {
      var c := Opposite(Active(script));
      var target := ColoredProject(project, c);
      var wait := DetectTrace(project, script) + [Deployed(target, true)] + WaitTrace(target, script.polls);
      AfterWait(project, up, script);
      LastDown(project, up, wait, if Passes(script.polls) && Active(script).Some? then Active(script).value else c, script.downOk);
      assert up + {c} - {c} == up - {c};
    }
  }

  lemma ResultNotEmpty(up: set<Color>, script: Script)
    requires up != {} && Honest(up, script)
    ensures Result(up, script) != {}
  {
    var c :| c in up;
    assert c == Blue || c == Green;
    if Detects(script) {
      assert Active(script).Some? && Active(script).value in up;
      assert Active(script).value in Result(up, script) || Opposite(Active(script)) in Result(up, script);
    }
  }

  /**
   * Zero downtime inside one call: if some colour is up before Deploy, some
   * colour is up after every single effect, whatever fails.
   */
  lemma NeverDark(project: string, up: set<Color>, script: Script, n: nat)
    requires up != {} && Honest(up, script) && n <= |DeployTrace(project, script)|
    ensures After(project, up, DeployTrace(project, script)[..n]) != {}
  {
    var trace := DeployTrace(project, script);
    if n == |trace| {
      assert trace[..n] == trace;
      DeployResult(project, up, script);
      ResultNotEmpty(up, script);
    } else {
      KeepsUp(project, up, script, n);
    }
  }

  /** Without a Down nothing is taken down. */
  lemma {:induction false} KeptWithoutDown(project: string, up: set<Color>, trace: seq<Effect>)
    requires forall i :: 0 <= i < |trace| ==> !trace[i].Downed?
    ensures up <= After(project, up, trace)
  {
    if trace != [] {
      KeptWithoutDown(project, up, trace[..|trace| - 1]);
    }
  }

  /** Before the last effect nothing is ever taken down. */
  lemma {:induction false} KeepsUp(project: string, up: set<Color>, script: Script, n: nat)
    requires n < |DeployTrace(project, script)|
    ensures up <= After(project, up, DeployTrace(project, script)[..n])
  {
    var trace := DeployTrace(project, script);
    forall i | 0 <= i < n ensures !trace[..n][i].Downed? {
      NoDownBeforeLast(project, script, i);
    }
    KeptWithoutDown(project, up, trace[..n]);
  }

  lemma NoDownBeforeLast(project: string, script: Script, i: nat)
    requires i < |DeployTrace(project, script)| - 1
    ensures !DeployTrace(project, script)[i].Downed?
  {
    if DeployTrace(project, script)[i].Downed? {
      DownIsGated(project, script, i);
    }
  }

  // ----- runs of deployments -----

  predicate IsUp(up: set<Color>) {
    up != {}
  }

  /** Each call's inspections are honest about the colours then up. */
  ghost predicate HonestRun(up: set<Color>, scripts: seq<Script>)
    decreases |scripts|
  {
    scripts == [] ||
    (Honest(up, scripts[0]) && HonestRun(Result(up, scripts[0]), scripts[1..]))
  }

  /** No Down that matters fails: nothing was up, or Deploy did not get as far as a Down, or the Down succeeds. */
  predicate CleanCall(up: set<Color>, script: Script) {
    up == {} || !Detects(script) || !script.deployOk || script.downOk
  }

  ghost predicate CleanRun(up: set<Color>, scripts: seq<Script>)
    decreases |scripts|
  {
    scripts == [] || (CleanCall(up, scripts[0]) && CleanRun(Result(up, scripts[0]), scripts[1..]))
  }

  ghost function FinalUp(up: set<Color>, scripts: seq<Script>): set<Color>
    decreases |scripts|
  {
    if scripts == [] then up else FinalUp(Result(up, scripts[0]), scripts[1..])
  }

  /** The colours brought up by the successful calls, in order. */
  ghost function Switches(up: set<Color>, scripts: seq<Script>): seq<Color>
    decreases |scripts|
  {
    if scripts == [] then []
    else (if Succeeds(scripts[0]) then [Opposite(Active(scripts[0]))] else [])
         + Switches(Result(up, scripts[0]), scripts[1..])
  }

  /**
   * Over any sequence of Deploys with honest detection, whatever else fails, a
   * service that is up before is up after each call and after each single effect.
   */
  lemma {:induction false} UpForever(project: string, up: set<Color>, scripts: seq<Script>, k: nat, n: nat)
    requires HonestRun(up, scripts) && IsUp(up) && k < |scripts| && n <= |DeployTrace(project, scripts[k])|
    ensures IsUp(FinalUp(up, scripts[..k]))
    ensures IsUp(After(project, FinalUp(up, scripts[..k]), DeployTrace(project, scripts[k])[..n]))
    decreases |scripts|
  {
    if k == 0 {
      assert scripts[..0] == [];
      NeverDark(project, up, scripts[0], n);
    } else {
      var script, rest := scripts[0], scripts[1..];
      assert rest[k - 1] == scripts[k] && scripts[..k][0] == script && scripts[..k][1..] == rest[..k - 1];
      ResultNotEmpty(up, script);
      UpForever(project, Result(up, script), rest, k - 1, n);
    }
  }

  predicate AtMostOne(up: set<Color>) {
    up == {} || up == {Blue} || up == {Green}
  }

  /**
   * With truthful detection, a Deploy that finds at most one colour up leaves at
   * most one up if and only if no Down that matters fails: the Down of the old
   * colour after a switch, or of the new one after a failed health gate.
   */
  lemma AtMostOneIffClean(up: set<Color>, script: Script)
    requires AtMostOne(up) && Honest(up, script)
    ensures AtMostOne(Result(up, script)) <==> CleanCall(up, script)
    ensures Result(up, script) == {Blue, Green} <==> !CleanCall(up, script)
  {
  }

  lemma ResultClean(up: set<Color>, script: Script)
    requires AtMostOne(up) && Honest(up, script) && CleanCall(up, script)
    ensures Succeeds(script) ==> Result(up, script) == {Opposite(Active(script))} && Opposite(Active(script)) !in up
    ensures !Succeeds(script) ==> Result(up, script) == up || (up == {} && Result(up, script) == {Blue})
  {
  }

  predicate Alternates(colors: seq<Color>) {
    forall i :: 0 <= i < |colors| - 1 ==> colors[i + 1] != colors[i]
  }

  /** What the successful calls of a run have to do with the colours up before and after it. */
  predicate Switched(up: set<Color>, colors: seq<Color>, final: set<Color>) {
    && Alternates(colors)
    && (colors != [] ==> colors[0] !in up && final == {colors[|colors| - 1]})
    && (colors == [] ==> final == up || (up == {} && final == {Blue}))
  }

  lemma {:induction false} SwitchedFirst(up: set<Color>, c: Color, colors: seq<Color>, final: set<Color>)
    requires c !in up && Switched({c}, colors, final)
    ensures Switched(up, [c] + colors, final)
  {
    assert colors != [] ==> ([c] + colors)[|colors|] == colors[|colors| - 1];
  }

  lemma {:induction false} SwitchedOn(up: set<Color>, next: set<Color>, colors: seq<Color>, final: set<Color>)
    requires (next == up || (up == {} && next == {Blue})) && Switched(next, colors, final)
    ensures Switched(up, colors, final)
  {
  }

  /**
   * Over any sequence of Deploys with truthful detection in which no Down that
   * matters fails: at most one colour is up after each call, successful calls
   * alternate colours, starting from one that is not up, and the last of them
   * is the colour that is up.
   */
  lemma {:induction false} AlternateForever(up: set<Color>, scripts: seq<Script>)
    requires AtMostOne(up) && HonestRun(up, scripts) && CleanRun(up, scripts)
    ensures AtMostOne(FinalUp(up, scripts)) && Switched(up, Switches(up, scripts), FinalUp(up, scripts))
    decreases |scripts|
  {
    if scripts != [] {
      var script, next := scripts[0], Result(up, scripts[0]);
      var colors, final := Switches(next, scripts[1..]), FinalUp(next, scripts[1..]);
      AtMostOneIffClean(up, script);
      ResultClean(up, script);
      AlternateForever(next, scripts[1..]);
      if Succeeds(script) {
        SwitchedFirst(up, Opposite(Active(script)), colors, final);
      } else {
        SwitchedOn(up, next, colors, final);
        assert Switches(up, scripts) == colors;
      }
    }
  }
}
