/**
 * Sync waves: services are grouped by their wave label, and a multi-wave
 * deployment runs pre-sync hooks, one pull, then each wave followed by its
 * health gate, then post-sync hooks. Any call may fail.
 */
module Waves {
  import opened Ordering
  import opened Decimal
  import opened Services

  datatype Service = Service(name: string, labels: map<string, string>)
  datatype WaveGroup = WaveGroup(wave: int, services: seq<string>)

  predicate IsHook(s: Service) {
    HOOK_LABEL in s.labels
  }

  /** The wave of a service; a missing or unreadable label means wave 0. */
  function WaveOf(s: Service): int {
    if SYNC_WAVE_LABEL in s.labels && Atoi(s.labels[SYNC_WAVE_LABEL]).Some?
    then Atoi(s.labels[SYNC_WAVE_LABEL]).value else 0
  }

  /** A label written from a number puts the service in that wave. */
  lemma WaveOfLabel(s: Service, n: nat)
    requires SYNC_WAVE_LABEL in s.labels && n <= MAX_INT
    ensures s.labels[SYNC_WAVE_LABEL] == Print(n) ==> WaveOf(s) == n
    ensures s.labels[SYNC_WAVE_LABEL] == "-" + Print(n) ==> WaveOf(s) == 0 - n
  {
    AtoiPrint(n);
    AtoiNegative(n);
  }

  /** Names of the non-hook services of one wave, in file order. */
  function NamesAt(services: seq<Service>, w: int): seq<string> {
    if services == [] then []
    else
      var last := |services| - 1;
      NamesAt(services[..last], w) +
      if !IsHook(services[last]) && WaveOf(services[last]) == w then [services[last].name] else []
  }

  predicate StrictlyAscendingWaves(groups: seq<WaveGroup>) {
    forall i, j :: 0 <= i < j < |groups| ==> groups[i].wave < groups[j].wave
  }

  /** One step of the sort by wave number. */
  function InsertGroup(g: WaveGroup, groups: seq<WaveGroup>): (r: seq<WaveGroup>)
    requires StrictlyAscendingWaves(groups)
    requires forall x :: x in groups ==> x.wave != g.wave
    ensures StrictlyAscendingWaves(r)
    ensures forall x :: x in r <==> x == g || x in groups
  {
    if groups == [] || g.wave < groups[0].wave then [g] + groups
    else
      assert groups == [groups[0]] + groups[1..];
      var rest := InsertGroup(g, groups[1..]);
      assert forall i :: 0 <= i < |rest| ==> rest[i] in rest;
      [groups[0]] + rest
  }

  /** The first loop of groupByWave: names collected per wave. */
  method CollectWaves(services: seq<Service>) returns (waveMap: map<int, seq<string>>)
    ensures forall w :: w in waveMap <==> NamesAt(services, w) != []
    ensures forall w :: w in waveMap ==> waveMap[w] == NamesAt(services, w)
  {
    waveMap := map[];
    var i := 0;
    while i < |services|
      invariant 0 <= i <= |services|
      invariant forall w :: w in waveMap <==> NamesAt(services[..i], w) != []
      invariant forall w :: w in waveMap ==> waveMap[w] == NamesAt(services[..i], w)
    {
      var svc := services[i];
      assert services[..i + 1][..i] == services[..i] && services[..i + 1][i] == svc;
      if !IsHook(svc) {
        var wave := WaveOf(svc);
        waveMap := waveMap[wave := (if wave in waveMap then waveMap[wave] else []) + [svc.name]];
      }
      i := i + 1;
    }
    assert services[..i] == services;
  }

  /** The second loop, over the map's entries in any order, with both sorts. */
  method SortWaves(waveMap: map<int, seq<string>>) returns (groups: seq<WaveGroup>)
    ensures StrictlyAscendingWaves(groups)
    ensures forall g :: g in groups <==> g.wave in waveMap && g.services == SortStrings(waveMap[g.wave])
  {
    groups := [];
    var todo := set w | w in waveMap :: WaveGroup(w, waveMap[w]);
    while todo != {}
      invariant forall g :: g in todo ==> g.wave in waveMap && g.services == waveMap[g.wave]
      invariant StrictlyAscendingWaves(groups)
      invariant forall g :: g in groups <==>
        g.wave in waveMap && WaveGroup(g.wave, waveMap[g.wave]) !in todo && g.services == SortStrings(waveMap[g.wave])
      decreases |todo|
    {
      var entry :| entry in todo;
      todo := todo - {entry};
      groups := InsertGroup(WaveGroup(entry.wave, SortStrings(entry.services)), groups);
    }
  }

  ghost predicate IsGrouping(services: seq<Service>, groups: seq<WaveGroup>) {
    && StrictlyAscendingWaves(groups)
    && forall g :: g in groups <==> g.services != [] && g.services == SortStrings(NamesAt(services, g.wave))
  }

  /**
   * groupByWave, for every map iteration order: the waves are strictly
   * ascending, a wave is listed exactly when some non-hook service has it, and
   * its services are exactly those, sorted by name.
   */
  method GroupByWave(services: seq<Service>) returns (groups: seq<WaveGroup>)
    ensures IsGrouping(services, groups)
  {
    var waveMap := CollectWaves(services);
    groups := SortWaves(waveMap);
    forall g ensures g in groups <==> g.services != [] && g.services == SortStrings(NamesAt(services, g.wave)) {
      SortKeepsEmpty(NamesAt(services, g.wave));
    }
  }

  lemma SortKeepsEmpty(s: seq<string>)
    ensures SortStrings(s) == [] <==> s == []
  {
    assert |multiset(SortStrings(s))| == |multiset(s)| == |s|;
  }

  lemma {:induction false} NamesAtContains(services: seq<Service>, s: Service)
    requires s in services && !IsHook(s)
    ensures s.name in NamesAt(services, WaveOf(s))
  {
    var last := |services| - 1;
    assert services == services[..last] + [services[last]];
    if s != services[last] {
      NamesAtContains(services[..last], s);
    }
  }

  lemma {:induction false} NamesAtOrigin(services: seq<Service>, w: int, name: string)
    requires name in NamesAt(services, w)
    ensures exists s :: s in services && !IsHook(s) && WaveOf(s) == w && s.name == name
  {
    var last := |services| - 1;
    assert services == services[..last] + [services[last]];
    if name in NamesAt(services[..last], w) {
      NamesAtOrigin(services[..last], w, name);
    }
  }

  predicate DistinctNames(services: seq<Service>) {
    forall i, j :: 0 <= i < j < |services| ==> services[i].name != services[j].name
  }

  /** A non-hook service is listed in the group of its wave. */
  lemma GroupOf(services: seq<Service>, groups: seq<WaveGroup>, s: Service) returns (k: nat)
    requires IsGrouping(services, groups) && s in services && !IsHook(s)
    ensures k < |groups| && groups[k].wave == WaveOf(s) && s.name in groups[k].services
  {
    NamesAtContains(services, s);
    var names := NamesAt(services, WaveOf(s));
    var g := WaveGroup(WaveOf(s), SortStrings(names));
    assert s.name in multiset(SortStrings(names));
    assert g in groups;
    k :| 0 <= k < |groups| && groups[k] == g;
  }

  /** With distinct names, a group lists only services of its wave, and no hooks. */
  lemma WaveOfListed(services: seq<Service>, groups: seq<WaveGroup>, k: nat, s: Service)
    requires IsGrouping(services, groups) && DistinctNames(services)
    requires k < |groups| && s in services && s.name in groups[k].services
    ensures !IsHook(s) && WaveOf(s) == groups[k].wave
  {
    var g := groups[k];
    assert g in groups;
    assert s.name in multiset(SortStrings(NamesAt(services, g.wave)));
    NamesAtOrigin(services, g.wave, s.name);
  }

  /**
   * With distinct service names the groups partition the non-hook services:
   * each is in exactly one group, the one of its wave, and hooks are in none.
   */
  lemma GroupsPartition(services: seq<Service>, groups: seq<WaveGroup>, s: Service)
    requires IsGrouping(services, groups) && s in services && DistinctNames(services)
    ensures IsHook(s) ==> forall k :: 0 <= k < |groups| ==> s.name !in groups[k].services
    ensures !IsHook(s) ==> exists k :: 0 <= k < |groups| && groups[k].wave == WaveOf(s) && s.name in groups[k].services
    ensures !IsHook(s) ==> forall k :: 0 <= k < |groups| && s.name in groups[k].services ==> groups[k].wave == WaveOf(s)
  {
    forall k | 0 <= k < |groups| && s.name in groups[k].services ensures !IsHook(s) && groups[k].wave == WaveOf(s) {
      WaveOfListed(services, groups, k, s);
    }
    if !IsHook(s) {
      var k := GroupOf(services, groups, s);
    }
  }

  /** Two deployable services carry different waves. */
  predicate ManyWaves(services: seq<Service>) {
    exists s, t :: s in services && t in services && !IsHook(s) && !IsHook(t) && WaveOf(s) != WaveOf(t)
  }

  lemma ManyWavesGrouped(services: seq<Service>, groups: seq<WaveGroup>)
    requires IsGrouping(services, groups)
    ensures |groups| > 1 <==> ManyWaves(services)
  {
    if |groups| > 1 {
      var s := SomeoneIn(services, groups, 0);
      var t := SomeoneIn(services, groups, 1);
      assert s in services && t in services && WaveOf(s) != WaveOf(t);
    }
    if ManyWaves(services) {
      var s, t :| s in services && t in services && !IsHook(s) && !IsHook(t) && WaveOf(s) != WaveOf(t);
      var j := GroupOf(services, groups, s);
      var k := GroupOf(services, groups, t);
      assert j != k;
    }
  }

  lemma SomeoneIn(services: seq<Service>, groups: seq<WaveGroup>, k: nat) returns (s: Service)
    requires IsGrouping(services, groups) && k < |groups|
    ensures s in services && !IsHook(s) && WaveOf(s) == groups[k].wave
  {
    var g := groups[k];
    assert g in groups;
    assert g.services[0] in multiset(SortStrings(NamesAt(services, g.wave)));
    NamesAtOrigin(services, g.wave, g.services[0]);
    s :| s in services && !IsHook(s) && WaveOf(s) == g.wave && s.name == g.services[0];
  }

  // ----- the health gate -----

  datatype ServiceStatus = ServiceStatus(name: string, health: Health)
  datatype Poll = CheckError | Snapshot(services: seq<ServiceStatus>)

  /** One snapshot in which every named service occurs and every occurrence is healthy. */
  ghost predicate AllHealthyIn(poll: Poll, names: seq<string>) {
    && poll.Snapshot?
    && (forall n :: n in names ==> exists s :: s in poll.services && s.name == n)
    && (forall s :: s in poll.services && s.name in names ==> s.health.Healthy?)
  }

  /** The body of one tick: count the wanted services seen healthy, stop at an unhealthy one. */
  method SnapshotPasses(services: seq<ServiceStatus>, names: seq<string>) returns (ok: bool)
    ensures ok <==> AllHealthyIn(Snapshot(services), names)
  {
    var nameSet := set n | n in names;
    var healthy: set<string> := {};
    var i := 0;
    while i < |services|
      invariant 0 <= i <= |services|
      invariant forall s :: s in services[..i] && s.name in names ==> s.health.Healthy?
      invariant healthy == set s | s in services[..i] && s.name in names :: s.name
    {
      var svc := services[i];
      assert services[..i + 1] == services[..i] + [svc];
      i := i + 1;
      if svc.name !in nameSet {
        continue;
      }
      if !svc.health.Healthy? {
        assert svc in services;
        return false;
      }
      healthy := healthy + {svc.name};
    }
    assert services[..i] == services;
    ok := |healthy| == |nameSet|;
    SubsetCount(healthy, nameSet);
    if ok {
      forall n | n in names ensures exists s :: s in services && s.name == n {
        assert n in healthy;
      }
    } else {
      var n :| n in nameSet && n !in healthy;
      assert forall s :: s in services && s.name in names ==> s.name in healthy;
      assert !exists s :: s in services && s.name == n;
    }
  }

  lemma SubsetCount(a: set<string>, b: set<string>)
    requires a <= b
    ensures |a| == |b| <==> a == b
  {
    assert b == a + (b - a);
  }

  /**
   * WaitForServicesHealthy: succeeds exactly when no service is named or some
   * poll, before the deadline or cancellation, shows all of them healthy at once.
   */
  method WaitForServicesHealthy(names: seq<string>, polls: seq<Poll>) returns (ok: bool, evidence: Poll)
    ensures ok ==> names == [] || (evidence in polls && AllHealthyIn(evidence, names))
    ensures !ok ==> names != [] && forall p :: p in polls ==> !AllHealthyIn(p, names)
  {
    evidence := CheckError;
    if |names| == 0 {
      return true, evidence;
    }
    var i := 0;
    while i < |polls|
      invariant 0 <= i <= |polls|
      invariant forall p :: p in polls[..i] ==> !AllHealthyIn(p, names)
    {
      evidence := polls[i];
      if evidence.Snapshot? {
        var passes := SnapshotPasses(evidence.services, names);
        if passes {
          return true, evidence;
        }
      }
      assert polls[..i + 1] == polls[..i] + [polls[i]];
      i := i + 1;
    }
    assert polls[..i] == polls;
    return false, evidence;
  }
}
