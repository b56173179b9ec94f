/**
 * Comparing one desired service with its live counterpart, field by field, and
 * what it means for the comparison to find nothing.
 */
module Compare {
  import opened Ordering
  import opened PortVolume
  import opened Text

  datatype ServiceSpec = ServiceSpec(
    name: string, image: string, environment: map<string, string>,
    ports: seq<PortMapping>, volumes: seq<VolumeMount>, networks: seq<string>,
    labels: map<string, string>, restartPolicy: string, command: seq<string>, entrypoint: seq<string>)

  datatype ServiceState = ServiceState(
    name: string, image: string, environment: map<string, string>,
    ports: seq<PortMapping>, volumes: seq<VolumeMount>, networks: seq<string>,
    labels: map<string, string>, restartPolicy: string, command: seq<string>, entrypoint: seq<string>)

  datatype FieldDiff = FieldDiff(field: string, desired: string, live: string)

  // ----- small text helpers -----

  function JoinText(parts: seq<string>, sep: string): string {
    if parts == [] then ""
    else if |parts| == 1 then parts[0]
    else parts[0] + sep + JoinText(parts[1..], sep)
  }

  predicate HasPrefix(s: string, p: string) {
    p <= s
  }

  predicate HasSuffix(s: string, p: string) {
    |p| <= |s| && s[|s| - |p|..] == p
  }

  /** normalizeImage: default tag, registry and namespace filled in. */
  function NormalizeImage(image: string): string {
    if image == "" then ""
    else
      var tagged := if ':' in image then image else image + ":latest";
      var slash := Find(tagged, '/');
      if slash == |tagged| then "docker.io/library/" + tagged
      else if '.' !in tagged[..slash] && ':' !in tagged[..slash] then "docker.io/" + tagged
      else tagged
  }

  /** What is put in front of a name: the registry and namespace it leaves out. */
  function ImagePrefix(name: string): string {
    var slash := Find(name, '/');
    if slash == |name| then "docker.io/library/"
    else if '.' !in name[..slash] && ':' !in name[..slash] then "docker.io/"
    else ""
  }

  /** A tagged image keeps name and tag, behind the prefix its name calls for. */
  lemma TaggedImage(name: string, tag: string)
    requires '/' !in tag
    ensures NormalizeImage(name + ":" + tag) == ImagePrefix(name) + (name + ":" + tag)
  {
    var image := name + ":" + tag;
    assert image[|name|] == ':';
    FindSpec(name, '/');
    FindSpec(image, '/');
    if Find(name, '/') < |name| {
      FindAt(image, '/', Find(name, '/'));
      assert image[..Find(name, '/')] == name[..Find(name, '/')];
    } else {
      assert '/' !in image;
    }
  }

  /** An untagged one is the latest. */
  lemma UntaggedImage(name: string)
    requires name != "" && ':' !in name
    ensures NormalizeImage(name) == NormalizeImage(name + ":latest")
  {
    assert (name + ":latest")[|name|] == ':';
  }

  /** Bare names get the official registry and namespace, namespaced ones the registry, others nothing. */
  lemma PrefixOf(first: string, rest: string)
    requires '/' !in first
    ensures ImagePrefix(first) == "docker.io/library/"
    ensures ImagePrefix(first + "/" + rest) == if '.' in first || ':' in first then "" else "docker.io/"
  {
    var name := first + "/" + rest;
    FindSpec(first, '/');
    assert name[|first|] == '/';
    FindAt(name, '/', |first|);
    assert name[..|first|] == first;
  }

  /** Two tags of one name never match. */
  lemma TagsDiffer(name: string, t: string, u: string)
    requires '/' !in t && '/' !in u && t != u
    ensures NormalizeImage(name + ":" + t) != NormalizeImage(name + ":" + u)
  {
    TaggedImage(name, t);
    TaggedImage(name, u);
    var p := ImagePrefix(name);
    var a, b := p + (name + ":" + t), p + (name + ":" + u);
    var k := |p| + |name| + 1;
    assert a[k..] == t && b[k..] == u;
  }

  // ----- environment -----

  predicate EnvMatches(desired: map<string, string>, live: map<string, string>) {
    forall k :: k in desired ==> k in live && live[k] == desired[k]
  }

  function EnvDiffs(keys: seq<string>, desired: map<string, string>, live: map<string, string>): seq<FieldDiff>
    requires forall k :: k in keys ==> k in desired
  {
    if keys == [] then []
    else
      var k := keys[|keys| - 1];
      EnvDiffs(keys[..|keys| - 1], desired, live) +
      if k in live && live[k] == desired[k] then []
      else [FieldDiff("environment." + k, desired[k], if k in live then live[k] else "")]
  }

  method CompareEnvironment(desired: map<string, string>, live: map<string, string>) returns (diffs: seq<FieldDiff>)
    ensures diffs == EnvDiffs(SortedKeys(desired.Keys), desired, live)
  {
    diffs := [];
    var keys := SortedKeys(desired.Keys);
    for i := 0 to |keys|
      invariant diffs == EnvDiffs(keys[..i], desired, live)
    {
      var key := keys[i];
      EnvDiffsNext(keys, i, desired, live);
      if key in live {
        if desired[key] != live[key] {
          diffs := diffs + [FieldDiff("environment." + key, desired[key], live[key])];
        }
      } else {
        diffs := diffs + [FieldDiff("environment." + key, desired[key], "")];
      }
    }
    assert keys[..|keys|] == keys;
  }

  lemma {:induction false} EnvDiffsNext(keys: seq<string>, i: nat, desired: map<string, string>, live: map<string, string>)
    requires i < |keys| && forall k :: k in keys ==> k in desired
    ensures var k := keys[i];
            EnvDiffs(keys[..i + 1], desired, live) == EnvDiffs(keys[..i], desired, live) +
            if k in live && live[k] == desired[k] then []
            else [FieldDiff("environment." + k, desired[k], if k in live then live[k] else "")]
  {
    assert keys[..i + 1][..i] == keys[..i];
  }

  lemma {:induction false} EnvDiffsEmpty(keys: seq<string>, desired: map<string, string>, live: map<string, string>)
    requires forall k :: k in keys ==> k in desired
    ensures EnvDiffs(keys, desired, live) == [] <==> forall k :: k in keys ==> k in live && live[k] == desired[k]
  {
    if keys != [] {
      EnvDiffsEmpty(keys[..|keys| - 1], desired, live);
      assert keys == keys[..|keys| - 1] + [keys[|keys| - 1]];
    }
  }

  /** Each variable that is missing or different is reported once under its name, the desired value first. */
  lemma {:induction false} EnvReported(keys: seq<string>, desired: map<string, string>, live: map<string, string>, x: FieldDiff)
    requires forall k :: k in keys ==> k in desired
    ensures x in EnvDiffs(keys, desired, live) <==>
            exists k :: k in keys && EnvReport(k, desired, live, x)
  {
    if keys != [] {
      var rest, k := keys[..|keys| - 1], keys[|keys| - 1];
      assert keys == rest + [k];
      EnvReported(rest, desired, live, x);
      assert x in EnvDiffs(keys, desired, live) <==> x in EnvDiffs(rest, desired, live) || EnvReport(k, desired, live, x);
    }
  }

  predicate EnvReport(k: string, desired: map<string, string>, live: map<string, string>, x: FieldDiff) {
    && k in desired && x.field == "environment." + k && x.desired == desired[k]
    && (if k in live then x.live == live[k] != desired[k] else x.live == "")
  }

  // ----- labels -----

  predicate DockerManaged(key: string) {
    HasPrefix(key, "desktop.docker.io/") || HasPrefix(key, "com.docker.compose.")
  }

  /** Desired labels are live, and every live label not managed by Docker is desired. */
  predicate LabelsMatch(desired: map<string, string>, live: map<string, string>) {
    && (forall k :: k in desired ==> k in live && live[k] == desired[k])
    && (forall k :: k in live && !DockerManaged(k) ==> k in desired)
  }

  function LabelKeys(desired: map<string, string>, live: map<string, string>): set<string> {
    desired.Keys + set k | k in live && !DockerManaged(k)
  }

  function LabelDiff(k: string, desired: map<string, string>, live: map<string, string>): seq<FieldDiff> {
    if k in desired && k in live && desired[k] != live[k] then [FieldDiff("labels." + k, desired[k], live[k])]
    else if k in desired && k !in live then [FieldDiff("labels." + k, desired[k], "")]
    else if k !in desired && k in live && !DockerManaged(k) then [FieldDiff("labels." + k, "", live[k])]
    else []
  }

  function LabelDiffs(keys: seq<string>, desired: map<string, string>, live: map<string, string>): seq<FieldDiff> {
    if keys == [] then []
    else LabelDiffs(keys[..|keys| - 1], desired, live) + LabelDiff(keys[|keys| - 1], desired, live)
  }

  method CompareLabels(desired: map<string, string>, live: map<string, string>) returns (diffs: seq<FieldDiff>)
    ensures diffs == LabelDiffs(SortedKeys(LabelKeys(desired, live)), desired, live)
  {
    diffs := [];
    var keys := SortedKeys(LabelKeys(desired, live));
    for i := 0 to |keys|
      invariant diffs == LabelDiffs(keys[..i], desired, live)
    {
      LabelDiffsNext(keys, i, desired, live);
      diffs := diffs + LabelDiff(keys[i], desired, live);
    }
    assert keys[..|keys|] == keys;
  }

  lemma {:induction false} LabelDiffsNext(keys: seq<string>, i: nat, desired: map<string, string>, live: map<string, string>)
    requires i < |keys|
    ensures LabelDiffs(keys[..i + 1], desired, live) == LabelDiffs(keys[..i], desired, live) + LabelDiff(keys[i], desired, live)
  {
    assert keys[..i + 1][..i] == keys[..i];
  }

  lemma {:induction false} LabelDiffsEmpty(keys: seq<string>, desired: map<string, string>, live: map<string, string>)
    ensures LabelDiffs(keys, desired, live) == [] <==> forall k :: k in keys ==> LabelDiff(k, desired, live) == []
  {
    if keys != [] {
      var rest, k := keys[..|keys| - 1], keys[|keys| - 1];
      LabelDiffsEmpty(rest, desired, live);
      assert keys == rest + [k];
      assert LabelDiffs(keys, desired, live) == [] <==> LabelDiffs(rest, desired, live) == [] && LabelDiff(k, desired, live) == [];
    }
  }

  /** A label is reported with both values, an empty one standing for a missing label. */
  lemma LabelReport(k: string, desired: map<string, string>, live: map<string, string>, x: FieldDiff)
    ensures x in LabelDiff(k, desired, live) <==>
            && x.field == "labels." + k
            && (k in desired || (k in live && !DockerManaged(k)))
            && x.desired == (if k in desired then desired[k] else "") && x.live == (if k in live then live[k] else "")
            && !(k in desired && k in live && desired[k] == live[k])
  {
  }

  // ----- ports -----

  function PrintPorts(ports: seq<PortMapping>): seq<string> {
    seq(|ports|, i requires 0 <= i < |ports| => PrintPort(ports[i]))
  }

  /** Every desired port is live; extra live ports and repeats do not matter. */
  predicate PortsMatch(desired: seq<PortMapping>, live: seq<PortMapping>) {
    forall p :: p in PrintPorts(desired) ==> p in PrintPorts(live)
  }

  method DedupStrings(s: seq<string>) returns (result: seq<string>)
    ensures forall x :: x in result <==> x in s
    ensures forall i, j :: 0 <= i < j < |result| ==> result[i] != result[j]
  {
    var seen: set<string> := {};
    result := [];
    for i := 0 to |s|
      invariant forall x :: x in result <==> x in s[..i]
      invariant forall x :: x in seen <==> x in result
      invariant forall i, j :: 0 <= i < j < |result| ==> result[i] != result[j]
    {
      assert s[..i + 1] == s[..i] + [s[i]];
      if s[i] !in seen {
        seen := seen + {s[i]};
        result := result + [s[i]];
      }
    }
    assert s[..|s|] == s;
  }

  method PortsEqual(desired: seq<PortMapping>, live: seq<PortMapping>) returns (ok: bool)
    ensures ok <==> PortsMatch(desired, live)
  {
    if |desired| == 0 {
      return true;
    }
    var livePorts := DedupStrings(PrintPorts(live));
    var liveSet := set p | p in livePorts;
    var wanted := DedupStrings(PrintPorts(desired));
    for i := 0 to |wanted|
      invariant forall j :: 0 <= j < i ==> wanted[j] in PrintPorts(live)
    {
      if wanted[i] !in liveSet {
        assert wanted[i] in PrintPorts(desired);
        return false;
      }
    }
    forall p | p in PrintPorts(desired) ensures p in PrintPorts(live) {
      assert p in wanted;
    }
    return true;
  }

  // ----- volumes -----

  predicate IsNamedVolume(source: string) {
    source != "" && source[0] != '/' && source[0] != '.'
  }

  predicate IsDockerSocket(target: string) {
    target == "/var/run/docker.sock" || target == "/run/docker.sock"
  }

  predicate VolumeAgrees(d: VolumeMount, l: VolumeMount) {
    && d.readOnly == l.readOnly
    && (IsNamedVolume(d.source) || IsDockerSocket(d.target) || d.source == l.source)
  }

  /** The index of the last mount of a target, as filling a map by target leaves it. */
  ghost predicate IsLastAt(live: seq<VolumeMount>, target: string, i: int) {
    0 <= i < |live| && live[i].target == target && forall j :: i < j < |live| ==> live[j].target != target
  }

  /** Each desired mount agrees with the last live mount of its target. */
  ghost predicate VolumesMatch(desired: seq<VolumeMount>, live: seq<VolumeMount>) {
    forall d :: d in desired ==> VolumeMatches(d, live)
  }

  /** The map from target to mount that filling in order leaves. */
  ghost predicate ByTarget(live: seq<VolumeMount>, m: map<string, VolumeMount>) {
    && (forall t :: t in m ==> exists i :: IsLastAt(live, t, i) && m[t] == live[i])
    && (forall t, i :: IsLastAt(live, t, i) ==> t in m && m[t] == live[i])
  }

  method IndexByTarget(live: seq<VolumeMount>) returns (m: map<string, VolumeMount>)
    ensures ByTarget(live, m)
  {
    m := map[];
    for n := 0 to |live|
      invariant ByTarget(live[..n], m)
    {
      ByTargetNext(live, n, m);
      m := m[live[n].target := live[n]];
    }
    assert live[..|live|] == live;
  }

  lemma ByTargetNext(live: seq<VolumeMount>, n: nat, m: map<string, VolumeMount>)
    requires n < |live| && ByTarget(live[..n], m)
    ensures ByTarget(live[..n + 1], m[live[n].target := live[n]])
  {
    LastAfter(live, n);
    var m' := m[live[n].target := live[n]];
    forall t | t in m' ensures exists i :: IsLastAt(live[..n + 1], t, i) && m'[t] == live[i] {
      if t == live[n].target {
        assert IsLastAt(live[..n + 1], t, n);
      } else {
        var i :| IsLastAt(live[..n], t, i) && m[t] == live[i];
        assert IsLastAt(live[..n + 1], t, i);
      }
    }
  }

  ghost predicate VolumeMatches(d: VolumeMount, live: seq<VolumeMount>) {
    exists i :: IsLastAt(live, d.target, i) && VolumeAgrees(d, live[i])
  }

  lemma MatchesByTarget(d: VolumeMount, live: seq<VolumeMount>, m: map<string, VolumeMount>)
    requires ByTarget(live, m)
    ensures VolumeMatches(d, live) <==> d.target in m && VolumeAgrees(d, m[d.target])
  {
  }

  method VolumesEqual(desired: seq<VolumeMount>, live: seq<VolumeMount>) returns (ok: bool)
    ensures ok <==> VolumesMatch(desired, live)
  {
    var liveByTarget := IndexByTarget(live);
    for k := 0 to |desired|
      invariant forall j :: 0 <= j < k ==> VolumeMatches(desired[j], live)
    {
      var dv := desired[k];
      assert dv in desired;
      MatchesByTarget(dv, live, liveByTarget);
      if dv.target !in liveByTarget {
        return false;
      }
      var lv := liveByTarget[dv.target];
      if dv.readOnly != lv.readOnly {
        return false;
      }
      if !IsNamedVolume(dv.source) && !IsDockerSocket(dv.target) && dv.source != lv.source {
        return false;
      }
    }
    return true;
  }

  lemma LastAfter(live: seq<VolumeMount>, n: nat)
    requires n < |live|
    ensures IsLastAt(live[..n + 1], live[n].target, n)
    ensures forall t, i :: IsLastAt(live[..n], t, i) && t != live[n].target ==> IsLastAt(live[..n + 1], t, i)
    ensures forall t, i :: IsLastAt(live[..n + 1], t, i) ==>
              if t == live[n].target then i == n else IsLastAt(live[..n], t, i)
  {
    forall t, i | IsLastAt(live[..n + 1], t, i)
      ensures if t == live[n].target then i == n else IsLastAt(live[..n], t, i)
    {
      assert live[..n + 1][n] == live[n];
    }
  }

  // ----- networks, commands -----

  const DEFAULT_SUFFIX := "_default"

  function NonDefault(networks: seq<string>): (r: seq<string>)
    ensures |r| <= |networks|
    ensures |r| == |networks| <==> forall n :: n in networks ==> !HasSuffix(n, DEFAULT_SUFFIX)
    ensures |r| == |networks| ==> r == networks
  {
    if networks == [] then []
    else
      var last := |networks| - 1;
      assert networks == networks[..last] + [networks[last]];
      NonDefault(networks[..last]) + if HasSuffix(networks[last], DEFAULT_SUFFIX) then [] else [networks[last]]
  }

  method FilterDefaultNetworks(networks: seq<string>) returns (result: seq<string>)
    ensures result == NonDefault(networks)
  {
    result := [];
    for i := 0 to |networks|
      invariant result == NonDefault(networks[..i])
    {
      assert networks[..i + 1][..i] == networks[..i];
      if !HasSuffix(networks[i], DEFAULT_SUFFIX) {
        result := result + [networks[i]];
      }
    }
    assert networks[..|networks|] == networks;
  }

  lemma SortLength(s: seq<string>)
    ensures |SortStrings(s)| == |s|
  {
    assert |multiset(SortStrings(s))| == |multiset(s)|;
  }

  lemma DifferentLengths(a: seq<string>, b: seq<string>)
    requires |a| != |b|
    ensures multiset(a) != multiset(b)
  {
    assert |multiset(a)| == |a| && |multiset(b)| == |b|;
  }

  /** stringSetsEqual: sort both and compare; it compares contents with multiplicity. */
  method StringSetsEqual(a: seq<string>, b: seq<string>) returns (ok: bool)
    ensures ok <==> multiset(a) == multiset(b)
  {
    if |a| != |b| {
      DifferentLengths(a, b);
      return false;
    }
    SortLength(a);
    SortLength(b);
    SortStringsCanonical(a, b);
    ok := SlicesEqual(SortStrings(a), SortStrings(b));
  }

  method SlicesEqual(a: seq<string>, b: seq<string>) returns (ok: bool)
    ensures ok <==> a == b
  {
    if |a| != |b| {
      return false;
    }
    for i := 0 to |a|
      invariant forall j :: 0 <= j < i ==> a[j] == b[j]
    {
      if a[i] != b[i] {
        return false;
      }
    }
    return true;
  }

  /** An empty desired command or entrypoint is inherited from the image. */
  predicate CommandMatches(desired: seq<string>, live: seq<string>) {
    desired == [] || desired == live
  }

  // ----- the whole service -----

  function Single(differs: bool, field: string, desired: string, live: string): seq<FieldDiff> {
    if differs then [FieldDiff(field, desired, live)] else []
  }

  function FormatPorts(ports: seq<PortMapping>): string {
    JoinText(SortStrings(PrintPorts(ports)), ", ")
  }

  function FormatVolumes(vols: seq<VolumeMount>): string {
    JoinText(SortStrings(seq(|vols|, i requires 0 <= i < |vols| => PrintVolume(vols[i]))), ", ")
  }

  function JoinSorted(s: seq<string>): string {
    JoinText(SortStrings(s), ", ")
  }

  /** Image, environment, ports, volumes and networks, in this order. */
  ghost function RunFields(d: ServiceSpec, l: ServiceState): seq<FieldDiff> {
    var nets := NonDefault(l.networks);
    Single(NormalizeImage(d.image) != NormalizeImage(l.image), "image", d.image, l.image)
    + EnvDiffs(SortedKeys(d.environment.Keys), d.environment, l.environment)
    + Single(!PortsMatch(d.ports, l.ports), "ports", FormatPorts(d.ports), FormatPorts(l.ports))
    + Single(!VolumesMatch(d.volumes, l.volumes), "volumes", FormatVolumes(d.volumes), FormatVolumes(l.volumes))
    + Single(multiset(d.networks) != multiset(nets), "networks", JoinSorted(d.networks), JoinSorted(nets))
  }

  /** Then labels, restart policy, command and entrypoint. */
  ghost function CompareFields(d: ServiceSpec, l: ServiceState): seq<FieldDiff> {
    RunFields(d, l)
    + LabelDiffs(SortedKeys(LabelKeys(d.labels, l.labels)), d.labels, l.labels)
    + Single(d.restartPolicy != "" && d.restartPolicy != l.restartPolicy, "restartPolicy", d.restartPolicy, l.restartPolicy)
    + Single(!CommandMatches(d.command, l.command), "command", JoinText(d.command, " "), JoinText(l.command, " "))
    + Single(!CommandMatches(d.entrypoint, l.entrypoint), "entrypoint", JoinText(d.entrypoint, " "), JoinText(l.entrypoint, " "))
  }

  method CompareService(d: ServiceSpec, l: ServiceState) returns (diffs: seq<FieldDiff>)
    ensures diffs == CompareFields(d, l)
  {
    diffs := Single(NormalizeImage(d.image) != NormalizeImage(l.image), "image", d.image, l.image);
    var env := CompareEnvironment(d.environment, l.environment);
    diffs := diffs + env;
    var ports := PortsEqual(d.ports, l.ports);
    diffs := diffs + Single(!ports, "ports", FormatPorts(d.ports), FormatPorts(l.ports));
    var volumes := VolumesEqual(d.volumes, l.volumes);
    diffs := diffs + Single(!volumes, "volumes", FormatVolumes(d.volumes), FormatVolumes(l.volumes));
    var liveNets := FilterDefaultNetworks(l.networks);
    var networks := StringSetsEqual(d.networks, liveNets);
    diffs := diffs + Single(!networks, "networks", JoinSorted(d.networks), JoinSorted(liveNets));
    var labels := CompareLabels(d.labels, l.labels);
    diffs := diffs + labels;
    diffs := diffs + Single(d.restartPolicy != "" && d.restartPolicy != l.restartPolicy, "restartPolicy", d.restartPolicy, l.restartPolicy);
    diffs := diffs + Single(!CommandMatches(d.command, l.command), "command", JoinText(d.command, " "), JoinText(l.command, " "));
    diffs := diffs + Single(!CommandMatches(d.entrypoint, l.entrypoint), "entrypoint", JoinText(d.entrypoint, " "), JoinText(l.entrypoint, " "));
  }

  /** Desired and live agree, field by field, in the terms of the documentation. */
  ghost predicate Matches(d: ServiceSpec, l: ServiceState) {
    && NormalizeImage(d.image) == NormalizeImage(l.image)
    && EnvMatches(d.environment, l.environment)
    && PortsMatch(d.ports, l.ports)
    && VolumesMatch(d.volumes, l.volumes)
    && multiset(d.networks) == multiset(NonDefault(l.networks))
    && LabelsMatch(d.labels, l.labels)
    && (d.restartPolicy == "" || d.restartPolicy == l.restartPolicy)
    && CommandMatches(d.command, l.command)
    && CommandMatches(d.entrypoint, l.entrypoint)
  }

  predicate LabelFine(k: string, desired: map<string, string>, live: map<string, string>) {
    && (k in desired ==> k in live && live[k] == desired[k])
    && (k in live && !DockerManaged(k) ==> k in desired)
  }

  lemma LabelDiffNone(k: string, desired: map<string, string>, live: map<string, string>)
    ensures LabelDiff(k, desired, live) == [] <==> LabelFine(k, desired, live)
  {
  }

  lemma LabelsFine(desired: map<string, string>, live: map<string, string>, keys: seq<string>)
    requires forall k :: k in keys <==> k in LabelKeys(desired, live)
    requires forall k :: k in keys ==> LabelFine(k, desired, live)
    ensures LabelsMatch(desired, live)
  {
    forall k | k in desired ensures k in live && live[k] == desired[k] {
      assert k in keys;
    }
    forall k | k in live && !DockerManaged(k) ensures k in desired {
      assert k in keys;
    }
  }

  lemma LabelsEmpty(desired: map<string, string>, live: map<string, string>)
    ensures LabelDiffs(SortedKeys(LabelKeys(desired, live)), desired, live) == [] <==> LabelsMatch(desired, live)
  {
    var keys := SortedKeys(LabelKeys(desired, live));
    LabelDiffsEmpty(keys, desired, live);
    forall k | k in keys ensures LabelDiff(k, desired, live) == [] <==> LabelFine(k, desired, live) {
      LabelDiffNone(k, desired, live);
    }
    if forall k :: k in keys ==> LabelFine(k, desired, live) {
      LabelsFine(desired, live, keys);
    }
  }

  lemma EnvEmpty(desired: map<string, string>, live: map<string, string>)
    ensures EnvDiffs(SortedKeys(desired.Keys), desired, live) == [] <==> EnvMatches(desired, live)
  {
    var keys := SortedKeys(desired.Keys);
    EnvDiffsEmpty(keys, desired, live);
    assert forall k :: k in keys <==> k in desired;
  }

  lemma ConcatEmpty(a: seq<FieldDiff>, b: seq<FieldDiff>, c: seq<FieldDiff>, d: seq<FieldDiff>, e: seq<FieldDiff>)
    ensures a + b + c + d + e == [] <==> a == [] && b == [] && c == [] && d == [] && e == []
  {
    assert |a + b + c + d + e| == |a| + |b| + |c| + |d| + |e|;
  }

  ghost predicate RunMatches(d: ServiceSpec, l: ServiceState) {
    && NormalizeImage(d.image) == NormalizeImage(l.image)
    && EnvMatches(d.environment, l.environment)
    && PortsMatch(d.ports, l.ports)
    && VolumesMatch(d.volumes, l.volumes)
    && multiset(d.networks) == multiset(NonDefault(l.networks))
  }

  lemma RunFieldsEmpty(d: ServiceSpec, l: ServiceState)
    ensures RunFields(d, l) == [] <==> RunMatches(d, l)
  {
    EnvEmpty(d.environment, l.environment);
    var nets := NonDefault(l.networks);
    ConcatEmpty(
      Single(NormalizeImage(d.image) != NormalizeImage(l.image), "image", d.image, l.image),
      EnvDiffs(SortedKeys(d.environment.Keys), d.environment, l.environment),
      Single(!PortsMatch(d.ports, l.ports), "ports", FormatPorts(d.ports), FormatPorts(l.ports)),
      Single(!VolumesMatch(d.volumes, l.volumes), "volumes", FormatVolumes(d.volumes), FormatVolumes(l.volumes)),
      Single(multiset(d.networks) != multiset(nets), "networks", JoinSorted(d.networks), JoinSorted(nets)));
  }

  /** The comparison finds nothing exactly when the service matches. */
  lemma CompareEmpty(d: ServiceSpec, l: ServiceState)
    ensures CompareFields(d, l) == [] <==> Matches(d, l)
  {
    RunFieldsEmpty(d, l);
    LabelsEmpty(d.labels, l.labels);
    ConcatEmpty(
      RunFields(d, l),
      LabelDiffs(SortedKeys(LabelKeys(d.labels, l.labels)), d.labels, l.labels),
      Single(d.restartPolicy != "" && d.restartPolicy != l.restartPolicy, "restartPolicy", d.restartPolicy, l.restartPolicy),
      Single(!CommandMatches(d.command, l.command), "command", JoinText(d.command, " "), JoinText(l.command, " ")),
      Single(!CommandMatches(d.entrypoint, l.entrypoint), "entrypoint", JoinText(d.entrypoint, " "), JoinText(l.entrypoint, " ")));
  }

  // ----- a service replayed as live -----

  function Replay(d: ServiceSpec): ServiceState {
    ServiceState(d.name, d.image, d.environment, d.ports, d.volumes, d.networks, d.labels,
                 d.restartPolicy, d.command, d.entrypoint)
  }

  /** Nothing in the spec contradicts itself once it is live. */
  ghost predicate Settles(d: ServiceSpec) {
    && (forall n :: n in d.networks ==> !HasSuffix(n, DEFAULT_SUFFIX))
    && (forall v, i :: v in d.volumes && IsLastAt(d.volumes, v.target, i) ==> VolumeAgrees(v, d.volumes[i]))
  }

  lemma {:induction false} LastExists(vols: seq<VolumeMount>, v: VolumeMount)
    requires v in vols
    ensures exists i :: IsLastAt(vols, v.target, i)
  {
    var n := |vols| - 1;
    if vols[n].target == v.target {
      assert IsLastAt(vols, v.target, n);
    } else {
      assert vols == vols[..n] + [vols[n]];
      LastExists(vols[..n], v);
      var i :| IsLastAt(vols[..n], v.target, i);
      assert IsLastAt(vols, v.target, i);
    }
  }

  lemma NetworksSettle(networks: seq<string>)
    ensures multiset(networks) == multiset(NonDefault(networks)) <==> forall n :: n in networks ==> !HasSuffix(n, DEFAULT_SUFFIX)
  {
    if |NonDefault(networks)| != |networks| {
      DifferentLengths(networks, NonDefault(networks));
    }
  }

  lemma VolumesSettle(vols: seq<VolumeMount>)
    ensures VolumesMatch(vols, vols) <==>
            forall v, i :: v in vols && IsLastAt(vols, v.target, i) ==> VolumeAgrees(v, vols[i])
  {
    forall v | v in vols
      ensures VolumeMatches(v, vols) <==> forall i :: IsLastAt(vols, v.target, i) ==> VolumeAgrees(v, vols[i])
    {
      LastExists(vols, v);
    }
  }

  /** A service compared with itself as live shows drift unless it settles. */
  lemma ReplayMatches(d: ServiceSpec)
    ensures Matches(d, Replay(d)) <==> Settles(d)
  {
    NetworksSettle(d.networks);
    VolumesSettle(d.volumes);
  }

  /** Distinct volume targets and no network of the default form are enough. */
  lemma DistinctTargetsSettle(d: ServiceSpec)
    requires forall n :: n in d.networks ==> !HasSuffix(n, DEFAULT_SUFFIX)
    requires forall i, j :: 0 <= i < j < |d.volumes| ==> d.volumes[i].target != d.volumes[j].target
    ensures Settles(d)
  {
  }
}
