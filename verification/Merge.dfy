/**
 * Merging compose files. A field may be written as a map or as a list; the
 * merge code brings both forms together. `Canon` is what a raw service means
 * before variables are substituted, and merging is followed at that level.
 */
module Merge {
  import opened Options
  import opened Text
  import opened Substitute
  import opened PortVolume

  /** environment and labels; values as "%v" renders them, `None` for a null value. */
  datatype KeyValues = NoKeys | MapForm(entries: map<string, Option<string>>) | ListForm(items: seq<string>) | OtherForm

  /** networks and depends_on. */
  datatype Names = NoNames | NameList(items: seq<string>) | NameMap(keys: set<string>) | OtherNames

  /** command and entrypoint. */
  datatype Command = NoCommand | Line(text: string) | Words(words: seq<string>) | OtherCommand

  datatype Healthcheck = Healthcheck(test: Command, interval: string, timeout: string, retries: int, startPeriod: string)

  datatype RawService = RawService(
    image: string, environment: KeyValues, ports: Option<seq<string>>, volumes: Option<seq<string>>,
    networks: Names, labels: KeyValues, restart: string, healthcheck: Option<Healthcheck>,
    command: Command, entrypoint: Command, dependsOn: Names, containerName: string)

  datatype Resource = Resource(driver: string, external: bool)

  datatype RawCompose = RawCompose(
    services: map<string, RawService>, networks: map<string, Resource>, volumes: map<string, Resource>)

  // ----- what a raw field means -----

  /** splitEnvVar: at the first '='. */
  function SplitEnvVar(s: string): (string, string) {
    var i := Find(s, '=');
    if i < |s| then (s[..i], s[i + 1..]) else (s, "")
  }

  /** A list entry is cut at its first '=', or is a name alone. */
  lemma EnvVarParts(key: string, value: string)
    requires '=' !in key
    ensures SplitEnvVar(key + "=" + value) == (key, value) && SplitEnvVar(key) == (key, "")
  {
    var s := key + "=" + value;
    assert s[|key|] == '=';
    FindAt(s, '=', |key|);
    assert s[..|key|] == key && s[|key| + 1..] == value;
    FindSpec(key, '=');
  }

  /** Later entries win. */
  function FromList(items: seq<string>): map<string, string> {
    if items == [] then map[]
    else
      var (k, v) := SplitEnvVar(items[|items| - 1]);
      FromList(items[..|items| - 1])[k := v]
  }

  function FromMap(entries: map<string, Option<string>>): map<string, string> {
    map k | k in entries :: if entries[k].Some? then entries[k].value else ""
  }

  function KeyValueMap(v: KeyValues): map<string, string> {
    match v
    case MapForm(entries) => FromMap(entries)
    case ListForm(items) => FromList(items)
    case _ => map[]
  }

  function Keyed(v: KeyValues): Option<map<string, string>> {
    if v.NoKeys? then None else Some(KeyValueMap(v))
  }

  function NameSet(v: Names): set<string> {
    match v
    case NameList(items) => set n | n in items
    case NameMap(keys) => keys
    case _ => {}
  }

  function Slice(v: Option<seq<string>>): seq<string> {
    if v.Some? then v.value else []
  }

  datatype Service = Service(
    image: string, environment: Option<map<string, string>>, ports: seq<string>, volumes: seq<string>,
    networks: set<string>, labels: Option<map<string, string>>, restart: string, healthcheck: Option<Healthcheck>,
    command: Command, entrypoint: Command, dependsOn: set<string>)

  datatype Compose = Compose(
    services: map<string, Service>, networks: map<string, Resource>, volumes: map<string, Resource>)

  function Canon(s: RawService): Service {
    Service(s.image, Keyed(s.environment), Slice(s.ports), Slice(s.volumes), NameSet(s.networks), Keyed(s.labels),
            s.restart, s.healthcheck, s.command, s.entrypoint, NameSet(s.dependsOn))
  }

  function CanonFile(f: RawCompose): Compose {
    Compose(CanonAll(f.services), f.networks, f.volumes)
  }

  function CanonAll(services: map<string, RawService>): map<string, Service> {
    map n | n in services :: Canon(services[n])
  }

  // ----- merging at that level -----

  function Overlay<V>(base: Option<map<string, V>>, over: Option<map<string, V>>): Option<map<string, V>> {
    if over.None? then base else if base.None? then over else Some(base.value + over.value)
  }

  function Replace(base: string, over: string): string {
    if over != "" then over else base
  }

  function ReplaceCommand(base: Command, over: Command): Command {
    if over.NoCommand? then base else over
  }

  function MergedService(b: Service, o: Service): Service {
    Service(Replace(b.image, o.image), Overlay(b.environment, o.environment), b.ports + o.ports, b.volumes + o.volumes,
            b.networks + o.networks, Overlay(b.labels, o.labels), Replace(b.restart, o.restart),
            if o.healthcheck.Some? then o.healthcheck else b.healthcheck,
            ReplaceCommand(b.command, o.command), ReplaceCommand(b.entrypoint, o.entrypoint), b.dependsOn + o.dependsOn)
  }

  function MergedServices(b: map<string, Service>, o: map<string, Service>): map<string, Service> {
    map n | n in b.Keys + o.Keys ::
      if n !in o then b[n] else if n !in b then o[n] else MergedService(b[n], o[n])
  }

  function Merged(b: Compose, o: Compose): Compose {
    Compose(MergedServices(b.services, o.services), b.networks + o.networks, b.volumes + o.volumes)
  }

  // ----- the code -----

  method ToStringMap(v: KeyValues) returns (result: map<string, string>)
    ensures result == KeyValueMap(v)
  {
    result := map[];
    match v
    case MapForm(entries) =>
      var todo := entries.Keys;
      while todo != {}
        invariant todo <= entries.Keys
        invariant result == map k | k in entries && k !in todo :: if entries[k].Some? then entries[k].value else ""
        decreases |todo|
      {
        var k :| k in todo;
        result := result[k := if entries[k].None? then "" else entries[k].value];
        todo := todo - {k};
      }
    case ListForm(items) =>
      for i := 0 to |items|
        invariant result == FromList(items[..i])
      {
        assert items[..i + 1][..i] == items[..i];
        var (key, value) := SplitEnvVar(items[i]);
        result := result[key := value];
      }
      assert items[..|items|] == items;
    case _ =>
  }

  method MergeMaps(base: KeyValues, over: KeyValues) returns (r: KeyValues)
    ensures Keyed(r) == Overlay(Keyed(base), Keyed(over))
    ensures forall k :: k in KeyValueMap(over) ==> k in KeyValueMap(r) && KeyValueMap(r)[k] == KeyValueMap(over)[k]
    ensures forall k :: k in KeyValueMap(base) && k !in KeyValueMap(over) ==>
              k in KeyValueMap(r) && KeyValueMap(r)[k] == KeyValueMap(base)[k]
    ensures forall k :: k in KeyValueMap(r) ==> k in KeyValueMap(base) || k in KeyValueMap(over)
  {
    if over.NoKeys? {
      return base;
    }
    if base.NoKeys? {
      return over;
    }
    var baseMap := ToStringMap(base);
    var overMap := ToStringMap(over);
    var merged := baseMap + overMap;
    r := MapForm(map k | k in merged :: Some(merged[k]));
    assert KeyValueMap(r) == merged;
  }

  method MergeListOrMap(base: Names, over: Names) returns (r: Names)
    ensures NameSet(r) == NameSet(base) + NameSet(over)
    ensures r.NoNames? <==> base.NoNames? && over.NoNames?
  {
    if over.NoNames? {
      return base;
    }
    if base.NoNames? {
      return over;
    }
    var items := ListNames(NameSet(base) + NameSet(over));
    r := NameList(items);
  }

  /** The keys of a set, in whatever order a map iteration gives them. */
  method ListNames(all: set<string>) returns (items: seq<string>)
    ensures (set n | n in items) == all
  {
    items := [];
    var todo := all;
    while todo != {}
      invariant todo <= all && forall n :: n in items <==> n in all && n !in todo
      decreases |todo|
    {
      var k :| k in todo;
      items := items + [k];
      todo := todo - {k};
    }
  }

  method MergeSlices(base: Option<seq<string>>, over: Option<seq<string>>) returns (r: Option<seq<string>>)
    ensures Slice(r) == Slice(base) + Slice(over)
  {
    r := if over.Some? then Some(Slice(base) + over.value) else base;
  }

  method MergeNames(base: Names, over: Names) returns (r: Names)
    ensures NameSet(r) == NameSet(base) + NameSet(over)
  {
    r := base;
    if !over.NoNames? {
      r := MergeListOrMap(base, over);
    }
  }

  /** The fields that are combined rather than replaced. */
  method MergeCollections(base: RawService, over: RawService) returns (r: RawService)
    ensures Keyed(r.environment) == Overlay(Keyed(base.environment), Keyed(over.environment))
    ensures Keyed(r.labels) == Overlay(Keyed(base.labels), Keyed(over.labels))
    ensures Slice(r.ports) == Slice(base.ports) + Slice(over.ports)
    ensures Slice(r.volumes) == Slice(base.volumes) + Slice(over.volumes)
    ensures NameSet(r.networks) == NameSet(base.networks) + NameSet(over.networks)
    ensures NameSet(r.dependsOn) == NameSet(base.dependsOn) + NameSet(over.dependsOn)
    ensures SameScalars(r, base)
  {
    var environment := MergeMaps(base.environment, over.environment);
    var labels := MergeMaps(base.labels, over.labels);
    var ports := MergeSlices(base.ports, over.ports);
    var volumes := MergeSlices(base.volumes, over.volumes);
    var networks := MergeNames(base.networks, over.networks);
    var dependsOn := MergeNames(base.dependsOn, over.dependsOn);
    r := base.(environment := environment, labels := labels, ports := ports, volumes := volumes,
               networks := networks, dependsOn := dependsOn);
  }

  predicate SameScalars(r: RawService, s: RawService) {
    && r.image == s.image && r.restart == s.restart && r.containerName == s.containerName
    && r.command == s.command && r.entrypoint == s.entrypoint && r.healthcheck == s.healthcheck
  }

  method MergeService(base: RawService, over: RawService) returns (r: RawService)
    ensures Canon(r) == MergedService(Canon(base), Canon(over))
  {
    r := MergeCollections(base, over);
    if over.image != "" {
      r := r.(image := over.image);
    }
    if over.restart != "" {
      r := r.(restart := over.restart);
    }
    if over.containerName != "" {
      r := r.(containerName := over.containerName);
    }
    if !over.command.NoCommand? {
      r := r.(command := over.command);
    }
    if !over.entrypoint.NoCommand? {
      r := r.(entrypoint := over.entrypoint);
    }
    if over.healthcheck.Some? {
      r := r.(healthcheck := over.healthcheck);
    }
  }

  /** The services merged so far, while `todo` is left of the override. */
  ghost function Partly(b: map<string, Service>, o: map<string, Service>, todo: set<string>): map<string, Service> {
    map n | n in b.Keys + (o.Keys - todo) ::
      if n !in o || n in todo then b[n] else if n !in b then o[n] else MergedService(b[n], o[n])
  }

  lemma PartlyStep(b: map<string, Service>, o: map<string, Service>, todo: set<string>, n: string)
    requires n in todo && n in o
    ensures Partly(b, o, todo - {n}) == Partly(b, o, todo)[n := if n in b then MergedService(b[n], o[n]) else o[n]]
    ensures n in Partly(b, o, todo) <==> n in b
    ensures n in b ==> Partly(b, o, todo)[n] == b[n]
  {
  }

  lemma PartlyEnds(b: map<string, Service>, o: map<string, Service>)
    ensures Partly(b, o, o.Keys) == b && Partly(b, o, {}) == MergedServices(b, o)
  {
    assert b.Keys + (o.Keys - o.Keys) == b.Keys && b.Keys + (o.Keys - {}) == b.Keys + o.Keys;
  }

  lemma CanonAllUpdate(m: map<string, RawService>, n: string, s: RawService)
    ensures CanonAll(m[n := s]) == CanonAll(m)[n := Canon(s)]
  {
  }

  method MergeCompose(base: RawCompose, over: RawCompose) returns (r: RawCompose)
    ensures CanonFile(r) == Merged(CanonFile(base), CanonFile(over))
  {
    var services := base.services;
    ghost var b, o := CanonAll(base.services), CanonAll(over.services);
    PartlyEnds(b, o);
    var todo := over.services.Keys;
    assert todo == o.Keys;
    while todo != {}
      invariant todo <= over.services.Keys
      invariant CanonAll(services) == Partly(b, o, todo)
      decreases |todo|
    {
      var name :| name in todo;
      PartlyStep(b, o, todo, name);
      assert name in services <==> name in CanonAll(services);
      var s := over.services[name];
      if name in services {
        s := MergeService(services[name], over.services[name]);
      }
      CanonAllUpdate(services, name, s);
      services := services[name := s];
      todo := todo - {name};
    }
    r := RawCompose(services, base.networks + over.networks, base.volumes + over.volumes);
  }

  // ----- any bracketing gives the same -----

  lemma OverlayAssociative(a: Option<map<string, string>>, b: Option<map<string, string>>, c: Option<map<string, string>>)
    ensures Overlay(Overlay(a, b), c) == Overlay(a, Overlay(b, c))
  {
    if a.Some? && b.Some? && c.Some? {
      assert (a.value + b.value) + c.value == a.value + (b.value + c.value);
    }
  }

  lemma MergedServiceAssociative(a: Service, b: Service, c: Service)
    ensures MergedService(MergedService(a, b), c) == MergedService(a, MergedService(b, c))
  {
    OverlayAssociative(a.environment, b.environment, c.environment);
    OverlayAssociative(a.labels, b.labels, c.labels);
    assert a.ports + b.ports + c.ports == a.ports + (b.ports + c.ports);
    assert a.volumes + b.volumes + c.volumes == a.volumes + (b.volumes + c.volumes);
    assert a.networks + b.networks + c.networks == a.networks + (b.networks + c.networks);
    assert a.dependsOn + b.dependsOn + c.dependsOn == a.dependsOn + (b.dependsOn + c.dependsOn);
  }

  lemma MergedServicesAssociative(a: map<string, Service>, b: map<string, Service>, c: map<string, Service>)
    ensures MergedServices(MergedServices(a, b), c) == MergedServices(a, MergedServices(b, c))
  {
    var l, r := MergedServices(MergedServices(a, b), c), MergedServices(a, MergedServices(b, c));
    assert l.Keys == r.Keys;
    forall n | n in l ensures l[n] == r[n] {
      if n in a && n in b && n in c {
        MergedServiceAssociative(a[n], b[n], c[n]);
      }
    }
  }

  lemma MergedAssociative(a: Compose, b: Compose, c: Compose)
    ensures Merged(Merged(a, b), c) == Merged(a, Merged(b, c))
  {
    MergedServicesAssociative(a.services, b.services, c.services);
    assert a.networks + b.networks + c.networks == a.networks + (b.networks + c.networks);
    assert a.volumes + b.volumes + c.volumes == a.volumes + (b.volumes + c.volumes);
  }

  /** A way to bracket the merging of files. */
  datatype Bracketing = File(file: RawCompose) | Both(left: Bracketing, right: Bracketing)

  function Files(t: Bracketing): (fs: seq<RawCompose>)
    ensures fs != []
  {
    match t
    case File(f) => [f]
    case Both(l, r) => Files(l) + Files(r)
  }

  /** `r` is a possible outcome of merging as bracketed; map order leaves more than one. */
  ghost predicate Outcome(t: Bracketing, r: RawCompose) {
    match t
    case File(f) => r == f
    case Both(l, o) =>
      exists x, y :: Outcome(l, x) && Outcome(o, y) && CanonFile(r) == Merged(CanonFile(x), CanonFile(y))
  }

  /** The files merged one after the other, as Parse does. */
  function InTurn(fs: seq<RawCompose>): Compose
    requires fs != []
  {
    if |fs| == 1 then CanonFile(fs[0]) else Merged(InTurn(fs[..|fs| - 1]), CanonFile(fs[|fs| - 1]))
  }

  lemma {:induction false} InTurnConcat(a: seq<RawCompose>, b: seq<RawCompose>)
    requires a != [] && b != []
    ensures InTurn(a + b) == Merged(InTurn(a), InTurn(b))
    decreases |b|
  {
    var k := |b| - 1;
    assert (a + b)[..|a + b| - 1] == a + b[..k];
    if k == 0 {
      assert a + b[..k] == a;
    } else {
      InTurnConcat(a, b[..k]);
      MergedAssociative(InTurn(a), InTurn(b[..k]), CanonFile(b[k]));
    }
  }

  lemma {:induction false} OutcomeInTurn(t: Bracketing, r: RawCompose)
    requires Outcome(t, r)
    ensures CanonFile(r) == InTurn(Files(t))
  {
    match t
    case File(_) =>
    case Both(l, o) =>
      var x, y :| Outcome(l, x) && Outcome(o, y) && CanonFile(r) == Merged(CanonFile(x), CanonFile(y));
      OutcomeInTurn(l, x);
      OutcomeInTurn(o, y);
      InTurnConcat(Files(l), Files(o));
  }

  // ----- the last file wins -----

  /** Something a file can set for a service. */
  datatype Setting = Variable(service: string, key: string) | Label(service: string, key: string) | Image(service: string)

  function Entry(m: map<string, string>, k: string): Option<string> {
    if k in m then Some(m[k]) else None
  }

  /** What one file sets; an empty image sets nothing. */
  function SetBy(f: RawCompose, x: Setting): Option<string> {
    if x.service !in f.services then None
    else
      var s := f.services[x.service];
      match x
      case Variable(_, k) => Entry(KeyValueMap(s.environment), k)
      case Label(_, k) => Entry(KeyValueMap(s.labels), k)
      case Image(_) => if s.image != "" then Some(s.image) else None
  }

  function SetIn(c: Compose, x: Setting): Option<string> {
    if x.service !in c.services then None
    else
      var s := c.services[x.service];
      match x
      case Variable(_, k) => if s.environment.Some? then Entry(s.environment.value, k) else None
      case Label(_, k) => if s.labels.Some? then Entry(s.labels.value, k) else None
      case Image(_) => if s.image != "" then Some(s.image) else None
  }

  /** The value of the last file that sets it. */
  function LastSet(fs: seq<RawCompose>, x: Setting): Option<string> {
    if fs == [] then None
    else
      var k := |fs| - 1;
      if SetBy(fs[k], x).Some? then SetBy(fs[k], x) else LastSet(fs[..k], x)
  }

  lemma CanonSets(f: RawCompose, x: Setting)
    ensures SetIn(CanonFile(f), x) == SetBy(f, x)
  {
  }

  /** An override's setting wins; what it does not set stays. */
  lemma OverrideWins(b: Compose, o: Compose, x: Setting)
    ensures SetIn(Merged(b, o), x) == if SetIn(o, x).Some? then SetIn(o, x) else SetIn(b, x)
  {
  }

  /**
   * However the files of a list write them, an environment variable, a label and
   * the image of a service are, after merging in turn, what the last file that
   * sets them says; what no file sets is not set.
   */
  lemma {:induction false} LastFileWins(fs: seq<RawCompose>, x: Setting)
    requires fs != []
    ensures SetIn(InTurn(fs), x) == LastSet(fs, x)
  {
    var m := |fs| - 1;
    CanonSets(fs[m], x);
    if m > 0 {
      LastFileWins(fs[..m], x);
      OverrideWins(InTurn(fs[..m]), CanonFile(fs[m]), x);
    } else {
      assert fs[..m] == [];
    }
  }

  // ----- interpretation -----

  datatype Interpreted = Interpreted(
    image: string, environment: Option<map<string, string>>, ports: seq<PortMapping>, volumes: seq<VolumeMount>,
    networks: set<string>, labels: Option<map<string, string>>, restart: string, healthcheck: Option<Healthcheck>,
    command: seq<string>, entrypoint: seq<string>, dependsOn: set<string>)

  datatype ComposeSpec = ComposeSpec(
    services: map<string, Interpreted>, networks: map<string, Resource>, volumes: map<string, Resource>)

  function ParseCommand(c: Command): seq<string> {
    match c
    case Line(text) => if text == "" then [] else [text]
    case Words(words) => words
    case _ => []
  }

  function SubstitutedMap(m: map<string, string>, sc: Scope): map<string, string> {
    map k | k in m :: Substituted(m[k], sc)
  }

  function SubstitutedKeys(v: Option<map<string, string>>, sc: Scope): Option<map<string, string>> {
    if v.None? then None else Some(SubstitutedMap(v.value, sc))
  }

  function Each<T>(items: seq<string>, f: string -> T): seq<T> {
    seq(|items|, i requires 0 <= i < |items| => f(items[i]))
  }

  function ParsePorts(ports: seq<string>): seq<PortMapping> {
    Each(ports, s => ParsePortString(s))
  }

  function ParseVolumes(volumes: seq<string>): seq<VolumeMount> {
    Each(volumes, s => ParseVolumeString(s))
  }

  /** toComposeSpec and normalize, one service; networks and depends_on read as sets. */
  function Interpret(s: Service, sc: Scope): Interpreted {
    Interpreted(Substituted(s.image, sc), SubstitutedKeys(s.environment, sc), ParsePorts(s.ports), ParseVolumes(s.volumes),
                s.networks, s.labels, s.restart, s.healthcheck, ParseCommand(s.command), ParseCommand(s.entrypoint), s.dependsOn)
  }

  function InterpretFile(c: Compose, sc: Scope): ComposeSpec {
    ComposeSpec(map n | n in c.services :: Interpret(c.services[n], sc), c.networks, c.volumes)
  }

  method ParseEnvironmentMap(entries: map<string, Option<string>>, sc: Scope) returns (result: map<string, string>)
    ensures result == SubstitutedMap(FromMap(entries), sc)
  {
    result := map[];
    ghost var plain := FromMap(entries);
    NothingSubstituted(sc);
    var todo := entries.Keys;
    while todo != {}
      invariant todo <= entries.Keys && result.Keys == entries.Keys - todo
      invariant forall k :: k in result ==> result[k] == Substituted(plain[k], sc)
      decreases |todo|
    {
      var key :| key in todo;
      if entries[key].None? {
        result := result[key := ""];
      } else {
        var text := SubstituteVars(entries[key].value, sc);
        result := result[key := text];
      }
      todo := todo - {key};
    }
  }

  lemma SubstitutedStep(items: seq<string>, i: nat, sc: Scope)
    requires i < |items|
    ensures var (key, val) := SplitEnvVar(items[i]);
            SubstitutedMap(FromList(items[..i + 1]), sc) == SubstitutedMap(FromList(items[..i]), sc)[key := Substituted(val, sc)]
  {
    assert items[..i + 1][..i] == items[..i];
  }

  method ParseEnvironmentList(items: seq<string>, sc: Scope) returns (result: map<string, string>)
    ensures result == SubstitutedMap(FromList(items), sc)
  {
    result := map[];
    for i := 0 to |items|
      invariant result == SubstitutedMap(FromList(items[..i]), sc)
    {
      var (key, val) := SplitEnvVar(items[i]);
      var text := SubstituteVars(val, sc);
      SubstitutedStep(items, i, sc);
      result := result[key := text];
    }
    assert items[..|items|] == items;
  }

  /** parseEnvironment on the raw field, either form. */
  method ParseEnvironment(v: KeyValues, sc: Scope) returns (r: Option<map<string, string>>)
    ensures r == SubstitutedKeys(Keyed(v), sc)
  {
    match v {
      case NoKeys =>
        r := None;
      case MapForm(entries) =>
        var result := ParseEnvironmentMap(entries, sc);
        r := Some(result);
      case ListForm(items) =>
        var result := ParseEnvironmentList(items, sc);
        r := Some(result);
      case OtherForm =>
        r := Some(map[]);
    }
  }

  lemma NothingSubstituted(sc: Scope)
    ensures Substituted("", sc) == ""
  {
  }

  /**
   * However the merging of a list of files is bracketed, and however map
   * iteration orders its lists, the interpreted result is the same.
   */
  lemma BracketingIrrelevant(t: Bracketing, u: Bracketing, x: RawCompose, y: RawCompose, sc: Scope)
    requires Files(t) == Files(u) && Outcome(t, x) && Outcome(u, y)
    ensures InterpretFile(CanonFile(x), sc) == InterpretFile(CanonFile(y), sc)
  {
    OutcomeInTurn(t, x);
    OutcomeInTurn(u, y);
  }

  // ----- overlaying interpretations -----

  function OverlaidService(b: Interpreted, o: Interpreted): Interpreted {
    Interpreted(Replace(b.image, o.image), Overlay(b.environment, o.environment), b.ports + o.ports, b.volumes + o.volumes,
                b.networks + o.networks, Overlay(b.labels, o.labels), Replace(b.restart, o.restart),
                if o.healthcheck.Some? then o.healthcheck else b.healthcheck,
                if o.command != [] then o.command else b.command,
                if o.entrypoint != [] then o.entrypoint else b.entrypoint, b.dependsOn + o.dependsOn)
  }

  /** The override sets a field to something that reads as nothing, over something that does not. */
  predicate Blanks(b: Service, o: Service, sc: Scope) {
    || (o.image != "" && Substituted(o.image, sc) == "" && Substituted(b.image, sc) != "")
    || (!o.command.NoCommand? && ParseCommand(o.command) == [] && ParseCommand(b.command) != [])
    || (!o.entrypoint.NoCommand? && ParseCommand(o.entrypoint) == [] && ParseCommand(b.entrypoint) != [])
  }

  lemma KeysOverlaid(b: Option<map<string, string>>, o: Option<map<string, string>>, sc: Scope)
    ensures SubstitutedKeys(Overlay(b, o), sc) == Overlay(SubstitutedKeys(b, sc), SubstitutedKeys(o, sc))
  {
    if b.Some? && o.Some? {
      assert SubstitutedMap(b.value + o.value, sc) == SubstitutedMap(b.value, sc) + SubstitutedMap(o.value, sc);
    }
  }

  lemma ListsOverlaid(b: Service, o: Service)
    ensures ParsePorts(b.ports + o.ports) == ParsePorts(b.ports) + ParsePorts(o.ports)
    ensures ParseVolumes(b.volumes + o.volumes) == ParseVolumes(b.volumes) + ParseVolumes(o.volumes)
  {
    Mapped(b.ports, o.ports, s => ParsePortString(s));
    Mapped(b.volumes, o.volumes, s => ParseVolumeString(s));
  }

  lemma Mapped<T>(a: seq<string>, b: seq<string>, f: string -> T)
    ensures Each(a + b, f) == Each(a, f) + Each(b, f)
  {
  }

  /**
   * Interpreting a merged service equals overlaying the two interpretations, if
   * and only if the override does not blank a field: an image whose variables
   * are all unset, or a command or entrypoint that is present but empty, still
   * replaces the base when raw files are merged.
   */
  lemma OverlayLaw(b: Service, o: Service, sc: Scope)
    ensures Interpret(MergedService(b, o), sc) == OverlaidService(Interpret(b, sc), Interpret(o, sc)) <==> !Blanks(b, o, sc)
  {
    NothingSubstituted(sc);
    KeysOverlaid(b.environment, o.environment, sc);
    ListsOverlaid(b, o);
    CommandLaw(b.command, o.command);
    CommandLaw(b.entrypoint, o.entrypoint);
    ImageLaw(b.image, o.image, sc);
  }

  lemma CommandLaw(b: Command, o: Command)
    ensures ParseCommand(ReplaceCommand(b, o)) == (if ParseCommand(o) != [] then ParseCommand(o) else ParseCommand(b))
            <==> !(!o.NoCommand? && ParseCommand(o) == [] && ParseCommand(b) != [])
  {
  }

  lemma ImageLaw(b: string, o: string, sc: Scope)
    ensures Substituted(Replace(b, o), sc) == Replace(Substituted(b, sc), Substituted(o, sc))
            <==> !(o != "" && Substituted(o, sc) == "" && Substituted(b, sc) != "")
  {
    NothingSubstituted(sc);
  }

  function OverlaidFile(b: ComposeSpec, o: ComposeSpec): ComposeSpec {
    ComposeSpec(
      map n | n in b.services.Keys + o.services.Keys ::
        if n !in o.services then b.services[n]
        else if n !in b.services then o.services[n]
        else OverlaidService(b.services[n], o.services[n]),
      b.networks + o.networks, b.volumes + o.volumes)
  }

  /** The services of both files in which the override blanks a field. */
  function BlankedNames(b: Compose, o: Compose, sc: Scope): set<string> {
    set n | n in b.services && n in o.services && Blanks(b.services[n], o.services[n], sc)
  }

  lemma ServiceAt(b: Compose, o: Compose, sc: Scope, n: string)
    requires n in b.services && n in o.services
    ensures InterpretFile(Merged(b, o), sc).services[n] == Interpret(MergedService(b.services[n], o.services[n]), sc)
    ensures OverlaidFile(InterpretFile(b, sc), InterpretFile(o, sc)).services[n] ==
            OverlaidService(Interpret(b.services[n], sc), Interpret(o.services[n], sc))
  {
  }

  lemma ServiceLaw(b: Compose, o: Compose, sc: Scope, n: string)
    requires n in b.services || n in o.services
    ensures InterpretFile(Merged(b, o), sc).services[n] == OverlaidFile(InterpretFile(b, sc), InterpretFile(o, sc)).services[n]
            <==> n !in BlankedNames(b, o, sc)
  {
    if n in b.services && n in o.services {
      ServiceAt(b, o, sc, n);
      OverlayLaw(b.services[n], o.services[n], sc);
    }
  }

  lemma MapsAgree<V>(l: map<string, V>, r: map<string, V>, bad: set<string>)
    requires l.Keys == r.Keys && bad <= l.Keys
    requires forall n :: n in l ==> (l[n] == r[n] <==> n !in bad)
    ensures l == r <==> bad == {}
  {
    if bad != {} {
      var n :| n in bad;
      assert l[n] != r[n];
    }
  }

  lemma SameKeys(b: Compose, o: Compose, sc: Scope)
    ensures InterpretFile(Merged(b, o), sc).services.Keys == b.services.Keys + o.services.Keys
    ensures OverlaidFile(InterpretFile(b, sc), InterpretFile(o, sc)).services.Keys == b.services.Keys + o.services.Keys
    ensures BlankedNames(b, o, sc) <= b.services.Keys
  {
    InterpretKeys(b, sc);
    InterpretKeys(o, sc);
    InterpretKeys(Merged(b, o), sc);
  }

  lemma InterpretKeys(c: Compose, sc: Scope)
    ensures InterpretFile(c, sc).services.Keys == c.services.Keys
  {
  }

  lemma ServicesLaw(b: Compose, o: Compose, sc: Scope)
    ensures InterpretFile(Merged(b, o), sc).services == OverlaidFile(InterpretFile(b, sc), InterpretFile(o, sc)).services
            <==> BlankedNames(b, o, sc) == {}
  {
    var left, right := InterpretFile(Merged(b, o), sc).services, OverlaidFile(InterpretFile(b, sc), InterpretFile(o, sc)).services;
    SameKeys(b, o, sc);
    forall n | n in left ensures left[n] == right[n] <==> n !in BlankedNames(b, o, sc) {
      ServiceLaw(b, o, sc, n);
    }
    MapsAgree(left, right, BlankedNames(b, o, sc));
  }

  /** The same for whole files: interpretation commutes with merging exactly when no shared service is blanked. */
  lemma FileOverlayLaw(b: Compose, o: Compose, sc: Scope)
    ensures InterpretFile(Merged(b, o), sc) == OverlaidFile(InterpretFile(b, sc), InterpretFile(o, sc))
            <==> BlankedNames(b, o, sc) == {}
  {
    ServicesLaw(b, o, sc);
    assert InterpretFile(Merged(b, o), sc).networks == b.networks + o.networks;
    assert InterpretFile(Merged(b, o), sc).volumes == b.volumes + o.volumes;
  }
}
