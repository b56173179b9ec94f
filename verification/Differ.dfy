/**
 * Diff: desired services against live ones. Go iterates the two name-indexed
 * maps in any order; the three result lists are sorted by name afterwards.
 */
module Differ {
  import opened Ordering
  import opened Compare
  import opened Services

  datatype ServiceDiff =
    | Create(name: string, spec: ServiceSpec)
    | Update(name: string, fields: seq<FieldDiff>, spec: ServiceSpec, state: ServiceState)
    | Remove(name: string, state: ServiceState)

  datatype DiffResult = DiffResult(
    toCreate: seq<ServiceDiff>, toUpdate: seq<ServiceDiff>, toRemove: seq<ServiceDiff>, inSync: bool)

  type Desired = map<string, ServiceSpec>
  type Live = map<string, ServiceState>

  /** Opted out of drift detection, or a one-shot hook. */
  predicate Ignored(s: ServiceSpec) {
    (IGNORE_DRIFT_LABEL in s.labels && s.labels[IGNORE_DRIFT_LABEL] == "true") || HOOK_LABEL in s.labels
  }

  // ----- indexing -----

  function IgnoredNames(desired: seq<ServiceSpec>): set<string> {
    set s | s in desired && Ignored(s) :: s.name
  }

  function IndexDesired(desired: seq<ServiceSpec>): Desired {
    if desired == [] then map[]
    else
      var last := desired[|desired| - 1];
      var m := IndexDesired(desired[..|desired| - 1]);
      if Ignored(last) then m else m[last.name := last]
  }

  function IndexLive(live: seq<ServiceState>, ignored: set<string>): Live {
    if live == [] then map[]
    else
      var last := live[|live| - 1];
      var m := IndexLive(live[..|live| - 1], ignored);
      if last.name in ignored then m else m[last.name := last]
  }

  // ----- the result as a function of the two maps -----

  /** The entries of one result list, by service name. */
  type Listed = map<string, ServiceDiff>

  function Creates(d: Desired, l: Live): Listed {
    map n | n in d && n !in l :: Create(n, d[n])
  }

  ghost function Updates(d: Desired, l: Live): Listed {
    map n | n in d && n in l && CompareFields(d[n], l[n]) != [] :: Update(n, CompareFields(d[n], l[n]), d[n], l[n])
  }

  function Removes(d: Desired, l: Live): Listed {
    map n | n in l && n !in d :: Remove(n, l[n])
  }

  /** The entries in ascending order of their names. */
  function InOrder(entries: Listed): seq<ServiceDiff> {
    var keys := SortedKeys(entries.Keys);
    seq(|keys|, i requires 0 <= i < |keys| => entries[keys[i]])
  }

  ghost function DiffOf(d: Desired, l: Live): DiffResult {
    DiffResult(InOrder(Creates(d, l)), InOrder(Updates(d, l)), InOrder(Removes(d, l)),
               Creates(d, l) == map[] && Updates(d, l) == map[] && Removes(d, l) == map[])
  }

  ghost function DiffSpec(desired: seq<ServiceSpec>, live: seq<ServiceState>): DiffResult {
    DiffOf(IndexDesired(desired), IndexLive(live, IgnoredNames(desired)))
  }

  // ----- sortDiffs -----

  function InsertByName(x: ServiceDiff, s: seq<ServiceDiff>): (r: seq<ServiceDiff>)
    ensures forall y :: y in r <==> y == x || y in s
    ensures |r| == |s| + 1
  {
    if s == [] || StrLess(x.name, s[0].name) then [x] + s else [s[0]] + InsertByName(x, s[1..])
  }

  function SortByName(s: seq<ServiceDiff>): (r: seq<ServiceDiff>)
    ensures forall y :: y in r <==> y in s
    ensures |r| == |s|
  {
    if s == [] then [] else InsertByName(s[|s| - 1], SortByName(s[..|s| - 1]))
  }

  predicate ByName(s: seq<ServiceDiff>) {
    forall i, j :: 0 <= i < j < |s| ==> StrLess(s[i].name, s[j].name)
  }

  lemma {:induction false} InsertByNameSorted(x: ServiceDiff, s: seq<ServiceDiff>)
    requires ByName(s) && forall y :: y in s ==> y.name != x.name
    ensures ByName(InsertByName(x, s))
  {
    if s == [] {
    } else if StrLess(x.name, s[0].name) {
      forall j | 0 <= j < |s| ensures StrLess(x.name, s[j].name) {
        if j > 0 {
          StrLessTransitive(x.name, s[0].name, s[j].name);
        }
      }
    } else {
      InsertByNameSorted(x, s[1..]);
      StrLessTotal(x.name, s[0].name);
      var t := InsertByName(x, s[1..]);
      forall j | 0 <= j < |t| ensures StrLess(s[0].name, t[j].name) {
        assert t[j] in t;
      }
    }
  }

  lemma {:induction false} SortByNameSorted(s: seq<ServiceDiff>)
    requires forall i, j :: 0 <= i < j < |s| ==> s[i].name != s[j].name
    ensures ByName(SortByName(s))
  {
    if s != [] {
      SortByNameSorted(s[..|s| - 1]);
      InsertByNameSorted(s[|s| - 1], SortByName(s[..|s| - 1]));
    }
  }

  /** The entries, each once, in the order a map iteration happened to give. */
  ghost predicate Collected(entries: Listed, s: seq<ServiceDiff>) {
    && (forall i, j :: 0 <= i < j < |s| ==> s[i].name != s[j].name)
    && (forall x :: x in s ==> x.name in entries && entries[x.name] == x)
    && (forall n :: n in entries ==> entries[n] in s && entries[n].name == n)
  }

  /** The entries whose names have been visited. */
  ghost function Visited(entries: Listed, todo: set<string>): Listed {
    map n | n in entries && n !in todo :: entries[n]
  }

  lemma CollectOne(entries: Listed, todo: set<string>, s: seq<ServiceDiff>, n: string)
    requires Collected(Visited(entries, todo), s) && n in todo && n in entries && entries[n].name == n
    ensures Collected(Visited(entries, todo - {n}), s + [entries[n]])
  {
    var x := entries[n];
    assert forall y :: y in s + [x] <==> y in s || y == x;
    assert Visited(entries, todo - {n}) == Visited(entries, todo)[n := x];
  }

  lemma CollectNone(entries: Listed, todo: set<string>, s: seq<ServiceDiff>, n: string)
    requires Collected(Visited(entries, todo), s) && n !in entries
    ensures Collected(Visited(entries, todo - {n}), s)
  {
    assert Visited(entries, todo - {n}) == Visited(entries, todo);
  }

  /** The last step of a collecting loop: nothing is left to visit. */
  lemma CollectedAll(entries: Listed, s: seq<ServiceDiff>)
    requires Collected(Visited(entries, {}), s)
    ensures SortByName(s) == InOrder(entries)
  {
    assert Visited(entries, {}) == entries;
    SortedInOrder(entries, s);
  }

  function Names(s: seq<ServiceDiff>): seq<string> {
    seq(|s|, i requires 0 <= i < |s| => s[i].name)
  }

  lemma NamesOf(entries: Listed, s: seq<ServiceDiff>, n: string)
    requires Collected(entries, s)
    ensures n in Names(SortByName(s)) <==> n in entries
  {
    var r := SortByName(s);
    if n in entries {
      assert entries[n] in r;
      var i :| 0 <= i < |r| && r[i] == entries[n];
      assert Names(r)[i] == n;
    }
    if n in Names(r) {
      var i :| 0 <= i < |r| && Names(r)[i] == n;
      assert r[i] in s;
    }
  }

  lemma SortedNames(entries: Listed, s: seq<ServiceDiff>)
    requires Collected(entries, s)
    ensures Names(SortByName(s)) == SortedKeys(entries.Keys)
  {
    SortByNameSorted(s);
    forall n ensures n in Names(SortByName(s)) <==> n in SortedKeys(entries.Keys) {
      NamesOf(entries, s, n);
    }
    AscendingUnique(Names(SortByName(s)), SortedKeys(entries.Keys));
  }

  /** Whatever order the entries were collected in, sorting gives the same list. */
  lemma SortedInOrder(entries: Listed, s: seq<ServiceDiff>)
    requires Collected(entries, s)
    ensures SortByName(s) == InOrder(entries)
  {
    SortedNames(entries, s);
    var r := SortByName(s);
    forall i | 0 <= i < |r| ensures r[i] == entries[Names(r)[i]] {
      assert r[i] in s;
    }
  }

  // ----- the method -----

  method CollectCreates(d: Desired, l: Live) returns (s: seq<ServiceDiff>)
    ensures s == InOrder(Creates(d, l))
  {
    s := [];
    var todo := d.Keys;
    ghost var entries := Creates(d, l);
    while todo != {}
      invariant todo <= d.Keys && Collected(Visited(entries, todo), s)
      decreases |todo|
    {
      var name :| name in todo;
      if name !in l {
        CollectOne(entries, todo, s, name);
        s := s + [Create(name, d[name])];
      } else {
        CollectNone(entries, todo, s, name);
      }
      todo := todo - {name};
    }
    CollectedAll(entries, s);
    s := SortByName(s);
  }

  method CollectRemoves(d: Desired, l: Live) returns (s: seq<ServiceDiff>)
    ensures s == InOrder(Removes(d, l))
  {
    s := [];
    var todo := l.Keys;
    ghost var entries := Removes(d, l);
    while todo != {}
      invariant todo <= l.Keys && Collected(Visited(entries, todo), s)
      decreases |todo|
    {
      var name :| name in todo;
      if name !in d {
        CollectOne(entries, todo, s, name);
        s := s + [Remove(name, l[name])];
      } else {
        CollectNone(entries, todo, s, name);
      }
      todo := todo - {name};
    }
    CollectedAll(entries, s);
    s := SortByName(s);
  }

  /** The loop body for one name of the desired side. */
  method CollectUpdate(d: Desired, l: Live, ghost todo: set<string>, s: seq<ServiceDiff>, name: string) returns (r: seq<ServiceDiff>)
    requires name in d && name in todo && Collected(Visited(Updates(d, l), todo), s)
    ensures Collected(Visited(Updates(d, l), todo - {name}), r)
  {
    ghost var entries := Updates(d, l);
    r := s;
    if name in l {
      var fields := CompareService(d[name], l[name]);
      if |fields| > 0 {
        assert entries[name] == Update(name, fields, d[name], l[name]);
        CollectOne(entries, todo, s, name);
        r := s + [Update(name, fields, d[name], l[name])];
        return;
      }
    }
    CollectNone(entries, todo, s, name);
  }

  method CollectUpdates(d: Desired, l: Live) returns (s: seq<ServiceDiff>)
    ensures s == InOrder(Updates(d, l))
  {
    s := [];
    var todo := d.Keys;
    ghost var entries := Updates(d, l);
    while todo != {}
      invariant todo <= d.Keys && Collected(Visited(entries, todo), s)
      decreases |todo|
    {
      var name :| name in todo;
      s := CollectUpdate(d, l, todo, s, name);
      todo := todo - {name};
    }
    CollectedAll(entries, s);
    s := SortByName(s);
  }

  method FilterDesired(desired: seq<ServiceSpec>) returns (d: Desired, ignored: set<string>)
    ensures d == IndexDesired(desired) && ignored == IgnoredNames(desired)
  {
    d, ignored := map[], {};
    for i := 0 to |desired|
      invariant ignored == IgnoredNames(desired[..i]) && d == IndexDesired(desired[..i])
    {
      IndexNext(desired, i);
      if Ignored(desired[i]) {
        ignored := ignored + {desired[i].name};
      } else {
        d := d[desired[i].name := desired[i]];
      }
    }
    assert desired[..|desired|] == desired;
  }

  lemma IndexNext(desired: seq<ServiceSpec>, i: nat)
    requires i < |desired|
    ensures var s := desired[i];
            && IgnoredNames(desired[..i + 1]) == IgnoredNames(desired[..i]) + (if Ignored(s) then {s.name} else {})
            && IndexDesired(desired[..i + 1]) ==
               if Ignored(s) then IndexDesired(desired[..i]) else IndexDesired(desired[..i])[s.name := s]
  {
    assert desired[..i + 1] == desired[..i] + [desired[i]] && desired[..i + 1][..i] == desired[..i];
  }

  method FilterLive(live: seq<ServiceState>, ignored: set<string>) returns (l: Live)
    ensures l == IndexLive(live, ignored)
  {
    l := map[];
    for i := 0 to |live|
      invariant l == IndexLive(live[..i], ignored)
    {
      assert live[..i + 1][..i] == live[..i];
      if live[i].name !in ignored {
        l := l[live[i].name := live[i]];
      }
    }
    assert live[..|live|] == live;
  }

  /** Split off the ignored services; index the rest by name. */
  method Index(desired: seq<ServiceSpec>, live: seq<ServiceState>) returns (d: Desired, l: Live)
    ensures d == IndexDesired(desired) && l == IndexLive(live, IgnoredNames(desired))
  {
    var ignored;
    d, ignored := FilterDesired(desired);
    l := FilterLive(live, ignored);
  }

  lemma InOrderEmpty(entries: Listed)
    ensures InOrder(entries) == [] <==> entries == map[]
  {
    if entries != map[] {
      assert entries.Keys != {};
    }
  }

  /** Diff, for every order in which Go may iterate its maps. */
  method Diff(desired: seq<ServiceSpec>, live: seq<ServiceState>) returns (result: DiffResult)
    ensures result == DiffSpec(desired, live)
  {
    var d, l := Index(desired, live);
    var toCreate := CollectCreates(d, l);
    var toRemove := CollectRemoves(d, l);
    var toUpdate := CollectUpdates(d, l);
    InOrderEmpty(Creates(d, l));
    InOrderEmpty(Updates(d, l));
    InOrderEmpty(Removes(d, l));
    result := DiffResult(toCreate, toUpdate, toRemove, |toCreate| == 0 && |toUpdate| == 0 && |toRemove| == 0);
  }

  // ----- independence of order -----

  predicate DistinctSpecs(desired: seq<ServiceSpec>) {
    forall i, j :: 0 <= i < j < |desired| ==> desired[i].name != desired[j].name
  }

  predicate DistinctStates(live: seq<ServiceState>) {
    forall i, j :: 0 <= i < j < |live| ==> live[i].name != live[j].name
  }

  /** With distinct names the index holds exactly the services that are not ignored. */
  lemma {:induction false} IndexDesiredIs(desired: seq<ServiceSpec>)
    requires DistinctSpecs(desired)
    ensures forall s :: s in desired && !Ignored(s) ==> s.name in IndexDesired(desired) && IndexDesired(desired)[s.name] == s
    ensures forall n :: n in IndexDesired(desired) ==>
              IndexDesired(desired)[n] in desired && !Ignored(IndexDesired(desired)[n]) && IndexDesired(desired)[n].name == n
  {
    if desired != [] {
      var k := |desired| - 1;
      IndexDesiredIs(desired[..k]);
      assert desired == desired[..k] + [desired[k]];
    }
  }

  lemma {:induction false} IndexLiveIs(live: seq<ServiceState>, ignored: set<string>)
    requires DistinctStates(live)
    ensures forall s :: s in live && s.name !in ignored ==> s.name in IndexLive(live, ignored) && IndexLive(live, ignored)[s.name] == s
    ensures forall n :: n in IndexLive(live, ignored) ==>
              IndexLive(live, ignored)[n] in live && n !in ignored && IndexLive(live, ignored)[n].name == n
  {
    if live != [] {
      var k := |live| - 1;
      IndexLiveIs(live[..k], ignored);
      assert live == live[..k] + [live[k]];
    }
  }

  lemma SameElements<T>(a: seq<T>, b: seq<T>)
    requires multiset(a) == multiset(b)
    ensures forall x :: x in a <==> x in b
  {
    forall x ensures x in a <==> x in b {
      assert x in a <==> x in multiset(a);
      assert x in b <==> x in multiset(b);
    }
  }

  lemma IndexDesiredPermuted(a: seq<ServiceSpec>, b: seq<ServiceSpec>)
    requires DistinctSpecs(a) && DistinctSpecs(b) && forall x :: x in a <==> x in b
    ensures IndexDesired(a) == IndexDesired(b)
  {
    IndexDesiredIs(a);
    IndexDesiredIs(b);
    assert forall n :: n in IndexDesired(a) ==> IndexDesired(a)[n] in b;
    assert forall n :: n in IndexDesired(b) ==> IndexDesired(b)[n] in a;
  }

  lemma IndexLivePermuted(a: seq<ServiceState>, b: seq<ServiceState>, ignored: set<string>)
    requires DistinctStates(a) && DistinctStates(b) && forall x :: x in a <==> x in b
    ensures IndexLive(a, ignored) == IndexLive(b, ignored)
  {
    IndexLiveIs(a, ignored);
    IndexLiveIs(b, ignored);
    assert forall n :: n in IndexLive(a, ignored) ==> IndexLive(a, ignored)[n] in b;
    assert forall n :: n in IndexLive(b, ignored) ==> IndexLive(b, ignored)[n] in a;
  }

  /** Listing the services in another order, on either side, changes nothing in the result. */
  lemma DiffPermuted(d1: seq<ServiceSpec>, d2: seq<ServiceSpec>, l1: seq<ServiceState>, l2: seq<ServiceState>)
    requires DistinctSpecs(d1) && DistinctSpecs(d2) && multiset(d1) == multiset(d2)
    requires DistinctStates(l1) && DistinctStates(l2) && multiset(l1) == multiset(l2)
    ensures DiffSpec(d1, l1) == DiffSpec(d2, l2)
  {
    SameElements(d1, d2);
    SameElements(l1, l2);
    IndexDesiredPermuted(d1, d2);
    assert IgnoredNames(d1) == IgnoredNames(d2);
    IndexLivePermuted(l1, l2, IgnoredNames(d1));
  }

  // ----- shape and meaning of the result -----

  lemma InOrderSorted(entries: Listed)
    requires forall n :: n in entries ==> entries[n].name == n
    ensures ByName(InOrder(entries))
    ensures forall x :: x in InOrder(entries) <==> x.name in entries && entries[x.name] == x
  {
    var keys, r := SortedKeys(entries.Keys), InOrder(entries);
    forall x ensures x in r <==> x.name in entries && entries[x.name] == x {
      if x.name in entries && entries[x.name] == x {
        var i :| 0 <= i < |keys| && keys[i] == x.name;
        assert r[i] == x;
      }
    }
  }

  /** The three lists are strictly sorted by name and no service is in two of them. */
  lemma DiffShape(desired: seq<ServiceSpec>, live: seq<ServiceState>)
    ensures var r := DiffSpec(desired, live);
            && ByName(r.toCreate) && ByName(r.toUpdate) && ByName(r.toRemove)
            && (forall x :: x in r.toCreate ==> x.Create?)
            && (forall x :: x in r.toUpdate ==> x.Update?)
            && (forall x :: x in r.toRemove ==> x.Remove?)
            && (forall x, y :: x in r.toCreate && y in r.toUpdate ==> x.name != y.name)
            && (forall x, y :: x in r.toCreate && y in r.toRemove ==> x.name != y.name)
            && (forall x, y :: x in r.toUpdate && y in r.toRemove ==> x.name != y.name)
  {
    var d, l := IndexDesired(desired), IndexLive(live, IgnoredNames(desired));
    InOrderSorted(Creates(d, l));
    InOrderSorted(Updates(d, l));
    InOrderSorted(Removes(d, l));
  }

  predicate IsLive(live: seq<ServiceState>, n: string) {
    exists s :: s in live && s.name == n
  }

  predicate IsDesired(desired: seq<ServiceSpec>, n: string) {
    exists s :: s in desired && s.name == n
  }

  lemma DesiredAt(desired: seq<ServiceSpec>, n: string, s: ServiceSpec)
    requires DistinctSpecs(desired)
    ensures n in IndexDesired(desired) && IndexDesired(desired)[n] == s <==> s in desired && !Ignored(s) && s.name == n
    ensures n in IndexDesired(desired) ==> n !in IgnoredNames(desired)
    ensures IsDesired(desired, n) <==> n in IgnoredNames(desired) || n in IndexDesired(desired)
  {
    IndexDesiredIs(desired);
  }

  lemma LiveAt(live: seq<ServiceState>, ignored: set<string>, n: string, s: ServiceState)
    requires DistinctStates(live)
    ensures n in IndexLive(live, ignored) && IndexLive(live, ignored)[n] == s <==> s in live && s.name == n && n !in ignored
    ensures n in IndexLive(live, ignored) <==> IsLive(live, n) && n !in ignored
  {
    IndexLiveIs(live, ignored);
  }

  /** Membership in the three lists, in terms of the two maps. */
  lemma CreatedIn(d: Desired, l: Live, x: ServiceDiff)
    ensures x in InOrder(Creates(d, l)) <==> x.Create? && x.name in d && d[x.name] == x.spec && x.name !in l
  {
    InOrderSorted(Creates(d, l));
  }

  lemma RemovedIn(d: Desired, l: Live, x: ServiceDiff)
    ensures x in InOrder(Removes(d, l)) <==> x.Remove? && x.name in l && l[x.name] == x.state && x.name !in d
  {
    InOrderSorted(Removes(d, l));
  }

  lemma UpdatedIn(d: Desired, l: Live, x: ServiceDiff)
    ensures x in InOrder(Updates(d, l)) <==>
              && x.Update? && x.name in d && d[x.name] == x.spec && x.name in l && l[x.name] == x.state
              && x.fields == CompareFields(x.spec, x.state) != []
  {
    InOrderSorted(Updates(d, l));
  }

  /** With distinct names: created when desired, not ignored, and nowhere live. */
  lemma CreatedIff(desired: seq<ServiceSpec>, live: seq<ServiceState>, n: string, s: ServiceSpec)
    requires DistinctSpecs(desired) && DistinctStates(live)
    ensures Create(n, s) in DiffSpec(desired, live).toCreate <==>
            s in desired && !Ignored(s) && s.name == n && !IsLive(live, n)
  {
    var d, l := IndexDesired(desired), IndexLive(live, IgnoredNames(desired));
    CreatedIn(d, l, Create(n, s));
    DesiredAt(desired, n, s);
    if n in l {
      LiveAt(live, IgnoredNames(desired), n, l[n]);
    } else if IsLive(live, n) {
      var t :| t in live && t.name == n;
      LiveAt(live, IgnoredNames(desired), n, t);
    }
  }

  /** Removed when live and nowhere desired. */
  lemma RemovedIff(desired: seq<ServiceSpec>, live: seq<ServiceState>, n: string, t: ServiceState)
    requires DistinctSpecs(desired) && DistinctStates(live)
    ensures Remove(n, t) in DiffSpec(desired, live).toRemove <==> t in live && t.name == n && !IsDesired(desired, n)
  {
    var d, l := IndexDesired(desired), IndexLive(live, IgnoredNames(desired));
    RemovedIn(d, l, Remove(n, t));
    LiveAt(live, IgnoredNames(desired), n, t);
    if IsDesired(desired, n) {
      var s :| s in desired && s.name == n;
      DesiredAt(desired, n, s);
    } else if n in d {
      DesiredAt(desired, n, d[n]);
    }
  }

  /** Updated, with the fields that differ, when on both sides, not ignored and not matching. */
  lemma UpdatedIff(desired: seq<ServiceSpec>, live: seq<ServiceState>, n: string, fields: seq<FieldDiff>, s: ServiceSpec, t: ServiceState)
    requires DistinctSpecs(desired) && DistinctStates(live)
    ensures Update(n, fields, s, t) in DiffSpec(desired, live).toUpdate <==>
            && s in desired && !Ignored(s) && t in live && s.name == t.name == n
            && !Matches(s, t) && fields == CompareFields(s, t)
  {
    var d, l := IndexDesired(desired), IndexLive(live, IgnoredNames(desired));
    UpdatedIn(d, l, Update(n, fields, s, t));
    LiveAt(live, IgnoredNames(desired), n, t);
    DesiredAt(desired, n, s);
    CompareEmpty(s, t);
  }

  /** Every service the differ looks at is on both sides and matches. */
  ghost predicate AllMatch(d: Desired, l: Live) {
    d.Keys == l.Keys && forall n :: n in d ==> Matches(d[n], l[n])
  }

  /** InSync is exactly the declarative match, service by service. */
  lemma InSyncIffAllMatch(desired: seq<ServiceSpec>, live: seq<ServiceState>)
    ensures DiffSpec(desired, live).inSync <==>
            AllMatch(IndexDesired(desired), IndexLive(live, IgnoredNames(desired)))
  {
    var d, l := IndexDesired(desired), IndexLive(live, IgnoredNames(desired));
    forall n | n in d && n in l ensures CompareFields(d[n], l[n]) == [] <==> Matches(d[n], l[n]) {
      CompareEmpty(d[n], l[n]);
    }
    InSyncKeys(d, l);
  }

  lemma InSyncKeys(d: Desired, l: Live)
    ensures DiffOf(d, l).inSync <==> d.Keys == l.Keys && forall n :: n in d && n in l ==> CompareFields(d[n], l[n]) == []
  {
    NoCreates(d, l);
    NoRemoves(d, l);
    NoUpdates(d, l);
  }

  lemma NoCreates(d: Desired, l: Live)
    ensures Creates(d, l) == map[] <==> d.Keys <= l.Keys
  {
    assert forall n :: n in d && n !in l ==> n in Creates(d, l);
  }

  lemma NoRemoves(d: Desired, l: Live)
    ensures Removes(d, l) == map[] <==> l.Keys <= d.Keys
  {
    assert forall n :: n in l && n !in d ==> n in Removes(d, l);
  }

  lemma NoUpdates(d: Desired, l: Live)
    ensures Updates(d, l) == map[] <==> forall n :: n in d && n in l ==> CompareFields(d[n], l[n]) == []
  {
    assert forall n :: n in d && n in l && CompareFields(d[n], l[n]) != [] ==> n in Updates(d, l);
  }

  // ----- the diff settles -----

  function ReplayAll(desired: seq<ServiceSpec>): seq<ServiceState> {
    seq(|desired|, i requires 0 <= i < |desired| => Replay(desired[i]))
  }

  lemma ReplayIndex(desired: seq<ServiceSpec>)
    requires DistinctSpecs(desired)
    ensures var d, l := IndexDesired(desired), IndexLive(ReplayAll(desired), IgnoredNames(desired));
            d.Keys == l.Keys && forall n :: n in d ==> l[n] == Replay(d[n])
  {
    var live, ignored := ReplayAll(desired), IgnoredNames(desired);
    IndexDesiredIs(desired);
    IndexLiveIs(live, ignored);
    forall i | 0 <= i < |desired| ensures desired[i].name in ignored <==> Ignored(desired[i]) {
      assert desired[i] in desired;
    }
    forall n | n in IndexDesired(desired)
      ensures n in IndexLive(live, ignored) && IndexLive(live, ignored)[n] == Replay(IndexDesired(desired)[n])
    {
      var i :| 0 <= i < |desired| && desired[i] == IndexDesired(desired)[n];
      assert live[i] in live;
    }
    forall n | n in IndexLive(live, ignored) ensures n in IndexDesired(desired) {
      var i :| 0 <= i < |live| && live[i] == IndexLive(live, ignored)[n];
      assert desired[i] in desired;
    }
  }

  /**
   * Once the desired services are live exactly as specified, Diff reports
   * InSync if and only if every service that is not ignored settles: no network
   * of the default form, and every volume agrees with the last of its target.
   */
  lemma ReplayInSyncIffSettles(desired: seq<ServiceSpec>)
    requires DistinctSpecs(desired)
    ensures DiffSpec(desired, ReplayAll(desired)).inSync <==>
            forall s :: s in desired && !Ignored(s) ==> Settles(s)
  {
    var d, l := IndexDesired(desired), IndexLive(ReplayAll(desired), IgnoredNames(desired));
    ReplayIndex(desired);
    IndexDesiredIs(desired);
    InSyncIffAllMatch(desired, ReplayAll(desired));
    forall n | n in d ensures Matches(d[n], l[n]) <==> Settles(d[n]) {
      ReplayMatches(d[n]);
    }
  }
}
