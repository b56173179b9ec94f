/**
 * ListEventsForApplications: the newest `limit` events of each granted
 * application are united and cut to the newest `limit` again. The result must
 * be what one plain query over all granted applications returns.
 */
module EventQuery {
  import opened Ordering

  datatype Event = Event(id: string, app: string, kind: string, severity: string, createdAt: int)

  /** ORDER BY created_at DESC, id DESC: `a` is listed before `b`. */
  predicate Newer(a: Event, b: Event) {
    a.createdAt > b.createdAt || (a.createdAt == b.createdAt && StrLess(b.id, a.id))
  }

  lemma NewerOrder(a: Event, b: Event, c: Event)
    ensures Newer(a, b) && Newer(b, c) ==> Newer(a, c)
    ensures !(Newer(a, b) && Newer(b, a))
    ensures a.id != b.id ==> Newer(a, b) || Newer(b, a)
  {
    if Newer(a, b) && Newer(b, c) && a.createdAt == c.createdAt {
      StrLessTransitive(c.id, b.id, a.id);
    }
    StrLessTotal(a.id, b.id);
    if StrLess(a.id, b.id) && StrLess(b.id, a.id) {
      StrLessTransitive(a.id, b.id, a.id);
      StrLessIrreflexive(a.id);
    }
  }

  // ----- ORDER BY created_at DESC, id DESC LIMIT k -----

  function InsertRow(x: Event, s: seq<Event>): (r: seq<Event>)
    ensures multiset(r) == multiset(s) + multiset{x}
  {
    if s == [] || Newer(x, s[0]) then [x] + s
    else
      assert s == [s[0]] + s[1..];
      [s[0]] + InsertRow(x, s[1..])
  }

  function OrderRows(rows: seq<Event>): (r: seq<Event>)
    ensures multiset(r) == multiset(rows)
  {
    if rows == [] then []
    else
      assert rows == [rows[0]] + rows[1..];
      InsertRow(rows[0], OrderRows(rows[1..]))
  }

  function Take(k: nat, s: seq<Event>): seq<Event> {
    if k < |s| then s[..k] else s
  }

  function Select(rows: seq<Event>, k: nat): seq<Event> {
    Take(k, OrderRows(rows))
  }

  /** Each row under its own id. */
  predicate DistinctRows(rows: seq<Event>) {
    forall i, j :: 0 <= i < j < |rows| ==> rows[i].id != rows[j].id
  }

  ghost predicate NewestFirst(s: seq<Event>) {
    forall i, j :: 0 <= i < j < |s| ==> Newer(s[i], s[j])
  }

  lemma {:induction false} InsertRowNewestFirst(x: Event, s: seq<Event>)
    requires NewestFirst(s) && forall e :: e in s ==> e.id != x.id
    ensures NewestFirst(InsertRow(x, s))
  {
    if s == [] {
    } else if Newer(x, s[0]) {
      forall j | 0 <= j < |s| ensures Newer(x, s[j]) {
        NewerOrder(x, s[0], s[j]);
      }
    } else {
      InsertRowNewestFirst(x, s[1..]);
      var t := InsertRow(x, s[1..]);
      NewerOrder(x, s[0], x);
      forall j | 0 <= j < |t| ensures Newer(s[0], t[j]) {
        assert t[j] in multiset(t);
        assert t[j] == x || t[j] in s[1..];
      }
    }
  }

  lemma {:induction false} OrderRowsNewestFirst(rows: seq<Event>)
    requires DistinctRows(rows)
    ensures NewestFirst(OrderRows(rows))
  {
    if rows != [] {
      OrderRowsNewestFirst(rows[1..]);
      forall e | e in OrderRows(rows[1..]) ensures e.id != rows[0].id {
        assert e in multiset(OrderRows(rows[1..]));
        assert e in rows[1..];
      }
      InsertRowNewestFirst(rows[0], OrderRows(rows[1..]));
    }
  }

  /** Rows in newest-first order are determined by their contents. */
  lemma {:induction false} NewestFirstUnique(a: seq<Event>, b: seq<Event>)
    requires NewestFirst(a) && NewestFirst(b) && multiset(a) == multiset(b)
    ensures a == b
  {
    if a == [] {
      assert |multiset(b)| == 0;
    } else {
      assert a[0] in multiset(b) && |multiset(b)| > 0;
      assert b[0] in multiset(a);
      SameHead(a, b);
      HeadContents(a);
      HeadContents(b);
      assert multiset(a[1..]) == multiset(a) - multiset{a[0]} == multiset(b[1..]);
      NewestFirstUnique(a[1..], b[1..]);
      assert a == [a[0]] + a[1..] && b == [b[0]] + b[1..];
    }
  }

  lemma {:induction false} SameHead(a: seq<Event>, b: seq<Event>)
    requires NewestFirst(a) && NewestFirst(b) && a != [] && b != [] && a[0] in b && b[0] in a
    ensures a[0] == b[0]
  {
    var i :| 0 <= i < |b| && b[i] == a[0];
    var j :| 0 <= j < |a| && a[j] == b[0];
    NewerOrder(a[0], b[0], a[0]);
  }

  /**
   * What the clause means on rows with unique ids: min(k, n) of the rows, newest
   * first, and every row left out is older than every row returned.
   */
  lemma SelectMeaning(rows: seq<Event>, k: nat)
    requires DistinctRows(rows)
    ensures var out := Select(rows, k);
            && |out| == (if k < |rows| then k else |rows|)
            && NewestFirst(out)
            && (forall e :: e in out ==> e in rows)
            && (forall x, i :: x in rows && x !in out && 0 <= i < |out| ==> Newer(out[i], x))
  {
    var sorted, out := OrderRows(rows), Select(rows, k);
    OrderRowsNewestFirst(rows);
    assert |sorted| == |multiset(sorted)| == |multiset(rows)| == |rows|;
    forall e ensures e in rows <==> e in sorted {
      assert e in rows <==> e in multiset(rows);
      assert e in sorted <==> e in multiset(sorted);
    }
    forall j | 0 <= j < |out| ensures sorted[j] in out {
      assert out[j] == sorted[j];
    }
    forall x, i | x in rows && x !in out && 0 <= i < |out| ensures Newer(out[i], x) {
      var j :| 0 <= j < |sorted| && sorted[j] == x;
    }
  }

  // ----- cutting a part before merging does not change the answer -----

  function Merge(a: seq<Event>, b: seq<Event>): seq<Event>
    decreases |a| + |b|
  {
    if a == [] then b
    else if b == [] then a
    else if Newer(a[0], b[0]) then [a[0]] + Merge(a[1..], b)
    else [b[0]] + Merge(a, b[1..])
  }

  lemma {:induction false} MergeContents(a: seq<Event>, b: seq<Event>)
    ensures multiset(Merge(a, b)) == multiset(a) + multiset(b)
    decreases |a| + |b|
  {
    if a != [] && b != [] {
      if Newer(a[0], b[0]) {
        MergeContents(a[1..], b);
        HeadContents(a);
        ConsContents(a[0], Merge(a[1..], b));
      } else {
        MergeContents(a, b[1..]);
        HeadContents(b);
        ConsContents(b[0], Merge(a, b[1..]));
      }
    }
  }

  lemma ConsContents(x: Event, s: seq<Event>)
    ensures multiset([x] + s) == multiset{x} + multiset(s)
  {
  }

  lemma HeadContents(s: seq<Event>)
    requires s != []
    ensures multiset(s) == multiset{s[0]} + multiset(s[1..])
  {
    assert s == [s[0]] + s[1..];
  }

  lemma MergeHead(x: Event, a: seq<Event>, b: seq<Event>)
    ensures b != [] && Newer(x, b[0]) ==> Merge([x] + a, b) == [x] + Merge(a, b)
    ensures a != [] && !Newer(a[0], x) ==> Merge(a, [x] + b) == [x] + Merge(a, b)
  {
    assert ([x] + a)[1..] == a && ([x] + b)[1..] == b;
  }

  lemma TakeHead(k: nat, x: Event, s: seq<Event>)
    requires k > 0
    ensures Take(k, [x] + s) == [x] + Take(k - 1, s)
  {
  }

  lemma TakeTake(j: nat, k: nat, s: seq<Event>)
    requires j <= k
    ensures Take(j, Take(k, s)) == Take(j, s)
  {
  }

  lemma {:induction false} CutFirst(a: seq<Event>, b: seq<Event>, k: nat)
    ensures Take(k, Merge(Take(k, a), b)) == Take(k, Merge(a, b))
    decreases k
  {
    if k > 0 && k < |a| && b != [] {
      var x, a', y, b' := a[0], a[1..], b[0], b[1..];
      assert a == [x] + a' && b == [y] + b';
      TakeHead(k, x, a');
      if Newer(x, y) {
        MergeHead(x, a', b);
        MergeHead(x, Take(k - 1, a'), b);
        TakeHead(k, x, Merge(a', b));
        TakeHead(k, x, Merge(Take(k - 1, a'), b));
        CutFirst(a', b, k - 1);
      } else {
        var cut := Take(k, a);
        MergeHead(y, a, b');
        MergeHead(y, cut, b');
        TakeHead(k, y, Merge(a, b'));
        TakeHead(k, y, Merge(cut, b'));
        CutFirst(a, b', k - 1);
        CutFirst(cut, b', k - 1);
        TakeTake(k - 1, k, a);
      }
    }
  }

  lemma {:induction false} CutSecond(a: seq<Event>, b: seq<Event>, k: nat)
    ensures Take(k, Merge(a, Take(k, b))) == Take(k, Merge(a, b))
    decreases k
  {
    if k > 0 && k < |b| && a != [] {
      var x, a', y, b' := a[0], a[1..], b[0], b[1..];
      assert a == [x] + a' && b == [y] + b';
      TakeHead(k, y, b');
      if Newer(x, y) {
        var cut := Take(k, b);
        MergeHead(x, a', b);
        MergeHead(x, a', cut);
        TakeHead(k, x, Merge(a', b));
        TakeHead(k, x, Merge(a', cut));
        CutSecond(a', b, k - 1);
        CutSecond(a', cut, k - 1);
        TakeTake(k - 1, k, b);
      } else {
        MergeHead(y, a, b');
        MergeHead(y, a, Take(k - 1, b'));
        TakeHead(k, y, Merge(a, b'));
        TakeHead(k, y, Merge(a, Take(k - 1, b')));
        CutSecond(a, b', k - 1);
      }
    }
  }

  lemma {:induction false} MergeNewestFirst(a: seq<Event>, b: seq<Event>)
    requires NewestFirst(a) && NewestFirst(b)
    requires forall x, y :: x in a && y in b ==> x.id != y.id
    ensures NewestFirst(Merge(a, b))
    decreases |a| + |b|
  {
    if a != [] && b != [] {
      NewerOrder(a[0], b[0], a[0]);
      if Newer(a[0], b[0]) {
        MergeNewestFirst(a[1..], b);
        HeadNewest(a[0], a[1..], b);
      } else {
        MergeNewestFirst(a, b[1..]);
        HeadNewest(b[0], a, b[1..]);
      }
    }
  }

  lemma HeadNewest(x: Event, a: seq<Event>, b: seq<Event>)
    requires NewestFirst(a) && NewestFirst(b) && NewestFirst(Merge(a, b))
    requires a != [] ==> Newer(x, a[0])
    requires b != [] ==> Newer(x, b[0])
    ensures NewestFirst([x] + Merge(a, b))
  {
    var rest := Merge(a, b);
    MergeContents(a, b);
    forall j | 0 <= j < |rest| ensures Newer(x, rest[j]) {
      assert rest[j] in multiset(rest);
      if rest[j] in a {
        NewerOrder(x, a[0], rest[j]);
      } else {
        NewerOrder(x, b[0], rest[j]);
      }
    }
  }

  /** Sorting a concatenation is merging the sorted parts. */
  lemma OrderConcat(a: seq<Event>, b: seq<Event>)
    requires DistinctRows(a + b)
    ensures OrderRows(a + b) == Merge(OrderRows(a), OrderRows(b))
  {
    assert forall i :: 0 <= i < |a| ==> (a + b)[i] == a[i];
    assert forall i :: 0 <= i < |b| ==> (a + b)[|a| + i] == b[i];
    OrderRowsNewestFirst(a);
    OrderRowsNewestFirst(b);
    OrderRowsNewestFirst(a + b);
    forall x, y | x in OrderRows(a) && y in OrderRows(b) ensures x.id != y.id {
      assert x in multiset(OrderRows(a)) && y in multiset(OrderRows(b));
      var i :| 0 <= i < |a| && a[i] == x;
      var j :| 0 <= j < |b| && b[j] == y;
      assert (a + b)[i] == x && (a + b)[|a| + j] == y;
    }
    MergeNewestFirst(OrderRows(a), OrderRows(b));
    MergeContents(OrderRows(a), OrderRows(b));
    NewestFirstUnique(OrderRows(a + b), Merge(OrderRows(a), OrderRows(b)));
  }

  /** Order does not depend on how the rows were listed. */
  lemma OrderPermuted(a: seq<Event>, b: seq<Event>)
    requires DistinctRows(a) && DistinctRows(b) && multiset(a) == multiset(b)
    ensures OrderRows(a) == OrderRows(b)
  {
    OrderRowsNewestFirst(a);
    OrderRowsNewestFirst(b);
    NewestFirstUnique(OrderRows(a), OrderRows(b));
  }

  // ----- rows drawn from a table -----

  lemma DrawnDistinct(rows: seq<Event>, table: seq<Event>)
    requires DistinctRows(table) && multiset(rows) <= multiset(table)
    ensures DistinctRows(rows)
  {
    forall i, j | 0 <= i < j < |rows| ensures rows[i].id != rows[j].id {
      assert rows[i] in multiset(rows) && rows[j] in multiset(rows);
      assert rows[i] in multiset(table) && rows[j] in multiset(table);
      if rows[i] == rows[j] {
        CountTwice(rows, i, j);
        CountOnce(table, rows[i]);
      }
    }
  }

  lemma CountTwice(rows: seq<Event>, i: nat, j: nat)
    requires i < j < |rows| && rows[i] == rows[j]
    ensures multiset(rows)[rows[i]] >= 2
  {
    assert rows == rows[..j] + rows[j..];
    assert rows[i] == rows[..j][i] && rows[j] == rows[j..][0];
    assert multiset(rows) == multiset(rows[..j]) + multiset(rows[j..]);
    assert rows[i] in multiset(rows[..j]) && rows[j] in multiset(rows[j..]);
  }

  lemma {:induction false} CountOnce(table: seq<Event>, e: Event)
    requires DistinctRows(table)
    ensures multiset(table)[e] <= 1
  {
    if table != [] {
      CountOnce(table[1..], e);
      assert table == [table[0]] + table[1..];
      assert e == table[0] ==> e !in table[1..];
      assert e in table[1..] <==> e in multiset(table[1..]);
    }
  }

  function RowsOf(table: seq<Event>, apps: set<string>): (r: seq<Event>)
    ensures multiset(r) <= multiset(table)
  {
    if table == [] then []
    else
      assert table == [table[0]] + table[1..];
      (if table[0].app in apps then [table[0]] else []) + RowsOf(table[1..], apps)
  }

  /** The table's rows of these applications, each as often as it is there. */
  lemma {:induction false} RowsOfCount(table: seq<Event>, apps: set<string>, e: Event)
    ensures multiset(RowsOf(table, apps))[e] == if e.app in apps then multiset(table)[e] else 0
  {
    if table != [] {
      RowsOfCount(table[1..], apps, e);
      assert table == [table[0]] + table[1..];
    }
  }

  lemma RowsOfMember(table: seq<Event>, apps: set<string>, e: Event)
    ensures e in RowsOf(table, apps) <==> e in table && e.app in apps
  {
    RowsOfCount(table, apps, e);
    assert e in RowsOf(table, apps) <==> e in multiset(RowsOf(table, apps));
    assert e in table <==> e in multiset(table);
  }

  lemma {:induction false} RowsOfSplit(table: seq<Event>, apps: set<string>, app: string)
    requires app !in apps
    ensures multiset(RowsOf(table, apps + {app})) == multiset(RowsOf(table, apps)) + multiset(RowsOf(table, {app}))
  {
    if table != [] {
      RowsOfSplit(table[1..], apps, app);
    }
  }

  lemma {:induction false} NoRows(table: seq<Event>)
    ensures RowsOf(table, {}) == []
  {
    if table != [] {
      NoRows(table[1..]);
    }
  }

  // ----- the query -----

  /** Cutting the new branch, and having cut the old ones, changes nothing in the first k rows. */
  lemma UniteOrdered(united: seq<Event>, earlier: seq<Event>, own: seq<Event>, k: nat)
    requires DistinctRows(united + Select(own, k)) && DistinctRows(earlier + own) && DistinctRows(own)
    requires Select(united, k) == Select(earlier, k)
    ensures Select(united + Select(own, k), k) == Select(earlier + own, k)
  {
    BranchOrdered(own, k);
    OrderConcat(united, Select(own, k));
    CutSecond(OrderRows(united), OrderRows(own), k);
    CutFirst(OrderRows(united), OrderRows(own), k);
    CutFirst(OrderRows(earlier), OrderRows(own), k);
    OrderConcat(earlier, own);
  }

  lemma SelectDrawn(rows: seq<Event>, k: nat)
    ensures multiset(Select(rows, k)) <= multiset(rows)
  {
    var sorted, out := OrderRows(rows), Select(rows, k);
    assert sorted == out + sorted[|out|..];
  }

  /** The branches united so far answer for their applications. */
  ghost predicate United(table: seq<Event>, apps: set<string>, united: seq<Event>, k: nat) {
    && multiset(united) <= multiset(RowsOf(table, apps))
    && Select(united, k) == Select(RowsOf(table, apps), k)
  }

  /** UNION ALL with one more branch keeps the answer of the plain query. */
  lemma UniteBranch(table: seq<Event>, apps: set<string>, app: string, united: seq<Event>, k: nat)
    requires DistinctRows(table) && app !in apps
    requires United(table, apps, united, k)
    ensures United(table, apps + {app}, united + Select(RowsOf(table, {app}), k), k)
  {
    var earlier, own, all := RowsOf(table, apps), RowsOf(table, {app}), RowsOf(table, apps + {app});
    RowsOfSplit(table, apps, app);
    SelectDrawn(own, k);
    DrawnDistinct(own, table);
    DrawnDistinct(all, table);
    DrawnDistinct(united + Select(own, k), all);
    DrawnDistinct(earlier + own, all);
    UniteOrdered(united, earlier, own, k);
    OrderPermuted(earlier + own, all);
  }

  lemma BranchOrdered(own: seq<Event>, k: nat)
    requires DistinctRows(own)
    ensures OrderRows(Select(own, k)) == Select(own, k)
  {
    OrderRowsNewestFirst(own);
    SelectDrawn(own, k);
    DrawnDistinct(Select(own, k), own);
    OrderRowsNewestFirst(Select(own, k));
    NewestFirstUnique(OrderRows(Select(own, k)), Select(own, k));
  }

  ghost function Upto(names: seq<string>, i: nat): set<string>
    requires i <= |names|
  {
    set n | n in names[..i]
  }

  lemma UptoNext(names: seq<string>, i: nat)
    requires i < |names|
    ensures Upto(names, i + 1) == Upto(names, i) + {names[i]}
  {
    assert names[..i + 1] == names[..i] + [names[i]];
  }

  /**
   * The answer in terms of the table: rows of granted applications, newest
   * first and each once; a granted row is left out only when the limit is
   * reached, and is then older than every row returned.
   */
  ghost predicate IsAnswer(table: seq<Event>, names: seq<string>, limit: nat, out: seq<Event>) {
    && |out| <= limit
    && (forall i, j :: 0 <= i < j < |out| ==> Before(out[i], out[j]))
    && (forall e :: e in out ==> e in table && e.app in names)
    && (forall x :: x in table && x.app in names && x !in out ==>
          |out| == limit && forall i :: 0 <= i < |out| ==> Before(out[i], x))
  }

  /** Later, or at the same time with the greater id. */
  predicate Before(a: Event, b: Event) {
    a.createdAt >= b.createdAt && (a.createdAt == b.createdAt ==> StrLess(b.id, a.id))
  }

  lemma GrantedRows(table: seq<Event>, names: seq<string>, apps: set<string>)
    requires apps == set n | n in names
    ensures forall e :: e in RowsOf(table, apps) <==> e in table && e.app in names
  {
    forall e ensures e in RowsOf(table, apps) <==> e in table && e.app in names {
      RowsOfMember(table, apps, e);
    }
  }

  lemma SelectAnswers(table: seq<Event>, names: seq<string>, limit: nat)
    requires DistinctRows(table)
    ensures IsAnswer(table, names, limit, Select(RowsOf(table, set n | n in names), limit))
  {
    var apps := set n | n in names;
    var rows := RowsOf(table, apps);
    DrawnDistinct(rows, table);
    GrantedRows(table, names, apps);
    AnswersFrom(table, names, limit, rows);
  }

  lemma {:induction false} AnswersFrom(table: seq<Event>, names: seq<string>, limit: nat, rows: seq<Event>)
    requires DistinctRows(rows) && forall e :: e in rows <==> e in table && e.app in names
    ensures IsAnswer(table, names, limit, Select(rows, limit))
  {
    var out := Select(rows, limit);
    SelectMeaning(rows, limit);
    forall x | x in rows && x !in out ensures |out| == limit {
      if |rows| <= limit {
        AllSelected(rows, limit, x);
      }
    }
  }

  /** Below the limit nothing is left out. */
  lemma AllSelected(rows: seq<Event>, k: nat, x: Event)
    requires x in rows && |rows| <= k
    ensures x in Select(rows, k)
  {
    assert x in multiset(OrderRows(rows));
    assert |multiset(OrderRows(rows))| == |multiset(rows)|;
  }

  /**
   * ListEventsForApplications, for every table with unique ids and every grant
   * list, duplicates included: it answers like one plain query over all events
   * of the granted applications.
   */
  method ListEventsForApplications(table: seq<Event>, names: seq<string>, limit: int) returns (out: seq<Event>)
    requires DistinctRows(table)
    ensures limit <= 0 ==> out == []
    ensures limit > 0 ==> out == Select(RowsOf(table, set n | n in names), limit)
    ensures limit > 0 ==> IsAnswer(table, names, limit, out)
  {
    if limit > 0 {
      SelectAnswers(table, names, limit);
    }
    NoRows(table);
    if names == [] || limit <= 0 {
      assert names == [] ==> (set n | n in names) == {};
      return [];
    }
    var seen: set<string> := {};
    var united: seq<Event> := [];
    var i := 0;
    while i < |names|
      invariant 0 <= i <= |names| && seen == Upto(names, i)
      invariant United(table, seen, united, limit)
    {
      var name := names[i];
      UptoNext(names, i);
      if name !in seen {
        UniteBranch(table, seen, name, united, limit);
        seen := seen + {name};
        united := united + Select(RowsOf(table, {name}), limit);
      }
      i := i + 1;
    }
    assert names[..i] == names;
    out := Select(united, limit);
  }
}
