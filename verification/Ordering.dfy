/**
 * Bytewise string order, sorted enumerations of string sets and the sorted
 * form of a string list. Go's `<` on strings, `sort.Strings` and
 * `sort.Slice` by a name are all read through these definitions.
 */
module Ordering {

  /** Go's `a < b` on strings: lexicographic, byte by byte. */
  predicate StrLess(a: string, b: string) {
    b != [] && (a == [] || a[0] < b[0] || (a[0] == b[0] && StrLess(a[1..], b[1..])))
  }

  /** `i` is where two texts part, and the byte of `a` there is the smaller one, or `a` ends there. */
  predicate PartsBelow(a: string, b: string, i: nat) {
    && i <= |a| && i < |b| && a[..i] == b[..i]
    && (i == |a| || a[i] < b[i])
  }

  /** A text is below another exactly when it is below where they part. */
  lemma {:induction false} StrLessIff(a: string, b: string)
    ensures StrLess(a, b) <==> exists i: nat :: PartsBelow(a, b, i)
  {
    if b == [] {
    } else if a == [] {
      assert PartsBelow(a, b, 0);
    } else if a[0] != b[0] {
      if a[0] < b[0] {
        assert PartsBelow(a, b, 0);
      }
      forall i: nat | 0 < i <= |a| && i <= |b| ensures a[..i] != b[..i] {
        assert a[..i][0] == a[0] && b[..i][0] == b[0];
      }
    } else {
      StrLessIff(a[1..], b[1..]);
      forall i: nat | PartsBelow(a[1..], b[1..], i) ensures PartsBelow(a, b, i + 1) {
        assert a[..i + 1] == [a[0]] + a[1..][..i] && b[..i + 1] == [b[0]] + b[1..][..i];
      }
      forall i: nat | PartsBelow(a, b, i) ensures i > 0 && PartsBelow(a[1..], b[1..], i - 1) {
        assert i > 0;
        assert a[1..][..i - 1] == a[..i][1..] && b[1..][..i - 1] == b[..i][1..];
      }
    }
  }

  lemma {:induction false} StrLessIrreflexive(a: string)
    ensures !StrLess(a, a)
  {
    if a != [] {
      StrLessIrreflexive(a[1..]);
    }
  }

  lemma {:induction false} StrLessTransitive(a: string, b: string, c: string)
    requires StrLess(a, b) && StrLess(b, c)
    ensures StrLess(a, c)
  {
    if a != [] && a[0] == b[0] == c[0] {
      StrLessTransitive(a[1..], b[1..], c[1..]);
    }
  }

  lemma {:induction false} StrLessTotal(a: string, b: string)
    ensures StrLess(a, b) || a == b || StrLess(b, a)
  {
    if a != [] && b != [] && a[0] == b[0] {
      StrLessTotal(a[1..], b[1..]);
      assert a == [a[0]] + a[1..] && b == [b[0]] + b[1..];
    }
  }

  predicate StrictlyAscending(s: seq<string>) {
    forall i, j :: 0 <= i < j < |s| ==> StrLess(s[i], s[j])
  }

  lemma LeastExists(s: set<string>)
    requires s != {}
    ensures exists m :: m in s && forall x :: x in s && x != m ==> StrLess(m, x)
  {
    var x :| x in s;
    var rest := s - {x};
    if rest == {} {
      assert s == rest + {x};
    } else {
      LeastExists(rest);
      var m :| m in rest && forall y :: y in rest && y != m ==> StrLess(m, y);
      StrLessTotal(m, x);
      if StrLess(m, x) {
        assert m in s && forall y :: y in s && y != m ==> StrLess(m, y);
      } else {
        forall y | y in s && y != x ensures StrLess(x, y) {
          if y != m {
            StrLessTransitive(x, m, y);
          }
        }
        assert x in s;
      }
    }
  }

  function Least(s: set<string>): (m: string)
    requires s != {}
    ensures m in s
    ensures forall x :: x in s && x != m ==> StrLess(m, x)
  {
    LeastExists(s);
    var m :| m in s && forall x :: x in s && x != m ==> StrLess(m, x);
    assert forall n | n in s && (forall x :: x in s && x != n ==> StrLess(n, x)) :: n == m by {
      forall n | n in s && (forall x :: x in s && x != n ==> StrLess(n, x)) ensures n == m {
        if n != m {
          StrLessTransitive(n, m, n);
          StrLessIrreflexive(n);
        }
      }
    }
    m
  }

  /** The strictly ascending enumeration of a finite set of strings. */
  function SortedKeys(s: set<string>): (r: seq<string>)
    ensures StrictlyAscending(r)
    ensures forall x :: x in r <==> x in s
    ensures |r| == |s|
  {
    if s == {} then []
    else
      var m := Least(s);
      [m] + SortedKeys(s - {m})
  }

  /** A strictly ascending list is determined by its elements. */
  lemma {:induction false} AscendingUnique(a: seq<string>, b: seq<string>)
    requires StrictlyAscending(a) && StrictlyAscending(b)
    requires forall x :: x in a <==> x in b
    ensures a == b
  {
    assert b == [] || b[0] in a;
    if a != [] {
      assert a[0] in b && b != [] && b[0] in a;
      var i :| 0 <= i < |b| && b[i] == a[0];
      var j :| 0 <= j < |a| && a[j] == b[0];
      if i != 0 {
        StrLessIrreflexive(a[0]);
        if j != 0 {
          StrLessTransitive(a[0], b[0], a[0]);
        }
        assert false;
      }
      forall x ensures x in a[1..] <==> x in b[1..] {
        StrLessIrreflexive(a[0]);
        assert a[0] !in a[1..] && b[0] !in b[1..];
        assert x in a <==> x == a[0] || x in a[1..];
        assert x in b <==> x == b[0] || x in b[1..];
      }
      AscendingUnique(a[1..], b[1..]);
      assert a == [a[0]] + a[1..] && b == [b[0]] + b[1..];
    }
  }

  // ----- sort.Strings -----

  predicate Ascending(s: seq<string>) {
    forall i, j :: 0 <= i < j < |s| ==> !StrLess(s[j], s[i])
  }

  function Insert(x: string, s: seq<string>): (r: seq<string>)
    ensures multiset(r) == multiset(s) + multiset{x}
  {
    if s == [] || StrLess(x, s[0]) then [x] + s
    else
      assert s == [s[0]] + s[1..];
      [s[0]] + Insert(x, s[1..])
  }

  lemma {:induction false} InsertAscending(x: string, s: seq<string>)
    requires Ascending(s)
    ensures Ascending(Insert(x, s))
  {
    if s == [] {
    } else if StrLess(x, s[0]) {
      forall j | 0 <= j < |s| ensures !StrLess(s[j], x) {
        if StrLess(s[j], x) {
          StrLessTransitive(s[j], x, s[0]);
          StrLessIrreflexive(s[0]);
        }
      }
    } else {
      InsertAscending(x, s[1..]);
      var t := Insert(x, s[1..]);
      forall j | 0 <= j < |t| ensures !StrLess(t[j], s[0]) {
        assert t[j] in multiset(t);
        assert t[j] == x || t[j] in s[1..];
      }
    }
  }

  /** The ascending rearrangement of a list, as `sort.Strings` leaves it. */
  function SortStrings(s: seq<string>): (r: seq<string>)
    ensures multiset(r) == multiset(s)
  {
    if s == [] then []
    else
      assert s == [s[0]] + s[1..];
      Insert(s[0], SortStrings(s[1..]))
  }

  lemma {:induction false} SortStringsAscending(s: seq<string>)
    ensures Ascending(SortStrings(s))
  {
    if s != [] {
      SortStringsAscending(s[1..]);
      InsertAscending(s[0], SortStrings(s[1..]));
    }
  }

  /** Two ascending lists with the same elements, counted, are equal. */
  lemma {:induction false} AscendingPermutationUnique(a: seq<string>, b: seq<string>)
    requires Ascending(a) && Ascending(b) && multiset(a) == multiset(b)
    ensures a == b
  {
    if a == [] {
      assert |multiset(b)| == 0;
    } else {
      HeadOfOther(a, b);
      HeadOfOther(b, a);
      SameLeast(a, b);
      TailAscending(a);
      TailAscending(b);
      TailsSame(a, b);
      AscendingPermutationUnique(a[1..], b[1..]);
      assert a == [a[0]] + a[1..] && b == [b[0]] + b[1..];
    }
  }

  lemma {:induction false} HeadOfOther(a: seq<string>, b: seq<string>)
    requires a != [] && multiset(a) == multiset(b)
    ensures b != [] && a[0] in b
  {
    assert a[0] in multiset(b) && |multiset(b)| > 0;
  }

  lemma {:induction false} TailAscending(a: seq<string>)
    requires a != [] && Ascending(a)
    ensures Ascending(a[1..])
  {
  }

  lemma {:induction false} TailsSame(a: seq<string>, b: seq<string>)
    requires a != [] && b != [] && a[0] == b[0] && multiset(a) == multiset(b)
    ensures multiset(a[1..]) == multiset(b[1..])
  {
    HeadContents(a);
    HeadContents(b);
    assert multiset(a[1..]) == multiset(a) - multiset{a[0]} == multiset(b[1..]);
  }

  lemma {:induction false} SameLeast(a: seq<string>, b: seq<string>)
    requires Ascending(a) && Ascending(b) && a != [] && b != [] && a[0] in b && b[0] in a
    ensures a[0] == b[0]
  {
    var i :| 0 <= i < |b| && b[i] == a[0];
    var j :| 0 <= j < |a| && a[j] == b[0];
    StrLessTotal(a[0], b[0]);
  }

  lemma HeadContents(s: seq<string>)
    requires s != []
    ensures multiset(s) == multiset{s[0]} + multiset(s[1..])
  {
    assert s == [s[0]] + s[1..];
  }

  /** Sorting forgets exactly the order: equal results mean equal contents. */
  lemma SortStringsCanonical(a: seq<string>, b: seq<string>)
    ensures SortStrings(a) == SortStrings(b) <==> multiset(a) == multiset(b)
  {
    if multiset(a) == multiset(b) {
      SortStringsAscending(a);
      SortStringsAscending(b);
      AscendingPermutationUnique(SortStrings(a), SortStrings(b));
    }
  }
}
