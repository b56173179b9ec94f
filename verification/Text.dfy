/** Searching bytes in text. */
module Text {

  /** The position of the first `c`, or the length when there is none. */
  function Find(s: string, c: char): (i: nat)
    ensures i <= |s|
  {
    if s == [] || s[0] == c then 0 else 1 + Find(s[1..], c)
  }

  lemma {:induction false} FindSpec(s: string, c: char)
    ensures Find(s, c) < |s| ==> s[Find(s, c)] == c
    ensures forall j :: 0 <= j < Find(s, c) ==> s[j] != c
    ensures Find(s, c) == |s| <==> c !in s
  {
    if s != [] && s[0] != c {
      FindSpec(s[1..], c);
      assert s == [s[0]] + s[1..];
    }
  }

  lemma {:induction false} FindAt(s: string, c: char, i: nat)
    requires i < |s| && s[i] == c && forall j :: 0 <= j < i ==> s[j] != c
    ensures Find(s, c) == i
  {
    FindSpec(s, c);
  }

  method IndexByte(s: string, sep: char) returns (idx: int)
    ensures idx == -1 <==> sep !in s
    ensures idx != -1 ==> 0 <= idx < |s| && idx == Find(s, sep)
  {
    for j := 0 to |s|
      invariant forall k :: 0 <= k < j ==> s[k] != sep
    {
      if s[j] == sep {
        FindAt(s, sep, j);
        return j;
      }
    }
    return -1;
  }

  /** At most n parts, cut at the leftmost separators. */
  function Split(s: string, sep: char, n: nat): (parts: seq<string>)
    requires n >= 1
    ensures 1 <= |parts| <= n
    decreases n
  {
    var i := Find(s, sep);
    if n == 1 || i == |s| then [s] else [s[..i]] + Split(s[i + 1..], sep, n - 1)
  }

  lemma {:induction false} SplitHead(a: string, sep: char, b: string, n: nat)
    requires n >= 2 && sep !in a
    ensures Split(a + [sep] + b, sep, n) == [a] + Split(b, sep, n - 1)
  {
    var s := a + [sep] + b;
    assert s[|a|] == sep;
    FindAt(s, sep, |a|);
    assert s[..|a|] == a && s[|a| + 1..] == b;
  }

  lemma {:induction false} SplitWhole(s: string, sep: char, n: nat)
    requires n >= 1 && (n == 1 || sep !in s)
    ensures Split(s, sep, n) == [s]
  {
    FindSpec(s, sep);
  }
}
