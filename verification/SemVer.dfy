/** Image tag selection: parsing, comparing and choosing version tags. */
module SemVer {
  import opened Options
  import opened Ordering
  import opened Text
  import opened Decimal

  datatype SemVer = SemVer(major: int, minor: int, patch: int, prerelease: string, raw: string)

  // ----- parsing -----

  /** strings.Split on a single byte: as many parts as there are. */
  function SplitAll(s: string, c: char): (parts: seq<string>)
    ensures parts != []
  {
    Split(s, c, |s| + 1)
  }

  function TrimV(s: string): string {
    if s != [] && s[0] == 'v' then s[1..] else s
  }

  function Number(nums: seq<string>, i: nat): Option<int> {
    if i < |nums| then Atoi(nums[i]) else Some(0)
  }

  /** ParseSemVer: at most three numbers, then whatever follows the first '-'. */
  function ParseSemVer(raw: string): Option<SemVer> {
    var s := TrimV(raw);
    var dash := Find(s, '-');
    var nums := SplitAll(s[..dash], '.');
    if |nums| > 3 then None
    else Assemble(Number(nums, 0), Number(nums, 1), Number(nums, 2), if dash < |s| then s[dash + 1..] else "", raw)
  }

  function Assemble(major: Option<int>, minor: Option<int>, patch: Option<int>, prerelease: string, raw: string): Option<SemVer> {
    if major.None? || minor.None? || patch.None? then None
    else Some(SemVer(major.value, minor.value, patch.value, prerelease, raw))
  }

  lemma {:induction false} SplitAvoids(s: string, c: char, d: char, n: nat)
    requires d !in s && n >= 1
    ensures forall i :: 0 <= i < |Split(s, c, n)| ==> d !in Split(s, c, n)[i]
    decreases n
  {
    var i := Find(s, c);
    if n > 1 && i < |s| {
      SplitAvoids(s[i + 1..], c, d, n - 1);
    }
  }

  lemma UnsignedAtoi(s: string)
    requires '-' !in s && Atoi(s).Some?
    ensures 0 <= Atoi(s).value <= MAX_INT
  {
    assert s != [] ==> s[0] in s;
  }

  /** A version never has a negative part, though Atoi reads signs: a '-' always starts the prerelease. */
  lemma PartsNotNegative(raw: string)
    requires ParseSemVer(raw).Some?
    ensures var v := ParseSemVer(raw).value;
            v.raw == raw && 0 <= v.major <= MAX_INT && 0 <= v.minor <= MAX_INT && 0 <= v.patch <= MAX_INT
  {
    var s := TrimV(raw);
    FindSpec(s, '-');
    var version := s[..Find(s, '-')];
    assert '-' !in version;
    SplitAvoids(version, '.', '-', |version| + 1);
    var nums := SplitAll(version, '.');
    NumberUnsigned(nums, 0);
    NumberUnsigned(nums, 1);
    NumberUnsigned(nums, 2);
  }

  lemma NumberUnsigned(nums: seq<string>, i: nat)
    requires forall j :: 0 <= j < |nums| ==> '-' !in nums[j]
    ensures Number(nums, i).Some? ==> 0 <= Number(nums, i).value <= MAX_INT
  {
    if i < |nums| && Atoi(nums[i]).Some? {
      UnsignedAtoi(nums[i]);
    }
  }

  // ----- printing and parsing -----

  function Prints(ns: seq<nat>): seq<string> {
    seq(|ns|, i requires 0 <= i < |ns| => Print(ns[i]))
  }

  function Dotted(ns: seq<nat>): string
    requires ns != []
  {
    if |ns| == 1 then Print(ns[0]) else Print(ns[0]) + "." + Dotted(ns[1..])
  }

  lemma {:induction false} DottedNoDash(ns: seq<nat>)
    requires ns != []
    ensures '-' !in Dotted(ns) && Dotted(ns) != [] && Dotted(ns)[0] != 'v'
  {
    if |ns| > 1 {
      DottedNoDash(ns[1..]);
    }
  }

  lemma {:induction false} SplitDotted(ns: seq<nat>, n: nat)
    requires ns != [] && n >= |ns|
    ensures Split(Dotted(ns), '.', n) == Prints(ns)
  {
    var head := Print(ns[0]);
    NoDot(ns[0]);
    if |ns| == 1 {
      SplitWhole(head, '.', n);
    } else {
      SplitHead(head, '.', Dotted(ns[1..]), n);
      SplitDotted(ns[1..], n - 1);
      assert Prints(ns) == [head] + Prints(ns[1..]);
    }
  }

  lemma NoDot(n: nat)
    ensures '.' !in Print(n) && '-' !in Print(n)
  {
    forall i | 0 <= i < |Print(n)| ensures Print(n)[i] != '.' && Print(n)[i] != '-' {
      assert IsDigit(Print(n)[i]);
    }
  }

  lemma {:induction false} DottedLong(ns: seq<nat>)
    requires ns != []
    ensures |Dotted(ns)| >= |ns|
  {
    if |ns| > 1 {
      DottedLong(ns[1..]);
    }
  }

  function Tag(v: bool, ns: seq<nat>, prerelease: Option<string>): string
    requires ns != []
  {
    (if v then "v" else "") + (Dotted(ns) + Suffix(prerelease))
  }

  function PartOr0(ns: seq<nat>, i: nat): nat {
    if i < |ns| then ns[i] else 0
  }

  function Suffix(prerelease: Option<string>): string {
    if prerelease.Some? then "-" + prerelease.value else ""
  }

  lemma {:induction false} TrimTag(v: bool, ns: seq<nat>, prerelease: Option<string>)
    requires ns != []
    ensures TrimV(Tag(v, ns, prerelease)) == Dotted(ns) + Suffix(prerelease)
  {
    DottedNoDash(ns);
    TrimPrefixed(Dotted(ns) + Suffix(prerelease));
  }

  lemma {:induction false} TrimPrefixed(s: string)
    requires s != [] && s[0] != 'v'
    ensures TrimV("v" + s) == s && TrimV("" + s) == s
  {
    assert ("v" + s)[1..] == s && "" + s == s;
  }

  lemma {:induction false} DashPieces(body: string, rest: string)
    requires '-' !in body
    ensures var s := body + ("-" + rest);
            Find(s, '-') == |body| && s[..|body|] == body && |s| == |body| + 1 + |rest| && s[|body| + 1..] == rest
  {
    var s := body + ("-" + rest);
    assert s[|body|] == '-';
    FindAt(s, '-', |body|);
    FindSpec(s, '-');
  }

  lemma {:induction false} SuffixPieces(body: string, prerelease: Option<string>)
    requires '-' !in body
    ensures var s := body + Suffix(prerelease);
            && Find(s, '-') == |body| && s[..|body|] == body
            && |s| == |body| + (if prerelease.Some? then 1 + |prerelease.value| else 0)
            && (prerelease.Some? ==> s[|body| + 1..] == prerelease.value)
  {
    if prerelease.Some? {
      DashPieces(body, prerelease.value);
    } else {
      assert body + Suffix(prerelease) == body;
      FindSpec(body, '-');
    }
  }

  lemma TagPieces(v: bool, ns: seq<nat>, prerelease: Option<string>)
    requires ns != []
    ensures var s := TrimV(Tag(v, ns, prerelease));
            && Find(s, '-') == |Dotted(ns)| && s[..|Dotted(ns)|] == Dotted(ns)
            && |s| == |Dotted(ns)| + (if prerelease.Some? then 1 + |prerelease.value| else 0)
            && (prerelease.Some? ==> s[|Dotted(ns)| + 1..] == prerelease.value)
  {
    TrimTag(v, ns, prerelease);
    DottedNoDash(ns);
    SuffixPieces(Dotted(ns), prerelease);
  }

  lemma NumberPrints(ns: seq<nat>, i: nat)
    ensures Number(Prints(ns), i) == if PartOr0(ns, i) <= MAX_INT then Some(PartOr0(ns, i)) else None
  {
    if i < |ns| {
      AtoiPrint(ns[i]);
    }
  }

  lemma FewParts(ns: seq<nat>)
    requires |ns| <= 3
    ensures (forall i :: 0 <= i < |ns| ==> ns[i] <= MAX_INT) <==>
            PartOr0(ns, 0) <= MAX_INT && PartOr0(ns, 1) <= MAX_INT && PartOr0(ns, 2) <= MAX_INT
  {
  }

  /**
   * A tag written from one to three numbers, with or without the 'v' and with
   * or without a prerelease, parses to exactly those parts, missing numbers
   * being 0; with four or more numbers, or one beyond an int, it is refused.
   */
  lemma TagRoundTrip(v: bool, ns: seq<nat>, prerelease: Option<string>)
    requires ns != []
    ensures var tag := Tag(v, ns, prerelease);
            ParseSemVer(tag) ==
            if |ns| <= 3 && forall i :: 0 <= i < |ns| ==> ns[i] <= MAX_INT
            then Some(SemVer(PartOr0(ns, 0), PartOr0(ns, 1), PartOr0(ns, 2),
                             if prerelease.Some? then prerelease.value else "", tag))
            else None
  {
    TagReads(v, ns, prerelease);
    ParseNumbers(Tag(v, ns, prerelease), ns, if prerelease.Some? then prerelease.value else "");
  }

  /** The pieces ParseSemVer cuts a text into. */
  predicate Reads(raw: string, nums: seq<string>, pre: string) {
    var s := TrimV(raw);
    var dash := Find(s, '-');
    SplitAll(s[..dash], '.') == nums && pre == if dash < |s| then s[dash + 1..] else ""
  }

  lemma {:induction false} TagReads(v: bool, ns: seq<nat>, prerelease: Option<string>)
    requires ns != []
    ensures Reads(Tag(v, ns, prerelease), Prints(ns), if prerelease.Some? then prerelease.value else "")
  {
    TagPieces(v, ns, prerelease);
    DottedLong(ns);
    SplitDotted(ns, |Dotted(ns)| + 1);
  }

  lemma {:induction false} ParseNumbers(raw: string, ns: seq<nat>, pre: string)
    requires ns != [] && Reads(raw, Prints(ns), pre)
    ensures ParseSemVer(raw) ==
            if |ns| <= 3 && forall i :: 0 <= i < |ns| ==> ns[i] <= MAX_INT
            then Some(SemVer(PartOr0(ns, 0), PartOr0(ns, 1), PartOr0(ns, 2), pre, raw))
            else None
  {
    if |ns| <= 3 {
      AssemblePrints(ns, pre, raw);
    }
  }

  lemma AssemblePrints(ns: seq<nat>, pre: string, raw: string)
    requires 1 <= |ns| <= 3
    ensures Assemble(Number(Prints(ns), 0), Number(Prints(ns), 1), Number(Prints(ns), 2), pre, raw) ==
            if forall i :: 0 <= i < |ns| ==> ns[i] <= MAX_INT
            then Some(SemVer(PartOr0(ns, 0), PartOr0(ns, 1), PartOr0(ns, 2), pre, raw))
            else None
  {
    NumberPrints(ns, 0);
    NumberPrints(ns, 1);
    NumberPrints(ns, 2);
    FewParts(ns);
  }

  // ----- comparing -----

  function Compare(v: SemVer, other: SemVer): int {
    if v.major != other.major then (if v.major > other.major then 1 else -1)
    else if v.minor != other.minor then (if v.minor > other.minor then 1 else -1)
    else if v.patch != other.patch then (if v.patch > other.patch then 1 else -1)
    else if v.prerelease == "" && other.prerelease != "" then 1
    else if v.prerelease != "" && other.prerelease == "" then -1
    else 0
  }

  /** Precedence: numbers left to right, then a release above its prereleases, which tie. */
  function Precedence(v: SemVer): seq<int> {
    [v.major, v.minor, v.patch, if v.prerelease == "" then 1 else 0]
  }

  /** Lexicographic order on equally long lists. */
  predicate LexLess(a: seq<int>, b: seq<int>)
    requires |a| == |b|
  {
    exists i :: 0 <= i < |a| && a[i] < b[i] && a[..i] == b[..i]
  }

  lemma CompareIsPrecedence(a: SemVer, b: SemVer)
    ensures Compare(a, b) < 0 <==> LexLess(Precedence(a), Precedence(b))
    ensures Compare(a, b) > 0 <==> LexLess(Precedence(b), Precedence(a))
    ensures Compare(a, b) == 0 <==> Precedence(a) == Precedence(b)
  {
    var p, q := Precedence(a), Precedence(b);
    assert p[..0] == q[..0];
    assert p[0] == q[0] ==> p[..1] == q[..1];
    assert p[0] == q[0] && p[1] == q[1] ==> p[..2] == q[..2];
    assert p[0] == q[0] && p[1] == q[1] && p[2] == q[2] ==> p[..3] == q[..3];
    if LexLess(p, q) {
      LexFirst(p, q);
    }
    if LexLess(q, p) {
      LexFirst(q, p);
    }
  }

  lemma LexFirst(p: seq<int>, q: seq<int>)
    requires |p| == |q| == 4 && LexLess(p, q)
    ensures p[0] < q[0] || (p[0] == q[0] && (p[1] < q[1] || (p[1] == q[1] && (p[2] < q[2] || (p[2] == q[2] && p[3] < q[3])))))
  {
    var i :| 0 <= i < 4 && p[i] < q[i] && p[..i] == q[..i];
    forall j | 0 <= j < i ensures p[j] == q[j] {
      assert p[..i][j] == q[..i][j];
    }
  }

  /** A total preorder. */
  lemma ComparePreorder(a: SemVer, b: SemVer, c: SemVer)
    ensures Compare(a, a) == 0 && Compare(a, b) == -Compare(b, a)
    ensures Compare(a, b) >= 0 && Compare(b, c) >= 0 ==> Compare(a, c) >= 0
    ensures Compare(a, b) > 0 && Compare(b, c) >= 0 ==> Compare(a, c) > 0
    ensures Compare(a, b) >= 0 && Compare(b, c) > 0 ==> Compare(a, c) > 0
  {
  }

  // ----- choosing -----

  /** Any text; only "major" and "minor" restrict. */
  type Policy = string

  predicate Allowed(policy: Policy, v: SemVer, current: SemVer) {
    && (policy == "major" ==> v.major == current.major)
    && (policy == "minor" ==> v.major == current.major && v.minor == current.minor)
  }

  predicate Acceptable(v: SemVer, current: SemVer, policy: Policy) {
    && (v.prerelease != "" ==> current.prerelease != "")
    && Allowed(policy, v, current)
    && Compare(v, current) > 0
  }

  /** A tag that FindLatestTag may move to. */
  predicate Eligible(tag: string, currentTag: string, policy: Policy) {
    var v, current := ParseSemVer(tag), ParseSemVer(currentTag);
    && v.Some? && current.Some?
    && Acceptable(v.value, current.value, policy)
  }

  predicate NotAbove(tag: string, other: string) {
    var v, w := ParseSemVer(tag), ParseSemVer(other);
    v.Some? && w.Some? ==> Compare(v.value, w.value) <= 0
  }

  /** What an answer of FindLatestTag must be; ties leave a choice. */
  ghost predicate Answer(tags: seq<string>, currentTag: string, policy: Policy, tag: string, found: bool) {
    if found then
      tag in tags && Eligible(tag, currentTag, policy) &&
      forall t :: t in tags && Eligible(t, currentTag, policy) ==> NotAbove(t, tag)
    else
      tag == "" && forall t :: t in tags ==> !Eligible(t, currentTag, policy)
  }

  predicate Descending(c: seq<SemVer>) {
    forall i, j :: 0 <= i < j < |c| ==> Compare(c[i], c[j]) >= 0
  }

  /** sort.Slice by Compare: some descending rearrangement, ties in any order. */
  method SortDescending(c: seq<SemVer>) returns (r: seq<SemVer>)
    ensures Descending(r) && multiset(r) == multiset(c)
  {
    r := [];
    for i := 0 to |c|
      invariant Descending(r) && multiset(r) == multiset(c[..i])
    {
      assert c[..i + 1] == c[..i] + [c[i]];
      r := InsertDescending(r, c[i]);
    }
    assert c[..|c|] == c;
  }

  method InsertDescending(s: seq<SemVer>, v: SemVer) returns (r: seq<SemVer>)
    requires Descending(s)
    ensures Descending(r) && multiset(r) == multiset(s) + multiset{v}
  {
    var k := 0;
    while k < |s| && Compare(s[k], v) >= 0
      invariant k <= |s| && forall i :: 0 <= i < k ==> Compare(s[i], v) >= 0
    {
      k := k + 1;
    }
    r := s[..k] + [v] + s[k..];
    assert s == s[..k] + s[k..];
    DescendingInsert(s, v, k);
  }

  lemma {:induction false} DescendingInsert(s: seq<SemVer>, v: SemVer, k: nat)
    requires Descending(s) && k <= |s| && (forall i :: 0 <= i < k ==> Compare(s[i], v) >= 0)
    requires k < |s| ==> Compare(s[k], v) < 0
    ensures Descending(s[..k] + [v] + s[k..])
  {
    forall j | k <= j < |s| ensures Compare(v, s[j]) >= 0 {
      ComparePreorder(v, s[k], s[j]);
    }
    var r := s[..k] + [v] + s[k..];
    forall i, j | 0 <= i < j < |r| ensures Compare(r[i], r[j]) >= 0 {
      assert r[i] == if i < k then s[i] else if i == k then v else s[i - 1];
      assert r[j] == if j < k then s[j] else if j == k then v else s[j - 1];
    }
  }

  /** The filters of the loop, one tag. */
  method Passes(v: SemVer, current: SemVer, policy: Policy) returns (ok: bool)
    ensures ok <==> Acceptable(v, current, policy)
  {
    if v.prerelease != "" && current.prerelease == "" {
      return false;
    }
    if policy == "major" && v.major != current.major {
      return false;
    }
    if policy == "minor" && (v.major != current.major || v.minor != current.minor) {
      return false;
    }
    return Compare(v, current) > 0;
  }

  /** `v` was parsed from one of the tags. */
  predicate Parsed(v: SemVer, tags: seq<string>) {
    v.raw in tags && ParseSemVer(v.raw) == Some(v)
  }

  method CollectCandidates(tags: seq<string>, current: SemVer, policy: Policy) returns (candidates: seq<SemVer>)
    ensures forall v :: v in candidates <==> Parsed(v, tags) && Acceptable(v, current, policy)
  {
    candidates := [];
    for i := 0 to |tags|
      invariant forall v :: v in candidates <==> Parsed(v, tags[..i]) && Acceptable(v, current, policy)
    {
      ParsedNext(tags, i);
      var sv := ParseSemVer(tags[i]);
      if sv.None? {
        continue;
      }
      var ok := Passes(sv.value, current, policy);
      if ok {
        candidates := candidates + [sv.value];
      }
    }
    assert tags[..|tags|] == tags;
  }

  lemma ParsedNext(tags: seq<string>, i: nat)
    requires i < |tags|
    ensures forall v :: Parsed(v, tags[..i + 1]) <==> Parsed(v, tags[..i]) || ParseSemVer(tags[i]) == Some(v)
  {
    assert tags[..i + 1] == tags[..i] + [tags[i]];
    if ParseSemVer(tags[i]).Some? {
      PartsNotNegative(tags[i]);
    }
  }

  method Highest(candidates: seq<SemVer>) returns (v: SemVer)
    requires candidates != []
    ensures v in candidates && forall w :: w in candidates ==> Compare(w, v) <= 0
  {
    var sorted := SortDescending(candidates);
    assert |sorted| == |multiset(sorted)| == |candidates|;
    assert sorted[0] in multiset(candidates);
    forall w | w in candidates ensures Compare(w, sorted[0]) <= 0 {
      assert w in multiset(sorted);
      ComparePreorder(w, sorted[0], w);
    }
    v := sorted[0];
  }

  method FindLatestTag(tags: seq<string>, currentTag: string, policy: Policy) returns (tag: string, found: bool)
    ensures Answer(tags, currentTag, policy, tag, found)
  {
    var parsed := ParseSemVer(currentTag);
    if parsed.None? {
      return "", false;
    }
    var candidates := CollectCandidates(tags, parsed.value, policy);
    forall t | t in tags && Eligible(t, currentTag, policy) ensures ParseSemVer(t).value in candidates {
      PartsNotNegative(t);
    }
    if candidates == [] {
      return "", false;
    }
    var v := Highest(candidates);
    return v.raw, true;
  }

  /** Whatever the first answer was, asking again from it over the same tags finds nothing. */
  lemma AskingAgainFindsNothing(tags: seq<string>, currentTag: string, policy: Policy, tag: string, again: string, found: bool)
    requires Answer(tags, currentTag, policy, tag, true) && Answer(tags, tag, policy, again, found)
    ensures !found
  {
    if found {
      EligibleTransitive(again, tag, currentTag, policy);
    }
  }

  lemma EligibleTransitive(a: string, b: string, c: string, policy: Policy)
    requires Eligible(a, b, policy) && Eligible(b, c, policy)
    ensures Eligible(a, c, policy)
  {
    ComparePreorder(ParseSemVer(a).value, ParseSemVer(b).value, ParseSemVer(c).value);
  }

  // ----- polling a changing registry -----

  datatype Poll = Poll(tags: seq<string>, tag: string, found: bool)

  function Deployed(start: string, polls: seq<Poll>): string {
    if polls == [] then start
    else
      var k := |polls| - 1;
      if polls[k].found then polls[k].tag else Deployed(start, polls[..k])
  }

  predicate Moved(polls: seq<Poll>) {
    exists i :: 0 <= i < |polls| && polls[i].found
  }

  ghost predicate Polled(start: string, policy: Policy, polls: seq<Poll>) {
    polls == [] ||
    var k := |polls| - 1;
    Polled(start, policy, polls[..k]) && Answer(polls[k].tags, Deployed(start, polls[..k]), policy, polls[k].tag, polls[k].found)
  }

  /**
   * However the registry's tags change from poll to poll, the tag in use
   * is the first one still, or one the policy would have let it go to at once:
   * it only climbs, stays in the policy's line and never enters prereleases.
   */
  lemma {:induction false} PollsClimb(start: string, policy: Policy, polls: seq<Poll>)
    requires Polled(start, policy, polls)
    ensures if Moved(polls) then Eligible(Deployed(start, polls), start, policy) else Deployed(start, polls) == start
  {
    if polls != [] {
      var k := |polls| - 1;
      PollsClimb(start, policy, polls[..k]);
      assert Moved(polls) <==> polls[k].found || Moved(polls[..k]);
      if polls[k].found && Moved(polls[..k]) {
        EligibleTransitive(polls[k].tag, Deployed(start, polls[..k]), start, policy);
      }
    }
  }

  /** The line a policy keeps to; any other policy text keeps to none. */
  ghost predicate InLine(policy: Policy, v: SemVer, start: SemVer) {
    && (policy == "major" || policy == "minor" ==> v.major == start.major)
    && (policy == "minor" ==> v.minor == start.minor)
  }

  /**
   * However the registry changes, under "major" the major version in use never
   * changes, under "minor" neither does the minor, a release never turns into a
   * prerelease, and the version never goes down.
   */
  lemma PollsKeepLine(start: string, policy: Policy, polls: seq<Poll>)
    requires Polled(start, policy, polls) && ParseSemVer(start).Some?
    ensures ParseSemVer(Deployed(start, polls)).Some?
    ensures var v, w := ParseSemVer(Deployed(start, polls)).value, ParseSemVer(start).value;
            && InLine(policy, v, w) && (w.prerelease == "" ==> v.prerelease == "")
            && !LexLess(Precedence(v), Precedence(w))
  {
    PollsClimb(start, policy, polls);
    CompareIsPrecedence(ParseSemVer(Deployed(start, polls)).value, ParseSemVer(start).value);
  }

  /** And nothing else holds a tag back. */
  lemma EligibleIff(tag: string, currentTag: string, policy: Policy)
    requires ParseSemVer(tag).Some? && ParseSemVer(currentTag).Some?
    ensures var v, w := ParseSemVer(tag).value, ParseSemVer(currentTag).value;
            Eligible(tag, currentTag, policy) <==>
            InLine(policy, v, w) && (v.prerelease == "" || w.prerelease != "") && LexLess(Precedence(w), Precedence(v))
  {
    CompareIsPrecedence(ParseSemVer(tag).value, ParseSemVer(currentTag).value);
  }

  // ----- section 11 of Semantic Versioning 2.0.0 -----

  predicate Numeric(id: string) {
    id != "" && AllDigits(id)
  }

  /** Numeric identifiers by value and below all others; the others in ASCII order. */
  function CompareIds(x: string, y: string): int {
    if Numeric(x) && Numeric(y) then
      if Value(x) > Value(y) then 1 else if Value(x) < Value(y) then -1 else 0
    else if Numeric(x) then -1
    else if Numeric(y) then 1
    else if StrLess(y, x) then 1
    else if StrLess(x, y) then -1
    else 0
  }

  /** Identifier by identifier; when all are equal the longer list is higher. */
  function CompareLists(a: seq<string>, b: seq<string>): int {
    if a == [] then (if b == [] then 0 else -1)
    else if b == [] then 1
    else if CompareIds(a[0], b[0]) != 0 then CompareIds(a[0], b[0])
    else CompareLists(a[1..], b[1..])
  }

  /** The dot-separated identifiers; build metadata, from the first '+' on, does not count. */
  function Identifiers(prerelease: string): seq<string> {
    SplitAll(prerelease[..Find(prerelease, '+')], '.')
  }

  predicate SameVersion(v: SemVer, w: SemVer) {
    v.major == w.major && v.minor == w.minor && v.patch == w.patch
  }

  predicate BothPrereleases(v: SemVer, w: SemVer) {
    v.prerelease != "" && w.prerelease != ""
  }

  /** Precedence as the standard has it. */
  function StandardCompare(v: SemVer, w: SemVer): int {
    if SameVersion(v, w) && BothPrereleases(v, w) then CompareLists(Identifiers(v.prerelease), Identifiers(w.prerelease))
    else if LexLess(Precedence(v), Precedence(w)) then -1
    else if LexLess(Precedence(w), Precedence(v)) then 1
    else 0
  }

  lemma CompareIdsOrder(x: string, y: string, z: string)
    ensures CompareIds(x, y) == -CompareIds(y, x)
    ensures CompareIds(x, y) >= 0 && CompareIds(y, z) >= 0 ==> CompareIds(x, z) >= 0
    ensures CompareIds(x, y) > 0 && CompareIds(y, z) >= 0 ==> CompareIds(x, z) > 0
    ensures CompareIds(x, y) >= 0 && CompareIds(y, z) > 0 ==> CompareIds(x, z) > 0
  {
    TextOrder(x, y, z);
    TextOrder(y, x, z);
  }

  lemma TextOrder(x: string, y: string, z: string)
    ensures !(StrLess(x, y) && StrLess(y, x))
    ensures !StrLess(x, y) && !StrLess(y, z) ==> !StrLess(x, z)
    ensures StrLess(y, x) && !StrLess(y, z) ==> StrLess(z, x)
    ensures !StrLess(x, y) && StrLess(z, y) ==> StrLess(z, x)
  {
    StrLessTotal(x, y);
    StrLessTotal(y, z);
    if StrLess(x, y) && StrLess(y, x) {
      StrLessTransitive(x, y, x);
      StrLessIrreflexive(x);
    }
    if StrLess(y, x) && StrLess(z, y) {
      StrLessTransitive(z, y, x);
    }
    if StrLess(z, x) && StrLess(x, z) {
      StrLessTransitive(x, z, x);
      StrLessIrreflexive(x);
    }
  }

  lemma {:induction false} CompareListsOrder(a: seq<string>, b: seq<string>, c: seq<string>)
    ensures CompareLists(a, b) == -CompareLists(b, a)
    ensures CompareLists(a, b) >= 0 && CompareLists(b, c) >= 0 ==> CompareLists(a, c) >= 0
  {
    if a != [] && b != [] {
      CompareIdsOrder(a[0], b[0], a[0]);
      if c != [] {
        CompareIdsOrder(a[0], b[0], c[0]);
        CompareIdsOrder(b[0], c[0], a[0]);
        CompareListsOrder(a[1..], b[1..], c[1..]);
      } else {
        CompareListsOrder(a[1..], b[1..], []);
      }
    }
  }

  /**
   * Compare agrees with the standard on two versions if and only if they are not
   * prereleases of one version that the standard ranks differently: those it ties.
   */
  lemma AgreesWithStandardIff(v: SemVer, w: SemVer)
    ensures Compare(v, w) == StandardCompare(v, w) <==>
            !(SameVersion(v, w) && BothPrereleases(v, w) && CompareLists(Identifiers(v.prerelease), Identifiers(w.prerelease)) != 0)
  {
    CompareIsPrecedence(v, w);
  }

  lemma OneIdentifier(prerelease: string)
    requires '+' !in prerelease && '.' !in prerelease
    ensures Identifiers(prerelease) == [prerelease]
  {
    FindSpec(prerelease, '+');
    assert prerelease[..|prerelease|] == prerelease;
    SplitWhole(prerelease, '.', |prerelease| + 1);
  }

  lemma DigitNoSeparator(n: nat)
    ensures '+' !in Print(n) && '.' !in Print(n)
  {
    forall i | 0 <= i < |Print(n)| ensures Print(n)[i] != '.' && Print(n)[i] != '+' {
      assert IsDigit(Print(n)[i]);
    }
  }

  /** Numbered prereleases of one version, in whatever form: the standard goes by the number, Compare sees a tie. */
  lemma DisagreesOnNumbered(v: SemVer, w: SemVer, m: nat, n: nat)
    requires SameVersion(v, w) && v.prerelease == Print(m) && w.prerelease == Print(n) && m > n
    ensures StandardCompare(v, w) == 1 && Compare(v, w) == 0
  {
    DigitNoSeparator(m);
    DigitNoSeparator(n);
    OneIdentifier(v.prerelease);
    OneIdentifier(w.prerelease);
    ValuePrint(m);
    ValuePrint(n);
  }

  /** Any two parsed prereleases of one version tie, however they are written: neither is ever an update of the other. */
  lemma PrereleasesTie(tag: string, other: string, policy: Policy)
    requires ParseSemVer(tag).Some? && ParseSemVer(other).Some?
    requires SameVersion(ParseSemVer(tag).value, ParseSemVer(other).value)
    requires BothPrereleases(ParseSemVer(tag).value, ParseSemVer(other).value)
    ensures Compare(ParseSemVer(tag).value, ParseSemVer(other).value) == 0
    ensures !Eligible(tag, other, policy) && !Eligible(other, tag, policy)
  {
  }

  predicate Outranks(t: string, tag: string) {
    ParseSemVer(t).Some? && ParseSemVer(tag).Some? && StandardCompare(ParseSemVer(t).value, ParseSemVer(tag).value) > 0
  }

  /**
   * So an answer of FindLatestTag is the highest eligible tag in the standard's
   * order too, but for other prereleases of the version it names.
   */
  lemma AnswerIsHighest(tags: seq<string>, currentTag: string, policy: Policy, tag: string, t: string)
    requires Answer(tags, currentTag, policy, tag, true)
    requires t in tags && Eligible(t, currentTag, policy) && Outranks(t, tag)
    ensures SameVersion(ParseSemVer(t).value, ParseSemVer(tag).value)
            && BothPrereleases(ParseSemVer(t).value, ParseSemVer(tag).value)
  {
    assert NotAbove(t, tag);
    AgreesWithStandardIff(ParseSemVer(t).value, ParseSemVer(tag).value);
  }
}
