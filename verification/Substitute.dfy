/**
 * Variable substitution in compose text: ${VAR}, ${VAR:-default},
 * ${VAR-default}, ${VAR:?error} and $VAR, scanned left to right.
 */
module Substitute {
  import opened Text

  /** The .env variables and the process environment behind them. */
  datatype Scope = Scope(vars: map<string, string>, env: map<string, string>)

  predicate IsVarNameChar(c: char) {
    'A' <= c <= 'Z' || 'a' <= c <= 'z' || '0' <= c <= '9' || c == '_'
  }

  function LookupVar(name: string, sc: Scope): string {
    if name in sc.vars then sc.vars[name]
    else if name in sc.env then sc.env[name]
    else ""
  }

  /** strings.Index of a two-byte text: its first position, or the length. */
  function FindPair(s: string, a: char, b: char): (i: nat)
    ensures i <= |s| && (i < |s| ==> i + 1 < |s|)
  {
    if |s| < 2 then |s|
    else if s[0] == a && s[1] == b then 0
    else 1 + FindPair(s[1..], a, b)
  }

  function ResolveExpr(expr: string, sc: Scope): string {
    var required, orDefault, ifUnset := FindPair(expr, ':', '?'), FindPair(expr, ':', '-'), Find(expr, '-');
    if required < |expr| then
      var val := LookupVar(expr[..required], sc);
      if val == "" then "${" + expr[..required] + ":?" + expr[required + 2..] + "}" else val
    else if orDefault < |expr| then
      var val := LookupVar(expr[..orDefault], sc);
      if val == "" then expr[orDefault + 2..] else val
    else if ifUnset < |expr| then
      var name := expr[..ifUnset];
      if name in sc.vars then sc.vars[name]
      else if name in sc.env then sc.env[name]
      else expr[ifUnset + 1..]
    else LookupVar(expr, sc)
  }

  // ----- tokens -----

  datatype Token = Literal(c: char) | Braced(expr: string) | Bare(name: string)

  function Raw(t: Token): string {
    match t
    case Literal(c) => [c]
    case Braced(expr) => "${" + expr + "}"
    case Bare(name) => "$" + name
  }

  function Meaning(t: Token, sc: Scope): string {
    match t
    case Literal(c) => [c]
    case Braced(expr) => ResolveExpr(expr, sc)
    case Bare(name) => LookupVar(name, sc)
  }

  /** The length of the run of name characters the text starts with. */
  function NameLength(s: string): (n: nat)
    ensures n <= |s|
  {
    if s == [] || !IsVarNameChar(s[0]) then 0 else 1 + NameLength(s[1..])
  }

  lemma {:induction false} NameLengthAt(s: string, n: nat)
    requires n <= |s| && (forall i :: 0 <= i < n ==> IsVarNameChar(s[i])) && (n < |s| ==> !IsVarNameChar(s[n]))
    ensures NameLength(s) == n
  {
    if n > 0 {
      NameLengthAt(s[1..], n - 1);
    }
  }

  /** A reference opens here: a brace that is closed somewhere, or a name. */
  predicate OpensBrace(s: string) {
    |s| >= 2 && s[0] == '$' && s[1] == '{' && Find(s[2..], '}') < |s| - 2
  }

  predicate OpensName(s: string) {
    |s| >= 2 && s[0] == '$' && IsVarNameChar(s[1])
  }

  /** `t` is the token the text starts with: references are closed at the first chance, names are longest. */
  ghost predicate Fits(t: Token, s: string) {
    match t
    case Literal(c) => s != [] && s[0] == c && !OpensBrace(s) && !OpensName(s)
    case Braced(expr) => OpensBrace(s) && '}' !in expr && Raw(t) <= s
    case Bare(name) => OpensName(s) && NameLength(s[1..]) == |name| && Raw(t) <= s
  }

  function FirstToken(s: string): (t: Token)
    requires s != []
    ensures 1 <= |Raw(t)| <= |s|
  {
    if OpensBrace(s) then Braced(s[2..2 + Find(s[2..], '}')])
    else if OpensName(s) then Bare(s[1..1 + NameLength(s[1..])])
    else Literal(s[0])
  }

  function Tokenize(s: string): seq<Token>
    decreases |s|
  {
    if s == [] then [] else [FirstToken(s)] + Tokenize(s[|Raw(FirstToken(s))|..])
  }

  lemma FirstTokenFits(s: string)
    requires s != []
    ensures Fits(FirstToken(s), s) && Raw(FirstToken(s)) <= s
  {
    if OpensBrace(s) {
      var end := Find(s[2..], '}');
      var expr := s[2..2 + end];
      FindSpec(s[2..], '}');
      assert s[..2] == "${" && s[2 + end] == '}';
      assert s[..3 + end] == "${" + expr + "}";
      assert '}' !in expr;
    } else if OpensName(s) {
      var n := NameLength(s[1..]);
      assert s[..1 + n] == "$" + s[1..1 + n];
    }
  }

  lemma {:induction false} BracedUnique(expr: string, s: string)
    requires Fits(Braced(expr), s)
    ensures s != [] && FirstToken(s) == Braced(expr)
  {
    var rest, raw := s[2..], Raw(Braced(expr));
    assert s[..|raw|] == raw;
    assert forall i :: 0 <= i < |expr| ==> rest[i] == raw[i + 2] == expr[i];
    assert rest[|expr|] == raw[|expr| + 2] == '}';
    FindAt(rest, '}', |expr|);
    assert s[2..2 + |expr|] == expr;
  }

  lemma {:induction false} BareUnique(name: string, s: string)
    requires Fits(Bare(name), s)
    ensures s != [] && FirstToken(s) == Bare(name)
  {
    var raw := Raw(Bare(name));
    assert s[..|raw|] == raw;
    assert s[1..1 + |name|] == name;
  }

  lemma {:induction false} FitsUnique(t: Token, s: string)
    requires Fits(t, s)
    ensures s != [] && t == FirstToken(s)
  {
    match t
    case Literal(_) =>
    case Braced(expr) => BracedUnique(expr, s);
    case Bare(name) => BareUnique(name, s);
  }

  /** A sequence of tokens reads the whole text from left to right. */
  ghost predicate IsTokenization(ts: seq<Token>, s: string)
    decreases |ts|
  {
    if ts == [] then s == []
    else Fits(ts[0], s) && |Raw(ts[0])| <= |s| && IsTokenization(ts[1..], s[|Raw(ts[0])|..])
  }

  function RawAll(ts: seq<Token>): string {
    if ts == [] then "" else Raw(ts[0]) + RawAll(ts[1..])
  }

  function MeaningAll(ts: seq<Token>, sc: Scope): string {
    if ts == [] then "" else Meaning(ts[0], sc) + MeaningAll(ts[1..], sc)
  }

  lemma {:induction false} TokenizeReads(s: string)
    ensures IsTokenization(Tokenize(s), s) && RawAll(Tokenize(s)) == s
    decreases |s|
  {
    if s != [] {
      FirstTokenFits(s);
      var t := FirstToken(s);
      var rest := s[|Raw(t)|..];
      TokenizeReads(rest);
      assert ([t] + Tokenize(rest))[1..] == Tokenize(rest);
      assert s == Raw(t) + rest;
    }
  }

  lemma {:induction false} TokenizeOnly(ts: seq<Token>, s: string)
    requires IsTokenization(ts, s)
    ensures ts == Tokenize(s)
    decreases |ts|
  {
    if ts != [] {
      var t, more := ts[0], ts[1..];
      assert ts == [t] + more;
      FitsUnique(t, s);
      TokenizeOnly(more, s[|Raw(t)|..]);
    }
  }

  /** Every text has exactly one tokenization, and its raw pieces concatenate to the text. */
  lemma TokenizeUnique(ts: seq<Token>, s: string)
    ensures IsTokenization(ts, s) <==> ts == Tokenize(s)
    ensures IsTokenization(ts, s) ==> RawAll(ts) == s
  {
    TokenizeReads(s);
    if IsTokenization(ts, s) {
      TokenizeOnly(ts, s);
    }
  }

  // ----- the scanner -----

  function Substituted(s: string, sc: Scope): string {
    MeaningAll(Tokenize(s), sc)
  }

  /** One round of the loop: what is written and how far the index moves. */
  method ScanToken(s: string, sc: Scope) returns (written: string, n: nat)
    requires s != []
    ensures written == Meaning(FirstToken(s), sc) && n == |Raw(FirstToken(s))|
  {
    if s[0] != '$' || 1 >= |s| {
      return [s[0]], 1;
    }
    if s[1] == '{' {
      var end := IndexByte(s[2..], '}');
      FindSpec(s[2..], '}');
      if end == -1 {
        return [s[0]], 1;
      }
      return ResolveExpr(s[2..2 + end], sc), 2 + end + 1;
    }
    if IsVarNameChar(s[1]) {
      var j := 1;
      while j < |s| && IsVarNameChar(s[j])
        invariant 1 <= j <= |s| && forall k :: 0 <= k < j - 1 ==> IsVarNameChar(s[1..][k])
      {
        j := j + 1;
      }
      NameLengthAt(s[1..], j - 1);
      return LookupVar(s[1..j], sc), j;
    }
    return [s[0]], 1;
  }

  /** The loop body at index `i`: it moves on by a token and writes what the token means. */
  method ScanOnce(s: string, i: nat, sc: Scope) returns (written: string, j: nat)
    requires i < |s|
    ensures i < j <= |s| && Substituted(s[i..], sc) == written + Substituted(s[j..], sc)
  {
    var n;
    written, n := ScanToken(s[i..], sc);
    j := i + n;
    ScanStep(s[i..], sc);
    SliceSlice(s, i, n);
  }

  /** `whole` is what was written so far and what the rest of the text means. */
  ghost predicate Halfway(whole: string, result: string, s: string, i: nat, sc: Scope) {
    i <= |s| && whole == result + Substituted(s[i..], sc)
  }

  method ScanAt(s: string, i: nat, sc: Scope, result: string, ghost whole: string) returns (longer: string, j: nat)
    requires i < |s| && Halfway(whole, result, s, i, sc)
    ensures i < j <= |s| && Halfway(whole, longer, s, j, sc)
  {
    var written;
    written, j := ScanOnce(s, i, sc);
    Reassociate(whole, result, Substituted(s[i..], sc), written, Substituted(s[j..], sc));
    longer := result + written;
  }

  lemma HalfwayStart(s: string, sc: Scope)
    ensures Halfway(Substituted(s, sc), "", s, 0, sc)
  {
    assert s[0..] == s;
  }

  lemma HalfwayEnd(whole: string, result: string, s: string, sc: Scope)
    requires Halfway(whole, result, s, |s|, sc)
    ensures whole == result
  {
    assert s[|s|..] == [];
  }

  /** substituteVars: what it writes is the meaning of the unique tokenization; written text is never rescanned. */
  method SubstituteVars(s: string, sc: Scope) returns (result: string)
    ensures result == Substituted(s, sc)
  {
    result := "";
    var i := 0;
    ghost var whole := Substituted(s, sc);
    HalfwayStart(s, sc);
    while i < |s|
      invariant 0 <= i <= |s| && Halfway(whole, result, s, i, sc)
    {
      result, i := ScanAt(s, i, sc, result, whole);
    }
    HalfwayEnd(whole, result, s, sc);
  }

  lemma SliceSlice(s: string, i: nat, n: nat)
    requires i + n <= |s|
    ensures s[i..][n..] == s[i + n..]
  {
  }

  lemma Reassociate(whole: string, before: string, left: string, written: string, after: string)
    requires whole == before + left && left == written + after
    ensures whole == (before + written) + after
  {
  }

  lemma ScanStep(s: string, sc: Scope)
    requires s != []
    ensures Substituted(s, sc) == Meaning(FirstToken(s), sc) + Substituted(s[|Raw(FirstToken(s))|..], sc)
  {
    var t := FirstToken(s);
    var rest := Tokenize(s[|Raw(t)|..]);
    assert ([t] + rest)[1..] == rest;
  }

  // ----- what passes through -----

  lemma ScanPlain(c: char, s: string, sc: Scope)
    requires c != '$'
    ensures Substituted([c] + s, sc) == [c] + Substituted(s, sc)
  {
    ScanStep([c] + s, sc);
    assert ([c] + s)[1..] == s;
  }

  lemma Regroup(whole: string, before: string, c: char, rest: string, after: string)
    requires whole == before + rest && rest == [c] + after
    ensures whole == (before + [c]) + after
  {
  }

  lemma SplitAt(w: string, i: nat)
    requires 0 < i <= |w|
    ensures w[i - 1..] == [w[i - 1]] + w[i..] && w[..i] == w[..i - 1] + [w[i - 1]]
  {
  }

  lemma {:induction false} PlainFrom(w: string, i: nat, sc: Scope)
    requires i <= |w| && forall j :: 0 <= j < i ==> w[j] != '$'
    ensures Substituted(w, sc) == w[..i] + Substituted(w[i..], sc)
  {
    if i == 0 {
      assert w[0..] == w && w[..0] == [];
    } else {
      PlainFrom(w, i - 1, sc);
      SplitAt(w, i);
      ScanPlain(w[i - 1], w[i..], sc);
      Regroup(Substituted(w, sc), w[..i - 1], w[i - 1], Substituted(w[i - 1..], sc), Substituted(w[i..], sc));
    }
  }

  /** Text without '$' in front of anything passes through unchanged. */
  lemma PlainPrefix(p: string, s: string, sc: Scope)
    requires '$' !in p
    ensures Substituted(p + s, sc) == p + Substituted(s, sc)
  {
    PlainFrom(p + s, |p|, sc);
    assert (p + s)[..|p|] == p && (p + s)[|p|..] == s;
  }

  /** The .env file comes first, then the process environment; a name set in neither is empty. */
  ghost predicate IsValue(name: string, sc: Scope, value: string) {
    && (name in sc.vars ==> value == sc.vars[name])
    && (name !in sc.vars && name in sc.env ==> value == sc.env[name])
    && (name !in sc.vars && name !in sc.env ==> value == "")
  }

  /**
   * A reference is replaced by the variable's value verbatim, even if that value
   * looks like a reference itself, and scanning goes on behind the closing brace.
   */
  lemma ValueVerbatim(name: string, rest: string, sc: Scope, value: string)
    requires IsName(name) && IsValue(name, sc, value)
    ensures Substituted("${" + name + "}" + rest, sc) == value + Substituted(rest, sc)
  {
    var s := "${" + name + "}" + rest;
    assert s[2..] == name + "}" + rest;
    assert forall i :: 0 <= i < |name| ==> s[2..][i] == name[i] && name[i] in name;
    assert s[2..][|name|] == '}';
    FindAt(s[2..], '}', |name|);
    assert s[2..2 + |name|] == name;
    assert FirstToken(s) == Braced(name);
    assert s[|Raw(Braced(name))|..] == rest;
    ScanStep(s, sc);
    PlainName(name, sc);
  }

  /** The same without braces: the name is the longest run of name characters. */
  lemma BareVerbatim(name: string, rest: string, sc: Scope, value: string)
    requires IsName(name) && name != "" && (rest == "" || !IsVarNameChar(rest[0])) && IsValue(name, sc, value)
    ensures Substituted("$" + name + rest, sc) == value + Substituted(rest, sc)
  {
    BareToken(name, rest);
    ScanStep("$" + name + rest, sc);
    assert ("$" + name + rest)[|Raw(Bare(name))|..] == rest;
  }

  lemma {:induction false} BareToken(name: string, rest: string)
    requires IsName(name) && name != "" && (rest == "" || !IsVarNameChar(rest[0]))
    ensures FirstToken("$" + name + rest) == Bare(name)
  {
    var s := "$" + name + rest;
    assert s[1..] == name + rest;
    assert s[1] == name[0] && name[0] in name;
    forall i | 0 <= i < |name| ensures IsVarNameChar((name + rest)[i]) {
      assert name[i] in name;
    }
    NameLengthAt(s[1..], |name|);
    assert s[1..1 + |name|] == name;
  }

  predicate IsName(name: string) {
    forall c :: c in name ==> IsVarNameChar(c)
  }

  lemma PlainName(name: string, sc: Scope)
    requires IsName(name)
    ensures ResolveExpr(name, sc) == LookupVar(name, sc)
  {
    FindPairBehind(name, "", ':', '?');
    FindPairBehind(name, "", ':', '-');
    assert name + "" == name;
    FindSpec(name, '-');
  }

  /** The first pair lies behind a text that has no such first character. */
  lemma {:induction false} FindPairBehind(p: string, s: string, a: char, b: char)
    requires a !in p
    ensures FindPair(p + s, a, b) == |p| + FindPair(s, a, b)
  {
    if p == [] {
      assert p + s == s;
    } else {
      FindPairBehind(p[1..], s, a, b);
      assert (p + s)[1..] == p[1..] + s;
    }
  }

  /**
   * ${NAME:-text} is the variable's value, or the text when that is empty or
   * unset. A ":?" inside the text would turn it into the required form instead.
   */
  lemma DefaultWhenEmpty(name: string, text: string, sc: Scope)
    requires IsName(name) && FindPair(text, ':', '?') == |text|
    ensures ResolveExpr(name + ":-" + text, sc) == if LookupVar(name, sc) == "" then text else LookupVar(name, sc)
  {
    var expr := name + ":-" + text;
    PairPositions(name, text);
    assert expr[..|name|] == name && expr[|name| + 2..] == text;
    ResolveDefault(expr, |name|, sc);
  }

  lemma ResolveDefault(expr: string, i: nat, sc: Scope)
    requires FindPair(expr, ':', '?') == |expr| && FindPair(expr, ':', '-') == i < |expr|
    ensures ResolveExpr(expr, sc) == if LookupVar(expr[..i], sc) == "" then expr[i + 2..] else LookupVar(expr[..i], sc)
  {
  }

  lemma PairPositions(name: string, text: string)
    requires IsName(name) && FindPair(text, ':', '?') == |text|
    ensures var expr := name + ":-" + text;
            FindPair(expr, ':', '?') == |expr| && FindPair(expr, ':', '-') == |name|
  {
    var tail := ":-" + text;
    assert name + ":-" + text == name + tail;
    FindPairBehind(name, tail, ':', '?');
    FindPairBehind(name, tail, ':', '-');
    assert tail[0] == ':' && tail[1] == '-' && tail[1..] == "-" + text;
    FindPairBehind("-", text, ':', '?');
  }

  /** ${NAME-text} is the text only when the variable is unset; set but empty counts as set. */
  lemma DefaultWhenUnset(name: string, text: string, sc: Scope)
    requires IsName(name) && FindPair(text, ':', '?') == |text| && FindPair(text, ':', '-') == |text|
    ensures ResolveExpr(name + "-" + text, sc) ==
            if name in sc.vars then sc.vars[name] else if name in sc.env then sc.env[name] else text
  {
    var expr := name + "-" + text;
    DashPositions(name, text);
    assert expr[..|name|] == name && expr[|name| + 1..] == text;
    ResolveUnset(expr, |name|, sc);
  }

  lemma ResolveUnset(expr: string, i: nat, sc: Scope)
    requires FindPair(expr, ':', '?') == |expr| && FindPair(expr, ':', '-') == |expr| && Find(expr, '-') == i < |expr|
    ensures ResolveExpr(expr, sc) ==
            if expr[..i] in sc.vars then sc.vars[expr[..i]] else if expr[..i] in sc.env then sc.env[expr[..i]] else expr[i + 1..]
  {
  }

  lemma DashPositions(name: string, text: string)
    requires IsName(name) && FindPair(text, ':', '?') == |text| && FindPair(text, ':', '-') == |text|
    ensures var expr := name + "-" + text;
            FindPair(expr, ':', '?') == |expr| && FindPair(expr, ':', '-') == |expr| && Find(expr, '-') == |name|
  {
    var head := name + "-";
    assert ':' !in head;
    FindPairBehind(head, text, ':', '?');
    FindPairBehind(head, text, ':', '-');
    var expr := head + text;
    assert forall i :: 0 <= i < |name| ==> expr[i] == name[i] && name[i] in name;
    assert expr[|name|] == '-';
    FindAt(expr, '-', |name|);
  }

  /** ${NAME:?text} stands unchanged when the variable is empty or unset: the failure is left visible. */
  lemma RequiredStands(name: string, text: string, sc: Scope)
    requires IsName(name)
    ensures ResolveExpr(name + ":?" + text, sc) ==
            if LookupVar(name, sc) == "" then Raw(Braced(name + ":?" + text)) else LookupVar(name, sc)
  {
    var expr := name + ":?" + text;
    RequiredPosition(name, text);
    RequiredPieces(name, text, expr);
    ResolveRequired(expr, |name|, sc);
  }

  lemma RequiredPosition(name: string, text: string)
    requires IsName(name)
    ensures FindPair(name + ":?" + text, ':', '?') == |name|
  {
    var tail := ":?" + text;
    assert name + ":?" + text == name + tail;
    FindPairBehind(name, tail, ':', '?');
    assert tail[0] == ':' && tail[1] == '?';
  }

  lemma RequiredPieces(name: string, text: string, expr: string)
    requires expr == name + ":?" + text
    ensures expr[..|name|] == name && expr[|name| + 2..] == text
    ensures "${" + name + ":?" + text + "}" == "${" + expr + "}"
  {
  }

  lemma ResolveRequired(expr: string, i: nat, sc: Scope)
    requires FindPair(expr, ':', '?') == i < |expr|
    ensures ResolveExpr(expr, sc) ==
            if LookupVar(expr[..i], sc) == "" then "${" + expr[..i] + ":?" + expr[i + 2..] + "}" else LookupVar(expr[..i], sc)
  {
  }

  /** An unclosed brace is literal text. */
  lemma UnclosedBrace(rest: string, sc: Scope)
    requires '}' !in rest
    ensures Substituted("${" + rest, sc) == "${" + Substituted(rest, sc)
  {
    var s := "${" + rest;
    Behind(rest);
    UnclosedToken(rest);
    ScanStep(s, sc);
    PlainPrefix("{", rest, sc);
    Behind(Substituted(rest, sc));
  }

  lemma Behind(rest: string)
    ensures ("${" + rest)[1..] == "{" + rest && "$" + ("{" + rest) == "${" + rest
  {
  }

  lemma UnclosedToken(rest: string)
    requires '}' !in rest
    ensures FirstToken("${" + rest) == Literal('$')
  {
    var s := "${" + rest;
    assert s[2..] == rest;
    FindSpec(rest, '}');
    assert !OpensBrace(s) && !OpensName(s);
  }
}
