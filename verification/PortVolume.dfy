/**
 * Ports and volumes as text: how the differ prints them and how the compose
 * parser reads them, and exactly when reading undoes printing.
 */
module PortVolume {
  import opened Text

  datatype PortMapping = PortMapping(hostPort: string, containerPort: string, protocol: string)
  datatype VolumeMount = VolumeMount(source: string, target: string, readOnly: bool)

  // ----- scanning -----

  method SplitN(s0: string, sep: char, n: nat) returns (result: seq<string>)
    requires n >= 1
    ensures result == Split(s0, sep, n)
  {
    result := [];
    var s := s0;
    var i := 0;
    while i < n - 1
      invariant 0 <= i <= n - 1
      invariant Split(s0, sep, n) == result + Split(s, sep, n - i)
    {
      var idx := IndexByte(s, sep);
      if idx == -1 {
        SplitWhole(s, sep, n - i);
        break;
      }
      SplitStep(result, s, sep, n - i);
      result := result + [s[..idx]];
      s := s[idx + 1..];
      i := i + 1;
    }
    result := result + [s];
  }

  lemma SplitStep(before: seq<string>, s: string, sep: char, n: nat)
    requires n >= 2 && sep in s
    ensures var i := Find(s, sep);
            i < |s| && before + Split(s, sep, n) == (before + [s[..i]]) + Split(s[i + 1..], sep, n - 1)
  {
    FindSpec(s, sep);
  }

  function Join(parts: seq<string>, sep: char): string {
    if parts == [] then []
    else if |parts| == 1 then parts[0]
    else parts[0] + [sep] + Join(parts[1..], sep)
  }

  lemma JoinCons(x: string, parts: seq<string>, sep: char)
    requires parts != []
    ensures Join([x] + parts, sep) == x + [sep] + Join(parts, sep)
  {
    assert ([x] + parts)[1..] == parts;
  }

  /** The parts rejoin to the text. */
  lemma {:induction false} SplitRejoins(s: string, sep: char, n: nat)
    requires n >= 1
    ensures Join(Split(s, sep, n), sep) == s
    decreases n
  {
    var i := Find(s, sep);
    if n > 1 && i < |s| {
      var rest := Split(s[i + 1..], sep, n - 1);
      SplitRejoins(s[i + 1..], sep, n - 1);
      FindSpec(s, sep);
      JoinCons(s[..i], rest, sep);
      assert s == s[..i] + [sep] + s[i + 1..];
    }
  }

  lemma NoneBefore(s: string, sep: char)
    ensures sep !in s[..Find(s, sep)]
  {
    FindSpec(s, sep);
  }

  /** Only the last part may contain the separator, and only when all n parts are used. */
  lemma {:induction false} SplitParts(s: string, sep: char, n: nat, i: nat)
    requires n >= 1 && i < |Split(s, sep, n)| && (i < |Split(s, sep, n)| - 1 || |Split(s, sep, n)| < n)
    ensures sep !in Split(s, sep, n)[i]
    decreases n
  {
    var j := Find(s, sep);
    if n > 1 && j < |s| {
      var rest := Split(s[j + 1..], sep, n - 1);
      assert Split(s, sep, n) == [s[..j]] + rest;
      if i > 0 {
        SplitParts(s[j + 1..], sep, n - 1, i - 1);
      } else {
        NoneBefore(s, sep);
      }
    } else {
      NoneBefore(s, sep);
      assert n > 1 && s[..j] == s;
    }
  }

  /** lastIndex: the last position of `c`, or -1. */
  function LastIndex(s: string, c: char): (i: int)
    ensures -1 <= i < |s| && (i >= 0 ==> s[i] == c)
    ensures forall j :: i < j < |s| ==> s[j] != c
  {
    if s == [] then -1
    else if s[|s| - 1] == c then |s| - 1
    else LastIndex(s[..|s| - 1], c)
  }

  // ----- printing -----

  /** normalizedPorts, one entry. */
  function PrintPort(p: PortMapping): string {
    PortBody(p) + "/" + if p.protocol == "" then "tcp" else p.protocol
  }

  /** Host and container text before the protocol. */
  function PortBody(p: PortMapping): string {
    if p.hostPort != "" then p.hostPort + ":" + p.containerPort else p.containerPort
  }

  /** normalizedVolumes, one entry. */
  function PrintVolume(v: VolumeMount): string {
    var s := if v.source != "" then v.source + ":" + v.target else v.target;
    if v.readOnly then s + ":ro" else s
  }

  // ----- parsing -----

  function SplitPort(s: string): (parts: seq<string>)
    ensures 1 <= |parts| <= 3
  {
    if s == [] then [""]
    else if s[0] != '[' then Split(s, ':', 3)
    else
      var end := Find(s, ']');
      if end == |s| then [s]
      else
        var rest := s[end + 1..];
        if rest == [] || rest[0] != ':' then [s]
        else [s[..end + 1]] + Split(rest[1..], ':', 2)
  }

  function ParsePortString(s: string): PortMapping {
    var slash := LastIndex(s, '/');
    var protocol := if slash >= 0 then s[slash + 1..] else "tcp";
    var parts := SplitPort(if slash >= 0 then s[..slash] else s);
    if |parts| == 1 then PortMapping("", parts[0], protocol)
    else if |parts| == 2 then PortMapping(parts[0], parts[1], protocol)
    else PortMapping(parts[1], parts[2], protocol)
  }

  function ParseVolumeString(s: string): VolumeMount {
    var parts := Split(s, ':', 3);
    if |parts| == 1 then VolumeMount("", parts[0], false)
    else if |parts| == 2 then VolumeMount(parts[0], parts[1], false)
    else VolumeMount(parts[0], parts[1], parts[2] == "ro")
  }

  // ----- the parser's loops -----

  method LastIndexByte(s: string, c: char) returns (i: int)
    ensures i == LastIndex(s, c)
  {
    i := |s| - 1;
    while i >= 0
      invariant -1 <= i < |s| && LastIndex(s, c) == LastIndex(s[..i + 1], c)
    {
      if s[i] == c {
        return;
      }
      assert s[..i + 1][..i] == s[..i];
      i := i - 1;
    }
  }

  method SplitPortText(s: string) returns (parts: seq<string>)
    ensures parts == SplitPort(s)
  {
    if |s| == 0 {
      return [""];
    }
    if s[0] != '[' {
      parts := SplitN(s, ':', 3);
      return;
    }
    var bracketEnd := 0;
    for i := 0 to |s|
      invariant bracketEnd == 0 && ']' !in s[..i]
    {
      if s[i] == ']' {
        bracketEnd := i;
        FindAt(s, ']', i);
        break;
      }
    }
    if bracketEnd == 0 {
      assert s[..|s|] == s;
      FindSpec(s, ']');
      return [s];
    }
    var rest := s[bracketEnd + 1..];
    if |rest| == 0 || rest[0] != ':' {
      return [s];
    }
    var after := SplitN(rest[1..], ':', 2);
    parts := [s[..bracketEnd + 1]] + after;
  }

  method ParsePort(s: string) returns (p: PortMapping)
    ensures p == ParsePortString(s)
  {
    var protocol, body := "tcp", s;
    var slash := LastIndexByte(s, '/');
    if slash != -1 {
      protocol, body := s[slash + 1..], s[..slash];
    }
    var parts := SplitPortText(body);
    match |parts|
    case 1 => p := PortMapping("", parts[0], protocol);
    case 2 => p := PortMapping(parts[0], parts[1], protocol);
    case _ => p := PortMapping(parts[1], parts[2], protocol);
  }

  // ----- volumes: reading undoes printing, exactly when -----

  /** Paths free of ':' and a source whenever read-only. */
  predicate PlainVolume(v: VolumeMount) {
    ':' !in v.source && ':' !in v.target && (v.readOnly ==> v.source != "")
  }

  lemma PlainVolumeRoundTrip(v: VolumeMount)
    requires PlainVolume(v)
    ensures ParseVolumeString(PrintVolume(v)) == v
  {
    if v.source == "" {
      SplitWhole(v.target, ':', 3);
    } else if v.readOnly {
      assert PrintVolume(v) == v.source + ":" + (v.target + ":" + "ro");
      SplitHead(v.source, ':', v.target + ":" + "ro", 3);
      SplitHead(v.target, ':', "ro", 2);
      SplitWhole("ro", ':', 1);
    } else {
      SplitHead(v.source, ':', v.target, 3);
      SplitWhole(v.target, ':', 2);
    }
  }

  lemma ReadBackPlain(v: VolumeMount)
    requires ParseVolumeString(PrintVolume(v)) == v
    ensures ':' !in v.source && ':' !in v.target
  {
    var s := PrintVolume(v);
    SplitParts(s, ':', 3, 0);
    if |Split(s, ':', 3)| > 1 {
      SplitParts(s, ':', 3, 1);
    }
  }

  /** A read-only volume without a source prints like a writable one with source. */
  lemma NoSourceReadOnly(v: VolumeMount)
    requires v.source == "" && v.readOnly && ':' !in v.target
    ensures ParseVolumeString(PrintVolume(v)) == VolumeMount(v.target, "ro", false)
  {
    assert PrintVolume(v) == v.target + ":" + "ro";
    SplitHead(v.target, ':', "ro", 3);
    SplitWhole("ro", ':', 2);
  }

  /** Printed and parsed back, a volume is the original if and only if it is plain. */
  lemma VolumeRoundTrip(v: VolumeMount)
    ensures ParseVolumeString(PrintVolume(v)) == v <==> PlainVolume(v)
  {
    if PlainVolume(v) {
      PlainVolumeRoundTrip(v);
    } else if ':' !in v.source && ':' !in v.target {
      NoSourceReadOnly(v);
    } else if ParseVolumeString(PrintVolume(v)) == v {
      ReadBackPlain(v);
    }
  }

  // ----- ports: reading undoes printing, exactly when -----

  lemma LastSlash(body: string, proto: string)
    requires '/' !in proto
    ensures var s := body + "/" + proto;
            LastIndex(s, '/') == |body| && s[..|body|] == body && s[|body| + 1..] == proto
  {
    var s := body + "/" + proto;
    assert s[|body|] == '/';
  }

  lemma {:induction false} LaterSlash(body: string, proto: string)
    requires '/' in proto
    ensures LastIndex(body + "/" + proto, '/') > |body|
  {
    var s := body + "/" + proto;
    var j :| 0 <= j < |proto| && proto[j] == '/';
    var k := |body| + 1 + j;
    assert s[k] == '/';
    LastAtLeast(s, '/', k);
  }

  lemma {:induction false} LastAtLeast(s: string, c: char, k: nat)
    requires k < |s| && s[k] == c
    ensures LastIndex(s, c) >= k
  {
  }

  /** What the parser makes of the part before the protocol. */
  function ParseBody(body: string, protocol: string): PortMapping {
    var parts := SplitPort(body);
    if |parts| == 1 then PortMapping("", parts[0], protocol)
    else if |parts| == 2 then PortMapping(parts[0], parts[1], protocol)
    else PortMapping(parts[1], parts[2], protocol)
  }

  /** Starts with '[' and the first ']', if any, is not followed by ':'. */
  predicate BracketedWhole(s: string) {
    s != [] && s[0] == '[' && (var end := Find(s, ']'); end + 1 < |s| ==> s[end + 1] != ':')
  }

  /**
   * The bodies that come back. Without a host port the container text must stay
   * one part; with one, the container must be free of ':', and so must the host,
   * unless the host is one bracketed text closed for the first time at its end.
   */
  predicate PlainBody(host: string, container: string) {
    if host == "" then ':' !in container || BracketedWhole(container)
    else ':' !in container && if host[0] == '[' then Find(host, ']') == |host| - 1 else ':' !in host
  }

  lemma HostlessBody(container: string, protocol: string)
    ensures ParseBody(container, protocol) == PortMapping("", container, protocol) <==> PlainBody("", container)
  {
    if container == "" {
    } else if container[0] != '[' {
      SplitShort(container, 3);
    } else {
      var end := Find(container, ']');
      if end + 1 < |container| && container[end + 1] == ':' {
        assert container[end + 1..][0] == ':';
        assert ':' in container;
        SplitShort(container[end + 1..][1..], 2);
      }
    }
  }

  /** A part is shorter than the text unless the text is one part. */
  lemma {:induction false} SplitShort(s: string, n: nat)
    requires n >= 1
    ensures |Split(s, ':', n)| == 1 <==> n == 1 || ':' !in s
    ensures |Split(s, ':', n)| == 1 ==> Split(s, ':', n) == [s]
    ensures |Split(s, ':', n)| > 1 ==> forall i :: 0 <= i < |Split(s, ':', n)| ==> |Split(s, ':', n)[i]| < |s|
    decreases n
  {
    var i := Find(s, ':');
    FindSpec(s, ':');
    if n > 1 && i < |s| {
      SplitShort(s[i + 1..], n - 1);
    }
  }

  lemma {:induction false} HostedBracket(host: string, container: string)
    requires host != "" && host[0] == '['
    ensures var body := host + ":" + container;
            Find(host, ']') == |host| - 1 ==> SplitPort(body) == [host] + Split(container, ':', 2)
  {
    var body := host + ":" + container;
    if Find(host, ']') == |host| - 1 {
      FindSpec(host, ']');
      FindAt(body, ']', |host| - 1);
      assert body[..|host|] == host;
      assert body[|host|..] == ":" + container && (":" + container)[1..] == container;
    }
  }

  lemma HostedPlain(host: string, container: string, protocol: string)
    requires host != "" && PlainBody(host, container)
    ensures ParseBody(host + ":" + container, protocol) == PortMapping(host, container, protocol)
  {
    SplitWhole(container, ':', 2);
    if host[0] == '[' {
      HostedBracket(host, container);
    } else {
      SplitHead(host, ':', container, 3);
    }
  }

  lemma HostedReadBack(host: string, container: string, protocol: string)
    requires host != ""
    requires ParseBody(host + ":" + container, protocol) == PortMapping(host, container, protocol)
    ensures PlainBody(host, container)
  {
    var body := host + ":" + container;
    var parts := SplitPort(body);
    assert |parts| > 1;
    if body[0] != '[' {
      HostedSplit(body, parts);
    } else {
      HostedSplitBracket(body, parts);
    }
  }

  /** Three parts are too long to leave out one of them. */
  lemma HostedSplit(body: string, parts: seq<string>)
    requires parts == Split(body, ':', 3) && |parts| > 1
    ensures |parts| == 2 ==> ':' !in parts[0] && ':' !in parts[1]
    ensures |parts| == 3 ==> |parts[1]| + 1 + |parts[2]| < |body|
  {
    SplitRejoins(body, ':', 3);
    if |parts| == 2 {
      SplitParts(body, ':', 3, 0);
      SplitParts(body, ':', 3, 1);
    } else {
      assert parts[1..][1..] == [parts[2]];
      assert Join(parts[1..], ':') == parts[1] + ":" + Join(parts[1..][1..], ':');
    }
  }

  lemma JoinTwo(parts: seq<string>)
    requires |parts| == 2
    ensures Join(parts, ':') == parts[0] + ":" + parts[1]
  {
    assert parts[1..] == [parts[1]];
  }

  /** A bracketed text and one or two parts after its colon. */
  lemma HostedSplitBracket(body: string, parts: seq<string>)
    requires body != [] && body[0] == '[' && parts == SplitPort(body) && |parts| > 1
    ensures |parts| == 2 ==> ':' !in parts[1] && parts[0] != [] && Find(parts[0], ']') == |parts[0]| - 1
    ensures |parts| == 3 ==> |parts[1]| + 1 + |parts[2]| < |body|
  {
    var end := Find(body, ']');
    var tail := body[end + 1..][1..];
    var after := Split(tail, ':', 2);
    assert parts == [body[..end + 1]] + after;
    if |parts| == 2 {
      SplitParts(tail, ':', 2, 0);
      FindSpec(body, ']');
      FindAt(body[..end + 1], ']', end);
    } else {
      SplitRejoins(tail, ':', 2);
      JoinTwo(after);
    }
  }

  /** Fields whose printed form is read back as they were. */
  predicate PlainPort(p: PortMapping) {
    '/' !in p.protocol && PlainBody(p.hostPort, p.containerPort)
  }

  /** The printed form names the protocol, tcp when none was given. */
  function WithProtocol(p: PortMapping): PortMapping {
    if p.protocol == "" then p.(protocol := "tcp") else p
  }

  /**
   * Printed and parsed back, a port is the original with its protocol filled in
   * if and only if it is plain.
   */
  lemma PortRoundTrip(p: PortMapping)
    ensures ParsePortString(PrintPort(p)) == WithProtocol(p) <==> PlainPort(p)
  {
    var q := WithProtocol(p);
    if '/' in q.protocol {
      LaterSlash(PortBody(p), q.protocol);
    } else {
      PrintedBody(p);
      BodyRoundTrip(p.hostPort, p.containerPort, q.protocol);
    }
  }

  /** With a plain protocol, parsing depends on the body alone. */
  lemma PrintedBody(p: PortMapping)
    requires '/' !in p.protocol
    ensures ParsePortString(PrintPort(p)) == ParseBody(PortBody(p), WithProtocol(p).protocol)
  {
    LastSlash(PortBody(p), WithProtocol(p).protocol);
  }

  lemma BodyRoundTrip(host: string, container: string, protocol: string)
    ensures ParseBody(if host != "" then host + ":" + container else container, protocol) == PortMapping(host, container, protocol)
            <==> PlainBody(host, container)
  {
    if host == "" {
      HostlessBody(container, protocol);
    } else if PlainBody(host, container) {
      HostedPlain(host, container, protocol);
    } else if ParseBody(host + ":" + container, protocol) == PortMapping(host, container, protocol) {
      HostedReadBack(host, container, protocol);
    }
  }

  // ----- an address in front -----

  /** Host address, host port and container port: the address is dropped. */
  lemma {:induction false} AddressDropped(address: string, host: string, container: string, protocol: string)
    requires ':' !in address && address != "" && address[0] != '[' && ':' !in host
    ensures ParseBody(address + ":" + (host + ":" + container), protocol) == PortMapping(host, container, protocol)
  {
    var body := address + ":" + (host + ":" + container);
    assert body[0] == address[0];
    SplitHead(address, ':', host + ":" + container, 3);
    SplitHead(host, ':', container, 2);
    SplitWhole(container, ':', 1);
  }

  /** The same for a bracketed address, whatever colons it holds. */
  lemma {:induction false} BracketedDropped(address: string, host: string, container: string, protocol: string)
    requires address != "" && address[0] == '[' && Find(address, ']') == |address| - 1 && ':' !in host
    ensures ParseBody(address + ":" + (host + ":" + container), protocol) == PortMapping(host, container, protocol)
  {
    HostedBracket(address, host + ":" + container);
    SplitHead(host, ':', container, 2);
    SplitWhole(container, ':', 1);
  }

  /** Without a slash the protocol is tcp, otherwise what follows the last one. */
  lemma {:induction false} ParsedBody(body: string, protocol: string)
    requires '/' !in protocol
    ensures ParsePortString(body + "/" + protocol) == ParseBody(body, protocol)
    ensures '/' !in body ==> ParsePortString(body) == ParseBody(body, "tcp")
  {
    LastSlash(body, protocol);
  }
}
