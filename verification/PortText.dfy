/** The port-mapping notation of the command line (cmd/ambudctl/ports.go). */
module PortText {
  import opened Types
  import opened PortConversions
  import opened Text

  function LowerChar(c: char): char {
    if 'A' <= c <= 'Z' then c - 'A' + 'a' else c
  }

  /** strings.ToLower, as far as it can produce tcp or udp. */
  function Lower(s: string): (r: string)
    ensures |r| == |s|
    ensures forall i :: 0 <= i < |s| ==> r[i] == LowerChar(s[i])
  {
    seq(|s|, i requires 0 <= i < |s| => LowerChar(s[i]))
  }

  /** parsePortNumber: a numeral of at most 65535, and not zero. */
  function ParseNumber(s: string): Option<U16> {
    if !IsNumeral(s) then None
    else
      var n := Value(s);
      if n > 0xFFFF || n == 0 then None else Some(n)
  }

  function ParseParts(rest: string, proto: string): Option<Port> {
    if proto != TCP && proto != UDP then None
    else
      var i := IndexOf(rest, ':');
      if i == -1 then None
      else
        var host, container := ParseNumber(rest[..i]), ParseNumber(rest[i+1..]);
        if host.None? || container.None? then None
        else Some(Port(host.value, container.value, proto))
  }

  function ParseSpec(spec: string): Option<Port> {
    var i := LastIndexOf(spec, '/');
    if i == -1 then ParseParts(spec, TCP) else ParseParts(spec[..i], Lower(spec[i+1..]))
  }

  method ParseSpecs(specs: seq<string>) returns (ports: Option<seq<Port>>)
    ensures ports.Some? <==> forall i :: 0 <= i < |specs| ==> ParseSpec(specs[i]).Some?
    ensures ports.Some? ==> |ports.value| == |specs|
    ensures ports.Some? ==> forall i :: 0 <= i < |specs| ==> ParseSpec(specs[i]) == Some(ports.value[i])
  {
    var out: seq<Port> := [];
    for i := 0 to |specs|
      invariant |out| == i
      invariant forall j :: 0 <= j < i ==> ParseSpec(specs[j]) == Some(out[j])
    {
      var p := ParseSpec(specs[i]);
      if p.None? {
        return None;
      }
      out := out + [p.value];
    }
    return Some(out);
  }

  // ---------------------------------------------------------------- the notation

  ghost predicate IsPort(s: string, n: U16) {
    IsNumeral(s) && Value(s) == n && n > 0
  }

  ghost predicate Pair(rest: string, host: string, container: string, p: Port) {
    rest == host + ":" + container && IsPort(host, p.hostPort) && IsPort(container, p.containerPort)
  }

  /** host ":" container, two numerals. */
  ghost predicate PairDenotes(rest: string, proto: string, p: Port) {
    && (proto == "tcp" || proto == "udp") && p.protocol == proto
    && exists host, container :: Pair(rest, host, container, p)
  }

  ghost predicate Suffixed(spec: string, rest: string, protocol: string) {
    spec == rest + "/" + protocol
  }

  /** The ways to write a protocol: its letters in any case. */
  ghost predicate Spells(s: string, protocol: string) {
    || (protocol == "tcp" && |s| == 3 && s[0] in "tT" && s[1] in "cC" && s[2] in "pP")
    || (protocol == "udp" && |s| == 3 && s[0] in "uU" && s[1] in "dD" && s[2] in "pP")
  }

  /** A pair followed by a slash and a protocol. */
  ghost predicate SuffixedPair(spec: string, rest: string, protocol: string, p: Port) {
    Suffixed(spec, rest, protocol) && Spells(protocol, p.protocol) && PairDenotes(rest, p.protocol, p)
  }

  /** A pair, alone (meaning tcp) or followed by a slash and a protocol in any letter case. */
  ghost predicate Denotes(spec: string, p: Port) {
    || PairDenotes(spec, "tcp", p)
    || exists rest, protocol :: SuffixedPair(spec, rest, protocol, p)
  }

  /** Lower-casing recognizes exactly the spellings. */
  lemma LowerSpells(s: string, protocol: string)
    requires protocol == "tcp" || protocol == "udp"
    ensures Lower(s) == protocol <==> Spells(s, protocol)
  {
    if |s| == 3 {
      assert Lower(s) == [LowerChar(s[0]), LowerChar(s[1]), LowerChar(s[2])];
      assert protocol == [protocol[0], protocol[1], protocol[2]];
    }
  }

  lemma NumeralHasNo(s: string, c: char)
    requires IsNumeral(s) && !IsDigit(c)
    ensures c !in s
  {
  }

  lemma PairParses(rest: string, host: string, container: string, proto: string, p: Port)
    requires Pair(rest, host, container, p) && (proto == TCP || proto == UDP) && p.protocol == proto
    ensures ParseParts(rest, proto) == Some(p)
  {
    NumeralHasNo(host, ':');
    IndexAfter(host, ':', container);
    assert rest[..|host|] == host;
    assert rest[|host|+1..] == container;
  }

  lemma PartsExact(rest: string, proto: string, p: Port)
    ensures ParseParts(rest, proto) == Some(p) <==> PairDenotes(rest, proto, p)
  {
    if PairDenotes(rest, proto, p) {
      var host, container :| Pair(rest, host, container, p);
      PairParses(rest, host, container, proto, p);
    } else if ParseParts(rest, proto) == Some(p) {
      var i := IndexOf(rest, ':');
      assert Pair(rest, rest[..i], rest[i+1..], p);
      assert false;
    }
  }

  lemma PairHasNoSlash(rest: string, proto: string, p: Port)
    requires PairDenotes(rest, proto, p)
    ensures '/' !in rest
  {
    var host, container :| Pair(rest, host, container, p);
    NumeralHasNo(host, '/');
    NumeralHasNo(container, '/');
  }

  lemma ProtocolHasNoSlash(s: string)
    requires Lower(s) == TCP || Lower(s) == UDP
    ensures '/' !in s
  {
    assert forall i :: 0 <= i < |s| ==> Lower(s)[i] != '/';
    assert forall i :: 0 <= i < |s| && s[i] == '/' ==> Lower(s)[i] == '/';
  }

  /** Where the parser cuts. */
  lemma SuffixedParses(spec: string, rest: string, protocol: string)
    requires Suffixed(spec, rest, protocol) && '/' !in protocol
    ensures ParseSpec(spec) == ParseParts(rest, Lower(protocol))
  {
    LastIndexBefore(rest, '/', protocol);
    assert spec[..|rest|] == rest;
    assert spec[|rest|+1..] == protocol;
  }

  lemma DenotedParses(spec: string, p: Port)
    requires Denotes(spec, p)
    ensures ParseSpec(spec) == Some(p)
  {
    if PairDenotes(spec, TCP, p) {
      PairHasNoSlash(spec, TCP, p);
      PartsExact(spec, TCP, p);
    } else {
      var rest, protocol :| SuffixedPair(spec, rest, protocol, p);
      LowerSpells(protocol, p.protocol);
      ProtocolHasNoSlash(protocol);
      SuffixedParses(spec, rest, protocol);
      PartsExact(rest, Lower(protocol), p);
    }
  }

  lemma SuffixDenotes(spec: string, rest: string, protocol: string, p: Port)
    requires Suffixed(spec, rest, protocol) && ParseParts(rest, Lower(protocol)) == Some(p)
    ensures SuffixedPair(spec, rest, protocol, p)
  {
    PartsExact(rest, Lower(protocol), p);
    LowerSpells(protocol, p.protocol);
  }

  lemma ParsedDenotes(spec: string, p: Port)
    requires ParseSpec(spec) == Some(p)
    ensures Denotes(spec, p)
  {
    var i := LastIndexOf(spec, '/');
    if i == -1 {
      PartsExact(spec, TCP, p);
    } else {
      CutAt(spec, i);
      SuffixDenotes(spec, spec[..i], spec[i+1..], p);
    }
  }

  /** The parser accepts exactly the notation, and reads from it exactly the mapping. */
  lemma ParseExact(spec: string, p: Port)
    ensures ParseSpec(spec) == Some(p) <==> Denotes(spec, p)
  {
    if ParseSpec(spec) == Some(p) {
      ParsedDenotes(spec, p);
    }
    if Denotes(spec, p) {
      DenotedParses(spec, p);
    }
  }

  // ---------------------------------------------------------------- printing

  function Format(p: ApiPort): string {
    Decimal(p.hostPort) + ":" + Decimal(p.containerPort) + "/" + p.protocol
  }

  function FormatAll(ports: seq<ApiPort>): string {
    if ports == [] then "-" else Join(Map(Format, ports), ',')
  }

  method FormatPorts(ports: seq<ApiPort>) returns (s: string)
    ensures s == FormatAll(ports)
    ensures ports == [] ==> s == "-"
    ensures |ports| == 1 ==> s == Decimal(ports[0].hostPort) + ":" + Decimal(ports[0].containerPort) + "/" + ports[0].protocol
  {
    if |ports| == 0 {
      return "-";
    }
    var parts: seq<string> := [];
    for i := 0 to |ports|
      invariant parts == Map(Format, ports[..i])
    {
      parts := parts + [Format(ports[i])];
    }
    assert ports[..|ports|] == ports;
    return Join(parts, ',');
  }

  predicate ValidMapping(p: ApiPort) {
    p.hostPort > 0 && p.containerPort > 0 && (p.protocol == TCP || p.protocol == UDP)
  }

  lemma FormatHasNoComma(p: ApiPort)
    requires ValidMapping(p)
    ensures ',' !in Format(p)
  {
    DecimalDenotes(p.hostPort);
    DecimalDenotes(p.containerPort);
    NumeralHasNo(Decimal(p.hostPort), ',');
    NumeralHasNo(Decimal(p.containerPort), ',');
  }

  lemma FormatDenotes(p: ApiPort)
    requires ValidMapping(p)
    ensures ParseSpec(Format(p)) == Some(FromApi(p))
  {
    var host, container := Decimal(p.hostPort), Decimal(p.containerPort);
    DecimalDenotes(p.hostPort);
    DecimalDenotes(p.containerPort);
    assert Spells(p.protocol, p.protocol);
    assert Pair(host + ":" + container, host, container, FromApi(p));
    assert SuffixedPair(Format(p), host + ":" + container, p.protocol, FromApi(p));
    DenotedParses(Format(p), FromApi(p));
  }

  /** Printing a non-empty list and parsing the pieces between the commas gives the list back. */
  lemma FormatParsesBack(ports: seq<ApiPort>)
    requires ports != [] && forall i :: 0 <= i < |ports| ==> ValidMapping(ports[i])
    ensures Map(ParseSpec, Split(FormatAll(ports), ',')) == Map((p: ApiPort) => Some(FromApi(p)), ports)
  {
    var parts := Map(Format, ports);
    forall i | 0 <= i < |ports|
      ensures ParseSpec(parts[i]) == Some(FromApi(ports[i])) && ',' !in parts[i]
    {
      FormatDenotes(ports[i]);
      FormatHasNoComma(ports[i]);
    }
    SplitJoin(parts, ',');
  }

  /** Whatever was accepted, printing it gives a spec that parses to the same mapping. */
  lemma AcceptedReprints(spec: string)
    requires ParseSpec(spec).Some?
    ensures var p := ParseSpec(spec).value;
            ValidMapping(ToApi(p)) && ParseSpec(Format(ToApi(p))) == Some(p)
  {
    var p := ParseSpec(spec).value;
    ParseExact(spec, p);
    FormatDenotes(ToApi(p));
  }
}
