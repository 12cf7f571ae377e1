/**
 * The `-p external:internal` option of `docker run`. Every port the Dockerfile exposes is
 * published on a free host port found by probing upwards from a random start in
 * [30000, 60000]. The draws of `Math.random` are the reals `random(0)`, `random(1)`, …
 * in [0, 1), and whether a port can be bound is the predicate `isFree`.
 */
module Ports {
  import opened Wrappers
  import opened Text

  const MinHighPort: int := 30000
  const MaxHighPort: int := 60000

  /** The largest port `server.listen` accepts; a larger one makes it throw. */
  const MaxPort: int := 65535

  /** `getRandomHighPort`: `Math.floor(r * (max - min + 1)) + min` for a draw `r`. */
  function RandomHighPort(r: real): (port: int)
    requires 0.0 <= r < 1.0
    ensures MinHighPort <= port <= MaxHighPort
    ensures (port - MinHighPort) as real <= r * 30001.0 < (port - MinHighPort + 1) as real
  {
    (r * (MaxHighPort - MinHighPort + 1) as real).Floor + MinHighPort
  }

  /**
   * The port `findAvailablePort(start)` resolves to: the first one at or after `start`
   * that binds; `None` (a rejected promise) when the probe passes 65535 first.
   */
  function LeastFree(start: int, isFree: int -> bool): (r: Option<int>)
    requires start >= 1
    ensures r.Some? ==> start <= r.value <= MaxPort && isFree(r.value)
    ensures r.Some? ==> forall q :: start <= q < r.value ==> !isFree(q)
    ensures r.None? ==> forall q :: start <= q <= MaxPort ==> !isFree(q)
    decreases MaxPort + 1 - start
  {
    if start > MaxPort then None
    else if isFree(start) then Some(start)
    else LeastFree(start + 1, isFree)
  }

  /** `findAvailablePort`: the retry on the "error" event, as a loop over the candidate port. */
  method FindAvailablePort(start: int, isFree: int -> bool) returns (r: Option<int>)
    requires start >= 1
    ensures r == LeastFree(start, isFree)
  {
    var port := start;
    while port <= MaxPort && !isFree(port)
      invariant start <= port && (port > start ==> port <= MaxPort + 1)
      invariant LeastFree(port, isFree) == LeastFree(start, isFree)
      decreases MaxPort + 1 - port
    {
      port := port + 1;
    }
    if port > MaxPort {
      r := None;
    } else {
      r := Some(port);
    }
  }

  /** `${externalPort}:${internalPort}`. */
  function PortPair(external: int, internal: int): string {
    IntToString(external) + ":" + IntToString(internal)
  }

  /** One entry of the option: `-p ${externalPort}:${internalPort}`. */
  function PortMapping(external: int, internal: int): string {
    "-p" + " " + PortPair(external, internal)
  }

  /**
   * The host ports chosen for the first `n` exposed ports: the `k`-th probe starts at the
   * high port drawn from `random(k)`. `None` when one of the probes fails.
   */
  function Externals(n: nat, random: nat -> real, isFree: int -> bool): (r: Option<seq<int>>)
    requires forall i: nat :: 0.0 <= random(i) < 1.0
    ensures r.Some? ==> |r.value| == n
    ensures r.Some? ==> forall k :: 0 <= k < n ==>
      LeastFree(RandomHighPort(random(k)), isFree) == Some(r.value[k])
    ensures r.Some? ==> forall k :: 0 <= k < n ==> MinHighPort <= r.value[k] <= MaxPort && isFree(r.value[k])
  {
    if n == 0 then Some([])
    else
      match Externals(n - 1, random, isFree)
      case None => None
      case Some(e) =>
        match LeastFree(RandomHighPort(random(n - 1)), isFree)
        case None => None
        case Some(p) => Some(e + [p])
  }

  /** The mappings of `ports` onto the host ports `exts`, position by position. */
  function Mappings(exts: seq<int>, ports: seq<int>): (ms: seq<string>)
    requires |exts| == |ports|
    ensures |ms| == |ports|
  {
    if ports == [] then [] else [PortMapping(exts[0], ports[0])] + Mappings(exts[1..], ports[1..])
  }

  /** What `mapDockerPorts` resolves to for the exposed `ports`; `None` when it rejects. */
  function PortOption(ports: seq<int>, random: nat -> real, isFree: int -> bool): Option<string>
    requires forall i: nat :: 0.0 <= random(i) < 1.0
  {
    if ports == [] then Some("")
    else
      match Externals(|ports|, random, isFree)
      case None => None
      case Some(exts) => Some(Join(Mappings(exts, ports), " "))
  }

  /** `mapDockerPorts`: one probe per exposed port, in order, each mapping pushed onto the list. */
  method MapDockerPorts(ports: seq<int>, random: nat -> real, isFree: int -> bool) returns (r: Option<string>)
    requires forall i: nat :: 0.0 <= random(i) < 1.0
    ensures r == PortOption(ports, random, isFree)
  {
    if |ports| == 0 {
      return Some("");
    }
    var mappingList: seq<string> := [];
    ghost var exts: seq<int> := [];
    var i := 0;
    while i < |ports|
      invariant 0 <= i <= |ports|
      invariant Externals(i, random, isFree) == Some(exts)
      invariant |exts| == i && mappingList == Mappings(exts, ports[..i])
    {
      var start := RandomHighPort(random(i));
      var external := FindAvailablePort(start, isFree);
      if external.None? {
        ExternalsFail(i, |ports|, random, isFree);
        return None;
      }
      MapStep(i, exts, ports, random, isFree, external.value);
      mappingList := mappingList + [PortMapping(external.value, ports[i])];
      exts := exts + [external.value];
      i := i + 1;
    }
    assert ports[..i] == ports;
    r := Some(Join(mappingList, " "));
  }

  lemma MapStep(i: nat, exts: seq<int>, ports: seq<int>, random: nat -> real, isFree: int -> bool, e: int)
    requires forall j: nat :: 0.0 <= random(j) < 1.0
    requires i < |ports| && |exts| == i && Externals(i, random, isFree) == Some(exts)
    requires LeastFree(RandomHighPort(random(i)), isFree) == Some(e)
    ensures Externals(i + 1, random, isFree) == Some(exts + [e])
    ensures Mappings(exts + [e], ports[..i + 1]) == Mappings(exts, ports[..i]) + [PortMapping(e, ports[i])]
  {
    ExternalsStep(i, exts, random, isFree, e);
    MappingsPrefixStep(exts, ports, i, e);
  }

  lemma ExternalsStep(i: nat, exts: seq<int>, random: nat -> real, isFree: int -> bool, e: int)
    requires forall j: nat :: 0.0 <= random(j) < 1.0
    requires Externals(i, random, isFree) == Some(exts)
    requires LeastFree(RandomHighPort(random(i)), isFree) == Some(e)
    ensures Externals(i + 1, random, isFree) == Some(exts + [e])
  {
  }

  lemma MappingsPrefixStep(exts: seq<int>, ports: seq<int>, i: nat, e: int)
    requires i < |ports| && |exts| == i
    ensures Mappings(exts + [e], ports[..i + 1]) == Mappings(exts, ports[..i]) + [PortMapping(e, ports[i])]
  {
    assert ports[..i + 1] == ports[..i] + [ports[i]];
    MappingsSnoc(exts, ports[..i], e, ports[i]);
  }

  lemma {:induction false} MappingsSnoc(exts: seq<int>, ports: seq<int>, e: int, p: int)
    requires |exts| == |ports|
    ensures Mappings(exts + [e], ports + [p]) == Mappings(exts, ports) + [PortMapping(e, p)]
    decreases |ports|
  {
    if ports != [] {
      MappingsSnoc(exts[1..], ports[1..], e, p);
      assert (exts + [e])[1..] == exts[1..] + [e];
      assert (ports + [p])[1..] == ports[1..] + [p];
    }
  }

  /** Once a probe fails, every longer run of probes fails. */
  lemma {:induction false} ExternalsFail(i: nat, n: nat, random: nat -> real, isFree: int -> bool)
    requires forall j: nat :: 0.0 <= random(j) < 1.0
    requires i < n && Externals(i, random, isFree).Some?
    requires LeastFree(RandomHighPort(random(i)), isFree).None?
    ensures Externals(n, random, isFree).None?
    decreases n - i
  {
    if n > i + 1 {
      ExternalsFail(i, n - 1, random, isFree);
    }
  }

  // ---------------------------------------------------------------------------
  // reading the option back

  /** A mapping read back: "-p ", then two integers separated by ":". */
  function DecodeMapping(words: seq<string>): Option<(int, int)>
    requires |words| == 2
  {
    var halves := SplitOn(words[1], ':');
    if words[0] == "-p" && |halves| == 2 && ParseInt(halves[0]).Some? && ParseInt(halves[1]).Some? then
      Some((ParseInt(halves[0]).value, ParseInt(halves[1]).value))
    else None
  }

  /** Words read back two at a time as mappings. */
  function DecodeWords(words: seq<string>): Option<seq<(int, int)>>
    decreases |words|
  {
    if words == [] then Some([])
    else if |words| < 2 then None
    else
      match (DecodeMapping(words[..2]), DecodeWords(words[2..]))
      case (Some(m), Some(rest)) => Some([m] + rest)
      case _ => None
  }

  /** The option read back as (external, internal) pairs; "" has none. */
  function DecodePortOption(option: string): Option<seq<(int, int)>> {
    if option == "" then Some([]) else DecodeWords(SplitOn(option, ' '))
  }

  /** The words of the mappings: "-p" and "external:internal" for each. */
  function MappingWords(exts: seq<int>, ports: seq<int>): (ws: seq<string>)
    requires |exts| == |ports|
    ensures |ws| == 2 * |ports|
  {
    if ports == [] then []
    else ["-p", PortPair(exts[0], ports[0])] + MappingWords(exts[1..], ports[1..])
  }

  function Pairs(exts: seq<int>, ports: seq<int>): (ps: seq<(int, int)>)
    requires |exts| == |ports|
    ensures |ps| == |ports|
    ensures forall k :: 0 <= k < |ps| ==> ps[k] == (exts[k], ports[k])
  {
    if ports == [] then [] else [(exts[0], ports[0])] + Pairs(exts[1..], ports[1..])
  }

  lemma {:induction false} JoinMappings(exts: seq<int>, ports: seq<int>)
    requires |exts| == |ports|
    ensures Join(Mappings(exts, ports), " ") == Join(MappingWords(exts, ports), " ")
    decreases |ports|
  {
    if |ports| == 1 {
      assert Mappings(exts, ports) == [PortMapping(exts[0], ports[0])];
      assert MappingWords(exts, ports) == ["-p", PortPair(exts[0], ports[0])];
    } else if |ports| > 1 {
      JoinMappings(exts[1..], ports[1..]);
      JoinMappingsCons(exts, ports);
    }
  }

  lemma JoinMappingsCons(exts: seq<int>, ports: seq<int>)
    requires |exts| == |ports| && |ports| > 1
    requires Join(Mappings(exts[1..], ports[1..]), " ") == Join(MappingWords(exts[1..], ports[1..]), " ")
    ensures Join(Mappings(exts, ports), " ") == Join(MappingWords(exts, ports), " ")
  {
    var b := PortPair(exts[0], ports[0]);
    var tail := Mappings(exts[1..], ports[1..]);
    var rest := MappingWords(exts[1..], ports[1..]);
    assert Mappings(exts, ports) == [PortMapping(exts[0], ports[0])] + tail;
    assert MappingWords(exts, ports) == ["-p", b] + rest;
    PairCons("-p", b, rest);
    JoinPairStep(PortMapping(exts[0], ports[0]), "-p", b, tail, rest);
  }

  lemma IntToStringAvoids(n: int, c: char)
    requires c != '-' && !IsDigit(c)
    ensures c !in IntToString(n)
  {
  }

  lemma {:induction false} MappingWordsHaveNoSpace(exts: seq<int>, ports: seq<int>)
    requires |exts| == |ports|
    ensures forall k :: 0 <= k < |MappingWords(exts, ports)| ==> ' ' !in MappingWords(exts, ports)[k]
    decreases |ports|
  {
    if ports != [] {
      MappingWordsHaveNoSpace(exts[1..], ports[1..]);
      IntToStringAvoids(exts[0], ' ');
      IntToStringAvoids(ports[0], ' ');
      var ws := MappingWords(exts, ports);
      assert forall k :: 2 <= k < |ws| ==> ws[k] == MappingWords(exts[1..], ports[1..])[k - 2];
    }
  }

  lemma DecodeOneMapping(e: int, p: int)
    ensures DecodeMapping(["-p", PortPair(e, p)]) == Some((e, p))
  {
    IntToStringAvoids(e, ':');
    IntToStringAvoids(p, ':');
    SplitOnJoin([IntToString(e), IntToString(p)], ':');
    assert Join([IntToString(e), IntToString(p)], [':']) == IntToString(e) + ":" + IntToString(p);
    ParseIntOfIntToString(e);
    ParseIntOfIntToString(p);
  }

  lemma {:induction false} DecodeMappingWords(exts: seq<int>, ports: seq<int>)
    requires |exts| == |ports|
    ensures DecodeWords(MappingWords(exts, ports)) == Some(Pairs(exts, ports))
    decreases |ports|
  {
    if ports != [] {
      var ws := MappingWords(exts, ports);
      DecodeMappingWords(exts[1..], ports[1..]);
      DecodeOneMapping(exts[0], ports[0]);
      assert ws[..2] == ["-p", PortPair(exts[0], ports[0])];
      assert ws[2..] == MappingWords(exts[1..], ports[1..]);
    }
  }

  /**
   * The option reads back as exactly one (external, internal) pair per exposed port, in
   * the order the ports were declared, each external port the one its probe found.
   */
  lemma PortOptionRoundTrip(ports: seq<int>, random: nat -> real, isFree: int -> bool)
    requires forall i: nat :: 0.0 <= random(i) < 1.0
    requires PortOption(ports, random, isFree).Some?
    ensures ports != [] ==> Externals(|ports|, random, isFree).Some?
    ensures DecodePortOption(PortOption(ports, random, isFree).value) ==
      if ports == [] then Some([]) else Some(Pairs(Externals(|ports|, random, isFree).value, ports))
  {
    if ports != [] {
      var exts := Externals(|ports|, random, isFree).value;
      var ws := MappingWords(exts, ports);
      JoinMappings(exts, ports);
      MappingWordsHaveNoSpace(exts, ports);
      SplitOnJoin(ws, ' ');
      DecodeMappingWords(exts, ports);
      var s := Join(ws, " ");
      assert s == Join(ws, [' ']);
      assert s != "" by {
        assert |ws[0]| == 2 && |s| >= |ws[0]|;
      }
    }
  }
}
