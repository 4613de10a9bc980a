// The FRRConfigurations of pkg/agent/bgp/bgp_configurator.go: the raw text with
// its policy-removal lines, and the pass that stores one configuration per node.

module FrrConfig {
  import opened Wrappers
  import opened Text
  import opened Decimal
  import opened BgpMesh

  // ------------------------------------------------------------ raw text

  // Lines, each with its line end.
  function Lines(ls: seq<string>): string
  {
    if ls == [] then "" else Lines(ls[..|ls| - 1]) + ls[|ls| - 1] + "\n"
  }

  const PREFIX := "  no neighbor "

  // "  no neighbor A route-map A-out out", and the same for the inbound direction.
  function OutLine(address: string): string
  {
    PREFIX + Join(OutWords(address), ' ')
  }

  function InLine(address: string): string
  {
    PREFIX + Join(InWords(address), ' ')
  }

  function OutWords(address: string): seq<string>
  {
    [address, "route-map", address + "-out", "out"]
  }

  function InWords(address: string): seq<string>
  {
    [address, "route-map", address + "-in", "in"]
  }

  function RemovalLines(ns: seq<Neighbor>): seq<string>
  {
    if ns == [] then []
    else RemovalLines(ns[..|ns| - 1]) + [OutLine(ns[|ns| - 1].address), InLine(ns[|ns| - 1].address)]
  }

  function RouterOpen(asn: int): seq<string>
  {
    ["router bgp " + PrintInt(asn), " address-family ipv4 unicast"]
  }

  function RouterClose(): seq<string>
  {
    [" exit-address-family", "exit"]
  }

  function Redistribute(): seq<string>
  {
    // In two halves: the verifier takes long literals character by character.
    ["  redistribute connected" + " route-map VTEP_LOOPBACK"]
  }

  function PrefixList(vtepCidr: string): seq<string>
  {
    ["!", "ip prefix-list VTEP_PREFIXES permit " + vtepCidr + " ge 32 le 32", "!"]
  }

  function RouteMapEntry(): seq<string>
  {
    ["route-map VTEP_LOOPBACK permit 10", " match ip address prefix-list VTEP_PREFIXES"]
  }

  function RouteMapEnd(): seq<string>
  {
    ["exit", "!"]
  }

  function RouteMap(): seq<string>
  {
    RouteMapEntry() + RouteMapEnd()
  }

  // The template: redistribute the VTEP loopbacks, then reopen the router block
  // for the policy removals.
  function HeaderLines(asn: int, vtepCidr: string): seq<string>
  {
    RouterOpen(asn) + Redistribute() + RouterClose() + PrefixList(vtepCidr) + RouteMap() + RouterOpen(asn)
  }

  function RawText(asn: int, vtepCidr: string, ns: seq<Neighbor>): string
  {
    Lines(HeaderLines(asn, vtepCidr)) + Lines(RemovalLines(ns)) + Lines(RouterClose()) + "!"
  }

  // The raw configuration: the template, the loop that grows it by +=, the tail.
  method RawConfig(asn: int, vtepCidr: string, neighbors: seq<Neighbor>) returns (raw: string)
    ensures raw == RawText(asn, vtepCidr, neighbors)
  {
    raw := Lines(HeaderLines(asn, vtepCidr));
    raw := AppendRemovals(raw, neighbors);
    raw := raw + Lines(RouterClose()) + "!";
  }

  method AppendRemovals(start: string, neighbors: seq<Neighbor>) returns (raw: string)
    ensures raw == start + Lines(RemovalLines(neighbors))
  {
    raw := start;
    for i := 0 to |neighbors|
      invariant raw == start + Lines(RemovalLines(neighbors[..i]))
    {
      var out, inbound := OutLine(neighbors[i].address), InLine(neighbors[i].address);
      RemovalLinesGrow(neighbors, i);
      AppendTwice(start, Lines(RemovalLines(neighbors[..i])), out + "\n", inbound + "\n");
      raw := raw + (out + "\n");
      raw := raw + (inbound + "\n");
    }
    assert neighbors[..|neighbors|] == neighbors;
  }

  lemma AppendTwice(a: string, b: string, c: string, d: string)
    ensures a + b + c + d == a + (b + c + d)
  {
  }

  lemma RemovalLinesGrow(ns: seq<Neighbor>, i: nat)
    requires i < |ns|
    ensures Lines(RemovalLines(ns[..i + 1]))
         == Lines(RemovalLines(ns[..i])) + (OutLine(ns[i].address) + "\n") + (InLine(ns[i].address) + "\n")
  {
    assert ns[..i + 1][..i] == ns[..i];
    LinesTwo(RemovalLines(ns[..i]), OutLine(ns[i].address), InLine(ns[i].address));
  }

  lemma LinesTwo(ls: seq<string>, a: string, b: string)
    ensures Lines(ls + [a, b]) == Lines(ls) + (a + "\n") + (b + "\n")
  {
    assert (ls + [a, b])[..|ls| + 1] == ls + [a];
    assert (ls + [a])[..|ls|] == ls;
  }

  lemma {:induction false} LinesConcat(a: seq<string>, b: seq<string>)
    ensures Lines(a + b) == Lines(a) + Lines(b)
  {
    if b == [] {
      assert a + b == a;
    } else {
      var init, last := b[..|b| - 1], b[|b| - 1];
      LinesConcat(a, init);
      assert (a + b)[..|a + b| - 1] == a + init;
      assert Lines(a + b) == Lines(a + init) + last + "\n";
      assert Lines(b) == Lines(init) + last + "\n";
    }
  }

  // ------------------------------------------------------------ reading it back

  datatype Removal = Outbound(address: string) | Inbound(address: string)

  // A removal line: "  no neighbor A route-map A-out out" or its -in counterpart.
  function ReadLine(line: string): Option<Removal>
  {
    if !(PREFIX <= line) then None
    else
      var w := Split(line[|PREFIX|..], ' ');
      if |w| == 4 && w[1] == "route-map" && w[2] == w[0] + "-out" && w[3] == "out" then Some(Outbound(w[0]))
      else if |w| == 4 && w[1] == "route-map" && w[2] == w[0] + "-in" && w[3] == "in" then Some(Inbound(w[0]))
      else None
  }

  function ReadLines(ls: seq<string>): seq<Removal>
  {
    if ls == [] then []
    else
      ReadLines(ls[..|ls| - 1]) +
        match ReadLine(ls[|ls| - 1])
        case Some(r) => [r]
        case None => []
  }

  function ReadRaw(raw: string): seq<Removal>
  {
    ReadLines(Split(raw, '\n'))
  }

  // One outbound and one inbound removal per neighbour, in the order of the list.
  function Removals(ns: seq<Neighbor>): seq<Removal>
  {
    if ns == [] then []
    else Removals(ns[..|ns| - 1]) + [Outbound(ns[|ns| - 1].address), Inbound(ns[|ns| - 1].address)]
  }

  // Two removals per neighbour, both with its address.
  lemma {:induction false} RemovalsAt(ns: seq<Neighbor>)
    ensures |Removals(ns)| == 2 * |ns|
    ensures forall i :: 0 <= i < |ns| ==>
      Removals(ns)[2 * i] == Outbound(ns[i].address) && Removals(ns)[2 * i + 1] == Inbound(ns[i].address)
  {
    if ns != [] {
      RemovalsAt(ns[..|ns| - 1]);
    }
  }

  lemma {:induction false} ReadConcat(a: seq<string>, b: seq<string>)
    ensures ReadLines(a + b) == ReadLines(a) + ReadLines(b)
  {
    if b == [] {
      assert a + b == a;
    } else {
      ReadConcat(a, b[..|b| - 1]);
      assert (a + b)[..|a + b| - 1] == a + b[..|b| - 1];
    }
  }

  lemma {:induction false} ReadNothing(ls: seq<string>)
    requires forall i :: 0 <= i < |ls| ==> ReadLine(ls[i]) == None
    ensures ReadLines(ls) == []
  {
    if ls != [] {
      ReadNothing(ls[..|ls| - 1]);
    }
  }

  lemma ReadOutLine(a: string)
    requires ' ' !in a
    ensures ReadLine(OutLine(a)) == Some(Outbound(a))
  {
    SplitJoin(OutWords(a), ' ');
    assert OutLine(a)[|PREFIX|..] == Join(OutWords(a), ' ');
  }

  lemma ReadInLine(a: string)
    requires ' ' !in a
    ensures ReadLine(InLine(a)) == Some(Inbound(a))
  {
    SplitJoin(InWords(a), ' ');
    assert InLine(a)[|PREFIX|..] == Join(InWords(a), ' ');
    assert a + "-in" != a + "-out" by {
      assert |a + "-in"| != |a + "-out"|;
    }
  }

  lemma ReadTwo(ls: seq<string>, a: string, b: string, r: Removal, q: Removal)
    requires ReadLine(a) == Some(r) && ReadLine(b) == Some(q)
    ensures ReadLines(ls + [a, b]) == ReadLines(ls) + [r, q]
  {
    assert (ls + [a, b])[..|ls| + 1] == ls + [a];
    assert (ls + [a])[..|ls|] == ls;
  }

  lemma {:induction false} ReadRemovalLines(ns: seq<Neighbor>)
    requires forall i :: 0 <= i < |ns| ==> ' ' !in ns[i].address
    ensures ReadLines(RemovalLines(ns)) == Removals(ns)
  {
    if ns != [] {
      var init, a := ns[..|ns| - 1], ns[|ns| - 1].address;
      ReadRemovalLines(init);
      ReadOutLine(a);
      ReadInLine(a);
      ReadTwo(RemovalLines(init), OutLine(a), InLine(a), Outbound(a), Inbound(a));
    }
  }

  // Lines without inner line ends are what splitting gives back.
  lemma {:induction false} SplitLines(ls: seq<string>, last: string)
    requires '\n' !in last && forall i :: 0 <= i < |ls| ==> '\n' !in ls[i]
    ensures Split(Lines(ls) + last, '\n') == ls + [last]
    decreases |ls|
  {
    if ls == [] {
      SplitWhole(last, '\n');
      assert Lines(ls) + last == last;
    } else {
      LinesConcat([ls[0]], ls[1..]);
      assert [ls[0]] + ls[1..] == ls;
      assert [ls[0]][..0] == [];
      assert Lines([ls[0]]) == ls[0] + "\n";
      SplitLines(ls[1..], last);
      SplitPiece(ls[0], Lines(ls[1..]) + last, '\n');
      assert Lines(ls) + last == ls[0] + ['\n'] + (Lines(ls[1..]) + last);
      assert [ls[0]] + (ls[1..] + [last]) == ls + [last];
    }
  }

  lemma {:induction false} RemovalLinesClean(ns: seq<Neighbor>)
    requires forall i :: 0 <= i < |ns| ==> '\n' !in ns[i].address
    ensures forall i :: 0 <= i < |RemovalLines(ns)| ==> '\n' !in RemovalLines(ns)[i]
  {
    if ns != [] {
      var a := ns[|ns| - 1].address;
      RemovalLinesClean(ns[..|ns| - 1]);
      JoinHasNo(OutWords(a), ' ', '\n');
      JoinHasNo(InWords(a), ' ', '\n');
    }
  }

  // A line of the template: no inner line end, and not a removal.
  predicate Plain(line: string)
  {
    '\n' !in line && ReadLine(line) == None
  }

  lemma NotRemoval(line: string)
    requires '\n' !in line && (|line| < 3 || line[0] != ' ' || line[2] != 'n')
    ensures Plain(line)
  {
    assert PREFIX[0] == ' ' && PREFIX[2] == 'n';
  }

  ghost predicate AllPlain(ls: seq<string>)
  {
    forall i :: 0 <= i < |ls| ==> Plain(ls[i])
  }

  lemma RouterPlain(asn: int)
    ensures AllPlain(RouterOpen(asn)) && AllPlain(RouterClose())
  {
    PrintIntChars(asn);
    NotRemoval("router bgp " + PrintInt(asn));
    NotRemoval(" address-family ipv4 unicast");
    NotRemoval(" exit-address-family");
    NotRemoval("exit");
  }

  lemma RedistributePlain()
    ensures AllPlain(Redistribute())
  {
    NotRemoval("  redistribute connected" + " route-map VTEP_LOOPBACK");
  }

  lemma PrefixListPlain(vtepCidr: string)
    requires '\n' !in vtepCidr
    ensures AllPlain(PrefixList(vtepCidr))
  {
    NotRemoval("!");
    NotRemoval("ip prefix-list VTEP_PREFIXES permit " + vtepCidr + " ge 32 le 32");
  }

  lemma RouteMapPlain()
    ensures AllPlain(RouteMap())
  {
    EntryPlain();
    MatchPlain();
    NotRemoval("exit");
    NotRemoval("!");
    PlainConcat(RouteMapEntry(), RouteMapEnd());
  }

  lemma EntryPlain()
    ensures Plain("route-map VTEP_LOOPBACK permit 10")
  {
    NotRemoval("route-map VTEP_LOOPBACK permit 10");
  }

  lemma MatchPlain()
    ensures Plain(" match ip address prefix-list VTEP_PREFIXES")
  {
    NotRemoval(" match ip address prefix-list VTEP_PREFIXES");
  }

  lemma PlainConcat(a: seq<string>, b: seq<string>)
    requires AllPlain(a) && AllPlain(b)
    ensures AllPlain(a + b)
  {
  }

  lemma HeaderPlain(asn: int, vtepCidr: string)
    requires '\n' !in vtepCidr
    ensures AllPlain(HeaderLines(asn, vtepCidr)) && AllPlain(RouterClose()) && Plain("!")
  {
    RouterPlain(asn);
    RedistributePlain();
    PrefixListPlain(vtepCidr);
    RouteMapPlain();
    NotRemoval("!");
    var a, b, c, d, e := RouterOpen(asn), Redistribute(), RouterClose(), PrefixList(vtepCidr), RouteMap();
    PlainConcat(a, b);
    PlainConcat(a + b, c);
    PlainConcat(a + b + c, d);
    PlainConcat(a + b + c + d, e);
    PlainConcat(a + b + c + d + e, a);
  }

  // The text line by line.
  lemma TextLines(asn: int, vtepCidr: string, ns: seq<Neighbor>)
    requires '\n' !in vtepCidr
    requires forall i :: 0 <= i < |ns| ==> ' ' !in ns[i].address && '\n' !in ns[i].address
    ensures Split(RawText(asn, vtepCidr, ns), '\n')
         == HeaderLines(asn, vtepCidr) + RemovalLines(ns) + (RouterClose() + ["!"])
  {
    HeaderPlain(asn, vtepCidr);
    RemovalLinesClean(ns);
    LinesOfParts(HeaderLines(asn, vtepCidr), RemovalLines(ns), RouterClose(), "!");
  }

  // The template: connected routes are redistributed through a route map that
  // matches the loopbacks of the VTEP CIDR, inside the router block of the ASN,
  // and that block is opened again for the removals.
  lemma HeaderIs(asn: int, vtepCidr: string)
    ensures var h := HeaderLines(asn, vtepCidr);
      && |h| == 14
      && h[0] == "router bgp " + PrintInt(asn) && h[1] == " address-family ipv4 unicast"
      && h[2] == "  redistribute connected" + " route-map VTEP_LOOPBACK"
      && h[3] == " exit-address-family" && h[4] == "exit"
      && h[6] == "ip prefix-list VTEP_PREFIXES permit " + vtepCidr + " ge 32 le 32"
      && h[8] == "route-map VTEP_LOOPBACK permit 10" && h[9] == " match ip address prefix-list VTEP_PREFIXES"
      && h[10] == "exit" && h[12] == h[0] && h[13] == h[1]
  {
  }

  lemma LinesOfParts(h: seq<string>, r: seq<string>, t: seq<string>, last: string)
    requires AllPlain(h) && Clean(r) && AllPlain(t) && Plain(last)
    ensures Split(Lines(h) + Lines(r) + Lines(t) + last, '\n') == h + r + (t + [last])
  {
    LinesConcat(h, r);
    LinesConcat(h + r, t);
    AllClean(h, r, t);
    SplitLines(h + r + t, last);
    EndWith(h + r, t, last);
  }

  // Reading the rendered text back yields, in order, exactly one outbound and one
  // inbound removal per neighbour of the list, and nothing else.
  lemma RawConfigReadsBack(asn: int, vtepCidr: string, ns: seq<Neighbor>)
    requires '\n' !in vtepCidr
    requires forall i :: 0 <= i < |ns| ==> ' ' !in ns[i].address && '\n' !in ns[i].address
    ensures ReadRaw(RawText(asn, vtepCidr, ns)) == Removals(ns)
  {
    HeaderPlain(asn, vtepCidr);
    RemovalLinesClean(ns);
    ReadRemovalLines(ns);
    ReadsBetween(HeaderLines(asn, vtepCidr), RemovalLines(ns), RouterClose(), "!");
  }

  lemma ReadsBetween(h: seq<string>, r: seq<string>, t: seq<string>, last: string)
    requires AllPlain(h)
    requires Clean(r)
    requires AllPlain(t)
    requires Plain(last)
    ensures ReadRaw(Lines(h) + Lines(r) + Lines(t) + last) == ReadLines(r)
  {
    LinesConcat(h, r);
    LinesConcat(h + r, t);
    AllClean(h, r, t);
    ReadsLines(h + r + t, last);
    EndWith(h + r, t, last);
    PlainConcat(t, [last]);
    ReadOnlyMiddle(h, r, t + [last]);
  }

  ghost predicate Clean(ls: seq<string>)
  {
    forall i :: 0 <= i < |ls| ==> '\n' !in ls[i]
  }

  lemma AllClean(h: seq<string>, r: seq<string>, t: seq<string>)
    requires AllPlain(h) && Clean(r) && AllPlain(t)
    ensures Clean(h + r + t)
  {
    forall i | 0 <= i < |h| ensures '\n' !in h[i] {
      assert Plain(h[i]);
    }
    forall i | 0 <= i < |t| ensures '\n' !in t[i] {
      assert Plain(t[i]);
    }
  }

  lemma ReadsLines(ls: seq<string>, last: string)
    requires '\n' !in last && Clean(ls)
    ensures ReadRaw(Lines(ls) + last) == ReadLines(ls + [last])
  {
    SplitLines(ls, last);
  }

  lemma EndWith(a: seq<string>, b: seq<string>, last: string)
    ensures a + b + [last] == a + (b + [last])
  {
  }

  lemma ReadOnlyMiddle(h: seq<string>, r: seq<string>, t: seq<string>)
    requires AllPlain(h)
    requires AllPlain(t)
    ensures ReadLines(h + r + t) == ReadLines(r)
  {
    ReadConcat(h, r);
    ReadConcat(h + r, t);
    ReadNothing(h);
    ReadNothing(t);
  }

  // ------------------------------------------------------------ one configuration per node

  datatype NodeConfig = NodeConfig(node: string, asn: int, neighbors: seq<Neighbor>, raw: Option<string>)

  const GENERIC_NAME := "skynet-bgp-config"

  function ConfigName(node: string): string
  {
    "skynet-node-" + node
  }

  lemma ConfigNamesDiffer(a: string, b: string)
    ensures ConfigName(a) == ConfigName(b) <==> a == b
    ensures ConfigName(a) != GENERIC_NAME
  {
    assert ConfigName(a)[12..] == a && ConfigName(b)[12..] == b;
    assert ConfigName(a)[7] == 'n' && GENERIC_NAME[7] == 'b';
  }

  // How many nodes of a pass were not stored.
  function Skipped(oks: seq<bool>): nat
  {
    if oks == [] then 0 else Skipped(oks[..|oks| - 1]) + if oks[|oks| - 1] then 0 else 1
  }

  lemma SkippedGrows(oks: seq<bool>, ok: bool)
    ensures Skipped(oks + [ok]) == Skipped(oks) + if ok then 0 else 1
  {
    assert (oks + [ok])[..|oks|] == oks;
  }

  // No node is skipped exactly when all are stored.
  lemma {:induction false} SkippedNone(oks: seq<bool>)
    ensures Skipped(oks) == 0 <==> forall i :: 0 <= i < |oks| ==> oks[i]
  {
    if oks != [] {
      SkippedNone(oks[..|oks| - 1]);
    }
  }

  // Writing named configurations one after the other; oks says which were written.
  ghost function Written(
    base: map<string, NodeConfig>, wanted: seq<(string, NodeConfig)>, oks: seq<bool>): map<string, NodeConfig>
    requires |oks| <= |wanted|
  {
    if oks == [] then base
    else
      var n := |oks| - 1;
      var before := Written(base, wanted, oks[..n]);
      if oks[n] then before[wanted[n].0 := wanted[n].1] else before
  }

  // With distinct names each written one is there and everything else is as before.
  lemma {:induction false} WrittenPerName(
    base: map<string, NodeConfig>, wanted: seq<(string, NodeConfig)>, oks: seq<bool>)
    requires |oks| <= |wanted|
    requires forall i, j :: 0 <= i < j < |wanted| ==> wanted[i].0 != wanted[j].0
    ensures var after := Written(base, wanted, oks);
      && (forall i :: 0 <= i < |oks| && oks[i] ==> wanted[i].0 in after && after[wanted[i].0] == wanted[i].1)
      && (forall name :: (forall i :: 0 <= i < |oks| && oks[i] ==> name != wanted[i].0) ==>
            (name in after <==> name in base) && (name in base ==> after[name] == base[name]))
  {
    if oks != [] {
      WrittenPerName(base, wanted, oks[..|oks| - 1]);
    }
  }

  class BGPConfigurator {
    // The FRRConfigurations in the local cluster, by name.
    var configs: map<string, NodeConfig>
    // How many requests have failed so far.
    ghost var failures: nat
    const localAsn: int
    const vtepCidr: string
    const topology: Topology

    constructor (localAsn: int, vtepCidr: string, topology: Topology)
      ensures configs == map[] && failures == 0
      ensures this.localAsn == localAsn && this.vtepCidr == vtepCidr && this.topology == topology
    {
      this.localAsn, this.vtepCidr, this.topology := localAsn, vtepCidr, topology;
      configs, failures := map[], 0;
    }

    function Desired(e: Endpoint, local: Cluster, remotes: seq<Cluster>): NodeConfig
    {
      var ns := Neighbors(topology, e.ip, local, remotes);
      NodeConfig(e.node, localAsn, ns, if vtepCidr == "" then None else Some(RawText(localAsn, vtepCidr, ns)))
    }

    // reconcileNodeBGPConfigWithNeighbors: read, then update or create. A read
    // that fails for any reason is taken for absence, so creating can still fail.
    // The configuration is stored unless a request failed; a reply can be lost.
    method ReconcileNode(name: string, config: NodeConfig) returns (ok: bool, ghost kept: bool)
      modifies this
      ensures configs == if kept then old(configs)[name := config] else old(configs)
      ensures ok ==> kept
      ensures !ok ==> failures > old(failures)
      ensures failures >= old(failures)
    {
      var readable, writable, answered := *, *, *;
      if !readable {
        failures := failures + 1;
      }
      // A Create after a failed read is refused when the configuration exists.
      kept := writable && (readable || name !in configs);
      if writable && (readable || name !in configs) {
        configs := configs[name := config];
        ok := answered;
      } else {
        ok := false;
      }
      if !ok {
        failures := failures + 1;
      }
    }

    // deleteGenericBGPConfig: an error (of which a missing configuration is one) is ignored.
    method DeleteGeneric()
      modifies this
      ensures configs == old(configs) - {GENERIC_NAME} || (configs == old(configs) && failures > old(failures))
      ensures failures >= old(failures)
    {
      var writable, answered := *, *;
      if writable {
        configs := configs - {GENERIC_NAME};
      }
      if !(writable && answered) {
        failures := failures + 1;
      }
    }

    ghost function Wanted(local: Cluster, remotes: seq<Cluster>): seq<(string, NodeConfig)>
    {
      seq(|local.endpoints|, i requires 0 <= i < |local.endpoints| =>
        (ConfigName(local.endpoints[i].node), Desired(local.endpoints[i], local, remotes)))
    }

    // The store after a pass over the first |oks| nodes; oks says which ones were stored.
    ghost function Stored(
      base: map<string, NodeConfig>, local: Cluster, remotes: seq<Cluster>, oks: seq<bool>): map<string, NodeConfig>
      requires |oks| <= |local.endpoints|
    {
      Written(base, Wanted(local, remotes), oks)
    }

    // ReconcileBGPConfig: delete the generic configuration, then every local node
    // in turn; a node that fails is skipped, and only a request that fails makes
    // one: at most as many nodes are skipped as requests have failed.
    method ReconcileBGPConfig(local: Cluster, remotes: seq<Cluster>) returns (ghost oks: seq<bool>)
      modifies this
      ensures |oks| == |local.endpoints| && failures >= old(failures) + Skipped(oks)
      ensures
        || configs == Stored(old(configs) - {GENERIC_NAME}, local, remotes, oks)
        || (configs == Stored(old(configs), local, remotes, oks) && failures > old(failures) + Skipped(oks))
    {
      DeleteGeneric();
      ghost var base, failures0 := configs, failures;
      oks := [];
      for i := 0 to |local.endpoints|
        invariant |oks| == i && configs == Stored(base, local, remotes, oks) && failures >= failures0 + Skipped(oks)
      {
        var e := local.endpoints[i];
        var neighbors, intra, inter := BuildNeighborsForNode(topology, e.ip, local, remotes);
        var raw := None;
        if vtepCidr != "" {
          var text := RawConfig(localAsn, vtepCidr, neighbors);
          raw := Some(text);
        }
        var ok, kept := ReconcileNode(ConfigName(e.node), NodeConfig(e.node, localAsn, neighbors, raw));
        SkippedGrows(oks, kept);
        assert (oks + [kept])[..i] == oks;
        oks := oks + [kept];
      }
    }

    // With distinct node names each stored node has the configuration that its own
    // neighbour list asks for, and every other configuration is as before.
    lemma StoredPerNode(
      base: map<string, NodeConfig>, local: Cluster, remotes: seq<Cluster>, oks: seq<bool>)
      requires |oks| <= |local.endpoints|
      requires forall i, j :: 0 <= i < j < |local.endpoints| ==> local.endpoints[i].node != local.endpoints[j].node
      ensures var after := Stored(base, local, remotes, oks);
        && (forall i :: 0 <= i < |oks| && oks[i] ==>
              var name := ConfigName(local.endpoints[i].node);
              name in after && after[name] == Desired(local.endpoints[i], local, remotes))
        && (forall name :: (forall i :: 0 <= i < |oks| && oks[i] ==> name != ConfigName(local.endpoints[i].node)) ==>
              (name in after <==> name in base) && (name in base ==> after[name] == base[name]))
    {
      var wanted := Wanted(local, remotes);
      forall i, j | 0 <= i < j < |wanted| ensures wanted[i].0 != wanted[j].0 {
        ConfigNamesDiffer(local.endpoints[i].node, local.endpoints[j].node);
      }
      WrittenPerName(base, wanted, oks);
      assert forall i :: 0 <= i < |wanted| ==>
        wanted[i] == (ConfigName(local.endpoints[i].node), Desired(local.endpoints[i], local, remotes));
    }

    // What all agents see, and this agent's view of it.
    ghost predicate Sees(clusters: seq<Cluster>, c: nat, local: Cluster, remotes: seq<Cluster>)
    {
      && WellNamed(clusters) && c < |clusters| && local == clusters[c] && remotes == Remotes(clusters, local.id)
      && forall i, j :: 0 <= i < j < |local.endpoints| ==> local.endpoints[i].node != local.endpoints[j].node
    }

    // The configurations that a pass stores make the mesh: a stored node has this
    // cluster's ASN and a neighbour for exactly the nodes it should list, each with
    // its own cluster's ASN, and in a full mesh every other node once.
    lemma StoredIsMesh(
      base: map<string, NodeConfig>, clusters: seq<Cluster>, c: nat, local: Cluster, remotes: seq<Cluster>,
      oks: seq<bool>, i: nat)
      requires Sees(clusters, c, local, remotes)
      requires i < |oks| <= |local.endpoints| && oks[i]
      ensures var after, name, x := Stored(base, local, remotes, oks), "skynet-node-" + local.endpoints[i].node, Node(c, i);
        && name in after
        && after[name].node == local.endpoints[i].node && after[name].asn == localAsn
        && (forall n :: n in after[name].neighbors <==>
              exists y :: IsNode(clusters, y) && ShouldList(topology, clusters, x, y) && n == EntryFor(clusters, x, y))
        && (topology == FullMesh ==> InMeshOnce(clusters, x, after[name].neighbors))
    {
      var e := local.endpoints[i];
      StoredPerNode(base, local, remotes, oks);
      assert Desired(e, local, remotes).neighbors == ListOf(topology, clusters, Node(c, i));
      ListsExactly(topology, clusters, Node(c, i));
      if topology == FullMesh {
        FullMeshAddresses(clusters, Node(c, i));
      }
    }

    // Every other node's address once, the node's own never, and nothing else.
    ghost predicate InMeshOnce(clusters: seq<Cluster>, x: Node, neighbors: seq<Neighbor>)
      requires IsNode(clusters, x)
    {
      && |neighbors| == |AllIps(clusters)| - 1
      && forall y :: IsNode(clusters, y) ==>
           multiset(Addresses(neighbors))[At(clusters, y).ip] == if y == x then 0 else 1
    }

    // The raw text of a stored node, if there is a VTEP CIDR, removes the policies
    // of exactly the neighbours stored beside it; without one there is no raw text.
    lemma StoredRawReadsBack(
      base: map<string, NodeConfig>, local: Cluster, remotes: seq<Cluster>, oks: seq<bool>, i: nat)
      requires i < |oks| <= |local.endpoints| && oks[i]
      requires forall j, k :: 0 <= j < k < |local.endpoints| ==> local.endpoints[j].node != local.endpoints[k].node
      ensures ConfigName(local.endpoints[i].node) in Stored(base, local, remotes, oks)
      ensures var config := Stored(base, local, remotes, oks)[ConfigName(local.endpoints[i].node)];
        && (vtepCidr == "" ==> config.raw == None)
        && (vtepCidr != "" && '\n' !in vtepCidr && CleanAddresses(config.neighbors) ==>
              config.raw.Some? && ReadRaw(config.raw.value) == Removals(config.neighbors))
    {
      var e := local.endpoints[i];
      StoredPerNode(base, local, remotes, oks);
      var ns := Desired(e, local, remotes).neighbors;
      if vtepCidr != "" && '\n' !in vtepCidr && CleanAddresses(ns) {
        RawConfigReadsBack(localAsn, vtepCidr, ns);
      }
    }

    predicate CleanAddresses(ns: seq<Neighbor>)
    {
      forall i :: 0 <= i < |ns| ==> ' ' !in ns[i].address && '\n' !in ns[i].address
    }

    // A pass without a failed request leaves every node's configuration behind.
    lemma UnfailingStoresAll(oks: seq<bool>, failures0: nat, failures1: nat)
      requires failures1 >= failures0 + Skipped(oks) && failures1 == failures0
      ensures forall i :: 0 <= i < |oks| ==> oks[i]
    {
      SkippedNone(oks);
    }
  }
}
