// pkg/agent/bgp/bgp_configurator.go: the neighbour list each node gets, and what
// the lists of all nodes of all clusters add up to.

module BgpMesh {
  import opened Finalizers

  datatype Endpoint = Endpoint(node: string, ip: string, routeReflector: bool)

  datatype Cluster = Cluster(id: string, asn: int, endpoints: seq<Endpoint>)

  datatype Neighbor = Neighbor(address: string, asn: int, multihop: bool)

  datatype Topology = FullMesh | RouteReflector

  // ------------------------------------------------------------ the builder

  function Intra(ip: string, asn: int, eps: seq<Endpoint>): seq<Neighbor>
  {
    if eps == [] then []
    else
      var e := eps[|eps| - 1];
      Intra(ip, asn, eps[..|eps| - 1]) + if e.ip == ip then [] else [Neighbor(e.ip, asn, false)]
  }

  function InterOne(topology: Topology, asn: int, eps: seq<Endpoint>): seq<Neighbor>
  {
    if eps == [] then []
    else
      var e := eps[|eps| - 1];
      InterOne(topology, asn, eps[..|eps| - 1])
        + if topology == RouteReflector && !e.routeReflector then [] else [Neighbor(e.ip, asn, true)]
  }

  function Inter(topology: Topology, remotes: seq<Cluster>): seq<Neighbor>
  {
    if remotes == [] then []
    else
      var c := remotes[|remotes| - 1];
      Inter(topology, remotes[..|remotes| - 1]) + InterOne(topology, c.asn, c.endpoints)
  }

  function Neighbors(topology: Topology, ip: string, local: Cluster, remotes: seq<Cluster>): seq<Neighbor>
  {
    Intra(ip, local.asn, local.endpoints) + Inter(topology, remotes)
  }

  // buildNeighborsForNode: one loop over the local endpoints, two nested ones
  // over the endpoints of the remote clusters.
  method BuildNeighborsForNode(topology: Topology, ip: string, local: Cluster, remotes: seq<Cluster>)
    returns (neighbors: seq<Neighbor>, intraCount: nat, interCount: nat)
    ensures neighbors == Neighbors(topology, ip, local, remotes)
    ensures intraCount == |Intra(ip, local.asn, local.endpoints)| && interCount == |Inter(topology, remotes)|
  {
    neighbors, intraCount := AddIntra(ip, local);
    neighbors, interCount := AddInter(topology, remotes, neighbors);
  }

  method AddIntra(ip: string, local: Cluster) returns (neighbors: seq<Neighbor>, count: nat)
    ensures neighbors == Intra(ip, local.asn, local.endpoints) && count == |neighbors|
  {
    neighbors, count := [], 0;
    for i := 0 to |local.endpoints|
      invariant neighbors == Intra(ip, local.asn, local.endpoints[..i]) && count == |neighbors|
    {
      var e := local.endpoints[i];
      IntraGrow(ip, local.asn, local.endpoints, i);
      if e.ip != ip {
        neighbors := neighbors + [Neighbor(e.ip, local.asn, false)];
        count := count + 1;
      }
    }
    assert local.endpoints[..|local.endpoints|] == local.endpoints;
  }

  method AddInter(topology: Topology, remotes: seq<Cluster>, own: seq<Neighbor>)
    returns (neighbors: seq<Neighbor>, count: nat)
    ensures neighbors == own + Inter(topology, remotes) && count == |Inter(topology, remotes)|
  {
    neighbors, count := own, 0;
    for j := 0 to |remotes|
      invariant neighbors == own + Inter(topology, remotes[..j]) && count == |neighbors| - |own|
    {
      var c := remotes[j];
      ghost var before := neighbors;
      for i := 0 to |c.endpoints|
        invariant neighbors == before + InterOne(topology, c.asn, c.endpoints[..i])
        invariant count == |neighbors| - |own|
      {
        var e := c.endpoints[i];
        InterOneGrow(topology, c.asn, c.endpoints, i);
        if !(topology == RouteReflector && !e.routeReflector) {
          Regroup(before, InterOne(topology, c.asn, c.endpoints[..i]), [Neighbor(e.ip, c.asn, true)]);
          neighbors := neighbors + [Neighbor(e.ip, c.asn, true)];
          count := count + 1;
        }
      }
      assert c.endpoints[..|c.endpoints|] == c.endpoints;
      InterGrow(topology, remotes, j);
      Regroup(own, Inter(topology, remotes[..j]), InterOne(topology, c.asn, c.endpoints));
    }
    assert remotes[..|remotes|] == remotes;
  }

  lemma Regroup(a: seq<Neighbor>, b: seq<Neighbor>, c: seq<Neighbor>)
    ensures a + b + c == a + (b + c)
  {
  }

  // One more element of each loop.
  lemma IntraGrow(ip: string, asn: int, eps: seq<Endpoint>, i: nat)
    requires i < |eps|
    ensures Intra(ip, asn, eps[..i + 1])
         == Intra(ip, asn, eps[..i]) + if eps[i].ip == ip then [] else [Neighbor(eps[i].ip, asn, false)]
  {
    assert eps[..i + 1][..i] == eps[..i];
  }

  lemma InterOneGrow(topology: Topology, asn: int, eps: seq<Endpoint>, i: nat)
    requires i < |eps|
    ensures InterOne(topology, asn, eps[..i + 1])
         == InterOne(topology, asn, eps[..i])
            + if topology == RouteReflector && !eps[i].routeReflector then [] else [Neighbor(eps[i].ip, asn, true)]
  {
    assert eps[..i + 1][..i] == eps[..i];
  }

  lemma InterGrow(topology: Topology, remotes: seq<Cluster>, j: nat)
    requires j < |remotes|
    ensures Inter(topology, remotes[..j + 1])
         == Inter(topology, remotes[..j]) + InterOne(topology, remotes[j].asn, remotes[j].endpoints)
  {
    assert remotes[..j + 1][..j] == remotes[..j];
  }

  // getRemoteClustersFromLocal: every listed cluster but the local one.
  function Remotes(clusters: seq<Cluster>, id: string): seq<Cluster>
  {
    if clusters == [] then []
    else Remotes(clusters[..|clusters| - 1], id) + if clusters[|clusters| - 1].id == id then [] else [clusters[|clusters| - 1]]
  }

  method GetRemoteClusters(clusters: seq<Cluster>, id: string) returns (remotes: seq<Cluster>)
    ensures remotes == Remotes(clusters, id)
    ensures forall c :: c in remotes <==> c in clusters && c.id != id
  {
    remotes := [];
    for i := 0 to |clusters|
      invariant remotes == Remotes(clusters[..i], id)
    {
      assert clusters[..i + 1][..i] == clusters[..i];
      if clusters[i].id != id {
        remotes := remotes + [clusters[i]];
      }
    }
    assert clusters[..|clusters|] == clusters;
    RemotesMembers(clusters, id);
  }

  lemma {:induction false} RemotesMembers(clusters: seq<Cluster>, id: string)
    ensures forall c :: c in Remotes(clusters, id) <==> c in clusters && c.id != id
  {
    if clusters != [] {
      var init := clusters[..|clusters| - 1];
      RemotesMembers(init, id);
      assert clusters == init + [clusters[|clusters| - 1]];
    }
  }

  // ------------------------------------------------------------ the whole mesh

  // A node is a cluster index and an endpoint index.
  datatype Node = Node(cluster: nat, endpoint: nat)

  predicate IsNode(clusters: seq<Cluster>, x: Node)
  {
    x.cluster < |clusters| && x.endpoint < |clusters[x.cluster].endpoints|
  }

  function At(clusters: seq<Cluster>, x: Node): Endpoint
    requires IsNode(clusters, x)
  {
    clusters[x.cluster].endpoints[x.endpoint]
  }

  // The list that the agent of x's cluster builds for x from the records all agents see.
  function ListOf(topology: Topology, clusters: seq<Cluster>, x: Node): seq<Neighbor>
    requires IsNode(clusters, x)
  {
    Neighbors(topology, At(clusters, x).ip, clusters[x.cluster], Remotes(clusters, clusters[x.cluster].id))
  }

  function Ips(eps: seq<Endpoint>): seq<string>
  {
    if eps == [] then [] else Ips(eps[..|eps| - 1]) + [eps[|eps| - 1].ip]
  }

  function AllIps(clusters: seq<Cluster>): seq<string>
  {
    if clusters == [] then [] else AllIps(clusters[..|clusters| - 1]) + Ips(clusters[|clusters| - 1].endpoints)
  }

  function Addresses(ns: seq<Neighbor>): seq<string>
  {
    if ns == [] then [] else Addresses(ns[..|ns| - 1]) + [ns[|ns| - 1].address]
  }

  // Distinct cluster IDs and globally distinct peer addresses.
  ghost predicate WellNamed(clusters: seq<Cluster>)
  {
    && (forall i, j :: 0 <= i < j < |clusters| ==> clusters[i].id != clusters[j].id)
    && (forall x, y :: IsNode(clusters, x) && IsNode(clusters, y) && At(clusters, x).ip == At(clusters, y).ip ==> x == y)
  }

  lemma {:induction false} IpsAt(eps: seq<Endpoint>)
    ensures |Ips(eps)| == |eps| && forall i :: 0 <= i < |eps| ==> Ips(eps)[i] == eps[i].ip
  {
    if eps != [] {
      IpsAt(eps[..|eps| - 1]);
    }
  }

  lemma {:induction false} AddressesAt(ns: seq<Neighbor>)
    ensures |Addresses(ns)| == |ns| && forall i :: 0 <= i < |ns| ==> Addresses(ns)[i] == ns[i].address
  {
    if ns != [] {
      AddressesAt(ns[..|ns| - 1]);
    }
  }

  lemma {:induction false} AddressesConcat(a: seq<Neighbor>, b: seq<Neighbor>)
    ensures Addresses(a + b) == Addresses(a) + Addresses(b)
  {
    if b == [] {
      assert a + b == a;
    } else {
      AddressesConcat(a, b[..|b| - 1]);
      assert (a + b)[..|a + b| - 1] == a + b[..|b| - 1];
    }
  }

  // The local loop drops exactly the node itself ...
  lemma {:induction false} IntraAddresses(ip: string, asn: int, eps: seq<Endpoint>)
    ensures Addresses(Intra(ip, asn, eps)) == Without(Ips(eps), ip)
    ensures forall n :: n in Intra(ip, asn, eps) ==> n.asn == asn && !n.multihop && n.address != ip && n.address in Ips(eps)
  {
    if eps != [] {
      var init, e := eps[..|eps| - 1], eps[|eps| - 1];
      IntraAddresses(ip, asn, init);
      assert Ips(eps)[..|Ips(eps)| - 1] == Ips(init);
      AddressesConcat(Intra(ip, asn, init), if e.ip == ip then [] else [Neighbor(e.ip, asn, false)]);
    }
  }

  // ... and in a full mesh the remote loops drop nobody.
  lemma {:induction false} InterOneAddresses(asn: int, eps: seq<Endpoint>)
    ensures Addresses(InterOne(FullMesh, asn, eps)) == Ips(eps)
  {
    if eps != [] {
      var init, e := eps[..|eps| - 1], eps[|eps| - 1];
      InterOneAddresses(asn, init);
      AddressesConcat(InterOne(FullMesh, asn, init), [Neighbor(e.ip, asn, true)]);
      assert [Neighbor(e.ip, asn, true)][..0] == [];
    }
  }

  lemma {:induction false} InterAddresses(remotes: seq<Cluster>)
    ensures Addresses(Inter(FullMesh, remotes)) == AllIps(remotes)
  {
    if remotes != [] {
      var init, c := remotes[..|remotes| - 1], remotes[|remotes| - 1];
      InterAddresses(init);
      InterOneAddresses(c.asn, c.endpoints);
      AddressesConcat(Inter(FullMesh, init), InterOne(FullMesh, c.asn, c.endpoints));
    }
  }

  // With distinct IDs the clusters are the local one and its remotes.
  lemma {:induction false} SplitOffLocal(clusters: seq<Cluster>, i: nat)
    requires i < |clusters| && forall j, k :: 0 <= j < k < |clusters| ==> clusters[j].id != clusters[k].id
    ensures multiset(AllIps(clusters))
         == multiset(Ips(clusters[i].endpoints)) + multiset(AllIps(Remotes(clusters, clusters[i].id)))
  {
    var init, last := clusters[..|clusters| - 1], clusters[|clusters| - 1];
    var id := clusters[i].id;
    assert clusters == init + [last];
    if i == |clusters| - 1 {
      NothingRemoved(init, id);
      assert Remotes(clusters, id) == init;
      AllIpsAppend(init, last);
    } else {
      SplitOffLocal(init, i);
      assert init[i] == clusters[i];
      assert Remotes(clusters, id) == Remotes(init, id) + [last];
      SplitStep(init, last, multiset(Ips(clusters[i].endpoints)), Remotes(init, id));
    }
  }

  lemma SplitStep(init: seq<Cluster>, last: Cluster, own: multiset<string>, others: seq<Cluster>)
    requires multiset(AllIps(init)) == own + multiset(AllIps(others))
    ensures multiset(AllIps(init + [last])) == own + multiset(AllIps(others + [last]))
  {
    AllIpsAppend(init, last);
    AllIpsAppend(others, last);
  }

  lemma AllIpsAppend(clusters: seq<Cluster>, c: Cluster)
    ensures multiset(AllIps(clusters + [c])) == multiset(AllIps(clusters)) + multiset(Ips(c.endpoints))
  {
    assert (clusters + [c])[..|clusters|] == clusters;
  }

  lemma {:induction false} NothingRemoved(clusters: seq<Cluster>, id: string)
    requires forall j :: 0 <= j < |clusters| ==> clusters[j].id != id
    ensures Remotes(clusters, id) == clusters
  {
    if clusters != [] {
      var init, last := clusters[..|clusters| - 1], clusters[|clusters| - 1];
      NothingRemoved(init, id);
      assert Remotes(clusters, id) == init + [last];
    }
  }

  lemma {:induction false} WithoutMultiset(s: seq<string>, x: string)
    requires NoDuplicates(s) && x in s
    ensures multiset(Without(s, x)) == multiset(s) - multiset{x}
  {
    var init, last := s[..|s| - 1], s[|s| - 1];
    assert s == init + [last];
    if last == x {
      WithoutMembers(init, x);
    } else {
      WithoutMultiset(init, x);
    }
  }

  // What the list of a node is made of, in any topology: neighbours of its own
  // cluster and neighbours of others, each with its cluster's ASN.
  lemma {:induction false} InterMembers(topology: Topology, remotes: seq<Cluster>)
    ensures forall n :: n in Inter(topology, remotes) <==>
      exists c, e :: c in remotes && e in c.endpoints && (topology == FullMesh || e.routeReflector)
        && n == Neighbor(e.ip, c.asn, true)
  {
    if remotes != [] {
      var init, c := remotes[..|remotes| - 1], remotes[|remotes| - 1];
      InterMembers(topology, init);
      InterOneMembers(topology, c.asn, c.endpoints);
      assert remotes == init + [c];
    }
  }

  lemma {:induction false} InterOneMembers(topology: Topology, asn: int, eps: seq<Endpoint>)
    ensures forall n :: n in InterOne(topology, asn, eps) <==>
      exists e :: e in eps && (topology == FullMesh || e.routeReflector) && n == Neighbor(e.ip, asn, true)
  {
    if eps != [] {
      var init := eps[..|eps| - 1];
      InterOneMembers(topology, asn, init);
      assert eps == init + [eps[|eps| - 1]];
    }
  }

  lemma {:induction false} IntraMembers(ip: string, asn: int, eps: seq<Endpoint>)
    ensures forall n :: n in Intra(ip, asn, eps) <==> exists e :: e in eps && e.ip != ip && n == Neighbor(e.ip, asn, false)
  {
    if eps != [] {
      var init := eps[..|eps| - 1];
      IntraMembers(ip, asn, init);
      assert eps == init + [eps[|eps| - 1]];
    }
  }

  // The entry node x would have for node y.
  function EntryFor(clusters: seq<Cluster>, x: Node, y: Node): Neighbor
    requires IsNode(clusters, x) && IsNode(clusters, y)
  {
    Neighbor(At(clusters, y).ip, clusters[y.cluster].asn, x.cluster != y.cluster)
  }

  // Exactly whom a node lists, entry by entry, in both topologies.
  predicate ShouldList(topology: Topology, clusters: seq<Cluster>, x: Node, y: Node)
    requires IsNode(clusters, x) && IsNode(clusters, y)
  {
    if x.cluster == y.cluster then x != y
    else topology == FullMesh || At(clusters, y).routeReflector
  }

  lemma ListsExactly(topology: Topology, clusters: seq<Cluster>, x: Node)
    requires WellNamed(clusters) && IsNode(clusters, x)
    ensures forall n :: n in ListOf(topology, clusters, x) <==>
      exists y :: IsNode(clusters, y) && ShouldList(topology, clusters, x, y) && n == EntryFor(clusters, x, y)
  {
    var local, ip := clusters[x.cluster], At(clusters, x).ip;
    var remotes := Remotes(clusters, local.id);
    IntraMembers(ip, local.asn, local.endpoints);
    InterMembers(topology, remotes);
    RemotesMembers(clusters, local.id);
    forall n | n in ListOf(topology, clusters, x)
      ensures exists y :: IsNode(clusters, y) && ShouldList(topology, clusters, x, y) && n == EntryFor(clusters, x, y)
    {
      if n in Intra(ip, local.asn, local.endpoints) {
        var e :| e in local.endpoints && e.ip != ip && n == Neighbor(e.ip, local.asn, false);
        var b :| 0 <= b < |local.endpoints| && local.endpoints[b] == e;
        var y := Node(x.cluster, b);
        assert IsNode(clusters, y) && ShouldList(topology, clusters, x, y) && n == EntryFor(clusters, x, y);
      } else {
        var c, e :| c in remotes && e in c.endpoints && (topology == FullMesh || e.routeReflector)
          && n == Neighbor(e.ip, c.asn, true);
        var k :| 0 <= k < |clusters| && clusters[k] == c;
        var b :| 0 <= b < |c.endpoints| && c.endpoints[b] == e;
        var y := Node(k, b);
        assert IsNode(clusters, y) && ShouldList(topology, clusters, x, y) && n == EntryFor(clusters, x, y);
      }
    }
    forall y | IsNode(clusters, y) && ShouldList(topology, clusters, x, y)
      ensures EntryFor(clusters, x, y) in ListOf(topology, clusters, x)
    {
      var e := At(clusters, y);
      if y.cluster == x.cluster {
        assert e in local.endpoints && e.ip != ip;
        assert EntryFor(clusters, x, y) in Intra(ip, local.asn, local.endpoints);
      } else {
        var c := clusters[y.cluster];
        assert c in remotes && e in c.endpoints;
        assert EntryFor(clusters, x, y) in Inter(topology, remotes);
      }
    }
  }

  // ------------------------------------------------------------ full mesh

  lemma OwnIpsDistinct(clusters: seq<Cluster>, x: Node)
    requires WellNamed(clusters) && IsNode(clusters, x)
    ensures NoDuplicates(Ips(clusters[x.cluster].endpoints)) && At(clusters, x).ip in Ips(clusters[x.cluster].endpoints)
  {
    var eps := clusters[x.cluster].endpoints;
    IpsAt(eps);
    assert Ips(eps)[x.endpoint] == At(clusters, x).ip;
    forall i, j | 0 <= i < j < |eps| ensures Ips(eps)[i] != Ips(eps)[j] {
      assert At(clusters, Node(x.cluster, i)).ip == eps[i].ip && At(clusters, Node(x.cluster, j)).ip == eps[j].ip;
    }
  }

  lemma FullMeshList(clusters: seq<Cluster>, x: Node)
    requires IsNode(clusters, x)
    ensures var local := clusters[x.cluster];
      Addresses(ListOf(FullMesh, clusters, x))
        == Without(Ips(local.endpoints), At(clusters, x).ip) + AllIps(Remotes(clusters, local.id))
  {
    var local, ip := clusters[x.cluster], At(clusters, x).ip;
    var remotes := Remotes(clusters, local.id);
    IntraAddresses(ip, local.asn, local.endpoints);
    InterAddresses(remotes);
    AddressesConcat(Intra(ip, local.asn, local.endpoints), Inter(FullMesh, remotes));
  }

  lemma RemoveThenAdd(a: multiset<string>, b: multiset<string>, x: string)
    requires x in a
    ensures a - multiset{x} + b == a + b - multiset{x}
  {
  }

  lemma FullMeshMultiset(clusters: seq<Cluster>, x: Node)
    requires WellNamed(clusters) && IsNode(clusters, x)
    ensures multiset(Addresses(ListOf(FullMesh, clusters, x))) == multiset(AllIps(clusters)) - multiset{At(clusters, x).ip}
    ensures At(clusters, x).ip in multiset(AllIps(clusters))
  {
    var local, ip := clusters[x.cluster], At(clusters, x).ip;
    var own, others := Ips(local.endpoints), AllIps(Remotes(clusters, local.id));
    OwnIpsDistinct(clusters, x);
    FullMeshList(clusters, x);
    SplitOffLocal(clusters, x.cluster);
    WithoutMultiset(own, ip);
    RemoveThenAdd(multiset(own), multiset(others), ip);
  }

  // Every node's list holds every other node's address exactly once, never its
  // own, and nothing else: its length is the number of nodes minus one.
  lemma FullMeshAddresses(clusters: seq<Cluster>, x: Node)
    requires WellNamed(clusters) && IsNode(clusters, x)
    ensures multiset(Addresses(ListOf(FullMesh, clusters, x))) == multiset(AllIps(clusters)) - multiset{At(clusters, x).ip}
    ensures |ListOf(FullMesh, clusters, x)| == |AllIps(clusters)| - 1
    ensures forall y :: IsNode(clusters, y) ==>
      multiset(Addresses(ListOf(FullMesh, clusters, x)))[At(clusters, y).ip] == if y == x then 0 else 1
  {
    var list := ListOf(FullMesh, clusters, x);
    FullMeshMultiset(clusters, x);
    AddressesAt(list);
    AllIpsOnce(clusters);
    assert |multiset(Addresses(list))| == |list|;
    assert |multiset(AllIps(clusters))| == |AllIps(clusters)|;
  }

  lemma AllIpsOnce(clusters: seq<Cluster>)
    requires WellNamed(clusters)
    ensures forall y :: IsNode(clusters, y) ==> multiset(AllIps(clusters))[At(clusters, y).ip] == 1
  {
    forall y | IsNode(clusters, y) ensures multiset(AllIps(clusters))[At(clusters, y).ip] == 1 {
      CountIp(clusters, y, |clusters|);
      assert clusters[..|clusters|] == clusters;
    }
  }

  lemma {:induction false} CountIp(clusters: seq<Cluster>, y: Node, n: nat)
    requires WellNamed(clusters) && IsNode(clusters, y) && n <= |clusters|
    ensures multiset(AllIps(clusters[..n]))[At(clusters, y).ip] == if y.cluster < n then 1 else 0
  {
    if n > 0 {
      CountIp(clusters, y, n - 1);
      CountIpOf(clusters, y, n - 1);
      AllIpsGrow(clusters, n - 1);
      assert multiset(AllIps(clusters[..n])) == multiset(AllIps(clusters[..n - 1])) + multiset(Ips(clusters[n - 1].endpoints));
    }
  }

  lemma AllIpsGrow(clusters: seq<Cluster>, i: nat)
    requires i < |clusters|
    ensures AllIps(clusters[..i + 1]) == AllIps(clusters[..i]) + Ips(clusters[i].endpoints)
  {
    assert clusters[..i + 1][..i] == clusters[..i];
  }

  lemma CountIpOf(clusters: seq<Cluster>, y: Node, c: nat)
    requires WellNamed(clusters) && IsNode(clusters, y) && c < |clusters|
    ensures multiset(Ips(clusters[c].endpoints))[At(clusters, y).ip] == if y.cluster == c then 1 else 0
  {
    var eps, ip := clusters[c].endpoints, At(clusters, y).ip;
    var k := if y.cluster == c then y.endpoint else -1;
    forall i | 0 <= i < |eps| ensures eps[i].ip == ip <==> i == k {
      assert At(clusters, Node(c, i)).ip == eps[i].ip;
    }
    CountIpIn(eps, ip, k, |eps|);
    assert eps[..|eps|] == eps;
  }

  // An address that only the endpoint at k has (none of them if k is -1).
  lemma {:induction false} CountIpIn(eps: seq<Endpoint>, ip: string, k: int, m: nat)
    requires m <= |eps| && forall i :: 0 <= i < |eps| ==> (eps[i].ip == ip <==> i == k)
    ensures multiset(Ips(eps[..m]))[ip] == if 0 <= k < m then 1 else 0
  {
    if m > 0 {
      CountIpIn(eps, ip, k, m - 1);
      IpsGrow(eps, m - 1);
      assert multiset(Ips(eps[..m])) == multiset(Ips(eps[..m - 1])) + multiset{eps[m - 1].ip};
    }
  }

  lemma IpsGrow(eps: seq<Endpoint>, i: nat)
    requires i < |eps|
    ensures Ips(eps[..i + 1]) == Ips(eps[..i]) + [eps[i].ip]
  {
    assert eps[..i + 1][..i] == eps[..i];
  }

  // ------------------------------------------------------------ sessions

  // x lists y.
  predicate Lists(topology: Topology, clusters: seq<Cluster>, x: Node, y: Node)
    requires IsNode(clusters, x) && IsNode(clusters, y)
  {
    EntryFor(clusters, x, y) in ListOf(topology, clusters, x)
  }

  // A session comes up when both ends list each other.
  predicate Session(topology: Topology, clusters: seq<Cluster>, x: Node, y: Node)
  {
    && IsNode(clusters, x) && IsNode(clusters, y)
    && Lists(topology, clusters, x, y) && Lists(topology, clusters, y, x)
  }

  // Full mesh: a session between any two nodes. Route reflectors: between the
  // nodes of one cluster, and between nodes of different clusters exactly when
  // both are reflectors, although any node lists remote reflectors.
  lemma SessionsExactly(topology: Topology, clusters: seq<Cluster>, x: Node, y: Node)
    requires WellNamed(clusters) && IsNode(clusters, x) && IsNode(clusters, y)
    ensures Lists(topology, clusters, x, y) <==> ShouldList(topology, clusters, x, y)
    ensures Session(topology, clusters, x, y) <==>
      if x.cluster == y.cluster then x != y
      else topology == FullMesh || (At(clusters, x).routeReflector && At(clusters, y).routeReflector)
  {
    ListsExactly(topology, clusters, x);
    ListsExactly(topology, clusters, y);
    ListedOnlyAsItself(topology, clusters, x, y);
    ListedOnlyAsItself(topology, clusters, y, x);
  }

  lemma ListedOnlyAsItself(topology: Topology, clusters: seq<Cluster>, x: Node, y: Node)
    requires WellNamed(clusters) && IsNode(clusters, x) && IsNode(clusters, y)
    ensures Lists(topology, clusters, x, y) <==> ShouldList(topology, clusters, x, y)
  {
    ListsExactly(topology, clusters, x);
    if Lists(topology, clusters, x, y) {
      var z :| IsNode(clusters, z) && ShouldList(topology, clusters, x, z)
        && EntryFor(clusters, x, y) == EntryFor(clusters, x, z);
      assert At(clusters, y).ip == At(clusters, z).ip;
    }
  }

  predicate IsPath(topology: Topology, clusters: seq<Cluster>, path: seq<Node>)
  {
    && path != []
    && (forall i :: 0 <= i < |path| ==> IsNode(clusters, path[i]))
    && (forall i :: 0 <= i < |path| - 1 ==> Session(topology, clusters, path[i], path[i + 1]))
  }

  // Within a cluster a node reaches its reflector in at most one session.
  function Hop(x: Node, y: Node): seq<Node>
  {
    if x == y then [x] else [x, y]
  }

  lemma HopIsPath(clusters: seq<Cluster>, x: Node, y: Node)
    requires WellNamed(clusters) && IsNode(clusters, x) && IsNode(clusters, y) && x.cluster == y.cluster
    ensures IsPath(RouteReflector, clusters, Hop(x, y))
  {
    SessionsExactly(RouteReflector, clusters, x, y);
  }

  lemma PathConcat(topology: Topology, clusters: seq<Cluster>, a: seq<Node>, b: seq<Node>)
    requires IsPath(topology, clusters, a) && IsPath(topology, clusters, b)
    requires Session(topology, clusters, a[|a| - 1], b[0])
    ensures IsPath(topology, clusters, a + b)
  {
    var path := a + b;
    forall i | 0 <= i < |path| - 1 ensures Session(topology, clusters, path[i], path[i + 1]) {
      if i < |a| - 1 {
        assert path[i] == a[i] && path[i + 1] == a[i + 1];
      } else if i == |a| - 1 {
        assert path[i] == a[i] && path[i + 1] == b[0];
      } else {
        assert path[i] == b[i - |a|] && path[i + 1] == b[i - |a| + 1];
      }
    }
  }

  // If the clusters of two nodes have a route reflector each, the nodes are
  // connected by at most three sessions.
  lemma ReflectorsConnect(clusters: seq<Cluster>, x: Node, y: Node, rx: Node, ry: Node) returns (path: seq<Node>)
    requires WellNamed(clusters) && IsNode(clusters, x) && IsNode(clusters, y)
    requires IsNode(clusters, rx) && rx.cluster == x.cluster && At(clusters, rx).routeReflector
    requires IsNode(clusters, ry) && ry.cluster == y.cluster && At(clusters, ry).routeReflector
    ensures IsPath(RouteReflector, clusters, path) && 1 <= |path| <= 4
    ensures path[0] == x && path[|path| - 1] == y
  {
    if x.cluster == y.cluster {
      path := Hop(x, y);
      HopIsPath(clusters, x, y);
    } else {
      var a, b := Hop(x, rx), Hop(ry, y);
      path := a + b;
      HopIsPath(clusters, x, rx);
      HopIsPath(clusters, ry, y);
      SessionsExactly(RouteReflector, clusters, rx, ry);
      assert a[|a| - 1] == rx && b[0] == ry && a[0] == x && b[|b| - 1] == y;
      PathConcat(RouteReflector, clusters, a, b);
    }
  }

  // Conversely a cluster without a reflector is cut off: no path leaves it.
  lemma {:induction false} NoReflectorIsolates(clusters: seq<Cluster>, path: seq<Node>)
    requires WellNamed(clusters) && IsPath(RouteReflector, clusters, path)
    requires forall r :: IsNode(clusters, r) && r.cluster == path[0].cluster ==> !At(clusters, r).routeReflector
    ensures path[|path| - 1].cluster == path[0].cluster
  {
    if |path| > 1 {
      var init := path[..|path| - 1];
      NoReflectorIsolates(clusters, init);
      assert Session(RouteReflector, clusters, path[|path| - 2], path[|path| - 1]);
      SessionsExactly(RouteReflector, clusters, path[|path| - 2], path[|path| - 1]);
    }
  }

  ghost predicate Connected(clusters: seq<Cluster>, x: Node, y: Node)
  {
    exists path :: IsPath(RouteReflector, clusters, path) && path[0] == x && path[|path| - 1] == y
  }

  ghost predicate HasReflector(clusters: seq<Cluster>, c: nat)
    requires c < |clusters|
  {
    exists r :: IsNode(clusters, r) && r.cluster == c && At(clusters, r).routeReflector
  }

  // With route reflectors two nodes of different clusters are connected exactly
  // when both clusters have a reflector.
  lemma ConnectedIffReflectors(clusters: seq<Cluster>, x: Node, y: Node)
    requires WellNamed(clusters) && IsNode(clusters, x) && IsNode(clusters, y) && x.cluster != y.cluster
    ensures Connected(clusters, x, y) <==> HasReflector(clusters, x.cluster) && HasReflector(clusters, y.cluster)
  {
    if HasReflector(clusters, x.cluster) && HasReflector(clusters, y.cluster) {
      var rx :| IsNode(clusters, rx) && rx.cluster == x.cluster && At(clusters, rx).routeReflector;
      var ry :| IsNode(clusters, ry) && ry.cluster == y.cluster && At(clusters, ry).routeReflector;
      var path := ReflectorsConnect(clusters, x, y, rx, ry);
    }
    if Connected(clusters, x, y) {
      var path :| IsPath(RouteReflector, clusters, path) && path[0] == x && path[|path| - 1] == y;
      if !HasReflector(clusters, x.cluster) {
        NoReflectorIsolates(clusters, path);
      } else if !HasReflector(clusters, y.cluster) {
        Entered(clusters, path);
      }
    }
  }

  // A path that ends in a cluster without a reflector began there.
  lemma {:induction false} Entered(clusters: seq<Cluster>, path: seq<Node>)
    requires WellNamed(clusters) && IsPath(RouteReflector, clusters, path)
    requires !HasReflector(clusters, path[|path| - 1].cluster)
    ensures path[0].cluster == path[|path| - 1].cluster
  {
    if |path| > 1 {
      assert Session(RouteReflector, clusters, path[|path| - 2], path[|path| - 1]);
      SessionsExactly(RouteReflector, clusters, path[|path| - 2], path[|path| - 1]);
      Entered(clusters, path[..|path| - 1]);
    }
  }
}
