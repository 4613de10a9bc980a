// pkg/agent/cudn/cudn_integrator.go: EVPN configuration in
// ClusterUserDefinedNetworks, patched into a user's or created by SkyNet.

module Cudn {
  import opened Wrappers
  import opened MergePatch
  import opened BrokerStore

  const NETWORK := ["spec", "network"]
  const TRANSPORT := ["spec", "network", "transport"]
  const EVPN := ["spec", "network", "evpn"]

  // unstructured.NestedString and NestedInt64: a missing or differently typed
  // value counts as not found, and the integer then reads as 0.
  function NestedString(doc: Json, path: seq<string>): Option<string>
  {
    match Lookup(doc, path)
    case Some(JStr(s)) => Some(s)
    case _ => None
  }

  function NestedInt(doc: Json, path: seq<string>): int
  {
    match Lookup(doc, path)
    case Some(JNum(n)) => n
    case _ => 0
  }

  // uint32(v) of an int64 keeps the low 32 bits.
  function Uint32(v: int): int
  {
    v % 0x1_0000_0000
  }

  datatype CudnError = NotFound | NoNetwork | OtherTransport | NoTopology | TopologyMismatch | NotEvpn | ApiFailure

  // validateCUDN.
  function Validate(cudn: Json, mcn: McnSpec): (r: Option<CudnError>)
    ensures r != Some(ApiFailure)
  {
    var network := Lookup(cudn, NETWORK);
    if !(network.Some? && network.value.JObj?) then Some(NoNetwork)
    else
      var transport := NestedString(cudn, TRANSPORT);
      if transport.Some? && transport.value != "" && transport.value != "EVPN" then Some(OtherTransport)
      else
        match NestedString(network.value, ["topology"])
        case None => Some(NoTopology)
        case Some(topology) => if topology != mcn.topology then Some(TopologyMismatch) else None
  }

  function VrfBlock(mcn: McnSpec): Json
  {
    JObj(map["vni" := JNum(mcn.vni), "routeTarget" := JStr(mcn.routeTarget)])
  }

  // buildEVPNConfigFromTopology.
  function EvpnConfig(vtep: string, mcn: McnSpec): Json
  {
    if mcn.topology == "Layer3" then JObj(map["vtep" := JStr(vtep), "ipVRF" := VrfBlock(mcn)])
    else if mcn.topology == "Layer2" then JObj(map["vtep" := JStr(vtep), "macVRF" := VrfBlock(mcn)])
    else JObj(map["vtep" := JStr(vtep)])
  }

  function EvpnPatch(vtep: string, mcn: McnSpec): Json
  {
    JObj(map["spec" := JObj(map["network" := JObj(map["transport" := JStr("EVPN"), "evpn" := EvpnConfig(vtep, mcn)])])])
  }

  // The test that skips the patch. It looks at ipVRF only, whatever the topology,
  // and compares the VNI after truncation to 32 bits.
  predicate AlreadyMatches(cudn: Json, mcn: McnSpec)
  {
    && NestedString(cudn, TRANSPORT) == Some("EVPN")
    && Uint32(NestedInt(cudn, EVPN + ["ipVRF", "vni"])) == mcn.vni
    && NestedString(cudn, EVPN + ["ipVRF", "routeTarget"]).GetOr("") == mcn.routeTarget
  }

  // PatchCUDNWithEVPN on a CUDN that validates.
  function Patched(cudn: Json, vtep: string, mcn: McnSpec): Json
  {
    if AlreadyMatches(cudn, mcn) then cudn else MergePatch.Apply(cudn, EvpnPatch(vtep, mcn))
  }

  // ------------------------------------------------------------ what a patch does

  // Neither path leads to the other.
  predicate Unrelated(p: seq<string>, q: seq<string>)
  {
    !(p <= q) && !(q <= p)
  }

  lemma SilentIffUnrelated(vtep: string, mcn: McnSpec, path: seq<string>)
    requires Unrelated(path, TRANSPORT) && Unrelated(path, EVPN)
    ensures Silent(EvpnPatch(vtep, mcn), path)
  {
    if path[0] == "spec" {
      var p1 := path[1..];
      assert path == ["spec"] + p1;
      assert p1 != [];
      if p1[0] == "network" {
        var p2 := p1[1..];
        assert path == ["spec", "network"] + p2;
        assert p2 != [];
        assert p2[0] != "transport" && p2[0] != "evpn" by {
          assert path[..3] == ["spec", "network", p2[0]];
        }
        assert Silent(JObj(map["transport" := JStr("EVPN"), "evpn" := EvpnConfig(vtep, mcn)]), p2);
      }
    }
  }

  // Frame: everything outside spec.network.transport and spec.network.evpn is
  // exactly as the user wrote it.
  lemma PatchedFrame(cudn: Json, vtep: string, mcn: McnSpec, path: seq<string>)
    requires Unrelated(path, TRANSPORT) && Unrelated(path, EVPN)
    ensures Lookup(Patched(cudn, vtep, mcn), path) == Lookup(cudn, path)
  {
    SilentIffUnrelated(vtep, mcn, path);
    MergePatch.Frame(cudn, EvpnPatch(vtep, mcn), path);
  }

  // Patching again changes nothing, for Layer2 (patched on every pass) as well.
  lemma PatchedTwice(cudn: Json, vtep: string, mcn: McnSpec)
    ensures Patched(Patched(cudn, vtep, mcn), vtep, mcn) == Patched(cudn, vtep, mcn)
  {
    MergePatch.Idempotent(cudn, EvpnPatch(vtep, mcn));
  }

  // A network that was accepted for patching is accepted again afterwards.
  lemma PatchedStaysValid(cudn: Json, vtep: string, mcn: McnSpec)
    requires Validate(cudn, mcn) == None
    ensures Validate(Patched(cudn, vtep, mcn), mcn) == None
  {
    var once := MergePatch.Apply(cudn, EvpnPatch(vtep, mcn));
    var topology := NETWORK + ["topology"];
    assert topology == ["spec", "network", "topology"];
    SilentIffUnrelated(vtep, mcn, topology);
    MergePatch.Frame(cudn, EvpnPatch(vtep, mcn), topology);
    LookupConcat(cudn, NETWORK, ["topology"]);
    LookupConcat(once, NETWORK, ["topology"]);
    PatchAt(vtep, mcn);
    MergePatch.Arrives(cudn, EvpnPatch(vtep, mcn), TRANSPORT);
    assert TRANSPORT == NETWORK + ["transport"];
    LookupConcat(once, NETWORK, ["transport"]);
    assert ["topology"][1..] == [];
  }

  lemma PatchAt(vtep: string, mcn: McnSpec)
    ensures Lookup(EvpnPatch(vtep, mcn), TRANSPORT) == Some(JStr("EVPN"))
    ensures Lookup(EvpnPatch(vtep, mcn), EVPN) == Some(EvpnConfig(vtep, mcn))
  {
    assert TRANSPORT[1..] == ["network", "transport"];
    assert ["network", "transport"][1..] == ["transport"] && ["transport"][1..] == [];
    assert EVPN[1..] == ["network", "evpn"] && ["network", "evpn"][1..] == ["evpn"] && ["evpn"][1..] == [];
  }

  lemma {:induction false} LookupConcat(doc: Json, p: seq<string>, q: seq<string>)
    ensures Lookup(doc, p + q) == match Lookup(doc, p) case Some(v) => Lookup(v, q) case None => None
    decreases |p|
  {
    if p == [] {
      assert p + q == q;
    } else {
      assert (p + q)[1..] == p[1..] + q;
      if doc.JObj? && p[0] in doc.fields {
        LookupConcat(doc.fields[p[0]], p[1..], q);
      }
    }
  }

  // The block that the record's topology calls for.
  function BlockName(topology: string): string
  {
    if topology == "Layer3" then "ipVRF" else "macVRF"
  }

  predicate Stretched(topology: string)
  {
    topology == "Layer2" || topology == "Layer3"
  }

  // The CUDN carries EVPN transport and the record's VNI and route target in the
  // VRF block of the record's topology.
  predicate CarriesVrf(cudn: Json, mcn: McnSpec)
  {
    && NestedString(cudn, TRANSPORT) == Some("EVPN")
    && (Stretched(mcn.topology) ==>
          && Lookup(cudn, EVPN + [BlockName(mcn.topology), "vni"]) == Some(JNum(mcn.vni))
          && Lookup(cudn, EVPN + [BlockName(mcn.topology), "routeTarget"]) == Some(JStr(mcn.routeTarget)))
  }

  lemma ConfigAt(vtep: string, mcn: McnSpec)
    requires Stretched(mcn.topology)
    ensures Lookup(EvpnConfig(vtep, mcn), [BlockName(mcn.topology), "vni"]) == Some(JNum(mcn.vni))
    ensures Lookup(EvpnConfig(vtep, mcn), [BlockName(mcn.topology), "routeTarget"]) == Some(JStr(mcn.routeTarget))
  {
    var b := BlockName(mcn.topology);
    assert [b, "vni"][1..] == ["vni"] && ["vni"][1..] == [];
    assert [b, "routeTarget"][1..] == ["routeTarget"] && ["routeTarget"][1..] == [];
    assert EvpnConfig(vtep, mcn).fields[b] == VrfBlock(mcn);
  }

  lemma AppliedCarriesVrf(cudn: Json, vtep: string, mcn: McnSpec)
    ensures CarriesVrf(MergePatch.Apply(cudn, EvpnPatch(vtep, mcn)), mcn)
  {
    var patch := EvpnPatch(vtep, mcn);
    PatchAt(vtep, mcn);
    MergePatch.Arrives(cudn, patch, TRANSPORT);
    if Stretched(mcn.topology) {
      var b := BlockName(mcn.topology);
      ConfigAt(vtep, mcn);
      LookupConcat(patch, EVPN, [b, "vni"]);
      LookupConcat(patch, EVPN, [b, "routeTarget"]);
      MergePatch.Arrives(cudn, patch, EVPN + [b, "vni"]);
      MergePatch.Arrives(cudn, patch, EVPN + [b, "routeTarget"]);
    }
  }

  // The blocks are named for their topologies.
  lemma BlockNames()
    ensures BlockName("Layer3") == "ipVRF" && BlockName("Layer2") == "macVRF"
    ensures forall t :: Stretched(t) <==> t == "Layer2" || t == "Layer3"
  {
  }

  // All of the EVPN configuration: the local VTEP as well.
  predicate CarriesEvpn(cudn: Json, vtep: string, mcn: McnSpec)
  {
    CarriesVrf(cudn, mcn) && Lookup(cudn, EVPN + ["vtep"]) == Some(JStr(vtep))
  }

  lemma AppliedCarriesEvpn(cudn: Json, vtep: string, mcn: McnSpec)
    ensures CarriesEvpn(MergePatch.Apply(cudn, EvpnPatch(vtep, mcn)), vtep, mcn)
  {
    var patch := EvpnPatch(vtep, mcn);
    AppliedCarriesVrf(cudn, vtep, mcn);
    PatchAt(vtep, mcn);
    LookupConcat(patch, EVPN, ["vtep"]);
    assert ["vtep"][1..] == [];
    MergePatch.Arrives(cudn, patch, EVPN + ["vtep"]);
  }

  // Below spec.network.evpn nothing but the VTEP and the block of the topology is
  // touched: no other VRF block is added, changed or removed.
  predicate Foreign(q: seq<string>, topology: string)
  {
    q != [] && q[0] != "vtep" && !(topology == "Layer3" && q[0] == "ipVRF") && !(topology == "Layer2" && q[0] == "macVRF")
  }

  lemma AppliedSparesOthers(cudn: Json, vtep: string, mcn: McnSpec, q: seq<string>)
    requires Foreign(q, mcn.topology)
    ensures Lookup(MergePatch.Apply(cudn, EvpnPatch(vtep, mcn)), EVPN + q) == Lookup(cudn, EVPN + q)
  {
    var path := EVPN + q;
    assert path[1..] == ["network", "evpn"] + q;
    assert path[1..][1..] == ["evpn"] + q;
    assert path[1..][1..][1..] == q;
    assert q[0] !in EvpnConfig(vtep, mcn).fields;
    assert Silent(EvpnConfig(vtep, mcn), q);
    MergePatch.Frame(cudn, EvpnPatch(vtep, mcn), path);
  }

  // A successful patch leaves the record's VNI and route target in the right
  // block, and the VTEP beside it, exactly when the patch was not skipped or they
  // were there before.
  lemma PatchDeliversIff(cudn: Json, vtep: string, mcn: McnSpec)
    ensures CarriesVrf(Patched(cudn, vtep, mcn), mcn) <==> !AlreadyMatches(cudn, mcn) || CarriesVrf(cudn, mcn)
    ensures CarriesEvpn(Patched(cudn, vtep, mcn), vtep, mcn) <==> !AlreadyMatches(cudn, mcn) || CarriesEvpn(cudn, vtep, mcn)
  {
    AppliedCarriesEvpn(cudn, vtep, mcn);
  }

  // The validator by the members of the network object: it must say the record's
  // topology, and its transport must be absent, empty or EVPN.
  lemma ValidateIff(cudn: Json, mcn: McnSpec, network: map<string, Json>)
    requires Lookup(cudn, NETWORK) == Some(JObj(network))
    ensures Validate(cudn, mcn) == None <==>
      && "topology" in network && network["topology"] == JStr(mcn.topology)
      && ("transport" in network && network["transport"].JStr? ==> network["transport"].s in {"", "EVPN"})
  {
    NetworkLookups(cudn, network);
    assert ["topology"][1..] == [];
  }

  // For Layer3 the skip is sound for every stored VNI that fits 32 bits ...
  // (the VTEP it does not look at).
  lemma Layer3SkipSoundIff(cudn: Json, vtep: string, mcn: McnSpec)
    requires AlreadyMatches(cudn, mcn) && mcn.topology == "Layer3" && mcn.vni != 0 && mcn.routeTarget != ""
    ensures CarriesVrf(cudn, mcn) <==> 0 <= NestedInt(cudn, EVPN + ["ipVRF", "vni"]) < 0x1_0000_0000
    ensures CarriesEvpn(cudn, vtep, mcn) <==>
      0 <= NestedInt(cudn, EVPN + ["ipVRF", "vni"]) < 0x1_0000_0000 && Lookup(cudn, EVPN + ["vtep"]) == Some(JStr(vtep))
  {
  }

  // Paths below spec.network, seen from the network object.
  lemma NetworkLookups(doc: Json, network: map<string, Json>)
    requires Lookup(doc, NETWORK) == Some(JObj(network))
    ensures Lookup(doc, TRANSPORT) == if "transport" in network then Some(network["transport"]) else None
    ensures forall q :: Lookup(doc, EVPN + q) == if "evpn" in network then Lookup(network["evpn"], q) else None
  {
    assert TRANSPORT == NETWORK + ["transport"];
    LookupConcat(doc, NETWORK, ["transport"]);
    assert ["transport"][1..] == [];
    forall q ensures Lookup(doc, EVPN + q) == if "evpn" in network then Lookup(network["evpn"], q) else None {
      assert EVPN + q == NETWORK + (["evpn"] + q);
      LookupConcat(doc, NETWORK, ["evpn"] + q);
      assert (["evpn"] + q)[1..] == q;
    }
  }

  lemma LookupTwo(fields: map<string, Json>, a: string, b: string)
    ensures Lookup(JObj(fields), [a, b])
         == if a in fields && fields[a].JObj? && b in fields[a].fields then Some(fields[a].fields[b]) else None
  {
    assert [a, b][1..] == [b] && [b][1..] == [];
    if a in fields && fields[a].JObj? && b in fields[a].fields {
      assert Lookup(fields[a].fields[b], []) == Some(fields[a].fields[b]);
      assert Lookup(fields[a], [b]) == Some(fields[a].fields[b]);
    }
  }

  // ... and for Layer2 it can leave the network without its macVRF: every Layer2
  // CUDN that already carries the VNI in an ipVRF block and has no macVRF passes
  // validation, is skipped, and so never gets one.
  lemma Layer2SkipMisses(cudn: Json, vtep: string, mcn: McnSpec, network: map<string, Json>, evpn: map<string, Json>)
    requires Lookup(cudn, NETWORK) == Some(JObj(network)) && mcn.topology == "Layer2" && mcn.vni < 0x1_0000_0000
    requires "topology" in network && network["topology"] == JStr("Layer2")
    requires "transport" in network && network["transport"] == JStr("EVPN")
    requires "evpn" in network && network["evpn"] == JObj(evpn)
    requires "ipVRF" in evpn && evpn["ipVRF"] == VrfBlock(mcn) && "macVRF" !in evpn
    ensures Validate(cudn, mcn) == None && Patched(cudn, vtep, mcn) == cudn
    ensures !CarriesVrf(Patched(cudn, vtep, mcn), mcn)
  {
    NetworkLookups(cudn, network);
    assert ["topology"][1..] == [];
    LookupTwo(evpn, "ipVRF", "vni");
    LookupTwo(evpn, "ipVRF", "routeTarget");
    LookupTwo(evpn, "macVRF", "vni");
  }

  // One such CUDN.
  lemma Layer2SkipExample(vtep: string)
    ensures var mcn := McnSpec(5000, "65000:5000", "Layer2");
      var evpn := map["ipVRF" := VrfBlock(mcn)];
      var network := map["topology" := JStr("Layer2"), "transport" := JStr("EVPN"), "evpn" := JObj(evpn)];
      var cudn := JObj(map["spec" := JObj(map["network" := JObj(network)])]);
      Validate(cudn, mcn) == None && Patched(cudn, vtep, mcn) == cudn && !CarriesVrf(cudn, mcn)
  {
    var mcn := McnSpec(5000, "65000:5000", "Layer2");
    var evpn := map["ipVRF" := VrfBlock(mcn)];
    var network := map["topology" := JStr("Layer2"), "transport" := JStr("EVPN"), "evpn" := JObj(evpn)];
    var cudn := JObj(map["spec" := JObj(map["network" := JObj(network)])]);
    LookupTwo(cudn.fields, "spec", "network");
    Layer2SkipMisses(cudn, vtep, mcn, network, evpn);
  }

  // ------------------------------------------------------------ created CUDNs

  datatype CudnSpec = CudnSpec(
    name: string, matchLabels: map<string, string>, topology: string, subnets: seq<(string, int)>, role: string)

  function SubnetJson(s: (string, int)): Json
  {
    JObj(map["cidr" := JStr(s.0), "hostSubnet" := JNum(s.1)])
  }

  function LayerConfig(spec: CudnSpec): Json
  {
    JObj(map["role" := JStr(if spec.role == "" then "Primary" else spec.role),
             "subnets" := JArr(seq(|spec.subnets|, i requires 0 <= i < |spec.subnets| => SubnetJson(spec.subnets[i])))])
  }

  // The object CreateCUDN sends.
  function BuildCudn(name: string, spec: CudnSpec, vtep: string, mcn: McnSpec): Json
  {
    var common := map["topology" := JStr(spec.topology), "transport" := JStr("EVPN"), "evpn" := EvpnConfig(vtep, mcn)];
    var network :=
      if spec.topology == "Layer3" then common["layer3" := LayerConfig(spec)]
      else if spec.topology == "Layer2" then common["layer2" := LayerConfig(spec)]
      else common;
    var labels := map k | k in spec.matchLabels :: JStr(spec.matchLabels[k]);
    JObj(map["apiVersion" := JStr("k8s.ovn.org/v1"),
             "kind" := JStr("ClusterUserDefinedNetwork"),
             "metadata" := JObj(map["name" := JStr(name)]),
             "spec" := JObj(map["namespaceSelector" := JObj(map["matchLabels" := JObj(labels)]),
                                "network" := JObj(network)])])
  }

  // A created CUDN always carries the record's VNI and route target; it passes the
  // validation that patching insists on exactly when the topologies agree, which
  // CreateCUDN itself does not check.
  lemma CreatedCudn(name: string, spec: CudnSpec, vtep: string, mcn: McnSpec)
    ensures CarriesEvpn(BuildCudn(name, spec, vtep, mcn), vtep, mcn)
    ensures Validate(BuildCudn(name, spec, vtep, mcn), mcn) == None <==> spec.topology == mcn.topology
  {
    var cudn := BuildCudn(name, spec, vtep, mcn);
    var network := cudn.fields["spec"].fields["network"].fields;
    LookupTwo(cudn.fields, "spec", "network");
    BuiltNetwork(name, spec, vtep, mcn);
    NetworkCarries(cudn, network, vtep, mcn);
    ValidateIff(cudn, mcn, network);
  }

  lemma NetworkCarries(cudn: Json, network: map<string, Json>, vtep: string, mcn: McnSpec)
    requires Lookup(cudn, NETWORK) == Some(JObj(network))
    requires "transport" in network && network["transport"] == JStr("EVPN")
    requires "evpn" in network && network["evpn"] == EvpnConfig(vtep, mcn)
    ensures CarriesEvpn(cudn, vtep, mcn)
  {
    NetworkLookups(cudn, network);
    assert ["vtep"][1..] == [];
    if Stretched(mcn.topology) {
      ConfigAt(vtep, mcn);
    }
  }

  // What else a created CUDN says: its name, whom it selects, and the role and
  // subnets of its layer, all as the user gave them, the role Primary by default.
  lemma BuiltAsAsked(name: string, spec: CudnSpec, vtep: string, mcn: McnSpec)
    ensures var cudn := BuildCudn(name, spec, vtep, mcn).fields;
      && cudn["apiVersion"] == JStr("k8s.ovn.org/v1") && cudn["kind"] == JStr("ClusterUserDefinedNetwork")
      && cudn["metadata"].fields["name"] == JStr(name)
      && var labels := cudn["spec"].fields["namespaceSelector"].fields["matchLabels"].fields;
         labels.Keys == spec.matchLabels.Keys && forall k :: k in spec.matchLabels ==> labels[k] == JStr(spec.matchLabels[k])
  {
  }

  lemma BuiltNetwork(name: string, spec: CudnSpec, vtep: string, mcn: McnSpec)
    ensures var network := BuildCudn(name, spec, vtep, mcn).fields["spec"].fields["network"].fields;
      && network["topology"] == JStr(spec.topology) && network["transport"] == JStr("EVPN")
      && network["evpn"] == EvpnConfig(vtep, mcn)
      && ("layer3" in network <==> spec.topology == "Layer3") && ("layer2" in network <==> spec.topology == "Layer2")
      && (spec.topology == "Layer3" ==> IsLayer(network["layer3"], spec))
      && (spec.topology == "Layer2" ==> IsLayer(network["layer2"], spec))
  {
  }

  predicate IsLayer(layer: Json, spec: CudnSpec)
  {
    && layer.JObj? && layer.fields.Keys == {"role", "subnets"}
    && (spec.role != "" ==> layer.fields["role"] == JStr(spec.role))
    && (spec.role == "" ==> layer.fields["role"] == JStr("Primary"))
    && layer.fields["subnets"].JArr? && |layer.fields["subnets"].items| == |spec.subnets|
    && forall i :: 0 <= i < |spec.subnets| ==>
         layer.fields["subnets"].items[i]
           == JObj(map["cidr" := JStr(spec.subnets[i].0), "hostSubnet" := JNum(spec.subnets[i].1)])
  }

  lemma CreatedNames(spec: CudnSpec, mcnName: string)
    ensures spec.name != "" ==> CreatedName(spec, mcnName) == spec.name
    ensures spec.name == "" ==> CreatedName(spec, mcnName) == mcnName
  {
  }

  function CreatedName(spec: CudnSpec, mcnName: string): string
  {
    if spec.name == "" then mcnName else spec.name
  }

  predicate IsEvpn(cudn: Json)
  {
    NestedString(cudn, TRANSPORT) == Some("EVPN")
  }

  // ------------------------------------------------------------ the integrator

  class CUDNIntegrator {
    // The ClusterUserDefinedNetworks of the local cluster, by name.
    var cudns: map<string, Json>
    const vtepName: string
    // How many requests have failed so far.
    ghost var failures: nat

    constructor (vtepName: string, cudns: map<string, Json>)
      ensures this.vtepName == vtepName && this.cudns == cudns && failures == 0
    {
      this.vtepName, this.cudns, failures := vtepName, cudns, 0;
    }

    // A request that fails may or may not have taken effect.
    method PatchCUDNWithEVPN(name: string, mcn: McnSpec) returns (r: Option<CudnError>)
      modifies this
      ensures r == None ==>
        && name in old(cudns) && Validate(old(cudns)[name], mcn) == None
        && cudns == old(cudns)[name := Patched(old(cudns)[name], vtepName, mcn)]
      ensures r.Some? && r != Some(ApiFailure) ==>
        && cudns == old(cudns)
        && r == if name in old(cudns) then Validate(old(cudns)[name], mcn) else Some(CudnError.NotFound)
      ensures cudns != old(cudns) ==>
        && name in old(cudns) && Validate(old(cudns)[name], mcn) == None
        && cudns == old(cudns)[name := Patched(old(cudns)[name], vtepName, mcn)]
      ensures failures == old(failures) + if r == Some(ApiFailure) then 1 else 0
    {
      var readable, writable, answered := *, *, *;
      if !readable {
        failures := failures + 1;
        return Some(ApiFailure);
      }
      if name !in cudns {
        return Some(CudnError.NotFound);
      }
      var cudn := cudns[name];
      var refused := Validate(cudn, mcn);
      if refused.Some? {
        return refused;
      }
      if AlreadyMatches(cudn, mcn) {
        assert cudns == cudns[name := cudns[name]];
        return None;
      }
      if writable {
        cudns := cudns[name := MergePatch.Apply(cudn, EvpnPatch(vtepName, mcn))];
      }
      if !(writable && answered) {
        failures := failures + 1;
        return Some(ApiFailure);
      }
      return None;
    }

    method CreateCUDN(spec: CudnSpec, mcnName: string, mcn: McnSpec) returns (r: Result<string, CudnError>)
      modifies this
      ensures r.Ok? ==> r.value == CreatedName(spec, mcnName)
      ensures var name := CreatedName(spec, mcnName);
        && (name in old(cudns) ==> cudns == old(cudns) && (r.Ok? ==> IsEvpn(old(cudns)[name])))
        && (name !in old(cudns) && r.Ok? ==> cudns == old(cudns)[name := BuildCudn(name, spec, vtepName, mcn)])
        && (cudns == old(cudns) || cudns == old(cudns)[name := BuildCudn(name, spec, vtepName, mcn)])
        && (r.Err? && r.error != ApiFailure ==> r.error == NotEvpn && name in old(cudns) && !IsEvpn(old(cudns)[name]))
      ensures failures == old(failures) + if r.Err? && r.error == ApiFailure then 1 else 0
    {
      var readable, writable, answered := *, *, *;
      var name := CreatedName(spec, mcnName);
      if !readable {
        failures := failures + 1;
        return Err(ApiFailure);
      }
      if name in cudns {
        return if IsEvpn(cudns[name]) then Ok(name) else Err(NotEvpn);
      }
      if writable {
        cudns := cudns[name := BuildCudn(name, spec, vtepName, mcn)];
      }
      if !(writable && answered) {
        failures := failures + 1;
        return Err(ApiFailure);
      }
      return Ok(name);
    }

    method DeleteCUDN(name: string) returns (ok: bool)
      modifies this
      ensures ok ==> cudns == old(cudns) - {name}
      ensures cudns == old(cudns) || cudns == old(cudns) - {name}
      ensures failures == old(failures) + if ok then 0 else 1
    {
      var writable, answered := *, *;
      if writable {
        cudns := cudns - {name};
      }
      ok := writable && answered;
      failures := failures + if ok then 0 else 1;
    }
  }
}
