// pkg/agent/controller/mcnc_controller.go: the reconciler of one
// MultiClusterNetworkConnect, from its cleanup finalizer over the broker join,
// the CUDN and the RouteAdvertisement to its deletion.

module Connect {
  import opened Wrappers
  import opened MergePatch
  import opened BrokerStore
  import opened McnManagers
  import opened Finalizers
  import opened Cudn
  import opened RouteAdv
  import P = McnProtocol
  import McnSafety
  import Runs

  const CLEANUP := "skynet.io/mcnc-cleanup"

  datatype CreateParams = CreateParams(name: string, topology: string)

  datatype McncSpec = McncSpec(
    localCudn: string, cudnSpec: Option<CudnSpec>,
    mcnName: string, createMcn: Option<CreateParams>)

  datatype Phase = Unset | Connected | Error

  datatype Mcnc = Mcnc(spec: McncSpec, finalizers: seq<string>, phase: Phase, deleting: bool)

  // Which steps of a deletion succeeded.
  datatype Cleanup = Cleanup(raGone: bool, cudnGone: bool, left: bool)

  datatype Pass = Finished | Requeued | Failed

  // ------------------------------------------------------------ names on the two paths

  // reconcileMCN: the network to join comes first.
  function JoinTarget(spec: McncSpec): Option<CreateParams>
  {
    if spec.mcnName != "" then Some(CreateParams(spec.mcnName, "")) else spec.createMcn
  }

  // handleDelete: the network to create comes first; "" means nothing to leave.
  function LeaveTarget(spec: McncSpec): string
  {
    if spec.createMcn.Some? then spec.createMcn.value.name else spec.mcnName
  }

  // reconcileLocalNetwork: the user's CUDN comes first.
  function ConnectedCudn(spec: McncSpec, mcnName: string): Option<string>
  {
    if spec.localCudn != "" then Some(spec.localCudn)
    else if spec.cudnSpec.Some? then Some(CreatedName(spec.cudnSpec.value, mcnName))
    else None
  }

  // handleDelete: the CUDN to create comes first.
  function DisconnectedCudn(spec: McncSpec, mcnName: string): string
  {
    if spec.cudnSpec.Some? then CreatedName(spec.cudnSpec.value, mcnName)
    else if spec.localCudn != "" then spec.localCudn
    else mcnName
  }

  // Whatever connecting would use, disconnecting cleans up the same names exactly
  // when a field pair that is filled twice names the same thing twice.
  lemma NamesAgreeIff(spec: McncSpec)
    requires JoinTarget(spec).Some?
    requires var name := JoinTarget(spec).value.name; name != "" && ConnectedCudn(spec, name).Some?
    ensures var name := JoinTarget(spec).value.name;
      LeaveTarget(spec) == name && DisconnectedCudn(spec, LeaveTarget(spec)) == ConnectedCudn(spec, name).value
      <==>
      && (spec.mcnName != "" && spec.createMcn.Some? ==> spec.createMcn.value.name == spec.mcnName)
      && (spec.localCudn != "" && spec.cudnSpec.Some? ==> CreatedName(spec.cudnSpec.value, name) == spec.localCudn)
  {
  }

  // The exclusivity the API documents.
  predicate Exclusive(spec: McncSpec)
  {
    && !(spec.mcnName != "" && spec.createMcn.Some?)
    && !(spec.localCudn != "" && spec.cudnSpec.Some?)
  }

  // ------------------------------------------------------------ local effects

  // What a successful pass does to the CUDNs: patch the user's, or create one
  // unless an EVPN one of that name is already there.
  ghost predicate CudnConnected(
    before: map<string, Json>, after: map<string, Json>, spec: McncSpec, mcnName: string, vtep: string, mcn: McnSpec)
  {
    if spec.localCudn != "" then
      && spec.localCudn in before && Validate(before[spec.localCudn], mcn) == None
      && after == before[spec.localCudn := Patched(before[spec.localCudn], vtep, mcn)]
    else if spec.cudnSpec.Some? then
      var name := CreatedName(spec.cudnSpec.value, mcnName);
      if name in before then IsEvpn(before[name]) && after == before
      else after == before[name := BuildCudn(name, spec.cudnSpec.value, vtep, mcn)]
    else false
  }

  // The local network cannot be used: neither field is filled, the user's CUDN is
  // missing or does not validate, or the name to create is taken by a plain CUDN.
  predicate NetworkRefused(cudns: map<string, Json>, spec: McncSpec, mcnName: string, mcn: McnSpec)
  {
    if spec.localCudn != "" then spec.localCudn !in cudns || Validate(cudns[spec.localCudn], mcn).Some?
    else
      match spec.cudnSpec
      case Some(c) => CreatedName(c, mcnName) in cudns && !IsEvpn(cudns[CreatedName(c, mcnName)])
      case None => true
  }

  // What a cluster's agent is configured with, and the networks it acts on.
  datatype Site = Site(pid: nat, clusterID: string, clusterName: string, vtep: string)

  datatype Local = Local(cudns: map<string, Json>, adverts: map<string, Advertisement>)

  // All that a pass can change, and how many requests have failed so far.
  datatype Snapshot = Snapshot(
    sys: P.Sys, local: Local, stored: Option<Mcnc>, lostStores: nat, lostCudns: nat, lostAdverts: nat)

  ghost predicate StoredFor(sys: P.Sys, cluster: string, name: string, mcn: McnSpec)
  {
    && name in sys.store.records && sys.store.records[name].spec == mcn
    && FinalizerName(cluster) in sys.store.records[name].finalizers
  }

  // A pass that ends Connected: it began when the log had `from` entries.
  ghost predicate PassConnected(
    site: Site, spec: McncSpec, from: nat, sys: P.Sys, before: Local, after: Local, mcn: McnSpec)
  {
    && JoinTarget(spec).Some?
    && var name := JoinTarget(spec).value.name;
       && HasReturn(sys, site.pid, site.clusterID, name, mcn, from)
       && CudnConnected(before.cudns, after.cudns, spec, name, site.vtep, mcn)
       && ConnectedCudn(spec, name).Some?
       && after.adverts == WithAdvertisement(before.adverts, site.clusterName, ConnectedCudn(spec, name).value, name)
  }

  // A deletion all of whose steps succeeded.
  ghost predicate PassDisconnected(site: Site, spec: McncSpec, before: Local, after: Local)
  {
    LeaveTarget(spec) != "" &&
    var network := DisconnectedCudn(spec, LeaveTarget(spec));
    && after.adverts == before.adverts - {AdvertisementName(site.clusterName, network)}
    && after.cudns == if spec.cudnSpec.Some? then before.cudns - {network} else before.cudns
  }

  // ------------------------------------------------------------ what each pass does

  // The broker call of a pass, and what it answered.
  ghost predicate JoinedBy(
    site: Site, target: CreateParams, s: P.Sys, t: P.Sys, trace: seq<P.Event>, joined: Result<McnSpec, StoreError>)
  {
    && t == P.Run(s, trace) && OneCall(trace, P.CallJoin(site.pid, target.name, target.topology), site.pid)
    && match joined
       case Ok(mcn) => HasReturn(t, site.pid, site.clusterID, target.name, mcn, |s.log|)
       case Err(error) => Explains(s, site.pid, error, target.name, trace)
  }

  // Whatever else fails, the local networks stay as they were or get what the
  // joined record asks for, the CUDN before the advertisement.
  ghost predicate LocalsFollow(
    site: Site, spec: McncSpec, before: Local, after: Local, joined: Result<McnSpec, StoreError>)
    requires JoinTarget(spec).Some?
  {
    match joined
    case Err(_) => after == before
    case Ok(mcn) =>
      var name := JoinTarget(spec).value.name;
      var connected := CudnConnected(before.cudns, after.cudns, spec, name, site.vtep, mcn);
      && (after.cudns == before.cudns || connected)
      && (after.adverts == before.adverts ||
          (connected && ConnectedCudn(spec, name).Some?
           && after.adverts == WithAdvertisement(before.adverts, site.clusterName, ConnectedCudn(spec, name).value, name)))
  }

  ghost predicate RequestLost(a: Snapshot, b: Snapshot)
  {
    b.lostStores + b.lostCudns + b.lostAdverts > a.lostStores + a.lostCudns + a.lostAdverts
  }

  // What the local steps and the status end with.
  ghost predicate Attached(site: Site, mcnc: Mcnc, a: Snapshot, b: Snapshot, r: Pass, mcn: McnSpec)
    requires JoinTarget(mcnc.spec).Some?
  {
    var name := JoinTarget(mcnc.spec).value.name;
    if r == Finished then
      && b.stored == Some(mcnc.(phase := Connected))
      && CudnConnected(a.local.cudns, b.local.cudns, mcnc.spec, name, site.vtep, mcn)
      && ConnectedCudn(mcnc.spec, name).Some?
      && b.local.adverts == WithAdvertisement(a.local.adverts, site.clusterName, ConnectedCudn(mcnc.spec, name).value, name)
    else
      && r == Failed
      && (b.stored == a.stored || b.stored == Some(mcnc.(phase := Error)) || b.stored == Some(mcnc.(phase := Connected)))
      && (RequestLost(a, b) || NetworkRefused(a.local.cudns, mcnc.spec, name, mcn))
  }

  // A pass over a live MCNC that has its finalizer. It fails only for want of a
  // namespace or target, for the reasons a join has, for a network that is
  // refused, or for a request that failed; however it ends, it does no more than
  // this.
  ghost predicate PassMade(
    site: Site, mcnc: Mcnc, namespaceFound: bool, a: Snapshot, b: Snapshot, r: Pass, joined: Result<McnSpec, StoreError>)
  {
    var target := JoinTarget(mcnc.spec);
    if !namespaceFound || target == None then
      && r == Failed && joined.Err? && b.sys == a.sys && b.local == a.local
      && (b.stored == a.stored || b.stored == Some(mcnc.(phase := Error)))
    else
      && (exists trace :: JoinedBy(site, target.value, a.sys, b.sys, trace, joined))
      && LocalsFollow(site, mcnc.spec, a.local, b.local, joined)
      && match joined
         case Ok(mcn) => Attached(site, mcnc, a, b, r, mcn)
         case Err(_) => r == Failed && (b.stored == a.stored || b.stored == Some(mcnc.(phase := Error)))
  }

  // The broker call of a deletion: out at some moment during it, or an error with
  // its reason.
  ghost predicate LeftBy(site: Site, name: string, s: P.Sys, t: P.Sys, trace: seq<P.Event>, left: bool)
  {
    && t == P.Run(s, trace) && OneCall(trace, P.CallLeave(site.pid, name), site.pid)
    && if left then exists k :: |s.log| <= k <= |t.log| && !P.Member(t.log[..k], site.clusterID, name)
       else exists error :: Explains(s, site.pid, error, name, trace)
  }

  // One request to remove something: done, or failed with or without effect.
  ghost predicate Removed<T>(
    before: map<string, T>, after: map<string, T>, key: string, ok: bool, lost0: nat, lost: nat)
  {
    if ok then after == before - {key} && lost == lost0
    else (after == before || after == before - {key}) && lost == lost0 + 1
  }

  // A deletion. Every step is taken, whatever became of those before it; `done`
  // tells which ones succeeded.
  ghost predicate DeletionMade(site: Site, mcnc: Mcnc, a: Snapshot, b: Snapshot, r: Pass, done: Cleanup)
  {
    var name := LeaveTarget(mcnc.spec);
    var network := DisconnectedCudn(mcnc.spec, name);
    var advert := AdvertisementName(site.clusterName, network);
    && (if name == "" then b.sys == a.sys && b.local == a.local && done == Cleanup(true, true, true)
        else
          && (exists trace :: LeftBy(site, name, a.sys, b.sys, trace, done.left))
          && Removed(a.local.adverts, b.local.adverts, advert, done.raGone, a.lostAdverts, b.lostAdverts)
          && if mcnc.spec.cudnSpec.Some?
             then Removed(a.local.cudns, b.local.cudns, network, done.cudnGone, a.lostCudns, b.lostCudns)
             else b.local.cudns == a.local.cudns && done.cudnGone)
    && var released := Some(mcnc.(finalizers := Without(mcnc.finalizers, CLEANUP)));
       if CLEANUP !in mcnc.finalizers then r == Finished && b.stored == a.stored
       else if r == Finished then b.stored == released
       else r == Failed && (b.stored == a.stored || b.stored == released) && b.lostStores == a.lostStores + 1
  }

  // Until the cleanup finalizer is stored a pass does nothing but ask for it.
  ghost predicate GuardMade(mcnc: Mcnc, a: Snapshot, b: Snapshot, r: Pass)
  {
    var guarded := Some(mcnc.(finalizers := mcnc.finalizers + [CLEANUP]));
    && b.sys == a.sys && b.local == a.local
    && if r == Requeued then b.stored == guarded
       else r == Failed && (b.stored == a.stored || b.stored == guarded) && b.lostStores == a.lostStores + 1
  }

  // A pass that finishes has connected: unless the cluster left meanwhile, the
  // broker holds the network's record with this cluster in it.
  lemma FinishedIsConnected(
    site: Site, mcnc: Mcnc, namespaceFound: bool, a: Snapshot, b: Snapshot, joined: Result<McnSpec, StoreError>)
    requires PassMade(site, mcnc, namespaceFound, a, b, Finished, joined) && P.Inv(a.sys)
    ensures joined.Ok? && PassConnected(site, mcnc.spec, |a.sys.log|, b.sys, a.local, b.local, joined.value)
    ensures var name := JoinTarget(mcnc.spec).value.name;
      !P.LeftSince(b.sys.log, |a.sys.log|, site.clusterID, name) ==> StoredFor(b.sys, site.clusterID, name, joined.value)
  {
    var name := JoinTarget(mcnc.spec).value.name;
    var trace :| JoinedBy(site, JoinTarget(mcnc.spec).value, a.sys, b.sys, trace, joined);
    ReturnHolds(a.sys, trace, site.pid, site.clusterID, name, joined.value, |a.sys.log|);
  }

  // The same by the fields of the spec. With the namespace there, a pass calls for
  // the network to join; without one to join, for the network to create, with its
  // topology; only without either does it fail with no call at all.
  ghost predicate Calls(site: Site, call: P.Event, s: P.Sys, t: P.Sys)
  {
    exists trace :: t == P.Run(s, trace) && OneCall(trace, call, site.pid)
  }

  lemma PassCalls(
    site: Site, mcnc: Mcnc, namespaceFound: bool, a: Snapshot, b: Snapshot, r: Pass, joined: Result<McnSpec, StoreError>)
    requires PassMade(site, mcnc, namespaceFound, a, b, r, joined)
    ensures namespaceFound && mcnc.spec.mcnName != "" ==>
      Calls(site, P.CallJoin(site.pid, mcnc.spec.mcnName, ""), a.sys, b.sys)
    ensures namespaceFound && mcnc.spec.mcnName == "" && mcnc.spec.createMcn.Some? ==>
      var asked := mcnc.spec.createMcn.value;
      Calls(site, P.CallJoin(site.pid, asked.name, asked.topology), a.sys, b.sys)
    ensures !namespaceFound || (mcnc.spec.mcnName == "" && mcnc.spec.createMcn == None) ==>
      r == Failed && b.sys == a.sys && b.local == a.local
  {
    if namespaceFound && JoinTarget(mcnc.spec).Some? {
      var target := JoinTarget(mcnc.spec).value;
      var trace :| JoinedBy(site, target, a.sys, b.sys, trace, joined);
      assert OneCall(trace, P.CallJoin(site.pid, target.name, target.topology), site.pid);
    }
  }

  // A finished pass by the fields of the spec: the user's CUDN, or the one named in
  // the spec or after the network, is connected and advertised under its name.
  lemma PassAdvertises(
    site: Site, mcnc: Mcnc, namespaceFound: bool, a: Snapshot, b: Snapshot, joined: Result<McnSpec, StoreError>)
    requires PassMade(site, mcnc, namespaceFound, a, b, Finished, joined)
    ensures var spec := mcnc.spec;
      var mcnName :=
        if spec.mcnName != "" then spec.mcnName
        else if spec.createMcn.Some? then spec.createMcn.value.name
        else "";
      var network :=
        if spec.localCudn != "" then spec.localCudn
        else if spec.cudnSpec.Some? && spec.cudnSpec.value.name != "" then spec.cudnSpec.value.name
        else mcnName;
      var advert := "skynet-" + site.clusterName + "-" + network;
      && joined.Ok? && network in b.local.cudns && advert in b.local.adverts
      && b.local.cudns == a.local.cudns[network := b.local.cudns[network]]
      && b.local.adverts == a.local.adverts[advert := b.local.adverts[advert]]
      && (advert !in a.local.adverts ==> b.local.adverts[advert] == Advertisement(site.clusterName, network, mcnName))
      && (spec.localCudn == "" ==> spec.cudnSpec.Some?)
      && (network !in a.local.cudns ==> CarriesEvpn(b.local.cudns[network], site.vtep, joined.value))
  {
    var mcnName := JoinTarget(mcnc.spec).value.name;
    var mcn := joined.value;
    assert Attached(site, mcnc, a, b, Finished, mcn);
    ConnectedCarriesVrfIff(a.local.cudns, b.local.cudns, mcnc.spec, mcnName, site.vtep, mcn);
    var network := ConnectedCudn(mcnc.spec, mcnName).value;
    assert b.local.cudns == a.local.cudns[network := b.local.cudns[network]];
    assert b.local.adverts == a.local.adverts[
      AdvertisementName(site.clusterName, network) := b.local.adverts[AdvertisementName(site.clusterName, network)]];
  }

  // A deletion by the fields of the spec: it leaves the network to create, or else
  // the one to join, and cleans up the network that the spec names.
  lemma DeletionCalls(site: Site, mcnc: Mcnc, a: Snapshot, b: Snapshot, r: Pass, done: Cleanup)
    requires DeletionMade(site, mcnc, a, b, r, done)
    ensures var spec := mcnc.spec;
      var mcnName := if spec.createMcn.Some? then spec.createMcn.value.name else spec.mcnName;
      var network :=
        if spec.cudnSpec.Some? then (if spec.cudnSpec.value.name != "" then spec.cudnSpec.value.name else mcnName)
        else if spec.localCudn != "" then spec.localCudn
        else mcnName;
      var advert := "skynet-" + site.clusterName + "-" + network;
      if mcnName == "" then b.sys == a.sys && b.local == a.local
      else
        && Calls(site, P.CallLeave(site.pid, mcnName), a.sys, b.sys)
        && (b.lostAdverts == a.lostAdverts ==> b.local.adverts == a.local.adverts - {advert})
        && (spec.cudnSpec.Some? && b.lostCudns == a.lostCudns ==> b.local.cudns == a.local.cudns - {network})
        && (spec.cudnSpec == None ==> b.local.cudns == a.local.cudns)
  {
    var name := LeaveTarget(mcnc.spec);
    if name != "" {
      var trace :| LeftBy(site, name, a.sys, b.sys, trace, done.left);
      assert OneCall(trace, P.CallLeave(site.pid, name), site.pid);
    }
  }

  // When nothing fails, a deletion does all that disconnecting means.
  lemma CompleteDeletionDisconnects(site: Site, mcnc: Mcnc, a: Snapshot, b: Snapshot, r: Pass, done: Cleanup)
    requires DeletionMade(site, mcnc, a, b, r, done) && LeaveTarget(mcnc.spec) != ""
    ensures done.raGone && done.cudnGone ==> PassDisconnected(site, mcnc.spec, a.local, b.local)
    ensures b.lostStores == a.lostStores && b.lostCudns == a.lostCudns && b.lostAdverts == a.lostAdverts ==>
      done.raGone && done.cudnGone && r == Finished
  {
  }

  // ------------------------------------------------------------ connected is a fixed point

  // After a pass the same pass is possible again and changes nothing.
  lemma CudnSettled(
    before: map<string, Json>, after: map<string, Json>, again: map<string, Json>,
    spec: McncSpec, mcnName: string, vtep: string, mcn: McnSpec)
    requires CudnConnected(before, after, spec, mcnName, vtep, mcn)
    ensures CudnConnected(after, again, spec, mcnName, vtep, mcn) <==> again == after
  {
    if spec.localCudn != "" {
      var cudn := before[spec.localCudn];
      PatchedTwice(cudn, vtep, mcn);
      PatchedStaysValid(cudn, vtep, mcn);
      assert after == after[spec.localCudn := after[spec.localCudn]];
    } else {
      CreatedCudn(CreatedName(spec.cudnSpec.value, mcnName), spec.cudnSpec.value, vtep, mcn);
    }
  }

  // The CUDNs and advertisements are what the record asks for.
  ghost predicate Settled(site: Site, spec: McncSpec, local: Local, mcn: McnSpec)
  {
    && JoinTarget(spec).Some?
    && var name := JoinTarget(spec).value.name;
       && CudnConnected(local.cudns, local.cudns, spec, name, site.vtep, mcn)
       && ConnectedCudn(spec, name).Some?
       && AdvertisementName(site.clusterName, ConnectedCudn(spec, name).value) in local.adverts
  }

  lemma ConnectedIsSettled(site: Site, spec: McncSpec, from: nat, sys: P.Sys, before: Local, after: Local, mcn: McnSpec)
    requires PassConnected(site, spec, from, sys, before, after, mcn)
    ensures Settled(site, spec, after, mcn)
  {
    CudnSettled(before.cudns, after.cudns, after.cudns, spec, JoinTarget(spec).value.name, site.vtep, mcn);
  }

  // In a settled state a pass with the same record changes nothing, whether it
  // succeeds or fails.
  lemma SettledStays(
    site: Site, spec: McncSpec, before: Local, after: Local, mcn: McnSpec, joined: Result<McnSpec, StoreError>)
    requires Settled(site, spec, before, mcn) && LocalsFollow(site, spec, before, after, joined)
    requires joined.Ok? ==> joined.value == mcn
    ensures after == before
  {
    CudnSettled(before.cudns, before.cudns, after.cudns, spec, JoinTarget(spec).value.name, site.vtep, mcn);
  }

  // One pass over an MCNC, and any number of them in a row: between two passes the
  // broker may go anywhere, the local networks stay as they are.
  datatype PassRecord = PassRecord(
    mcnc: Mcnc, namespaceFound: bool, before: Snapshot, after: Snapshot, r: Pass, joined: Result<McnSpec, StoreError>)

  ghost predicate Reaches(s: P.Sys, t: P.Sys)
  {
    exists events :: t == P.Run(s, events)
  }

  ghost predicate IsPass(site: Site, spec: McncSpec, p: PassRecord)
  {
    p.mcnc.spec == spec && PassMade(site, p.mcnc, p.namespaceFound, p.before, p.after, p.r, p.joined)
  }

  ghost predicate InARow(site: Site, spec: McncSpec, passes: seq<PassRecord>)
  {
    && (forall i :: 0 <= i < |passes| ==> IsPass(site, spec, passes[i]))
    && (forall i :: 0 < i < |passes| ==>
          passes[i].before.local == passes[i - 1].after.local && Reaches(passes[i - 1].after.sys, passes[i].before.sys))
  }

  lemma ReachesThen(s: P.Sys, t: P.Sys, u: P.Sys)
    requires Reaches(s, t) && Reaches(t, u)
    ensures Reaches(s, u)
  {
    var a :| t == P.Run(s, a);
    var b :| u == P.Run(t, b);
    Runs.FoldConcat(P.Apply, s, a, b);
    assert u == P.Run(s, a + b);
  }

  lemma PassReaches(site: Site, spec: McncSpec, p: PassRecord)
    requires IsPass(site, spec, p)
    ensures Reaches(p.before.sys, p.after.sys)
  {
    if !p.namespaceFound || JoinTarget(spec) == None {
      assert p.after.sys == P.Run(p.before.sys, []);
    } else {
      var trace :| JoinedBy(site, JoinTarget(spec).value, p.before.sys, p.after.sys, trace, p.joined);
    }
  }

  lemma {:induction false} RowReaches(site: Site, spec: McncSpec, passes: seq<PassRecord>, i: nat, j: nat)
    requires InARow(site, spec, passes) && i <= j < |passes|
    ensures Reaches(passes[i].before.sys, passes[j].after.sys)
    ensures Reaches(passes[i].after.sys, passes[j].after.sys)
    decreases j - i
  {
    PassReaches(site, spec, passes[j]);
    if i == j {
      assert passes[i].after.sys == P.Run(passes[i].after.sys, []);
    } else {
      RowReaches(site, spec, passes, i, j - 1);
      ReachesThen(passes[j - 1].after.sys, passes[j].before.sys, passes[j].after.sys);
      ReachesThen(passes[i].before.sys, passes[j - 1].after.sys, passes[j].after.sys);
      ReachesThen(passes[i].after.sys, passes[j - 1].after.sys, passes[j].after.sys);
    }
  }

  // Connected is a fixed point. After a pass that ended Connected every further
  // pass, whether it ends Connected or fails anywhere, leaves CUDNs and
  // RouteAdvertisements as they are and joins, if it does, the same record, as
  // long as the cluster has not left; whatever the other agents do.
  lemma {:induction false} ConnectedIsFixedPoint(site: Site, spec: McncSpec, passes: seq<PassRecord>, i: nat)
    requires InARow(site, spec, passes) && i < |passes|
    requires P.Inv(passes[0].before.sys) && passes[0].r == Finished
    requires JoinTarget(spec).Some?
    requires !P.LeftSince(passes[i].after.sys.log, |passes[0].before.sys.log|, site.clusterID, JoinTarget(spec).value.name)
    ensures passes[i].after.local == passes[0].after.local
    ensures passes[i].joined.Ok? ==> passes[i].joined == passes[0].joined
    decreases i
  {
    var first, p, name := passes[0], passes[i], JoinTarget(spec).value.name;
    assert IsPass(site, spec, first) && IsPass(site, spec, p);
    FinishedIsConnected(site, first.mcnc, first.namespaceFound, first.before, first.after, first.joined);
    ConnectedIsSettled(
      site, spec, |first.before.sys.log|, first.after.sys, first.before.local, first.after.local, first.joined.value);
    if i > 0 {
      RowReaches(site, spec, passes, 0, i);
      RowReaches(site, spec, passes, i - 1, i);
      SameLog(passes[i - 1].after.sys, p.after.sys, |first.before.sys.log|, site.clusterID, name);
      ConnectedIsFixedPoint(site, spec, passes, i - 1);
      SameReturn(site, spec, passes, i);
      if p.namespaceFound {
        SettledStays(site, spec, p.before.local, p.after.local, first.joined.value, p.joined);
      }
    }
  }

  // The broker has meanwhile kept the record with this cluster in it, and nothing
  // was committed on the cluster's behalf since the first pass.
  lemma ConnectedStaysStored(site: Site, spec: McncSpec, passes: seq<PassRecord>, i: nat)
    requires InARow(site, spec, passes) && i < |passes|
    requires P.Inv(passes[0].before.sys) && passes[0].r == Finished
    requires JoinTarget(spec).Some?
    requires !P.LeftSince(passes[i].after.sys.log, |passes[0].before.sys.log|, site.clusterID, JoinTarget(spec).value.name)
    ensures passes[0].joined.Ok?
    ensures StoredFor(passes[i].after.sys, site.clusterID, JoinTarget(spec).value.name, passes[0].joined.value)
    ensures var done, log, name := |passes[0].after.sys.log|, passes[i].after.sys.log, JoinTarget(spec).value.name;
      forall k :: done <= k < |log| ==> log[k] != P.Joined(site.clusterID, name) && !(log[k].Created? && log[k].name == name)
  {
    var first, p, name := passes[0], passes[i], JoinTarget(spec).value.name;
    assert IsPass(site, spec, first);
    FinishedIsConnected(site, first.mcnc, first.namespaceFound, first.before, first.after, first.joined);
    RowReaches(site, spec, passes, 0, 0);
    RowReaches(site, spec, passes, 0, i);
    ReachesInv(first.before.sys, first.after.sys);
    var a :| a in first.after.sys.returned && a.pid == site.pid && a.cluster == site.clusterID && a.name == name
      && a.spec == first.joined.value && |first.before.sys.log| <= a.at;
    var events :| p.after.sys == P.Run(first.after.sys, events);
    McnSafety.HistoryGrows(first.after.sys, events);
    BrokerSettled(first.after.sys, events, |first.before.sys.log|, a, a);
  }

  lemma ReachesInv(s: P.Sys, t: P.Sys)
    requires Reaches(s, t) && P.Inv(s)
    ensures P.Inv(t) && s.log <= t.log && s.returned <= t.returned
  {
    var events :| t == P.Run(s, events);
    McnSafety.RunKeepsInv(s, events);
    McnSafety.HistoryGrows(s, events);
  }

  lemma SameLog(s: P.Sys, t: P.Sys, from: nat, c: string, name: string)
    requires Reaches(s, t) && !P.LeftSince(t.log, from, c, name)
    ensures !P.LeftSince(s.log, from, c, name)
  {
    var events :| t == P.Run(s, events);
    McnSafety.HistoryGrows(s, events);
    NotLeftLater(s.log, t.log, from, from, c, name);
  }

  lemma SameReturn(site: Site, spec: McncSpec, passes: seq<PassRecord>, i: nat)
    requires InARow(site, spec, passes) && i < |passes|
    requires P.Inv(passes[0].before.sys) && passes[0].r == Finished
    requires JoinTarget(spec).Some?
    requires !P.LeftSince(passes[i].after.sys.log, |passes[0].before.sys.log|, site.clusterID, JoinTarget(spec).value.name)
    ensures passes[0].joined.Ok?
    ensures passes[i].joined.Ok? ==> passes[i].joined == passes[0].joined
  {
    var first, p, name := passes[0], passes[i], JoinTarget(spec).value.name;
    assert IsPass(site, spec, first) && IsPass(site, spec, p);
    ConnectedStaysStored(site, spec, passes, i);
    if p.namespaceFound && p.joined.Ok? {
      var trace :| JoinedBy(site, JoinTarget(spec).value, p.before.sys, p.after.sys, trace, p.joined);
      var b :| b in p.after.sys.returned && b.pid == site.pid && b.cluster == site.clusterID && b.name == name
        && b.spec == p.joined.value && |p.before.sys.log| <= b.at;
      RowReaches(site, spec, passes, 0, i);
      ReachesInv(first.before.sys, p.after.sys);
      StartReaches(site, spec, passes, i);
      ReachesInv(first.before.sys, p.before.sys);
      NotLeftLater(p.after.sys.log, p.after.sys.log, |first.before.sys.log|, b.at, site.clusterID, name);
      McnSafety.ReturnStands(p.after.sys, b);
    }
  }

  lemma StartReaches(site: Site, spec: McncSpec, passes: seq<PassRecord>, i: nat)
    requires InARow(site, spec, passes) && i < |passes|
    ensures Reaches(passes[0].before.sys, passes[i].before.sys)
  {
    if i == 0 {
      assert passes[0].before.sys == P.Run(passes[0].before.sys, []);
    } else {
      RowReaches(site, spec, passes, 0, i - 1);
      ReachesThen(passes[0].before.sys, passes[i - 1].after.sys, passes[i].before.sys);
    }
  }

  // The broker's part: two returns to a cluster that does not leave.
  lemma BrokerSettled(sys: P.Sys, events: seq<P.Event>, from: nat, a: P.Return, b: P.Return)
    requires P.Inv(sys) && a in sys.returned && b in P.Run(sys, events).returned
    requires a.cluster == b.cluster && a.name == b.name && from <= a.at && from <= b.at
    requires !P.LeftSince(P.Run(sys, events).log, from, a.cluster, a.name)
    ensures a.spec == b.spec && StoredFor(P.Run(sys, events), a.cluster, a.name, a.spec)
    ensures var t := P.Run(sys, events);
      forall i :: |sys.log| <= i < |t.log| ==>
        t.log[i] != P.Joined(a.cluster, a.name) && !(t.log[i].Created? && t.log[i].name == a.name)
  {
    var t := P.Run(sys, events);
    McnSafety.RunKeepsInv(sys, events);
    McnSafety.HistoryGrows(sys, events);
    NotLeftLater(t.log, t.log, from, a.at, a.cluster, a.name);
    NotLeftLater(t.log, t.log, from, b.at, a.cluster, a.name);
    McnSafety.ReturnStands(t, a);
    McnSafety.ReturnStands(t, b);
    NotLeftLater(sys.log, t.log, from, a.at, a.cluster, a.name);
    McnSafety.ReturnStands(sys, a);
    assert P.RecordOk(sys, a.name);
    assert t.log[..|sys.log|] == sys.log;
    McnSafety.ReturnedBefore(sys, a);
    NotLeftLater(t.log, t.log, from, |sys.log|, a.cluster, a.name);
    McnSafety.NoCommitWhileJoined(t.log, |sys.log|, a.cluster, a.name);
  }

  lemma NotLeftLater(init: seq<P.Commit>, log: seq<P.Commit>, from: nat, at: nat, c: string, name: string)
    requires init <= log && from <= at && !P.LeftSince(log, from, c, name)
    ensures !P.LeftSince(init, at, c, name)
  {
    forall i | at <= i < |init| ensures init[i] != P.Left(c, name) {
      assert init[i] == log[i];
    }
  }

  // On the LocalCUDN path a connected network carries the record's VNI and route
  // target in the VRF block of its topology, and the local VTEP, exactly when the
  // patch was not skipped or they had been there; a network created on the other
  // path always does.
  lemma ConnectedCarriesVrfIff(
    before: map<string, Json>, after: map<string, Json>, spec: McncSpec, mcnName: string, vtep: string, mcn: McnSpec)
    requires CudnConnected(before, after, spec, mcnName, vtep, mcn)
    ensures ConnectedCudn(spec, mcnName).Some? && ConnectedCudn(spec, mcnName).value in after
    ensures var name := ConnectedCudn(spec, mcnName).value;
      CarriesVrf(after[name], mcn) <==>
        name !in before || CarriesVrf(before[name], mcn) || (spec.localCudn != "" && !AlreadyMatches(before[name], mcn))
    ensures var name := ConnectedCudn(spec, mcnName).value;
      CarriesEvpn(after[name], vtep, mcn) <==>
        || name !in before || CarriesEvpn(before[name], vtep, mcn)
        || (spec.localCudn != "" && !AlreadyMatches(before[name], mcn))
  {
    var name := ConnectedCudn(spec, mcnName).value;
    if spec.localCudn != "" {
      PatchDeliversIff(before[name], vtep, mcn);
    } else if name !in before {
      CreatedCudn(name, spec.cudnSpec.value, vtep, mcn);
    }
  }

  // ------------------------------------------------------------ disconnect undoes connect

  // Connecting and then deleting, with exclusive fields: the advertisement is
  // gone, a CUDN of SkyNet's is gone, a user's CUDN stays as patched, and every
  // other CUDN and advertisement is as before. The networks are exactly restored
  // if and only if nothing of the same name was there before connecting (on the
  // cudnSpec path an EVPN network that was there is deleted all the same).
  lemma DisconnectUndoesConnect(
    site: Site, spec: McncSpec, from: nat, sys: P.Sys, before: Local, middle: Local, after: Local, mcn: McnSpec)
    requires Exclusive(spec) && JoinTarget(spec).Some? && JoinTarget(spec).value.name != ""
    requires PassConnected(site, spec, from, sys, before, middle, mcn)
    requires PassDisconnected(site, spec, middle, after)
    ensures LeaveTarget(spec) == JoinTarget(spec).value.name
    ensures var network := ConnectedCudn(spec, JoinTarget(spec).value.name).value;
      var advert := AdvertisementName(site.clusterName, network);
      && after.adverts == before.adverts - {advert}
      && (after.adverts == before.adverts <==> advert !in before.adverts)
      && (spec.cudnSpec.Some? ==>
            after.cudns == before.cudns - {network} && (after.cudns == before.cudns <==> network !in before.cudns))
      && (spec.cudnSpec == None ==>
            && network in before.cudns && after.cudns == before.cudns[network := after.cudns[network]]
            && forall path :: Unrelated(path, TRANSPORT) && Unrelated(path, EVPN) ==>
                 Lookup(after.cudns[network], path) == Lookup(before.cudns[network], path))
  {
    var name := JoinTarget(spec).value.name;
    var network := ConnectedCudn(spec, name).value;
    NamesAgreeIff(spec);
    if spec.cudnSpec == None {
      forall path | Unrelated(path, TRANSPORT) && Unrelated(path, EVPN)
        ensures Lookup(after.cudns[network], path) == Lookup(before.cudns[network], path)
      {
        PatchedFrame(before.cudns[network], site.vtep, mcn, path);
      }
    }
  }

  // Having left at some moment of the deletion, and not joined again since, the
  // cluster has no finalizer on the record any more.
  lemma LeftForGood(sys: P.Sys, from: nat, cluster: string, name: string)
    requires P.Inv(sys) && from <= |sys.log|
    requires exists k :: from <= k <= |sys.log| && !P.Member(sys.log[..k], cluster, name)
    requires forall i :: from <= i < |sys.log| ==>
      sys.log[i] != P.Joined(cluster, name) && sys.log[i] != P.Created(cluster, name)
    ensures name in sys.store.records ==> FinalizerName(cluster) !in sys.store.records[name].finalizers
  {
    var k :| from <= k <= |sys.log| && !P.Member(sys.log[..k], cluster, name);
    McnSafety.StaysOut(sys.log, k, cluster, name);
    assert P.RecordOk(sys, name);
  }

  // The broker's part of connect and delete, whatever the other agents do in
  // between: this cluster's finalizer is off the record, and every other cluster
  // that was in when the connecting began and has not left is still in, with the
  // network's values unchanged.
  lemma DisconnectSparesOthers(sys: P.Sys, events: seq<P.Event>, from: nat, cluster: string, name: string)
    requires P.Inv(sys)
    requires var log := P.Run(sys, events).log;
      && |sys.log| <= from <= |log|
      && (exists k :: from <= k <= |log| && !P.Member(log[..k], cluster, name))
      && (forall i :: from <= i < |log| ==> log[i] != P.Joined(cluster, name) && log[i] != P.Created(cluster, name))
    ensures var t := P.Run(sys, events);
      && (name in t.store.records ==> FinalizerName(cluster) !in t.store.records[name].finalizers)
      && forall d :: P.Member(sys.log, d, name) && !P.LeftSince(t.log, |sys.log|, d, name) ==>
           && name in sys.store.records && name in t.store.records
           && t.store.records[name].spec == sys.store.records[name].spec
           && FinalizerName(d) in t.store.records[name].finalizers
  {
    var t := P.Run(sys, events);
    McnSafety.RunKeepsInv(sys, events);
    LeftForGood(t, from, cluster, name);
    forall d | P.Member(sys.log, d, name) && !P.LeftSince(t.log, |sys.log|, d, name)
      ensures name in sys.store.records && name in t.store.records
      ensures t.store.records[name].spec == sys.store.records[name].spec
      ensures FinalizerName(d) in t.store.records[name].finalizers
    {
      McnSafety.MemberStands(sys, events, d, name);
    }
  }

  // When both fields of an exclusive pair are set and disagree, deletion cleans
  // up other names: what connecting advertised stays.
  lemma DisagreeingFieldsLeak(
    site: Site, spec: McncSpec, from: nat, sys: P.Sys, before: Local, middle: Local, after: Local, mcn: McnSpec)
    requires PassConnected(site, spec, from, sys, before, middle, mcn)
    requires PassDisconnected(site, spec, middle, after)
    ensures var network := ConnectedCudn(spec, JoinTarget(spec).value.name).value;
      AdvertisementName(site.clusterName, network) in after.adverts <==>
        network != DisconnectedCudn(spec, LeaveTarget(spec))
  {
    var network := ConnectedCudn(spec, JoinTarget(spec).value.name).value;
    NamesDiffer(site.clusterName, network, DisconnectedCudn(spec, LeaveTarget(spec)));
  }

  class MCNCReconciler {
    const mgr: MCNManager
    const cudn: CUDNIntegrator
    const routeAdv: Creator
    // The MultiClusterNetworkConnect as the local API server stores it.
    var stored: Option<Mcnc>
    // How many writes of it have failed so far.
    ghost var failures: nat

    constructor (mgr: MCNManager, cudn: CUDNIntegrator, routeAdv: Creator, stored: Option<Mcnc>)
      ensures this.mgr == mgr && this.cudn == cudn && this.routeAdv == routeAdv && this.stored == stored
      ensures failures == 0
    {
      this.mgr, this.cudn, this.routeAdv, this.stored, failures := mgr, cudn, routeAdv, stored, 0;
    }

    // Update or Status().Update of the MCNC: accepted or refused; a reply can be lost.
    method Store(mcnc: Mcnc) returns (ok: bool)
      modifies this
      ensures ok ==> stored == Some(mcnc)
      ensures stored == old(stored) || stored == Some(mcnc)
      ensures failures == old(failures) + if ok then 0 else 1
    {
      var writable, answered := *, *;
      if writable {
        stored := Some(mcnc);
      }
      ok := writable && answered;
      failures := failures + if ok then 0 else 1;
    }

    ghost function Here(): Site
    {
      Site(mgr.pid, mgr.clusterID, routeAdv.clusterName, cudn.vtepName)
    }

    ghost function Now(): Snapshot
      reads this, mgr.broker, cudn, routeAdv
    {
      Snapshot(mgr.broker.sys, Local(cudn.cudns, routeAdv.stored), stored, failures, cudn.failures, routeAdv.failures)
    }

    // One pass. No side effect on the broker or on local networks exists before
    // the cleanup finalizer is stored.
    method Reconcile(namespaceFound: bool)
      returns (r: Pass, ghost joined: Result<McnSpec, StoreError>, ghost done: Cleanup)
      requires mgr.At(P.Idle) && P.Inv(mgr.broker.sys)
      modifies this, mgr.broker, cudn, routeAdv
      ensures mgr.At(P.Idle) && P.Inv(mgr.broker.sys)
      ensures match old(stored)
        case None => r == Finished && Now() == old(Now())
        case Some(mcnc) =>
          if mcnc.deleting then DeletionMade(Here(), mcnc, old(Now()), Now(), r, done)
          else if CLEANUP !in mcnc.finalizers then GuardMade(mcnc, old(Now()), Now(), r)
          else PassMade(Here(), mcnc, namespaceFound, old(Now()), Now(), r, joined)
    {
      joined, done := Err(Unavailable), Cleanup(true, true, true);
      if stored == None {
        return Finished, joined, done;
      }
      var mcnc := stored.value;
      if mcnc.deleting {
        r, done := HandleDelete(mcnc);
        return;
      }
      var guarded := ContainsString(mcnc.finalizers, CLEANUP);
      if !guarded {
        var ok := Store(mcnc.(finalizers := mcnc.finalizers + [CLEANUP]));
        return if ok then Requeued else Failed, joined, done;
      }
      r, joined := ReconcileMCNC(mcnc, namespaceFound);
    }

    method Fail(mcnc: Mcnc) returns (r: Pass)
      modifies this
      ensures r == Failed && failures >= old(failures)
      ensures stored == old(stored) || stored == Some(mcnc.(phase := Error))
    {
      var updated := Store(mcnc.(phase := Error));
      r := Failed;
    }

    method ReconcileMCNC(mcnc: Mcnc, namespaceFound: bool) returns (r: Pass, ghost joined: Result<McnSpec, StoreError>)
      requires mgr.At(P.Idle) && P.Inv(mgr.broker.sys)
      modifies this, mgr.broker, cudn, routeAdv
      ensures mgr.At(P.Idle) && P.Inv(mgr.broker.sys)
      ensures PassMade(Here(), mcnc, namespaceFound, old(Now()), Now(), r, joined)
    {
      joined := Err(Unavailable);
      if !namespaceFound || JoinTarget(mcnc.spec) == None {
        r := Fail(mcnc);
        return;
      }
      var target := JoinTarget(mcnc.spec).value;
      var mcn := ReconcileMCN(target);
      joined := mcn;
      if mcn.Err? {
        r := Fail(mcnc);
        return;
      }
      r := Attach(mcnc, mcn.value);
    }

    // The local steps of reconcileMCNC: the network, its advertisement, the status.
    method Attach(mcnc: Mcnc, mcn: McnSpec) returns (r: Pass)
      requires JoinTarget(mcnc.spec).Some?
      modifies this, cudn, routeAdv
      ensures LocalsFollow(Here(), mcnc.spec, old(Now()).local, Now().local, Ok(mcn))
      ensures Attached(Here(), mcnc, old(Now()), Now(), r, mcn)
    {
      var name := JoinTarget(mcnc.spec).value.name;
      var network := ReconcileLocalNetwork(mcnc.spec, name, mcn);
      if network == None {
        r := Fail(mcnc);
        return;
      }
      var advertised := routeAdv.CreateForCUDN(network.value, name);
      if !advertised {
        r := Fail(mcnc);
        return;
      }
      var ok := Store(mcnc.(phase := Connected));
      r := if ok then Finished else Failed;
    }

    // reconcileMCN, once it has found what to join.
    method ReconcileMCN(target: CreateParams) returns (joined: Result<McnSpec, StoreError>)
      requires mgr.At(P.Idle) && P.Inv(mgr.broker.sys)
      modifies mgr.broker
      ensures mgr.At(P.Idle) && P.Inv(mgr.broker.sys)
      ensures exists trace :: JoinedBy(Here(), target, old(mgr.broker.sys), mgr.broker.sys, trace, joined)
    {
      ghost var sys0, trace := mgr.broker.sys, [];
      joined, trace := mgr.CreateOrJoinMCN(target.name, target.topology);
      McnSafety.RunKeepsInv(sys0, trace);
      assert JoinedBy(Here(), target, sys0, mgr.broker.sys, trace, joined);
    }

    // reconcileLocalNetwork.
    method ReconcileLocalNetwork(spec: McncSpec, mcnName: string, mcn: McnSpec) returns (r: Option<string>)
      modifies cudn
      ensures r.Some? ==> CudnConnected(old(cudn.cudns), cudn.cudns, spec, mcnName, cudn.vtepName, mcn)
      ensures r.Some? ==> r == ConnectedCudn(spec, mcnName) && cudn.failures == old(cudn.failures)
      ensures r == None ==> cudn.failures > old(cudn.failures) || NetworkRefused(old(cudn.cudns), spec, mcnName, mcn)
      ensures cudn.cudns != old(cudn.cudns) ==> CudnConnected(old(cudn.cudns), cudn.cudns, spec, mcnName, cudn.vtepName, mcn)
      ensures cudn.failures >= old(cudn.failures)
    {
      if spec.localCudn != "" {
        var err := cudn.PatchCUDNWithEVPN(spec.localCudn, mcn);
        return if err == None then Some(spec.localCudn) else None;
      }
      if spec.cudnSpec.Some? {
        var created := cudn.CreateCUDN(spec.cudnSpec.value, mcnName, mcn);
        return if created.Ok? then Some(created.value) else None;
      }
      return None;
    }

    // handleDelete: a step that fails is skipped and the finalizer is removed all
    // the same.
    method HandleDelete(mcnc: Mcnc) returns (r: Pass, ghost done: Cleanup)
      requires mgr.At(P.Idle) && P.Inv(mgr.broker.sys)
      modifies this, mgr.broker, cudn, routeAdv
      ensures mgr.At(P.Idle) && P.Inv(mgr.broker.sys)
      ensures DeletionMade(Here(), mcnc, old(Now()), Now(), r, done)
    {
      done := Cleanup(true, true, true);
      var name := LeaveTarget(mcnc.spec);
      if name != "" {
        var network := DisconnectedCudn(mcnc.spec, name);
        var ok := routeAdv.DeleteForCUDN(network);
        done := done.(raGone := ok);
        if mcnc.spec.cudnSpec.Some? {
          ok := cudn.DeleteCUDN(network);
          done := done.(cudnGone := ok);
        }
        ok := LeaveMCN(name);
        done := done.(left := ok);
      }
      r := Finished;
      var guarded := ContainsString(mcnc.finalizers, CLEANUP);
      if guarded {
        var rest := RemoveString(mcnc.finalizers, CLEANUP);
        var ok := Store(mcnc.(finalizers := rest));
        r := if ok then Finished else Failed;
      }
    }

    method LeaveMCN(name: string) returns (ok: bool)
      requires mgr.At(P.Idle) && P.Inv(mgr.broker.sys)
      modifies mgr.broker
      ensures mgr.At(P.Idle) && P.Inv(mgr.broker.sys)
      ensures exists trace :: LeftBy(Here(), name, old(mgr.broker.sys), mgr.broker.sys, trace, ok)
    {
      ghost var sys0 := mgr.broker.sys;
      var leaving, trace, moment := mgr.LeaveMCN(name);
      McnSafety.RunKeepsInv(sys0, trace);
      ok := leaving.Ok?;
      assert LeftBy(Here(), name, sys0, mgr.broker.sys, trace, ok);
    }
  }
}
