# SkyNet: a verified model of the multi-cluster network control plane

SkyNet stretches networks over several Kubernetes clusters. Each cluster runs an
agent; all agents share one broker. This project models the parts of that control
plane that are protocols or arithmetic, and proves what they promise over every
run and every input. `dafny verify dfyconfig.toml` checks the whole project.

| files | what they model |
|---|---|
| `McnProtocol`, `McnSafety`, `McnProgress`, `McnRace`, `McnCalls`, `McnManager`, `VniAllocator`, `Finalizers` | Agents create, join and leave named networks on the broker. The protocol is a state machine in which every request of every agent is one step and all steps interleave arbitrarily, with lost replies, refused requests, crashes, requested deletions and garbage collection. `McnManager` is the manager in the source's own imperative form; each of its calls is proved to be a run of that machine, so whatever holds of all runs holds of it. |
| `Ipv4`, `Pools`, `Allocators`, `OperatorProtocol`, `AgentEnv`, `Text`, `Decimal`, `Wrappers`, `Arithmetic` | Operators choose a VTEP CIDR and an ASN for their cluster and check them against the broker before their agent publishes them; the values travel to the agent as environment text. |
| `BgpMesh`, `FrrConfig` | Each node's BGP neighbour list, built independently, and what all the lists together amount to; the raw FRR text. |
| `MergePatch`, `Cudn`, `RouteAdv`, `Connect` | One MultiClusterNetworkConnect: broker join, EVPN merge patch or creation of the ClusterUserDefinedNetwork (CUDN), RouteAdvertisement, and the way back. |
| `ClusterProtocol`, `ClusterRecord` | Registration, endpoint reports and heartbeats as read-modify-write operations on one versioned Cluster record. |
| `Runs` | Folding a step function over a list of events. |

## How the source is represented

- A broker or API server is a map of records with one version counter. Create is
  refused when the name is taken, Update when the version that was read is no
  longer current, List shows one consistent state. Every request may be refused, or
  be executed while its reply is lost.
- The method `Others` of `Broker` and of `LocalApi` stands for a gap between two
  requests. It modifies the stored records, and callers know only its contract: any
  steps of the other processes and of the environment may have happened in it. Its
  body does nothing, which is one of the behaviours the contract allows; no proof
  looks at the body. `McnProgress.CreateRaceResolved` and
  `ClusterProtocol.FirstWriterWins` say what such interference leads to.
- A call that fails says why in terms of its own run (`Explains`, `Performs`): the
  answer of its last request in the state that the steps before it had led to.
- A record that is being deleted and has no finalizers left is removed by a step of
  its own (`Collect`). An API server that refuses to add a finalizer to a record
  that is being deleted is the case of a refused request.
- The integer width of the source is explicit where it matters: `int32` bounds and
  wrap-around in the ASN search, `int32`/`int64`/`uint32` bounds in parsing, the
  truncation to `uint32` in the test that skips a CUDN patch. Masks are divisions
  by powers of two. JSON numbers are integers.
- Results named `trace`, `ops`, `op`, `joined`, `done` or `moment` and the counters of failed
  requests are ghost: they tie a call to what it did and do not exist at run time.

## What the code does that its documentation does not say

- **ASN search (`Allocators.AsnSearchKeepsPromise`).** When a pool ends at
  2147483647 and is used up, the `int32` counter wraps; the loop then hands out an
  ASN at or below 0 that the code's own validator refuses. It keeps its promise in
  exactly the other cases. Getting there needs a broker that does not enforce the
  shipped schema of Cluster records, which admits no ASN above 65534.
- **Recomputation (`Allocators.RecomputingIsStableIff`).** The allocators count the
  cluster's own record as taken. When the status is lost after publication, the same
  values come back exactly when the user gave both, they are still valid, and nobody
  else has them; an allocated value is never given to its own cluster again.
- **Other spellings (`Pools.AnotherSpellingAccepted`, `Pools.HostBitsAccepted`).**
  Uniqueness of VTEP CIDRs is decided on strings. Every CIDR the validator accepts has
  another accepted spelling of the same value (a leading zero in the prefix length),
  and every canonical one another accepted spelling of the same block (host bits).
- **Pools longer than the subnet (`Pools.AcceptedInsideIffPoolShorter`).** One
  address is tested. The CIDR lies in the pool exactly when the pool prefix is not
  longer than the required length.
- **A bound of zero (`AgentEnv.AgentAcceptsIffNonzero`).** The operator accepts an
  ASN bound of 0, which every agent then refuses.
- **Skipped patches (`Cudn.PatchDeliversIff`, `Cudn.Layer2SkipMisses`).** The test
  that skips the patch looks at `ipVRF` whatever the topology, compares VNIs after
  truncation to 32 bits, and does not look at the VTEP. A Layer2 CUDN that already
  carries an `ipVRF` with the VNI is reported connected without a `macVRF`.
- **Both fields of an exclusive pair (`Connect.NamesAgreeIff`,
  `Connect.DisagreeingFieldsLeak`).** Connecting and deleting resolve the pair in
  opposite order, so deletion cleans up other names exactly when the two disagree.
- **An EVPN network that was there before (`Connect.DisconnectUndoesConnect`).** On
  the `cudnSpec` path it is adopted without comparison and deleted on disconnect.
- **The VNI race** that README.md:87-90 of the repository admits is characterised
  from both sides: it needs the later creator's List before the earlier creator's
  Create (`McnSafety.DuplicateOnlyIfOverlap`), and listing first is enough
  whatever happens in between (`McnRace.OverlapDuplicates`, `McnSafety.RaceIsReachable`).

## Model

| member | source | states |
|---|---|---|
| McnSafety.Agreement | pkg/agent/mcn/mcn_manager.go:83-192 | In every run, while a cluster has not left, the record is still there with exactly the VNI, route target and topology its join returned, and with its finalizer |
| McnSafety.JoinedClustersAgree | pkg/agent/mcn/mcn_manager.go:165-175 | Any two joined clusters were given the same values, winner and loser of a create race included |
| McnSafety.MembershipRefinesSet | pkg/agent/mcn/mcn_manager.go:104-123 | The finalizer list is duplicate-free and is exactly the set of clusters whose last committed operation was a create or join: no concurrent join or leave is lost |
| McnSafety.CommitsAreLegal | pkg/agent/mcn/mcn_manager.go:194-226 | The commits of every run are a legal history of an atomic set; a record never goes away while somebody is in it |
| McnSafety.NoCommitWhileJoined | pkg/agent/mcn/mcn_manager.go:104-111 | While a cluster stays joined no further join or create is committed for it |
| McnSafety.RequestSparesOthers | pkg/agent/mcn/mcn_manager.go:209-222 | No request of one cluster changes another cluster's membership, finalizer or the network's values |
| McnSafety.StaysOut | pkg/agent/mcn/mcn_manager.go:194-226 | A cluster that is out stays out until it creates or joins again |
| McnSafety.ReachableInv | pkg/agent/mcn/mcn_manager.go:83-269 | Every reachable state of the protocol satisfies the whole invariant |
| McnSafety.DuplicateOnlyIfOverlap | pkg/agent/allocator/vni_allocator.go:61-119 | Coexisting records share a VNI only if the later creator listed before the earlier one created |
| McnRace.OverlapDuplicates | README.md:87-90 | Two agents that list while the same VNI is the first free one, before the first of them creates, give both networks that VNI, in either order and with any steps of others in all gaps, as long as the first creator stays |
| McnSafety.OverlapDuplicates | README.md:87-90 | The same for four requests in a row, from every state in which both are about to list |
| McnSafety.RaceIsReachable | README.md:87-90 | The race does happen from an empty broker |
| McnSafety.VnisDistinct | pkg/agent/mcn/mcn_manager.go:142-166 | Without overlapping List-to-Create windows all VNIs are pairwise distinct |
| McnSafety.VniCapacity | pkg/agent/allocator/vni_allocator.go:109-119 | Then at most 5001 networks coexist and the search fails exactly at that number |
| McnSafety.SpecsWellFormed | pkg/agent/allocator/vni_allocator.go:121-138 | In every run VNIs lie in 5000..10000 (24 bits, section 5 of RFC 7348) and are recovered from the record's route target |
| McnProgress.UndisturbedJoin | pkg/agent/mcn/mcn_manager.go:83-192 | Undisturbed, a join returns a member its record, adds a newcomer's finalizer last, creates a missing network with the first free VNI, and does nothing when none is free |
| McnProgress.UndisturbedLeave | pkg/agent/mcn/mcn_manager.go:194-226 | Undisturbed, a leave removes this cluster's finalizer and nothing else, and is a no-op for a non-member |
| McnCalls.JoinCreates | pkg/agent/mcn/mcn_manager.go:126-192 | An undisturbed join of an unused name stores and returns a network with the topology of the call, the first free VNI, route target 65000:VNI, this cluster's finalizer alone and no deletion mark; nothing else changes |
| McnCalls.JoinExhausted | pkg/agent/allocator/vni_allocator.go:109-119 | With 5000 to 10000 all in use it changes and returns nothing |
| McnCalls.JoinJoins | pkg/agent/mcn/mcn_manager.go:104-123 | A newcomer's finalizer is appended, the network keeps its values whatever topology was asked for, and they are returned |
| McnCalls.JoinReturns | pkg/agent/mcn/mcn_manager.go:105-110 | A member gets its network's values back and nothing changes |
| McnCalls.LeaveLeaves | pkg/agent/mcn/mcn_manager.go:196-226 | A leave takes off the cluster's finalizer, keeps all others, the values and the mark |
| McnCalls.LeaveOutsider | pkg/agent/mcn/mcn_manager.go:199-213 | For a missing network or a non-member it changes nothing |
| McnProgress.JoinThenLeaveRestores | pkg/agent/mcn/mcn_manager.go:104-226 | Join then leave restores the record, finalizer order included, and touches no other |
| McnProgress.CreateThenLeaveStays | pkg/agent/mcn/mcn_manager.go:194-195 | A network whose creator left stays without members until deletion is requested, and then goes away leaving the broker as it was |
| McnProgress.CreateRaceResolved | pkg/agent/mcn/mcn_manager.go:161-180 | Two agents about to create one name, from any state: the second joins the first's record and returns the first's VNI and topology |
| McnCalls.RaceGivesWinners | pkg/agent/mcn/mcn_manager.go:161-180 | The race in plain terms: the record has the winner's VNI and topology and both finalizers, and both calls return it |
| McnCalls.RequestCreates | pkg/agent/mcn/mcn_manager.go:128-166 | In any state, a record appears only by a Create, with the name, topology and VNI its process carries and that cluster's finalizer |
| McnCalls.RequestCarries | pkg/agent/mcn/mcn_manager.go:83-101 | Until then the process carries the name and topology of its call unchanged |
| McnCalls.EverythingWasAsked | pkg/agent/mcn/mcn_manager.go:83-192 | In every run each network has a topology that a call for this very network asked for |
| McnCalls.KeptUnlessDeletionRequested | pkg/agent/mcn/mcn_manager.go:194-195 | In every run a network whose deletion was not requested is neither marked nor removed |
| McnManagers.MCNManager.CreateOrJoinMCN | pkg/agent/mcn/mcn_manager.go:83-101 | The call is one call of the protocol and nothing else; on success, whatever the others did, the broker holds the returned values with this cluster in unless it left; it fails only for a lost version race, a record that vanished, an exhausted range or a failed request, and then nothing was returned to it |
| McnManagers.MCNManager.JoinExistingMCN | pkg/agent/mcn/mcn_manager.go:104-123 | Returns what was read if already joined, otherwise what its versioned Update stored |
| McnManagers.MCNManager.CreateNewMCN | pkg/agent/mcn/mcn_manager.go:126-192 | Success returns a record this cluster is in, its own or, after a lost race, the winner's |
| McnManagers.MCNManager.SendMCN | pkg/agent/mcn/mcn_manager.go:161-182 | The Create returns the new record, or finds the name taken and joins nothing yet |
| McnManagers.MCNManager.JoinAfterConflict | pkg/agent/mcn/mcn_manager.go:169-179 | The loser of a create race returns what the winner stored |
| McnManagers.MCNManager.AllocateVNI | pkg/agent/allocator/vni_allocator.go:61-82 | List, collect, search: the VNI is the protocol's choice for the listed state |
| McnManagers.MCNManager.ListVNIs | pkg/agent/allocator/vni_allocator.go:85-106 | The collected set is exactly the VNIs on the broker at the List |
| McnManagers.MCNManager.LeaveMCN | pkg/agent/mcn/mcn_manager.go:196-226 | The call is one leave of the protocol; on success there was a moment during it at which the cluster was out; it fails only for the reasons a join can have |
| McnManagers.MCNManager.UpdateToLeave | pkg/agent/mcn/mcn_manager.go:212-222 | A successful versioned Update leaves the cluster out |
| McnManagers.GetAllocatedVNIs | pkg/agent/allocator/vni_allocator.go:85-106 | Exactly the nonzero VNIs of the listed records |
| VniAllocator.FindNextAvailableVNI | pkg/agent/allocator/vni_allocator.go:109-119 | The least unused VNI of the range, and none exactly when all are used |
| VniAllocator.ExhaustedIffFull | pkg/agent/allocator/vni_allocator.go:109-119 | Pigeonhole: exhausted exactly with 5001 distinct in-range VNIs |
| VniAllocator.RouteTargetRoundTrip | pkg/agent/allocator/vni_allocator.go:129-138 | The route target determines its VNI |
| VniAllocator.RangeIs | pkg/agent/allocator/vni_allocator.go:121-127 | The range is 5000 to 10000, 5001 values |
| VniAllocator.RouteTargetText | pkg/agent/allocator/vni_allocator.go:129-138 | The route target reads 65000, colon, the VNI in decimal |
| Finalizers.FinalizerNameInjective | pkg/agent/mcn/mcn_manager.go:271-275 | Different clusters never share a finalizer |
| Finalizers.AppendThenRemove | pkg/agent/mcn/mcn_manager.go:288-296 | Removing what was just appended restores the list |
| Finalizers.WithoutConcat | pkg/agent/mcn/mcn_manager.go:288-296 | Removal goes element by element, so what stays keeps its order |
| Finalizers.ContainsString | pkg/agent/mcn/mcn_manager.go:279-286 | Membership, both directions |
| Finalizers.RemoveString | pkg/agent/mcn/mcn_manager.go:288-296 | Everything but the given string, in order |
| Ipv4.ParsePrintAddr | pkg/operator/alloc/vtep.go:107-111 | Parsing an address undoes printing it |
| Ipv4.PrintParseAddr | pkg/operator/alloc/validate.go:18-21 | Printing undoes parsing: one accepted spelling per address |
| Ipv4.ParsePrintCidr | pkg/operator/alloc/vtep.go:107-111 | Parsing a CIDR undoes printing it |
| Ipv4.CanonicalDistinctIffDisjoint | pkg/operator/skynet/reconciler.go:200 | Canonical CIDRs of equal length differ as strings exactly when their address sets are disjoint |
| Ipv4.HostBitsDefeatStringComparison | pkg/operator/skynet/reconciler.go:200 | Every canonical CIDR with host bits has another spelling, with another address, of the same block |
| Ipv4.LeadingZeroDefeatsStringComparison | pkg/operator/skynet/reconciler.go:200 | Every CIDR that parses has another spelling of the same value |
| Pools.HostBitsAccepted | pkg/operator/alloc/validate.go:17-39 | The validator accepts such a spelling with host bits, for every pool prefix no longer than the subnet's |
| Pools.AnotherSpellingAccepted | pkg/operator/alloc/validate.go:17-39 | Beside every CIDR it accepts, the validator accepts another spelling of the same value |
| Ipv4.InsideIffPoolShorter | pkg/operator/alloc/validate.go:29-37 | A CIDR one of whose addresses is in the pool lies inside it exactly when the pool prefix is no longer |
| Pools.AcceptedInsideIffPoolShorter | pkg/operator/alloc/validate.go:17-39 | The same for every CIDR the validator accepts |
| Pools.AcceptedIffInside | pkg/operator/alloc/validate.go:17-39 | For such a pool the validator accepts exactly the CIDRs of the required length that lie wholly inside |
| Pools.AcceptedOverlap | pkg/operator/alloc/validate.go:17-39 | Accepted CIDRs overlap exactly when masking gives the same block |
| Pools.PoolsFromConfigMapData | pkg/operator/alloc/poolconfig.go:62-122 | Succeeds exactly when every field is the default or parses and the bounds are in order, and returns those fields |
| Pools.IntFieldIff | pkg/operator/alloc/poolconfig.go:62-122 | A blank field has its default, any other is the signed number written there within its width, or an error |
| Pools.UintFieldIff | pkg/operator/alloc/poolconfig.go:62-122 | The same without a sign |
| Pools.DefaultsAre | pkg/operator/alloc/poolconfig.go:38-48 | The defaults in numbers |
| Allocators.FindNextAvailableCidr | pkg/operator/alloc/vtep.go:85-118 | The /16 with the least unused second octet; fails exactly when the pool is unsupported or all 256 are used |
| Allocators.AllocatedVtepIsSound | pkg/operator/alloc/vtep.go:98-118 | That CIDR is canonical, accepted by the validator, inside the pool, and disjoint from every canonical /16 in use |
| Allocators.GetAllocatedVtepCidrs | pkg/operator/alloc/vtep.go:65-83 | Exactly the nonempty CIDRs of the listed records |
| Allocators.FindNextAsn | pkg/operator/alloc/asn.go:54-62 | Terminates for every int32 pool; the least unused ASN, an error, or the wrapped answer |
| Allocators.AsnSearchKeepsPromise | pkg/operator/alloc/asn.go:43-63 | It keeps its promise exactly when the pool ends below 2147483647 or has a free ASN |
| Allocators.AsnSearchWraps | pkg/operator/alloc/asn.go:54-62 | A concrete pool for which it does not |
| Allocators.GetAllocatedAsns | pkg/operator/alloc/asn.go:65-83 | Exactly the nonzero ASNs of the listed records |
| Allocators.EnsureBrokerUnique | pkg/operator/skynet/reconciler.go:186-208 | Succeeds exactly when no other cluster has the CIDR string or the ASN; an error names one that has, and which of the two |
| Allocators.AllocateVtepCidr | pkg/operator/alloc/vtep.go:45-63 | The least /16 that is on nobody's record, exhaustion exactly when all 256 are taken, and the error for a failed list or an unsupported pool |
| Allocators.VtepAnswerIsSound | pkg/operator/alloc/vtep.go:45-63 | Such an answer is canonical, accepted by the validator and disjoint from every canonical /16 on the list |
| Allocators.AllocateAsn | pkg/operator/alloc/asn.go:43-63 | The least ASN of the range that is on nobody's record (or the wrapped answer), exhaustion exactly when there is none, and the error for a failed list |
| Allocators.ComputeVtepAndAsn | pkg/operator/skynet/reconciler.go:147-184 | Every answer, success and error, is determined: status values are kept; otherwise each value is the user's if valid or allocated, the first error is the answer, and a clash names a cluster that clashes |
| Allocators.ComputedIsSound | pkg/operator/skynet/reconciler.go:147-208 | A computed pair is the user's where given, validated, canonical where allocated, and clashes with nobody on the last list |
| Allocators.RecomputingIsStableIff | pkg/operator/alloc/vtep.go:65-83 | With the cluster's own values already published, computing again returns them exactly when both are the user's, valid and nobody else's |
| OperatorProtocol.UniqueIsEnsureBrokerUnique | pkg/operator/skynet/reconciler.go:186-208 | The protocol's check is what the method decides on a List |
| OperatorProtocol.ClashOnlyIfOverlap | pkg/operator/skynet/reconciler.go:178-207 | Two clusters share a CIDR string or ASN only if the later publisher checked before the earlier published |
| OperatorProtocol.OverlapClashes | pkg/operator/skynet/reconciler.go:178-207 | When both checks pass for the same values before either is published, both clusters end up with them, whatever happens in between, unless the record published first is replaced or deleted |
| OperatorProtocol.ClashIsReachable | pkg/operator/skynet/reconciler.go:178-207 | For any two clusters and any values such a run starts from an empty broker |
| OperatorProtocol.RegistrationsDisjoint | pkg/operator/skynet/reconciler.go:178-207 | Without overlapping windows ASNs differ and accepted canonical blocks are disjoint |
| Pools.PoolsFromValuesIff | pkg/operator/alloc/poolconfig.go:125-142 | Which values make a pool, and that they are kept |
| Decimal.ParsePrintInt | pkg/operator/skynet/agent_resources.go:98-103 | Signed decimal print and parse are inverse, with the range check in both directions |
| Decimal.ParseIntIff | pkg/agent/bootstrap/env.go:71-85 | Exactly the numerals (optional sign, at least one digit) with a value inside the bounds are accepted, with that value |
| Text.TrimSpaceFixes | pkg/agent/bootstrap/env.go:58-93 | Trimming yields a trimmed string and fixes exactly the trimmed ones |
| Text.TrimSpaceCuts | pkg/agent/bootstrap/env.go:58-93 | Trimming cuts white space and nothing else, at the ends |
| AgentEnv.LoadEnv | pkg/agent/bootstrap/env.go:58-93 | Each field is what its variable says; a number that does not parse is zero |
| AgentEnv.EnvRoundTrip | pkg/operator/skynet/agent_resources.go:89-103 | Rendering the environment and loading it gives the same values back, for every int32 |
| AgentEnv.BrokerArrives | pkg/operator/skynet/agent_resources.go:73-83 | The broker's address and namespace arrive, the namespace by default skynet-broker |
| AgentEnv.SecretsArrive | pkg/agent/bootstrap/env.go:62-65 | Token and CA arrive from the secret, the CA untrimmed; the kubeconfig path is empty |
| AgentEnv.AgentAcceptsIff | pkg/agent/agent.go:282-291 | What the agent's checks accept, by addresses and numbers |
| AgentEnv.AgentAcceptsIffNonzero | pkg/agent/agent.go:282-291 | For pools and identifiers the operator accepted, all of the agent's checks succeed exactly when no ASN bound nor the ASN is zero and the cluster ID is not blank |
| AgentEnv.DefaultsAgree | pkg/operator/alloc/poolconfig.go:38-48 | With the default pools every pair the operator can allocate is accepted by its agent |
| BgpMesh.BuildNeighborsForNode | pkg/agent/bgp/bgp_configurator.go:175-225 | The loops build the specified list, in order, with the right counts |
| BgpMesh.GetRemoteClusters | pkg/agent/agent.go:522-548 | Exactly the listed clusters with another ID |
| BgpMesh.ListsExactly | pkg/agent/bgp/bgp_configurator.go:175-225 | A node's list holds exactly the entries it should: own cluster without multihop, other clusters with it and with their ASN |
| BgpMesh.FullMeshAddresses | pkg/agent/bgp/bgp_configurator.go:175-225 | In a full mesh every other node exactly once, never itself, length total minus one |
| BgpMesh.SessionsExactly | pkg/agent/bgp/bgp_configurator.go:182-219 | Which pairs list each other, in both topologies: across clusters with reflectors exactly when both are reflectors |
| BgpMesh.ReflectorsConnect | pkg/agent/bgp/bgp_configurator.go:200-206 | With a reflector in both clusters, any two nodes are at most three sessions apart |
| BgpMesh.ConnectedIffReflectors | pkg/agent/bgp/bgp_configurator.go:200-206 | Nodes of different clusters are connected exactly when both clusters have a reflector |
| FrrConfig.RawConfig | pkg/agent/bgp/bgp_configurator.go:311-335 | The text grown by the loop is the specified one |
| FrrConfig.RawConfigReadsBack | pkg/agent/bgp/bgp_configurator.go:326-335 | Reading the text back yields, in order, one outbound and one inbound removal per neighbour and nothing else |
| FrrConfig.HeaderIs | pkg/agent/bgp/bgp_configurator.go:314-329 | The template line by line, with the ASN and the VTEP CIDR in their places |
| FrrConfig.TextLines | pkg/agent/bgp/bgp_configurator.go:314-335 | Splitting the text gives template, removals and end, in this order |
| FrrConfig.RemovalsAt | pkg/agent/bgp/bgp_configurator.go:330-334 | Two removals per neighbour, outbound first |
| FrrConfig.ConfigNamesDiffer | pkg/agent/bgp/bgp_configurator.go:127-128 | Configurations of different nodes never collide with each other or with the generic one |
| FrrConfig.BGPConfigurator.ReconcileBGPConfig | pkg/agent/bgp/bgp_configurator.go:103-124 | The store after a pass: failing nodes are skipped, and no more nodes are skipped than requests have failed; the generic configuration is gone unless a request failed |
| FrrConfig.BGPConfigurator.ReconcileNode | pkg/agent/bgp/bgp_configurator.go:127-155 | The node's configuration, and no other, is stored unless a request failed |
| FrrConfig.BGPConfigurator.StoredPerNode | pkg/agent/bgp/bgp_configurator.go:103-155 | Each stored node has the configuration of its own neighbour list, all other configurations are unchanged |
| FrrConfig.BGPConfigurator.StoredIsMesh | pkg/agent/bgp/bgp_configurator.go:103-124 | Every configuration a pass stores has this cluster's ASN and a neighbour for exactly the nodes of all clusters it should list, each with its own cluster's ASN and multihop flag, in a full mesh each once |
| FrrConfig.BGPConfigurator.StoredRawReadsBack | pkg/agent/bgp/bgp_configurator.go:311-340 | Its raw text, present exactly with a VTEP CIDR, removes the policies of the neighbours stored beside it |
| MergePatch.Idempotent | pkg/agent/cudn/cudn_integrator.go:189-211 | Applying a merge patch (section 2 of RFC 7386) twice equals applying it once, for arbitrary JSON |
| MergePatch.Frame | pkg/agent/cudn/cudn_integrator.go:189-211 | A path the patch is silent about keeps its value |
| MergePatch.Arrives | pkg/agent/cudn/cudn_integrator.go:189-211 | A scalar of the patch arrives at its path |
| MergePatch.NullRemoves | pkg/agent/cudn/cudn_integrator.go:189-211 | A null of the patch removes the member |
| Cudn.PatchedFrame | pkg/agent/cudn/cudn_integrator.go:189-211 | Everything outside spec.network.transport and spec.network.evpn stays as the user wrote it |
| Cudn.PatchedTwice | pkg/agent/cudn/cudn_integrator.go:158-220 | Patching twice is patching once, Layer2 included |
| Cudn.PatchedStaysValid | pkg/agent/cudn/cudn_integrator.go:223-251 | A CUDN that was accepted is accepted again after the patch |
| Cudn.AppliedCarriesVrf | pkg/agent/cudn/cudn_integrator.go:254-279 | A patch that is sent puts the record's VNI and route target into the VRF block of its topology |
| Cudn.AppliedCarriesEvpn | pkg/agent/cudn/cudn_integrator.go:254-279 | It names the local VTEP as well |
| Cudn.AppliedSparesOthers | pkg/agent/cudn/cudn_integrator.go:254-279 | Below spec.network.evpn nothing but the VTEP and the block of the topology is touched |
| Cudn.ValidateIff | pkg/agent/cudn/cudn_integrator.go:223-251 | A network is accepted exactly with the record's topology and a transport that is absent, empty or EVPN |
| Cudn.PatchDeliversIff | pkg/agent/cudn/cudn_integrator.go:172-188 | A successful patch delivers them, and the VTEP, exactly when it was not skipped or they were there |
| Cudn.Layer3SkipSoundIff | pkg/agent/cudn/cudn_integrator.go:172-188 | For Layer3 the skip is right exactly for VNIs that fit 32 bits and a VTEP that is already the local one |
| Cudn.Layer2SkipMisses | pkg/agent/cudn/cudn_integrator.go:172-188 | The family of Layer2 CUDNs for which it is wrong |
| Cudn.Layer2SkipExample | pkg/agent/cudn/cudn_integrator.go:172-188 | One such CUDN |
| Cudn.CreatedCudn | pkg/agent/cudn/cudn_integrator.go:60-154 | A created CUDN carries the record's values and the VTEP, and passes the patch validation exactly when the topologies agree |
| Cudn.BuiltAsAsked | pkg/agent/cudn/cudn_integrator.go:122-141 | Name and selector labels of a created CUDN are the user's |
| Cudn.BuiltNetwork | pkg/agent/cudn/cudn_integrator.go:86-119 | So are its topology, and the role (Primary by default) and subnets of the layer of that topology |
| Cudn.CUDNIntegrator.PatchCUDNWithEVPN | pkg/agent/cudn/cudn_integrator.go:158-220 | Missing and invalid CUDNs are refused untouched, with the validator's reason; success patches that one; a failed request changed nothing or just that |
| Cudn.CUDNIntegrator.CreateCUDN | pkg/agent/cudn/cudn_integrator.go:60-154 | An existing EVPN CUDN is kept as it is, a missing one is created |
| Cudn.CUDNIntegrator.DeleteCUDN | pkg/agent/cudn/cudn_integrator.go:284-299 | Success removes exactly that CUDN; one that is missing is no error |
| RouteAdv.NamesDiffer | pkg/agent/routeadv/creator.go:57-60 | Different CUDNs of a cluster never share an advertisement |
| RouteAdv.Creator.CreateForCUDN | pkg/agent/routeadv/creator.go:57-129 | What is there stays, what is missing is created |
| RouteAdv.Creator.DeleteForCUDN | pkg/agent/routeadv/creator.go:132-147 | Success removes exactly that advertisement |
| Connect.MCNCReconciler.Reconcile | pkg/agent/controller/mcnc_controller.go:76-107 | Before the cleanup finalizer is stored a pass only asks for it; after that every pass, failed or not, is one that `PassMade` or `DeletionMade` admits: what it may have changed, and why it failed |
| Connect.MCNCReconciler.ReconcileMCNC | pkg/agent/controller/mcnc_controller.go:110-165 | The join is called and its answer is the one used; local networks stay or get what the joined record asks for, whatever the result; it fails only for a missing namespace or target, a reason the join gives, a refused network or a failed request |
| Connect.MCNCReconciler.Attach | pkg/agent/controller/mcnc_controller.go:138-160 | The local half of that |
| Connect.FinishedIsConnected | pkg/agent/controller/mcnc_controller.go:110-165 | A pass that ends Connected has the CUDN, the advertisement and, unless the cluster left meanwhile, the broker record with this cluster in it |
| Connect.PassCalls | pkg/agent/controller/mcnc_controller.go:168-189 | By the fields of the spec: which call a pass makes, with which topology, and that it fails without a call only with no namespace or no network named |
| Connect.PassAdvertises | pkg/agent/controller/mcnc_controller.go:200-231 | By the fields of the spec: which CUDN a finished pass connects, and the advertisement it leaves |
| Connect.MCNCReconciler.ReconcileLocalNetwork | pkg/agent/controller/mcnc_controller.go:200-231 | Patch or create, with the name that was used; whatever the result nothing else changes; fails only for a failed request or a network that is refused |
| Connect.MCNCReconciler.HandleDelete | pkg/agent/controller/mcnc_controller.go:306-378 | Every step is taken; what each removes; a step counts as failed only with a failed request of its own or a reason the leave gives; the finalizer is removed all the same |
| Connect.CompleteDeletionDisconnects | pkg/agent/controller/mcnc_controller.go:346-366 | When no request fails, deletion removes everything disconnecting removes |
| Connect.DeletionCalls | pkg/agent/controller/mcnc_controller.go:309-366 | By the fields of the spec: which network a deletion leaves, and which CUDN and advertisement it removes |
| Connect.NamesAgreeIff | pkg/agent/controller/mcnc_controller.go:168-183 | Connecting and deleting use the same names exactly when doubly filled pairs agree |
| Connect.CudnSettled | pkg/agent/cudn/cudn_integrator.go:60-220 | After a pass the same pass is possible again, and only without change |
| Connect.ConnectedIsFixedPoint | pkg/agent/controller/mcnc_controller.go:110-231 | After a pass that ended Connected, every further pass of any number, succeeding or failing anywhere, leaves CUDNs and advertisements as they are and joins, if it does, the same record, while the cluster has not left and whatever other agents do |
| Connect.ConnectedStaysStored | pkg/agent/mcn/mcn_manager.go:104-123 | Meanwhile the broker keeps the record with this cluster in it and nothing more is committed for it |
| Connect.SettledStays | pkg/agent/controller/mcnc_controller.go:200-231 | In a settled state no pass with the same record changes anything |
| Connect.ConnectedCarriesVrfIff | pkg/agent/cudn/cudn_integrator.go:158-251 | Exactly when a connected network carries the record's VNI and route target, and the local VTEP |
| Connect.DisconnectUndoesConnect | pkg/agent/controller/mcnc_controller.go:306-378 | With exclusive fields: same names, advertisement and SkyNet's CUDN gone, the user's CUDN kept up to the patch, exact restoration if and only if the names were unused |
| Connect.LeftForGood | pkg/agent/controller/mcnc_controller.go:360-364 | After a successful leave without rejoining, the cluster's finalizer is off the record |
| Connect.DisconnectSparesOthers | pkg/agent/controller/mcnc_controller.go:110-378 | After connect and delete without a rejoin, in any run: this cluster's finalizer is off, every other member that did not leave is on the record with the network's values unchanged |
| McnSafety.MemberStands | pkg/agent/mcn/mcn_manager.go:83-226 | Over all runs from any good state, a member that does not leave keeps its finalizer and its network's values |
| Connect.DisagreeingFieldsLeak | pkg/agent/controller/mcnc_controller.go:326-349 | The advertisement survives deletion exactly when the two paths name different CUDNs |
| ClusterProtocol.NoLostUpdate | pkg/agent/agent.go:400-510 | In every interleaving the stored record is what the committed operations give when done whole, one after another |
| ClusterProtocol.LastReportStands | pkg/agent/agent.go:403-450 | Stored endpoints are those of the last successful report |
| ClusterProtocol.LastBeatStands | pkg/agent/agent.go:472-510 | The stored heartbeat is that of the last successful heartbeat or registration |
| ClusterProtocol.SpecStands | pkg/agent/agent.go:280-297 | The spec is that of the last registration; the loops never change it |
| ClusterProtocol.PhaseOf | pkg/agent/agent.go:489-493 | Pending until the first heartbeat of a record, Ready from then on |
| ClusterProtocol.PhaseMoves | pkg/agent/agent.go:292-296 | From any phase: a heartbeat moves only Pending to Ready, registration only an unset phase to Pending |
| ClusterProtocol.ClusterIdStands | pkg/agent/agent.go:262-293 | A record keeps the cluster ID it was created with |
| ClusterProtocol.ReadyStays | pkg/agent/agent.go:489-493 | Over all continuations of a run the phase never goes back from Ready |
| ClusterProtocol.OperationMeans | pkg/agent/agent.go:403-510 | An operation's answer says exactly what it stored: committed if and only if its last request was answered and appended it to the log; any other answer but a failed request, nothing |
| ClusterProtocol.AnswerIff | pkg/agent/agent.go:427-438 | Each answer of a write by its cause: failed request, newer version, record gone, name taken, or committed |
| ClusterProtocol.FirstWriterWins | pkg/agent/agent.go:435-438 | Of two writers that read the same version the first commits, the second is told of the conflict and changes nothing |
| ClusterRecords.Agent.UpdateClusterStatus | pkg/agent/agent.go:403-450 | What was sent is one to three whole operations, each answered as the protocol answers it; only conflicts are retried; success exactly when the last one committed, exhaustion exactly after three conflicts, otherwise the last one's error; before attempt n it has slept 2^(n-1)-1, at most 3, seconds |
| ClusterRecords.Agent.UpdateHeartbeat | pkg/agent/agent.go:472-510 | One whole operation and no retry; the result is the protocol's answer to it; success exactly when it committed; nothing is sent before registration |
| ClusterRecords.Agent.RegisterCluster | pkg/agent/agent.go:245-333 | Bad settings stop it after the read and before any write; otherwise one whole operation, success exactly when it committed; each error has its cause |
| ClusterRecords.Agent.RefreshLocalCluster | pkg/agent/agent.go:552-571 | The agent's copy becomes what the committed operations produce |

## Left out

- Kubernetes clients, REST configuration, conversion to and from unstructured objects, and logging: replaced by the versioned stores above.
- The broker syncer: publication of a Cluster record is one step, and all agents see the same records where the mesh is concerned.
- Waiting for a CUDN to become ready or to disappear, tickers and wall-clock time: a wait that times out is a failed call whose effect stays; only retry count and back-off of the status update are kept.
- Edits of records by anybody but agents, operators and the garbage collector (somebody rewriting a VNI or removing another's finalizer by hand), and edits of a CUDN or RouteAdvertisement by users while a pass over the connect resource runs.
- IPv6 addresses, CIDRs and pools: the VTEP search is written for four-byte addresses.
- Operator and agent program entry points, image selection, secrets, Deployment construction beyond the environment list, scheme registration, the broker stub.
- Legacy code that nothing calls: user-defined networks in the controller, the older per-node BGP configuration, route-reflector selection, single VTEP addresses.
- Endpoint collection: endpoint lists are inputs.
- Validation markers of the custom resources (such as the ASN range of a Cluster): they act in the API server, and count as a refused request.
- Allocators given no pool at all fall back to the defaults in the source; here the pool is always given.
- McnManagers.MCNManager.AllocateVNI: the branch that returns a VNI the network already has is unreachable from CreateOrJoinMCN and is not modelled.
- Allocators.ComputedIsSound: an allocated ASN of a pool that ends at 2147483647 may fail validation, so a valid ASN is promised for allocated values only below that bound.
- Connect.MCNCReconciler.HandleDelete: does not promise a complete cleanup, because the source logs a failed step, goes on and removes the finalizer.
- ClusterRecords.Agent.UpdateClusterStatus: a failed request does not mean that nothing was stored, because the reply to a successful write can be lost.
