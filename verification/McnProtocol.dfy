// The broker protocol for MultiClusterNetworks: every request that
// pkg/agent/mcn/mcn_manager.go and pkg/agent/allocator/vni_allocator.go send to
// the broker is one atomic step, and the steps of any number of agents, of
// whoever requests deletion and of the API server's garbage collection
// interleave arbitrarily.

module BrokerStore {
  datatype McnSpec = McnSpec(vni: nat, routeTarget: string, topology: string)

  datatype Record = Record(spec: McnSpec, finalizers: seq<string>, version: nat, deleting: bool)

  datatype StoreError = NotFound | AlreadyExists | Conflict | Unavailable | Exhausted

  // Versions come from one counter for the whole store, as resource versions do.
  datatype Store = Store(records: map<string, Record>, version: nat)
  {
    function Write(name: string, rec: Record): Store
    {
      Store(records[name := rec.(version := version + 1)], version + 1)
    }

    function Remove(name: string): Store
    {
      this.(records := records - {name})
    }

    // The VNIs a List shows; a record without one (VNI 0) is skipped.
    function Vnis(): set<nat>
    {
      set name | name in records && records[name].spec.vni != 0 :: records[name].spec.vni
    }
  }
}

module McnProtocol {
  import opened Wrappers
  import opened BrokerStore
  import opened Finalizers
  import Runs
  import VniAllocator

  // Where a process stands, named after the request it sends next.
  datatype Pc =
    | Idle
    | JoinGet(name: string, topology: string)
    | VniList(name: string, topology: string)
    | CreateReq(name: string, topology: string, vni: nat, listedAt: nat)
    | ConflictGet(name: string)
    | JoinUpdate(name: string, snapshot: Record)
    | LeaveGet(name: string)
    | LeaveUpdate(name: string, snapshot: Record)

  // Several processes may act for one cluster (a Deployment with more than one replica).
  datatype Proc = Proc(cluster: string, pc: Pc)

  // What was committed on the broker, in order.
  datatype Commit =
    | Created(cluster: string, name: string)
    | Joined(cluster: string, name: string)
    | Left(cluster: string, name: string)
    | Removed(name: string)

  // A successful return of CreateOrJoinMCN; `at` is how much of the log had
  // been committed when the returned record was read or written.
  datatype Return = Return(pid: nat, cluster: string, name: string, spec: McnSpec, at: nat)

  datatype Birth = Birth(listedAt: nat, createdAt: nat)

  datatype Sys = Sys(
    store: Store,
    procs: map<nat, Proc>,
    log: seq<Commit>,
    returned: seq<Return>,
    births: map<string, Birth>,
    clock: nat)

  // Done: executed and answered. Lost: executed, but the caller sees an error.
  // Refused: not executed, and the caller sees an error.
  datatype Outcome = Done | Lost | Refused

  datatype Event =
    | CallJoin(pid: nat, name: string, topology: string)
    | CallLeave(pid: nat, name: string)
    | Request(pid: nat, outcome: Outcome)
    | Crash(pid: nat)
    | RequestDeletion(name: string)
    | Collect(name: string)

  // -------------------------------------------------------------- steps

  function SetPc(s: Sys, p: nat, pc: Pc): Sys
    requires p in s.procs
  {
    s.(procs := s.procs[p := s.procs[p].(pc := pc)])
  }

  function Answer(s: Sys, p: nat, name: string): Sys
    requires p in s.procs && name in s.store.records
  {
    SetPc(s.(returned := s.returned + [Return(p, s.procs[p].cluster, name, s.store.records[name].spec, |s.log|)]), p, Idle)
  }

  function NewRecord(cluster: string, topology: string, vni: nat): Record
  {
    Record(McnSpec(vni, VniAllocator.GenerateRouteTarget(vni), topology), [FinalizerName(cluster)], 0, false)
  }

  // The effect of a Create, an adding Update and a removing Update that succeed.
  function CommitCreate(s: Sys, p: nat, name: string, topology: string, vni: nat, listedAt: nat): Sys
    requires p in s.procs
  {
    var c := s.procs[p].cluster;
    s.(store := s.store.Write(name, NewRecord(c, topology, vni)),
       log := s.log + [Created(c, name)],
       births := s.births[name := Birth(listedAt, s.clock)])
  }

  function CommitJoin(s: Sys, p: nat, name: string, snapshot: Record): Sys
    requires p in s.procs
  {
    var c := s.procs[p].cluster;
    s.(store := s.store.Write(name, snapshot.(finalizers := snapshot.finalizers + [FinalizerName(c)])),
       log := s.log + [Joined(c, name)])
  }

  function CommitLeave(s: Sys, p: nat, name: string, snapshot: Record): Sys
    requires p in s.procs
  {
    var c := s.procs[p].cluster;
    s.(store := s.store.Write(name, snapshot.(finalizers := Without(snapshot.finalizers, FinalizerName(c)))),
       log := s.log + [Left(c, name)])
  }

  predicate Current(s: Sys, name: string, snapshot: Record)
  {
    name in s.store.records && s.store.records[name].version == snapshot.version
  }

  // What the next request of a process does: move on, return a record that is
  // there, or commit a write (and return it, unless the reply is lost).
  datatype Change =
    | Goto(pc: Pc)
    | ReturnStored(name: string)
    | DoCreate(name: string, topology: string, vni: nat, listedAt: nat, answered: bool)
    | DoJoin(name: string, snapshot: Record, answered: bool)
    | DoLeave(name: string, snapshot: Record)

  predicate Enabled(s: Sys, c: Change)
  {
    match c
    case Goto(_) => true
    case ReturnStored(name) => name in s.store.records
    case DoCreate(name, _, _, _, _) => name !in s.store.records
    case DoJoin(name, snapshot, _) => Current(s, name, snapshot)
    case DoLeave(name, snapshot) => Current(s, name, snapshot)
  }

  // joinExistingMCN up to its Update.
  function Admit(s: Sys, cluster: string, name: string): (c: Change)
    requires name in s.store.records
    ensures Enabled(s, c)
  {
    if FinalizerName(cluster) in s.store.records[name].finalizers
    then ReturnStored(name)
    else Goto(JoinUpdate(name, s.store.records[name]))
  }

  // The next request of a process of this cluster standing at pc.
  ghost function Plan(s: Sys, cluster: string, pc: Pc, o: Outcome): (c: Change)
    ensures Enabled(s, c)
  {
    if o == Refused then Goto(Idle)
    else
      match pc
      case Idle => Goto(Idle)
      case JoinGet(name, topology) =>
        if o == Lost then Goto(Idle)
        else if name in s.store.records then Admit(s, cluster, name)
        else Goto(VniList(name, topology))
      case VniList(name, topology) =>
        if o == Lost then Goto(Idle)
        else
          (match VniAllocator.FirstFree(s.store.Vnis())
           case None => Goto(Idle)
           case Some(vni) => Goto(CreateReq(name, topology, vni, s.clock)))
      case CreateReq(name, topology, vni, listedAt) =>
        if name !in s.store.records then DoCreate(name, topology, vni, listedAt, o == Done)
        else if o == Lost then Goto(Idle)
        else Goto(ConflictGet(name))
      case ConflictGet(name) =>
        if o == Lost || name !in s.store.records then Goto(Idle)
        else Admit(s, cluster, name)
      case JoinUpdate(name, snapshot) =>
        if Current(s, name, snapshot) then DoJoin(name, snapshot, o == Done) else Goto(Idle)
      case LeaveGet(name) =>
        if o == Done && name in s.store.records && FinalizerName(cluster) in s.store.records[name].finalizers
        then Goto(LeaveUpdate(name, s.store.records[name]))
        else Goto(Idle)
      case LeaveUpdate(name, snapshot) =>
        if Current(s, name, snapshot) then DoLeave(name, snapshot) else Goto(Idle)
  }

  function Perform(s: Sys, p: nat, c: Change): Sys
    requires p in s.procs && Enabled(s, c)
  {
    match c
    case Goto(pc) => SetPc(s, p, pc)
    case ReturnStored(name) => Answer(s, p, name)
    case DoCreate(name, topology, vni, listedAt, answered) =>
      var t := CommitCreate(s, p, name, topology, vni, listedAt);
      if answered then Answer(t, p, name) else SetPc(t, p, Idle)
    case DoJoin(name, snapshot, answered) =>
      var t := CommitJoin(s, p, name, snapshot);
      if answered then Answer(t, p, name) else SetPc(t, p, Idle)
    case DoLeave(name, snapshot) =>
      SetPc(CommitLeave(s, p, name, snapshot), p, Idle)
  }

  ghost function Step(s: Sys, p: nat, o: Outcome): Sys
    requires p in s.procs
  {
    Perform(s, p, Plan(s, s.procs[p].cluster, s.procs[p].pc, o))
  }

  // Deletion is asked for by marking the record; it goes away only once marked
  // and without finalizers.
  ghost function Effect(s: Sys, e: Event): Sys
  {
    match e
    case CallJoin(p, name, topology) =>
      if p in s.procs && s.procs[p].pc == Idle then SetPc(s, p, JoinGet(name, topology)) else s
    case CallLeave(p, name) =>
      if p in s.procs && s.procs[p].pc == Idle then SetPc(s, p, LeaveGet(name)) else s
    case Request(p, o) =>
      if p in s.procs then Step(s, p, o) else s
    case Crash(p) =>
      if p in s.procs then SetPc(s, p, Idle) else s
    case RequestDeletion(name) =>
      if name in s.store.records
      then s.(store := s.store.Write(name, s.store.records[name].(deleting := true)))
      else s
    case Collect(name) =>
      if name in s.store.records && s.store.records[name].deleting && s.store.records[name].finalizers == []
      then s.(store := s.store.Remove(name), log := s.log + [Removed(name)], births := s.births - {name})
      else s
  }

  ghost function Apply(s: Sys, e: Event): Sys
  {
    Effect(s.(clock := s.clock + 1), e)
  }

  ghost function Run(s: Sys, events: seq<Event>): Sys
  {
    Runs.Fold(Apply, s, events)
  }

  // An empty broker and any agents, all idle.
  predicate Initial(s: Sys)
  {
    && s.store.records == map[] && s.log == [] && s.returned == [] && s.births == map[]
    && forall p :: p in s.procs ==> s.procs[p].pc == Idle
  }

  // -------------------------------------------------------------- reference notions

  // Whether cluster c is in network `name` after a commit, given whether it was before.
  predicate MemberAfter(e: Commit, c: string, name: string, before: bool)
  {
    match e
    case Created(d, n) => (d == c && n == name) || before
    case Joined(d, n) => (d == c && n == name) || before
    case Left(d, n) => !(d == c && n == name) && before
    case Removed(_) => before
  }

  // The last commit that concerns cluster c and network `name` put c in.
  predicate Member(log: seq<Commit>, c: string, name: string)
  {
    log != [] && MemberAfter(log[|log| - 1], c, name, Member(log[..|log| - 1], c, name))
  }

  predicate LeftSince(log: seq<Commit>, at: nat, c: string, name: string)
  {
    exists i :: at <= i < |log| && log[i] == Left(c, name)
  }

  // -------------------------------------------------------------- invariants

  ghost predicate SpecOk(spec: McnSpec)
  {
    VniAllocator.InRange(spec.vni) && spec.routeTarget == VniAllocator.GenerateRouteTarget(spec.vni)
  }

  // Membership refines an atomic set: the finalizers of a record are those of
  // its members, each once, and an absent record has no members.
  ghost predicate RecordOk(s: Sys, n: string)
  {
    && (n in s.store.records ==>
          && s.store.records[n].version <= s.store.version
          && SpecOk(s.store.records[n].spec)
          && NoDuplicates(s.store.records[n].finalizers)
          && (forall f :: f in s.store.records[n].finalizers ==> exists c :: f == FinalizerName(c)))
    && (forall c :: Member(s.log, c, n) <==>
          n in s.store.records && FinalizerName(c) in s.store.records[n].finalizers)
    && (n in s.births <==> n in s.store.records)
    && (n in s.births ==> s.births[n].listedAt < s.births[n].createdAt <= s.clock)
  }

  // Two coexisting records whose later creator listed after the earlier Create differ.
  ghost predicate DistinctUnlessOverlap(s: Sys, n: string, m: string)
  {
    n in s.store.records && m in s.store.records && n in s.births && m in s.births && n != m ==>
      && s.births[n].createdAt != s.births[m].createdAt
      && (s.births[n].createdAt <= s.births[m].listedAt ==>
            s.store.records[n].spec.vni != s.store.records[m].spec.vni)
  }

  // Optimistic locking: a snapshot whose version is still current is the record itself.
  ghost predicate SnapshotOk(s: Sys, name: string, snap: Record)
  {
    snap.version <= s.store.version && (Current(s, name, snap) ==> s.store.records[name] == snap)
  }

  // A creator that has listed holds a VNI that no record older than its List uses.
  ghost predicate ChoiceOk(s: Sys, vni: nat, listedAt: nat)
  {
    && listedAt <= s.clock
    && VniAllocator.InRange(vni)
    && forall n :: n in s.store.records && n in s.births && s.births[n].createdAt <= listedAt ==>
         s.store.records[n].spec.vni != vni
  }

  ghost predicate ProcOk(s: Sys, proc: Proc)
  {
    match proc.pc
    case CreateReq(_, _, vni, listedAt) => ChoiceOk(s, vni, listedAt)
    case JoinUpdate(name, snap) => SnapshotOk(s, name, snap) && FinalizerName(proc.cluster) !in snap.finalizers
    case LeaveUpdate(name, snap) => SnapshotOk(s, name, snap) && FinalizerName(proc.cluster) in snap.finalizers
    case _ => true
  }

  // Agreement: unless the cluster left since, what CreateOrJoinMCN returned is
  // still exactly what the broker holds.
  ghost predicate ReturnOk(s: Sys, r: Return)
  {
    && r.at <= |s.log|
    && (!LeftSince(s.log, r.at, r.cluster, r.name) ==>
          && r.name in s.store.records
          && s.store.records[r.name].spec == r.spec
          && Member(s.log, r.cluster, r.name))
  }

  // The log is a history of operations on an atomic set: a network is created
  // or removed only when nobody is in it, a cluster joins only when it is out and
  // leaves only when it is in.
  ghost predicate Legal(before: seq<Commit>, e: Commit)
  {
    match e
    case Created(_, n) => forall d :: !Member(before, d, n)
    case Joined(c, n) => !Member(before, c, n)
    case Left(c, n) => Member(before, c, n)
    case Removed(n) => forall d :: !Member(before, d, n)
  }

  ghost predicate HistoryLegal(log: seq<Commit>)
  {
    forall i :: 0 <= i < |log| ==> Legal(log[..i], log[i])
  }

  ghost predicate Inv(s: Sys)
  {
    && (forall n :: RecordOk(s, n))
    && (forall n, m :: DistinctUnlessOverlap(s, n, m))
    && (forall p :: p in s.procs ==> ProcOk(s, s.procs[p]))
    && (forall i :: 0 <= i < |s.returned| ==> ReturnOk(s, s.returned[i]))
    && HistoryLegal(s.log)
  }
}
