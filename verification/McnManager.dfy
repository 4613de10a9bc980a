// pkg/agent/mcn/mcn_manager.go in its own form: a manager that talks to a shared
// broker and between any two of whose requests the other agents may act. Each
// call is proved to be a run of the protocol of module McnProtocol, so that
// everything proved there about runs holds of these methods.

module McnManagers {
  import opened Wrappers
  import opened BrokerStore
  import opened Finalizers
  import opened McnProtocol
  import McnSafety
  import Runs
  import VniAllocator

  ghost predicate ConcernsOthers(e: Event, p: nat)
  {
    match e
    case CallJoin(q, _, _) => q != p
    case CallLeave(q, _) => q != p
    case Request(q, _) => q != p
    case Crash(q) => q != p
    case _ => true
  }

  // Nothing has been returned to process p in between.
  ghost predicate Unanswered(s: Sys, t: Sys, p: nat)
  {
    s.returned <= t.returned && forall i :: |s.returned| <= i < |t.returned| ==> t.returned[i].pid != p
  }

  lemma UnansweredThen(s: Sys, t: Sys, u: Sys, p: nat)
    requires Unanswered(s, t, p) && Unanswered(t, u, p)
    ensures Unanswered(s, u, p)
  {
    forall i | |s.returned| <= i < |u.returned| ensures u.returned[i].pid != p {
      if i < |t.returned| {
        assert u.returned[i] == t.returned[i];
      }
    }
  }

  ghost predicate Keeps(s: Sys, t: Sys, p: nat, moved: bool)
  {
    && s.log <= t.log && s.returned <= t.returned
    && p in s.procs && p in t.procs && t.procs[p].cluster == s.procs[p].cluster
    && (!moved ==> t.procs[p] == s.procs[p] && Unanswered(s, t, p))
  }

  // History only grows, and a step of process q moves nobody else.
  ghost predicate Extends(s: Sys, t: Sys, q: nat)
  {
    forall p :: p in s.procs ==> Keeps(s, t, p, p == q)
  }

  // What the steps of others do as process p sees them.
  ghost predicate Follows(s: Sys, t: Sys, p: nat)
  {
    Keeps(s, t, p, false)
  }

  lemma PerformExtends(s: Sys, q: nat, c: Change)
    requires q in s.procs && Enabled(s, c)
    ensures Extends(s, Perform(s, q, c), q)
  {
  }

  lemma RequestExtends(s: Sys, q: nat, o: Outcome)
    requires q in s.procs
    ensures Extends(s, Apply(s, Request(q, o)), q)
  {
    var t := s.(clock := s.clock + 1);
    var u := Perform(t, q, Plan(t, s.procs[q].cluster, s.procs[q].pc, o));
    McnSafety.RequestPerforms(s, q, o);
    forall p | p in s.procs ensures Keeps(s, u, p, p == q) {
      PerformExtends(t, q, Plan(t, s.procs[q].cluster, s.procs[q].pc, o));
      assert Keeps(t, u, p, p == q);
    }
  }

  lemma OtherStepFollows(s: Sys, e: Event, p: nat)
    requires p in s.procs && ConcernsOthers(e, p)
    ensures Follows(s, Apply(s, e), p)
  {
    if e.Request? {
      if e.pid in s.procs {
        RequestExtends(s, e.pid, e.outcome);
      }
    }
  }

  lemma {:induction false} OthersFollow(s: Sys, events: seq<Event>, p: nat)
    requires p in s.procs
    requires forall i :: 0 <= i < |events| ==> ConcernsOthers(events[i], p)
    ensures Follows(s, Run(s, events), p)
  {
    if events != [] {
      var init := events[..|events| - 1];
      OthersFollow(s, init, p);
      OtherStepFollows(Run(s, init), events[|events| - 1], p);
      UnansweredThen(s, Run(s, init), Run(s, events), p);
    }
  }

  // During a call of process p: its own requests and the steps of others.
  ghost predicate Serves(trace: seq<Event>, p: nat)
  {
    forall i :: 0 <= i < |trace| ==> ConcernsOthers(trace[i], p) || (trace[i].Request? && trace[i].pid == p)
  }

  // The trace of one call, from its beginning.
  ghost predicate OneCall(trace: seq<Event>, call: Event, p: nat)
  {
    trace != [] && trace[0] == call && Serves(trace[1..], p)
  }

  lemma ServesConcat(a: seq<Event>, b: seq<Event>, p: nat)
    requires Serves(b, p)
    ensures Serves(a, p) ==> Serves(a + b, p)
    ensures a != [] && Serves(a[1..], p) ==> Serves((a + b)[1..], p)
  {
    if a != [] {
      assert (a + b)[1..] == a[1..] + b;
    }
  }

  // The broker as the agents see it: a map of records and one version counter.
  // The ghost field is the whole system those records belong to.
  class Broker {
    var records: map<string, Record>
    var version: nat
    ghost var sys: Sys

    ghost predicate Valid()
      reads this
    {
      sys.store == Store(records, version)
    }

    // A gap between two requests of process p. Callers know only this contract:
    // any steps of the other processes and of the environment may have happened.
    method Others(ghost p: nat) returns (ghost events: seq<Event>)
      requires Valid() && p in sys.procs
      modifies this
      ensures Valid() && sys == Run(old(sys), events)
      ensures forall i :: 0 <= i < |events| ==> ConcernsOthers(events[i], p)
    {
      events := [];
    }

    // Any request may be refused (network, authorization, admission).
    method Get(ghost p: nat, name: string) returns (r: Result<Record, StoreError>, ghost o: Outcome)
      requires Valid() && p in sys.procs
      requires sys.procs[p].pc.JoinGet? || sys.procs[p].pc.ConflictGet? || sys.procs[p].pc.LeaveGet?
      requires sys.procs[p].pc.name == name
      modifies this
      ensures Valid() && sys == Apply(old(sys), Request(p, o))
      ensures match r
        case Ok(rec) => o == Done && name in old(records) && rec == old(records)[name]
        case Err(NotFound) => o == Done && name !in old(records)
        case Err(error) => o == Refused && error == Unavailable
      ensures records == old(records)
      ensures r.Err? ==> sys.returned == old(sys.returned)
    {
      var reachable := *;
      if !reachable {
        r, o := Err(Unavailable), Refused;
      } else if name in records {
        r, o := Ok(records[name]), Done;
      } else {
        r, o := Err(NotFound), Done;
      }
      sys := Apply(sys, Request(p, o));
    }

    method List(ghost p: nat) returns (r: Result<seq<Record>, StoreError>, ghost o: Outcome)
      requires Valid() && p in sys.procs && sys.procs[p].pc.VniList?
      modifies this
      ensures Valid() && sys == Apply(old(sys), Request(p, o))
      ensures r.Ok? ==> o == Done && Shows(r.value, old(records))
      ensures r.Err? ==> o == Refused && r.error == Unavailable
      ensures sys.returned == old(sys.returned) && records == old(records)
    {
      var reachable := *;
      if reachable {
        var items := Items(records);
        r, o := Ok(items), Done;
      } else {
        r, o := Err(Unavailable), Refused;
      }
      sys := Apply(sys, Request(p, o));
    }

    // Create is unique per name. `answered` is false when the reply is lost.
    method Create(ghost p: nat, name: string, rec: Record) returns (r: Result<Record, StoreError>, ghost o: Outcome)
      requires Valid() && p in sys.procs
      requires sys.procs[p].pc.CreateReq? && sys.procs[p].pc.name == name
      requires rec == NewRecord(sys.procs[p].cluster, sys.procs[p].pc.topology, sys.procs[p].pc.vni)
      modifies this
      ensures Valid() && sys == Apply(old(sys), Request(p, o))
      ensures match r
        case Ok(created) =>
          && o == Done && name !in old(records)
          && name in records && records[name] == created && created.spec == rec.spec
        case Err(AlreadyExists) => o == Done && name in old(records) && records == old(records)
        case Err(error) => o != Done && error == Unavailable
      ensures r.Err? ==> sys.returned == old(sys.returned)
    {
      var reachable, answered := *, *;
      if !reachable {
        r, o := Err(Unavailable), Refused;
      } else {
        o := if answered then Done else Lost;
        if name in records {
          r := if answered then Err(AlreadyExists) else Err(Unavailable);
        } else {
          records, version := records[name := rec.(version := version + 1)], version + 1;
          r := if answered then Ok(records[name]) else Err(Unavailable);
        }
      }
      sys := Apply(sys, Request(p, o));
    }

    // Update is accepted only with the version read before.
    method Update(ghost p: nat, name: string, rec: Record) returns (r: Result<Record, StoreError>, ghost o: Outcome)
      requires Valid() && p in sys.procs
      requires match sys.procs[p].pc
        case JoinUpdate(n, snap) =>
          n == name && rec == snap.(finalizers := snap.finalizers + [FinalizerName(sys.procs[p].cluster)])
        case LeaveUpdate(n, snap) =>
          n == name && rec == snap.(finalizers := Without(snap.finalizers, FinalizerName(sys.procs[p].cluster)))
        case _ => false
      modifies this
      ensures Valid() && sys == Apply(old(sys), Request(p, o))
      ensures r.Ok? <==> o == Done && name in old(records) && old(records)[name].version == rec.version
      ensures match r
        case Ok(stored) => name in records && records[name] == stored && stored.spec == rec.spec
        case Err(error) => Fails(old(sys), p, o, name, error)
      ensures r.Err? ==> sys.returned == old(sys.returned)
    {
      var reachable, answered := *, *;
      if !reachable {
        r, o := Err(Unavailable), Refused;
      } else {
        o := if answered then Done else Lost;
        if name !in records {
          r := if answered then Err(NotFound) else Err(Unavailable);
        } else if records[name].version != rec.version {
          r := if answered then Err(Conflict) else Err(Unavailable);
        } else {
          records, version := records[name := rec.(version := version + 1)], version + 1;
          r := if answered then Ok(records[name]) else Err(Unavailable);
        }
      }
      sys := Apply(sys, Request(p, o));
    }
  }

  // A List shows every record and nothing else, in some order.
  ghost predicate Shows(items: seq<Record>, records: map<string, Record>)
  {
    forall rec :: rec in items <==> exists n :: n in records && records[n] == rec
  }

  method Items(records: map<string, Record>) returns (items: seq<Record>)
    ensures Shows(items, records)
  {
    items := [];
    var todo := records.Keys;
    while todo != {}
      invariant todo <= records.Keys
      invariant forall rec :: rec in items <==> exists n :: n in records && n !in todo && records[n] == rec
      decreases todo
    {
      var n :| n in todo;
      items := items + [records[n]];
      todo := todo - {n};
    }
  }

  // getAllocatedVNIs: the loop over the listed records, skipping VNI 0.
  method GetAllocatedVNIs(items: seq<Record>) returns (vnis: set<nat>)
    ensures forall v :: v in vnis <==> v != 0 && exists rec :: rec in items && rec.spec.vni == v
  {
    vnis := {};
    for i := 0 to |items|
      invariant forall v :: v in vnis <==> v != 0 && exists k :: 0 <= k < i && items[k].spec.vni == v
    {
      if items[i].spec.vni != 0 {
        vnis := vnis + {items[i].spec.vni};
      }
    }
  }

  // What a List shows is what the protocol's search looks at.
  lemma ListedVnis(store: Store, items: seq<Record>, vnis: set<nat>)
    requires Shows(items, store.records)
    requires forall v :: v in vnis <==> v != 0 && exists rec :: rec in items && rec.spec.vni == v
    ensures vnis == store.Vnis()
  {
    forall v ensures v in vnis <==> v in store.Vnis() {
      if v in store.Vnis() {
        var n :| n in store.records && store.records[n].spec.vni == v;
        assert store.records[n] in items;
      }
    }
  }

  method CollectVNIs(items: seq<Record>, ghost store: Store) returns (vnis: set<nat>)
    requires Shows(items, store.records)
    ensures vnis == store.Vnis()
  {
    vnis := GetAllocatedVNIs(items);
    ListedVnis(store, items, vnis);
  }

  // Request o of process p is answered with this error, and the call ends there.
  ghost predicate Fails(s: Sys, p: nat, o: Outcome, name: string, error: StoreError)
  {
    && p in s.procs && s.procs[p].pc != Idle && s.procs[p].pc.name == name
    && var pc := s.procs[p].pc;
       match error
       case NotFound => o == Done && (pc.ConflictGet? || pc.JoinUpdate? || pc.LeaveUpdate?) && name !in s.store.records
       case Conflict =>
         && o == Done && (pc.JoinUpdate? || pc.LeaveUpdate?)
         && name in s.store.records && s.store.records[name].version != pc.snapshot.version
       case Exhausted => o == Done && pc.VniList? && VniAllocator.FirstFree(s.store.Vnis()) == None
       case Unavailable => o != Done
       case AlreadyExists => false
  }

  // The only reasons for which a call of process p fails: its last request did,
  // in the state that the steps before it had led to.
  ghost predicate Explains(s0: Sys, p: nat, error: StoreError, name: string, trace: seq<Event>)
  {
    && trace != []
    && var n := |trace| - 1;
       trace[n].Request? && trace[n].pid == p && Fails(Run(s0, trace[..n]), p, trace[n].outcome, name, error)
  }

  lemma ExplainsLast(s0: Sys, gap: seq<Event>, mid: Sys, p: nat, o: Outcome, name: string, error: StoreError)
    requires mid == Run(s0, gap) && Fails(mid, p, o, name, error)
    ensures Explains(s0, p, error, name, gap + [Request(p, o)])
  {
    assert (gap + [Request(p, o)])[..|gap|] == gap;
  }

  lemma ExplainsAfter(s0: Sys, trace: seq<Event>, s1: Sys, p: nat, error: StoreError, name: string, more: seq<Event>)
    requires s1 == Run(s0, trace) && Explains(s1, p, error, name, more)
    ensures Explains(s0, p, error, name, trace + more)
  {
    var n := |more| - 1;
    Runs.FoldConcat(Apply, s0, trace, more[..n]);
    assert (trace + more)[..|trace + more| - 1] == trace + more[..n];
  }

  // Replies of the protocol, one request at a time.

  // History holds a return to process p of cluster c, read or written since the given moment.
  ghost predicate HasReturn(t: Sys, p: nat, c: string, name: string, spec: McnSpec, since: nat)
  {
    exists ret ::
      && ret in t.returned && ret.pid == p && ret.cluster == c
      && ret.name == name && ret.spec == spec && since <= ret.at
  }

  lemma ReturnAdded(s: Sys, t: Sys, ret: Return, since: nat)
    requires t.returned == s.returned + [ret] && since <= ret.at
    ensures HasReturn(t, ret.pid, ret.cluster, ret.name, ret.spec, since)
  {
    assert t.returned[|s.returned|] == ret;
  }

  lemma GetReply(s: Sys, p: nat, since: nat)
    requires p in s.procs && (s.procs[p].pc.JoinGet? || s.procs[p].pc.ConflictGet?)
    requires s.procs[p].pc.name in s.store.records && since <= |s.log|
    ensures var name, t, c := s.procs[p].pc.name, Apply(s, Request(p, Done)), s.procs[p].cluster;
      var rec := s.store.records[name];
      && p in t.procs && t.log == s.log
      && if FinalizerName(c) in rec.finalizers
         then t.procs[p] == Proc(c, Idle) && HasReturn(t, p, c, name, rec.spec, since)
         else t.procs[p] == Proc(c, JoinUpdate(name, rec)) && t.returned == s.returned
  {
    McnSafety.RequestPerforms(s, p, Done);
    var name, t, c := s.procs[p].pc.name, Apply(s, Request(p, Done)), s.procs[p].cluster;
    if FinalizerName(c) in s.store.records[name].finalizers {
      ReturnAdded(s, t, Return(p, c, name, s.store.records[name].spec, |s.log|), since);
    }
  }

  lemma ListReply(s: Sys, p: nat)
    requires p in s.procs && s.procs[p].pc.VniList?
    ensures var pc, t, c := s.procs[p].pc, Apply(s, Request(p, Done)), s.procs[p].cluster;
      && p in t.procs && t.store == s.store && t.clock == s.clock + 1
      && match VniAllocator.FirstFree(s.store.Vnis())
         case Some(vni) => t.procs[p] == Proc(c, CreateReq(pc.name, pc.topology, vni, t.clock))
         case None => t.procs[p] == Proc(c, Idle)
  {
    McnSafety.RequestPerforms(s, p, Done);
  }

  lemma AbsentReply(s: Sys, p: nat)
    requires p in s.procs && (s.procs[p].pc.ConflictGet? || s.procs[p].pc.JoinGet?)
    requires s.procs[p].pc.name !in s.store.records
    ensures var pc, t := s.procs[p].pc, Apply(s, Request(p, Done));
      && p in t.procs && t.log == s.log
      && t.procs[p] == Proc(s.procs[p].cluster, if pc.JoinGet? then VniList(pc.name, pc.topology) else Idle)
  {
    McnSafety.RequestPerforms(s, p, Done);
  }

  lemma WriteReply(s: Sys, p: nat, since: nat)
    requires p in s.procs && since <= |s.log|
    requires match s.procs[p].pc
      case CreateReq(name, _, _, _) => name !in s.store.records
      case JoinUpdate(name, snapshot) => Current(s, name, snapshot)
      case _ => false
    ensures var name, t, c := s.procs[p].pc.name, Apply(s, Request(p, Done)), s.procs[p].cluster;
      && p in t.procs && t.procs[p] == Proc(c, Idle) && name in t.store.records
      && HasReturn(t, p, c, name, t.store.records[name].spec, since)
  {
    McnSafety.RequestPerforms(s, p, Done);
    var name, t, c := s.procs[p].pc.name, Apply(s, Request(p, Done)), s.procs[p].cluster;
    ReturnAdded(s, t, Return(p, c, name, t.store.records[name].spec, |s.log| + 1), since);
  }

  lemma Begun(s: Sys, call: Event, p: nat)
    requires p in s.procs && s.procs[p].pc == Idle
    requires (call.CallLeave? && call.pid == p) || (call.CallJoin? && call.pid == p)
    ensures var t := Apply(s, call);
      && t.store == s.store && t.log == s.log && t.returned == s.returned && p in t.procs
      && t.procs[p].cluster == s.procs[p].cluster
      && t.procs[p].pc == if call.CallJoin? then JoinGet(call.name, call.topology) else LeaveGet(call.name)
  {
  }

  lemma RefusedReply(s: Sys, p: nat)
    requires p in s.procs
    ensures var t := Apply(s, Request(p, Refused)); p in t.procs && t.procs[p] == s.procs[p].(pc := Idle)
  {
  }

  // A gap and the request that ends it.
  lemma Closes(s0: Sys, gap: seq<Event>, mid: Sys, p: nat, o: Outcome)
    requires mid == Run(s0, gap) && Serves(gap, p)
    ensures Apply(mid, Request(p, o)) == Run(s0, gap + [Request(p, o)]) && Serves(gap + [Request(p, o)], p)
  {
    Runs.FoldAppend(Apply, s0, gap, Request(p, o));
  }

  class MCNManager {
    const broker: Broker
    const clusterID: string
    ghost const pid: nat

    constructor (broker: Broker, clusterID: string, ghost pid: nat)
      ensures this.broker == broker && this.clusterID == clusterID && this.pid == pid
    {
      this.broker := broker;
      this.clusterID := clusterID;
      this.pid := pid;
    }

    ghost predicate At(pc: Pc)
      reads broker
    {
      broker.Valid() && pid in broker.sys.procs && broker.sys.procs[pid] == Proc(clusterID, pc)
    }

    // The system's history holds a return to this process, since the given moment.
    ghost predicate Returned(name: string, spec: McnSpec, since: nat)
      reads broker
    {
      HasReturn(broker.sys, pid, clusterID, name, spec, since)
    }

    // The whole call is a run of the protocol. If the system started well and
    // this cluster did not leave meanwhile, the broker holds exactly the returned
    // record, with this cluster in it, whatever the others did.
    method CreateOrJoinMCN(name: string, topology: string)
      returns (r: Result<McnSpec, StoreError>, ghost trace: seq<Event>)
      requires At(Idle)
      modifies broker
      ensures OneCall(trace, CallJoin(pid, name, topology), pid)
      ensures At(Idle) && broker.sys == Run(old(broker.sys), trace)
      ensures r.Ok? ==> Returned(name, r.value, |old(broker.sys.log)|)
      ensures r.Err? ==> Unanswered(old(broker.sys), broker.sys, pid)
      ensures r.Err? ==> Explains(old(broker.sys), pid, r.error, name, trace)
      ensures r.Ok? && Inv(old(broker.sys)) && !LeftSince(broker.sys.log, |old(broker.sys.log)|, clusterID, name) ==>
        && name in broker.records && broker.records[name].spec == r.value
        && FinalizerName(clusterID) in broker.records[name].finalizers
    {
      r, trace := TryCreateOrJoin(name, topology);
      if r.Ok? && Inv(old(broker.sys)) {
        ReturnHolds(old(broker.sys), trace, pid, clusterID, name, r.value, |old(broker.sys.log)|);
      }
    }

    method TryCreateOrJoin(name: string, topology: string)
      returns (r: Result<McnSpec, StoreError>, ghost trace: seq<Event>)
      requires At(Idle)
      modifies broker
      ensures OneCall(trace, CallJoin(pid, name, topology), pid)
      ensures At(Idle) && broker.sys == Run(old(broker.sys), trace)
      ensures r.Ok? ==> Returned(name, r.value, |old(broker.sys.log)|)
      ensures r.Err? ==> Unanswered(old(broker.sys), broker.sys, pid)
      ensures r.Err? ==> Explains(old(broker.sys), pid, r.error, name, trace)
    {
      ghost var s0 := broker.sys;
      var mcn;
      mcn, trace := GetToJoin(name, topology);
      ghost var s1 := broker.sys;
      if mcn.Err? && mcn.error != NotFound {
        return Err(mcn.error), trace;
      }
      ghost var more;
      if mcn.Ok? {
        r, more := JoinExistingMCN(name, mcn.value, |s0.log|);
      } else {
        r, more := CreateNewMCN(name, topology, |s0.log|);
      }
      if r.Err? {
        UnansweredThen(s0, s1, broker.sys, pid);
        ExplainsAfter(s0, trace, s1, pid, r.error, name, more);
      }
      Runs.FoldConcat(Apply, s0, trace, more);
      ServesConcat(trace, more, pid);
      trace := trace + more;
    }

    // GetMCN, the first request of either call; `mid` is what it found.
    method GetMCN(name: string, ghost call: Event)
      returns (r: Result<Record, StoreError>, ghost trace: seq<Event>, ghost mid: Sys, ghost o: Outcome)
      requires At(Idle) && (call == CallLeave(pid, name) || (call.CallJoin? && call.pid == pid && call.name == name))
      modifies broker
      ensures broker.Valid() && OneCall(trace, call, pid) && trace[|trace| - 1] == Request(pid, o)
      ensures broker.sys == Run(old(broker.sys), trace) && broker.sys == Apply(mid, Request(pid, o))
      ensures r.Err? && r.error != NotFound ==> Explains(old(broker.sys), pid, r.error, name, trace)
      ensures old(broker.sys.log) <= mid.log && Unanswered(old(broker.sys), mid, pid)
      ensures mid.store == Store(broker.records, broker.version)
      ensures pid in mid.procs
      ensures mid.procs[pid] == Proc(clusterID, if call.CallJoin? then JoinGet(name, call.topology) else LeaveGet(name))
      ensures Inv(old(broker.sys)) ==> Inv(mid)
      ensures match r
        case Ok(rec) => o == Done && name in broker.records && rec == broker.records[name]
        case Err(NotFound) => o == Done && name !in broker.records
        case Err(error) => o == Refused && error == Unavailable
      ensures r.Err? ==> broker.sys.returned == mid.returned
    {
      ghost var s0 := broker.sys;
      trace := Start(call);
      mid := broker.sys;
      r, o := broker.Get(pid, name);
      Runs.FoldAppend(Apply, s0, trace, Request(pid, o));
      ServesConcat(trace, [Request(pid, o)], pid);
      if r.Err? && r.error != NotFound {
        ExplainsLast(s0, trace, mid, pid, o, name, r.error);
      }
      trace := trace + [Request(pid, o)];
    }

    // A gap between two requests of this process.
    method Wait() returns (ghost gap: seq<Event>)
      requires broker.Valid() && pid in broker.sys.procs
      modifies broker
      ensures Serves(gap, pid) && broker.sys == Run(old(broker.sys), gap)
      ensures broker.Valid() && pid in broker.sys.procs && broker.sys.procs[pid] == old(broker.sys.procs[pid])
      ensures old(broker.sys.log) <= broker.sys.log && Unanswered(old(broker.sys), broker.sys, pid)
    {
      ghost var s0 := broker.sys;
      gap := broker.Others(pid);
      OthersFollow(s0, gap, pid);
    }

    // A call begins, and others act before its first request.
    method Start(ghost call: Event) returns (ghost trace: seq<Event>)
      requires At(Idle) && ((call.CallLeave? && call.pid == pid) || (call.CallJoin? && call.pid == pid))
      modifies broker
      ensures OneCall(trace, call, pid) && broker.sys == Run(old(broker.sys), trace)
      ensures At(if call.CallJoin? then JoinGet(call.name, call.topology) else LeaveGet(call.name))
      ensures old(broker.sys.log) <= broker.sys.log && Unanswered(old(broker.sys), broker.sys, pid)
      ensures Inv(old(broker.sys)) ==> Inv(broker.sys)
    {
      ghost var s0 := broker.sys;
      broker.sys := Apply(broker.sys, call);
      Begun(s0, call, pid);
      Runs.FoldAppend(Apply, s0, [], call);
      assert [] + [call] == [call];
      ghost var gap := Wait();
      Runs.FoldConcat(Apply, s0, [call], gap);
      trace := [call] + gap;
      assert trace[1..] == gap;
      if Inv(s0) {
        McnSafety.RunKeepsInv(s0, trace);
      }
    }

    // What a join learns from it.
    method GetToJoin(name: string, topology: string) returns (r: Result<Record, StoreError>, ghost trace: seq<Event>)
      requires At(Idle)
      modifies broker
      ensures OneCall(trace, CallJoin(pid, name, topology), pid) && broker.sys == Run(old(broker.sys), trace)
      ensures match r
        case Ok(mcn) =>
          && HasRead(name, mcn, |old(broker.sys.log)|)
          && (FinalizerName(clusterID) in mcn.finalizers || Unanswered(old(broker.sys), broker.sys, pid))
        case Err(NotFound) =>
          && At(VniList(name, topology)) && |old(broker.sys.log)| <= |broker.sys.log|
          && Unanswered(old(broker.sys), broker.sys, pid)
        case Err(error) =>
          && At(Idle) && Unanswered(old(broker.sys), broker.sys, pid)
          && Explains(old(broker.sys), pid, error, name, trace)
    {
      ghost var mid, o;
      r, trace, mid, o := GetMCN(name, CallJoin(pid, name, topology));
      match r
      case Ok(_) =>
        GetReply(mid, pid, |old(broker.sys.log)|);
      case Err(NotFound) =>
        AbsentReply(mid, pid);
      case Err(_) =>
        RefusedReply(mid, pid);
    }

    // What a leave learns from it.
    method GetToLeave(name: string) returns (r: Result<Record, StoreError>, ghost trace: seq<Event>)
      requires At(Idle) && Inv(broker.sys)
      modifies broker
      ensures OneCall(trace, CallLeave(pid, name), pid) && broker.sys == Run(old(broker.sys), trace)
      ensures |old(broker.sys.log)| <= |broker.sys.log|
      ensures match r
        case Ok(mcn) =>
          if FinalizerName(clusterID) in mcn.finalizers then At(LeaveUpdate(name, mcn))
          else At(Idle) && !Member(broker.sys.log, clusterID, name)
        case Err(NotFound) => At(Idle) && !Member(broker.sys.log, clusterID, name)
        case Err(error) => At(Idle) && Explains(old(broker.sys), pid, error, name, trace)
    {
      ghost var mid, o;
      r, trace, mid, o := GetMCN(name, CallLeave(pid, name));
      LeaveGetReply(mid, pid, o);
      assert RecordOk(mid, name);
    }

    // What joinExistingMCN is handed: a record this process has just read.
    ghost predicate HasRead(name: string, mcn: Record, since: nat)
      reads broker
    {
      if FinalizerName(clusterID) in mcn.finalizers
      then At(Idle) && Returned(name, mcn.spec, since)
      else At(JoinUpdate(name, mcn)) && since <= |broker.sys.log|
    }

    method JoinExistingMCN(name: string, mcn: Record, ghost since: nat)
      returns (r: Result<McnSpec, StoreError>, ghost trace: seq<Event>)
      requires HasRead(name, mcn, since)
      modifies broker
      ensures Serves(trace, pid)
      ensures At(Idle) && broker.sys == Run(old(broker.sys), trace)
      ensures r.Ok? ==> Returned(name, r.value, since)
      ensures r.Err? ==> Unanswered(old(broker.sys), broker.sys, pid)
      ensures r.Err? ==> Explains(old(broker.sys), pid, r.error, name, trace)
      ensures FinalizerName(clusterID) in mcn.finalizers ==> r == Ok(mcn.spec)
    {
      var finalizer := FinalizerName(clusterID);
      var joined := ContainsString(mcn.finalizers, finalizer);
      if joined {
        return Ok(mcn.spec), [];
      }
      var updated := mcn.(finalizers := mcn.finalizers + [finalizer]);

      ghost var s0 := broker.sys;
      ghost var gap := Wait();
      ghost var mid := broker.sys;
      var stored, o := broker.Update(pid, name, updated);
      trace := gap + [Request(pid, o)];
      Closes(s0, gap, mid, pid, o);
      if stored.Ok? {
        WriteReply(mid, pid, since);
        r := Ok(stored.value.spec);
      } else {
        ExplainsLast(s0, gap, mid, pid, o, name, stored.error);
        r := Err(stored.error);
      }
    }

    method CreateNewMCN(name: string, topology: string, ghost since: nat)
      returns (r: Result<McnSpec, StoreError>, ghost trace: seq<Event>)
      requires At(VniList(name, topology)) && since <= |broker.sys.log|
      modifies broker
      ensures Serves(trace, pid)
      ensures At(Idle) && broker.sys == Run(old(broker.sys), trace)
      ensures r.Ok? ==> Returned(name, r.value, since)
      ensures r.Err? ==> Unanswered(old(broker.sys), broker.sys, pid)
      ensures r.Err? ==> Explains(old(broker.sys), pid, r.error, name, trace)
    {
      ghost var s0 := broker.sys;
      var vni;
      vni, trace := AllocateVNI(name, topology);
      if vni.Err? {
        return Err(vni.error), trace;
      }
      var mcn := NewRecord(clusterID, topology, vni.value);

      ghost var more;
      ghost var s1 := broker.sys;
      r, more := SendMCN(name, topology, vni.value, mcn, since);
      Runs.FoldConcat(Apply, s0, trace, more);
      ServesConcat(trace, more, pid);
      if r.Ok? {
        return r, trace + more;
      }
      UnansweredThen(s0, s1, broker.sys, pid);
      if r.error != AlreadyExists {
        ExplainsAfter(s0, trace, s1, pid, r.error, name, more);
        return r, trace + more;
      }
      trace := trace + more;
      ghost var s2 := broker.sys;
      r, more := JoinAfterConflict(name, since);
      if r.Err? {
        UnansweredThen(s0, s2, broker.sys, pid);
        ExplainsAfter(s0, trace, s2, pid, r.error, name, more);
      }
      Runs.FoldConcat(Apply, s0, trace, more);
      ServesConcat(trace, more, pid);
      trace := trace + more;
    }

    // The Create request of createNewMCN.
    method SendMCN(name: string, topology: string, vni: nat, mcn: Record, ghost since: nat)
      returns (r: Result<McnSpec, StoreError>, ghost trace: seq<Event>)
      requires exists listedAt :: At(CreateReq(name, topology, vni, listedAt))
      requires mcn == NewRecord(clusterID, topology, vni) && since <= |broker.sys.log|
      modifies broker
      ensures Serves(trace, pid)
      ensures broker.sys == Run(old(broker.sys), trace) && since <= |broker.sys.log|
      ensures match r
        case Ok(spec) => At(Idle) && Returned(name, spec, since)
        case Err(AlreadyExists) => At(ConflictGet(name)) && Unanswered(old(broker.sys), broker.sys, pid)
        case Err(error) =>
          && At(Idle) && Unanswered(old(broker.sys), broker.sys, pid)
          && Explains(old(broker.sys), pid, error, name, trace)
    {
      ghost var s0 := broker.sys;
      ghost var gap := Wait();
      ghost var mid := broker.sys;
      var created, o := broker.Create(pid, name, mcn);
      trace := gap + [Request(pid, o)];
      Closes(s0, gap, mid, pid, o);
      if created.Ok? {
        WriteReply(mid, pid, since);
        r := Ok(created.value.spec);
      } else {
        if created.error != AlreadyExists {
          ExplainsLast(s0, gap, mid, pid, o, name, created.error);
        }
        r := Err(created.error);
      }
    }

    // Lost the race to create: read the winner's record and join it.
    method JoinAfterConflict(name: string, ghost since: nat)
      returns (r: Result<McnSpec, StoreError>, ghost trace: seq<Event>)
      requires At(ConflictGet(name)) && since <= |broker.sys.log|
      modifies broker
      ensures Serves(trace, pid)
      ensures At(Idle) && broker.sys == Run(old(broker.sys), trace)
      ensures r.Ok? ==> Returned(name, r.value, since)
      ensures r.Err? ==> Unanswered(old(broker.sys), broker.sys, pid)
      ensures r.Err? ==> Explains(old(broker.sys), pid, r.error, name, trace)
    {
      ghost var s0 := broker.sys;
      ghost var gap := Wait();
      ghost var mid := broker.sys;
      var existing, o := broker.Get(pid, name);
      trace := gap + [Request(pid, o)];
      Closes(s0, gap, mid, pid, o);
      if existing.Err? {
        if existing.error == NotFound {
          AbsentReply(mid, pid);
        } else {
          RefusedReply(mid, pid);
        }
        ExplainsLast(s0, gap, mid, pid, o, name, existing.error);
        return Err(existing.error), trace;
      }
      GetReply(mid, pid, since);
      ghost var more;
      ghost var s1 := broker.sys;
      r, more := JoinExistingMCN(name, existing.value, since);
      if r.Err? {
        UnansweredThen(s0, s1, broker.sys, pid);
        ExplainsAfter(s0, trace, s1, pid, r.error, name, more);
      }
      Runs.FoldConcat(Apply, s0, trace, more);
      ServesConcat(trace, more, pid);
      trace := trace + more;
    }

    // VNIAllocator.AllocateVNI, reached only for a record that has no VNI yet.
    method AllocateVNI(name: string, topology: string)
      returns (r: Result<nat, StoreError>, ghost trace: seq<Event>)
      requires At(VniList(name, topology))
      modifies broker
      ensures Serves(trace, pid)
      ensures broker.sys == Run(old(broker.sys), trace) && old(broker.sys.log) <= broker.sys.log
      ensures Unanswered(old(broker.sys), broker.sys, pid)
      ensures r.Ok? ==> exists listedAt :: At(CreateReq(name, topology, r.value, listedAt))
      ensures r.Err? ==> At(Idle) && Explains(old(broker.sys), pid, r.error, name, trace)
    {
      var inUse;
      inUse, trace := ListVNIs(name, topology);
      if inUse.Err? {
        return Err(inUse.error), trace;
      }
      var vni := VniAllocator.FindNextAvailableVNI(inUse.value);
      r := if vni.Some? then Ok(vni.value) else Err(Exhausted);
    }

    // The List behind the search, and the loop over what it shows.
    method ListVNIs(name: string, topology: string) returns (r: Result<set<nat>, StoreError>, ghost trace: seq<Event>)
      requires At(VniList(name, topology))
      modifies broker
      ensures Serves(trace, pid)
      ensures broker.sys == Run(old(broker.sys), trace) && old(broker.sys.log) <= broker.sys.log
      ensures Unanswered(old(broker.sys), broker.sys, pid)
      ensures r.Err? ==> At(Idle) && Explains(old(broker.sys), pid, r.error, name, trace)
      ensures r.Ok? ==> r.value == broker.sys.store.Vnis()
      ensures r.Ok? ==>
        match VniAllocator.FirstFree(r.value)
        case Some(vni) => At(CreateReq(name, topology, vni, broker.sys.clock))
        case None => At(Idle) && Explains(old(broker.sys), pid, Exhausted, name, trace)
    {
      ghost var s0 := broker.sys;
      ghost var gap := Wait();
      ghost var mid := broker.sys;
      var items, o := broker.List(pid);
      trace := gap + [Request(pid, o)];
      Closes(s0, gap, mid, pid, o);
      if items.Err? {
        RefusedReply(mid, pid);
        ExplainsLast(s0, gap, mid, pid, o, name, items.error);
        return Err(items.error), trace;
      }
      ListReply(mid, pid);
      var inUse := CollectVNIs(items.value, mid.store);
      if VniAllocator.FirstFree(inUse) == None {
        ExplainsLast(s0, gap, mid, pid, o, name, Exhausted);
      }
      r := Ok(inUse);
    }

    // A successful LeaveMCN: at some moment during the call this cluster was not
    // a member, by the history of commits.
    method LeaveMCN(name: string) returns (r: Result<(), StoreError>, ghost trace: seq<Event>, ghost moment: nat)
      requires At(Idle) && Inv(broker.sys)
      modifies broker
      ensures OneCall(trace, CallLeave(pid, name), pid)
      ensures At(Idle) && broker.sys == Run(old(broker.sys), trace)
      ensures |old(broker.sys.log)| <= moment <= |broker.sys.log|
      ensures r.Err? ==> Explains(old(broker.sys), pid, r.error, name, trace)
      ensures r.Ok? ==> !Member(broker.sys.log[..moment], clusterID, name)
    {
      ghost var s0 := broker.sys;
      var got;
      got, trace := GetToLeave(name);
      moment := |broker.sys.log|;
      assert broker.sys.log[..moment] == broker.sys.log;
      if got.Err? {
        r := if got.error == NotFound then Ok(()) else Err(got.error);
        return;
      }
      var finalizer := FinalizerName(clusterID);
      var joined := ContainsString(got.value.finalizers, finalizer);
      if !joined {
        return Ok(()), trace, moment;
      }
      var rest := RemoveString(got.value.finalizers, finalizer);
      ghost var more;
      ghost var s1 := broker.sys;
      r, more := UpdateToLeave(name, got.value, rest);
      if r.Err? {
        ExplainsAfter(s0, trace, s1, pid, r.error, name, more);
      }
      Runs.FoldConcat(Apply, s0, trace, more);
      ServesConcat(trace, more, pid);
      trace := trace + more;
      moment := |broker.sys.log|;
      assert broker.sys.log[..moment] == broker.sys.log;
    }

    // updateMCN with the record that was read, less this cluster's finalizer.
    method UpdateToLeave(name: string, mcn: Record, rest: seq<string>)
      returns (r: Result<(), StoreError>, ghost trace: seq<Event>)
      requires At(LeaveUpdate(name, mcn)) && rest == Without(mcn.finalizers, FinalizerName(clusterID))
      modifies broker
      ensures Serves(trace, pid)
      ensures At(Idle) && broker.sys == Run(old(broker.sys), trace)
      ensures |old(broker.sys.log)| <= |broker.sys.log|
      ensures r.Err? ==> Explains(old(broker.sys), pid, r.error, name, trace)
      ensures r.Ok? ==> !Member(broker.sys.log, clusterID, name)
    {
      ghost var s0 := broker.sys;
      ghost var gap := Wait();
      ghost var mid := broker.sys;
      var stored, o := broker.Update(pid, name, mcn.(finalizers := rest));
      trace := gap + [Request(pid, o)];
      Closes(s0, gap, mid, pid, o);
      RequestExtends(mid, pid, o);
      if stored.Ok? {
        LeaveReply(mid, pid);
        r := Ok(());
      } else {
        ExplainsLast(s0, gap, mid, pid, o, name, stored.error);
        r := Err(stored.error);
      }
    }
  }

  // The contract's last clause, from the invariant of every run.
  lemma ReturnHolds(s: Sys, trace: seq<Event>, p: nat, c: string, name: string, spec: McnSpec, since: nat)
    requires Inv(s) && HasReturn(Run(s, trace), p, c, name, spec, since)
    ensures var t := Run(s, trace);
      !LeftSince(t.log, since, c, name) ==>
        name in t.store.records && t.store.records[name].spec == spec && FinalizerName(c) in t.store.records[name].finalizers
  {
    var t := Run(s, trace);
    McnSafety.RunKeepsInv(s, trace);
    var ret :| ret in t.returned && ret.pid == p && ret.cluster == c && ret.name == name
      && ret.spec == spec && since <= ret.at;
    if !LeftSince(t.log, since, c, name) {
      McnSafety.ReturnStands(t, ret);
    }
  }

  lemma LeaveGetReply(s: Sys, p: nat, o: Outcome)
    requires p in s.procs && s.procs[p].pc.LeaveGet?
    ensures var name, t, c := s.procs[p].pc.name, Apply(s, Request(p, o)), s.procs[p].cluster;
      && p in t.procs && t.log == s.log
      && t.procs[p] == Proc(c,
           if o == Done && name in s.store.records && FinalizerName(c) in s.store.records[name].finalizers
           then LeaveUpdate(name, s.store.records[name]) else Idle)
  {
  }

  lemma LeaveReply(s: Sys, p: nat)
    requires p in s.procs && s.procs[p].pc.LeaveUpdate? && Current(s, s.procs[p].pc.name, s.procs[p].pc.snapshot)
    ensures var t := Apply(s, Request(p, Done));
      p in t.procs && t.procs[p].pc == Idle && !Member(t.log, s.procs[p].cluster, s.procs[p].pc.name)
  {
    var t := Apply(s, Request(p, Done));
    assert t.log == s.log + [Left(s.procs[p].cluster, s.procs[p].pc.name)];
  }
}
