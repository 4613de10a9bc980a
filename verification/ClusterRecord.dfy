// pkg/agent/agent.go in its own form: an agent that registers its Cluster record
// and then reports endpoints and heartbeats into it while other processes do the
// same. Each call is proved to be a run of the protocol of module ClusterProtocol.

module ClusterRecords {
  import opened Wrappers
  import opened BgpMesh
  import opened ClusterProtocol
  import opened Arithmetic
  import Pools
  import Runs

  const MAX_RETRIES := 3

  datatype AgentError = Api(error: ApiError) | NotInitialized | MissingSettings | BadVtep | BadAsn | RetriesExhausted

  // What the steps of others do as process p sees them.
  ghost predicate Follows(s: Sys, t: Sys, p: nat)
  {
    s.log <= t.log && p in s.procs && p in t.procs && t.procs[p] == s.procs[p]
  }

  lemma {:induction false} OthersFollow(s: Sys, events: seq<Event>, p: nat)
    requires p in s.procs && OthersOnly(events, p)
    ensures Follows(s, Run(s, events), p)
  {
    if events != [] {
      OthersFollow(s, events[..|events| - 1], p);
      assert ConcernsOthers(events[|events| - 1], p);
    }
  }

  // The API server that holds the record; between two requests of a process the
  // others act. The ghost field is the whole system the record belongs to.
  class LocalApi {
    var record: Option<Record>
    var version: nat
    ghost var sys: Sys

    ghost predicate Valid()
      reads this
    {
      sys.record == record && sys.version == version
    }

    // Callers know only this contract: any steps of others may have happened.
    method Others(ghost p: nat) returns (ghost events: seq<Event>)
      requires Valid() && p in sys.procs
      modifies this
      ensures Valid() && sys == Run(old(sys), events)
      ensures OthersOnly(events, p)
    {
      events := [];
    }

    method Get(ghost p: nat) returns (r: Result<Record, ApiError>, ghost o: Outcome)
      requires Valid() && p in sys.procs && sys.procs[p].Reading?
      modifies this
      ensures Valid() && sys == Apply(old(sys), Request(p, o)) && record == old(record)
      ensures match r
        case Ok(rec) => o == Done && record == Some(rec)
        case Err(NotFound) => o == Done && record == None
        case Err(error) => o == Refused && error == Unavailable
    {
      var reachable := *;
      if !reachable {
        r, o := Err(Unavailable), Refused;
      } else if record.Some? {
        r, o := Ok(record.value), Done;
      } else {
        r, o := Err(NotFound), Done;
      }
      sys := Apply(sys, Request(p, o));
    }

    method Create(ghost p: nat, body: Body) returns (r: Attempt, ghost o: Outcome)
      requires Valid() && p in sys.procs
      requires sys.procs[p].Writing? && sys.procs[p].snapshot == None
      requires sys.procs[p].intent.Register? && body == Edit(sys.procs[p].intent, None)
      modifies this
      ensures Valid() && sys == Apply(old(sys), Request(p, o))
      ensures r == Answer(old(sys), p, o)
    {
      var reachable, answered := *, *;
      r, o := Gone(Unavailable), Refused;
      if reachable {
        o := if answered then Done else Lost;
        if record.Some? {
          r := Gone(AlreadyExists);
        } else {
          record, version := Some(Record(body, version + 1)), version + 1;
          r := Committed;
        }
        if !answered {
          r := Gone(Unavailable);
        }
      }
      sys := Apply(sys, Request(p, o));
    }

    // Accepted only with the version that was read; otherwise a conflict.
    method Update(ghost p: nat, body: Body, read: nat) returns (r: Attempt, ghost o: Outcome)
      requires Valid() && p in sys.procs
      requires match sys.procs[p]
        case Writing(intent, Some(snap)) => read == snap.version && body == Edit(intent, Some(snap.body))
        case _ => false
      modifies this
      ensures Valid() && sys == Apply(old(sys), Request(p, o))
      ensures r == Answer(old(sys), p, o)
    {
      var reachable, answered := *, *;
      r, o := Gone(Unavailable), Refused;
      if reachable {
        o := if answered then Done else Lost;
        if record == None {
          r := Gone(NotFound);
        } else if record.value.version != read {
          r := Conflicted;
        } else {
          record, version := Some(Record(body, version + 1)), version + 1;
          r := Committed;
        }
        if !answered {
          r := Gone(Unavailable);
        }
      }
      sys := Apply(sys, Request(p, o));
    }
  }

  // -------------------------------------------------------------- replies

  lemma ReadReply(s: Sys, p: nat, o: Outcome)
    requires p in s.procs && s.procs[p].Reading?
    ensures var t, intent := Apply(s, Request(p, o)), s.procs[p].intent;
      && t == SetPc(s, p, if o == Done && (s.record.Some? || intent.Register?) then Writing(intent, s.record) else Idle)
  {
  }

  lemma WriteReply(s: Sys, p: nat, o: Outcome)
    requires p in s.procs && s.procs[p].Writing? && (s.procs[p].snapshot == None ==> s.procs[p].intent.Register?)
    ensures var t, Writing(intent, snapshot) := Apply(s, Request(p, o)), s.procs[p];
      && p in t.procs && t.procs[p] == Idle
      && t.log == if o != Refused && Writable(s, snapshot) then s.log + [Did(intent)] else s.log
  {
  }

  // Outside the retry loop a conflict is an error like any other.
  function Failure(r: Attempt): Option<AgentError>
  {
    match r
    case Committed => None
    case Conflicted => Some(Api(Conflict))
    case Gone(error) => Some(Api(error))
  }

  // What is reported of a single attempt: success exactly when it committed.
  ghost predicate Tells(err: Option<AgentError>, a: Attempt)
  {
    && (err == None <==> a == Committed)
    && (err == Some(Api(Conflict)) <==> a == Conflicted || a == Gone(Conflict))
    && (forall error :: error != Conflict ==> (err == Some(Api(error)) <==> a == Gone(error)))
    && (err.Some? ==> err.value.Api?)
  }

  // At most three attempts, each but the last one ended by a conflict; a third
  // conflict is final.
  ghost predicate OnlyConflictsRetried(attempts: seq<Attempt>)
  {
    && 1 <= |attempts| <= MAX_RETRIES
    && (forall i :: 0 <= i < |attempts| - 1 ==> attempts[i] == Conflicted)
    && (attempts[|attempts| - 1] == Conflicted ==> |attempts| == MAX_RETRIES)
  }

  // What the retry loop reports of its last attempt.
  function Verdict(last: Attempt): Option<AgentError>
  {
    match last
    case Committed => None
    case Conflicted => Some(RetriesExhausted)
    case Gone(error) => Some(Api(error))
  }

  class Agent {
    const api: LocalApi
    const clusterID: string
    const vtepCidr: string
    const asn: int
    const pools: Pools.Pool
    ghost const pid: nat
    // a.cluster, the agent's own copy of its record.
    var cluster: Option<Body>

    constructor (api: LocalApi, clusterID: string, vtepCidr: string, asn: int, pools: Pools.Pool, ghost pid: nat)
      ensures this.api == api && this.clusterID == clusterID && this.vtepCidr == vtepCidr
      ensures this.asn == asn && this.pools == pools && this.pid == pid && cluster == None
    {
      this.api, this.clusterID, this.vtepCidr, this.asn, this.pools := api, clusterID, vtepCidr, asn, pools;
      this.pid, cluster := pid, None;
    }

    ghost predicate At(pc: Pc)
      reads api
    {
      api.Valid() && pid in api.sys.procs && api.sys.procs[pid] == pc
    }

    // updateClusterStatus: at most three attempts, each of which reads the record
    // anew; only a version conflict is retried. The ghost result is what was sent,
    // attempt by attempt, and the answers are those the protocol gives to it.
    method UpdateClusterStatus(endpoints: seq<Endpoint>)
      returns (err: Option<AgentError>, attempts: seq<Attempt>, slept: nat, ghost ops: seq<Operation>)
      requires At(Idle)
      modifies api
      ensures Reported(old(api.sys), endpoints, ops, attempts)
      ensures OnlyConflictsRetried(attempts)
      ensures err == None <==> attempts[|attempts| - 1] == Committed
      ensures err == Some(RetriesExhausted) <==> attempts == [Conflicted, Conflicted, Conflicted]
      ensures forall error :: err == Some(Api(error)) <==> attempts[|attempts| - 1] == Gone(error)
      ensures slept == Pow2(|attempts| - 1) - 1 && slept <= 3
    {
      ghost var s0 := api.sys;
      var backoff := 1;
      attempts, slept, ops := [], 0, [];
      assert Pow2(0) == 1 && Pow2(1) == 2 && Pow2(2) == 4;
      NothingPerformed(s0, pid, Report(endpoints));
      for i := 0 to MAX_RETRIES
        invariant Reported(s0, endpoints, ops, attempts)
        invariant |attempts| == i && forall k :: 0 <= k < i ==> attempts[k] == Conflicted
        invariant slept == backoff - 1 && backoff == if i == 0 then 1 else if i == 1 then 2 else 4
      {
        var attempt;
        attempt, ops := ReportOnce(s0, endpoints, ops, attempts);
        attempts := attempts + [attempt];
        if attempt != Conflicted {
          return Verdict(attempt), attempts, slept, ops;
        }
        if i < MAX_RETRIES - 1 {
          slept := slept + backoff;
          backoff := backoff * 2;
        }
      }
      return Some(RetriesExhausted), attempts, slept, ops;
    }

    // Since s0 this process has sent these reports, with these answers, and is idle.
    ghost predicate Reported(s0: Sys, endpoints: seq<Endpoint>, ops: seq<Operation>, attempts: seq<Attempt>)
      reads api
    {
      At(Idle) && HasPerformed(s0, api.sys, pid, Report(endpoints), ops, attempts)
    }

    method ReportOnce(ghost s0: Sys, endpoints: seq<Endpoint>, ghost ops: seq<Operation>, attempts: seq<Attempt>)
      returns (r: Attempt, ghost all: seq<Operation>)
      requires Reported(s0, endpoints, ops, attempts)
      modifies api
      ensures Reported(s0, endpoints, all, attempts + [r])
    {
      ghost var s1, op := api.sys, ReadOnly([], Refused);
      r, op := TryReport(endpoints);
      PerformedOneMore(s0, s1, api.sys, pid, Report(endpoints), ops, attempts, op, r);
      all := ops + [op];
    }

    // One turn of that loop: Get, set the endpoints, Update.
    method TryReport(endpoints: seq<Endpoint>) returns (r: Attempt, ghost op: Operation)
      requires At(Idle)
      modifies api
      ensures At(Idle) && api.sys == Run(old(api.sys), Events(pid, Report(endpoints), op))
      ensures Performs(old(api.sys), pid, Report(endpoints), op, r)
    {
      ghost var s0, intent, gap, o := api.sys, Report(endpoints), [], Refused;
      var got;
      got, gap, o := Read(Report(endpoints));
      if got.Err? {
        return Gone(got.error), ReadOnly(gap, o);
      }
      var latest := got.value.body;
      var edited := latest.(status := latest.status.(endpoints := endpoints));
      r, op := WriteBack(s0, intent, gap, Some(got.value), edited);
    }

    // A gap between two requests of this process.
    method Wait() returns (ghost gap: seq<Event>)
      requires api.Valid() && pid in api.sys.procs
      modifies api
      ensures OthersOnly(gap, pid)
      ensures api.Valid() && api.sys == Run(old(api.sys), gap) && Follows(old(api.sys), api.sys, pid)
    {
      ghost var s0 := api.sys;
      gap := api.Others(pid);
      OthersFollow(s0, gap, pid);
    }

    // The Get that begins every operation. It ends one that needs a record when
    // there is none, and any that is refused.
    method Read(ghost intent: Intent) returns (r: Result<Record, ApiError>, ghost gap: seq<Event>, ghost o: Outcome)
      requires At(Idle)
      modifies api
      ensures OthersOnly(gap, pid)
      ensures match r
        case Ok(rec) => HasRead(old(api.sys), intent, gap, Some(rec))
        case Err(NotFound) =>
          if intent.Register? then HasRead(old(api.sys), intent, gap, None)
          else HasStopped(old(api.sys), intent, gap, o, NotFound)
        case Err(error) => HasStopped(old(api.sys), intent, gap, o, error)
    {
      ghost var s0 := api.sys;
      api.sys := Apply(api.sys, Call(pid, intent));
      Runs.FoldAppend(Apply, s0, [], Call(pid, intent));
      assert [] + [Call(pid, intent)] == [Call(pid, intent)];
      gap := Wait();
      Runs.FoldConcat(Apply, s0, [Call(pid, intent)], gap);
      ghost var mid := api.sys;
      r, o := api.Get(pid);
      ReadReply(mid, pid, o);
      Runs.FoldAppend(Apply, s0, Beginning(pid, intent, gap), Request(pid, o));
    }

    // The record was read (None: found missing) and is about to be written.
    ghost predicate HasRead(s0: Sys, intent: Intent, gap: seq<Event>, found: Option<Record>)
      reads api
    {
      && At(Writing(intent, found)) && found == Run(s0, Beginning(pid, intent, gap)).record
      && api.sys == Run(s0, Beginning(pid, intent, gap) + [Request(pid, Done)])
    }

    // The operation ended with its read.
    ghost predicate HasStopped(s0: Sys, intent: Intent, gap: seq<Event>, o: Outcome, error: ApiError)
      reads api
    {
      && At(Idle) && api.sys == Run(s0, Events(pid, intent, ReadOnly(gap, o)))
      && Performs(s0, pid, intent, ReadOnly(gap, o), Gone(error))
    }

    // The Create or Update that ends an operation.
    method WriteBack(ghost s0: Sys, ghost intent: Intent, ghost gap: seq<Event>, found: Option<Record>, body: Body)
      returns (r: Attempt, ghost op: Operation)
      requires HasRead(s0, intent, gap, found) && OthersOnly(gap, pid) && (found == None ==> intent.Register?)
      requires body == Edit(intent, Unversioned(found))
      modifies api
      ensures At(Idle) && api.sys == Run(s0, Events(pid, intent, op)) && Performs(s0, pid, intent, op, r)
      ensures op.ReadWrite?
    {
      ghost var read := Beginning(pid, intent, gap) + [Request(pid, Done)];
      ghost var between := Wait();
      Runs.FoldConcat(Apply, s0, read, between);
      ghost var mid := api.sys;
      ghost var o;
      match found {
        case None => r, o := api.Create(pid, body);
        case Some(rec) => r, o := api.Update(pid, body, rec.version);
      }
      WriteReply(mid, pid, o);
      Runs.FoldAppend(Apply, s0, read + between, Request(pid, o));
      op := ReadWrite(gap, between, o);
    }

    // updateHeartbeat: one attempt, no retry; a conflict is an error.
    method UpdateHeartbeat(now: int) returns (err: Option<AgentError>, ghost op: Option<(Operation, Attempt)>)
      requires At(Idle)
      modifies api
      ensures At(Idle)
      ensures cluster == None ==> err == Some(NotInitialized) && api.sys == old(api.sys)
      ensures cluster.Some? ==>
        && op.Some? && api.sys == Run(old(api.sys), Events(pid, Beat(now), op.value.0))
        && Performs(old(api.sys), pid, Beat(now), op.value.0, op.value.1) && Tells(err, op.value.1)
    {
      op := None;
      if cluster == None {
        return Some(NotInitialized), op;
      }
      ghost var s0, intent, gap, o := api.sys, Beat(now), [], Refused;
      var got;
      got, gap, o := Read(Beat(now));
      if got.Err? {
        return Some(Api(got.error)), Some((ReadOnly(gap, o), Gone(got.error)));
      }
      var st := got.value.body.status;
      st := st.(heartbeat := now);
      if st.phase == Pending {
        st := st.(phase := Ready);
      }
      var r;
      ghost var sent;
      r, sent := WriteBack(s0, intent, gap, Some(got.value), got.value.body.(status := st));
      return Failure(r), Some((sent, r));
    }

    predicate SettingsOk()
    {
      && vtepCidr != "" && asn != 0
      && Pools.ValidateVtepCidr(vtepCidr, pools) == None && Pools.ValidateAsn(asn, pools) == None
    }

    ghost function Registration(now: int): Intent
    {
      Register(Spec(clusterID, vtepCidr, asn), now)
    }

    // A VTEP CIDR the pool accepts and a nonzero ASN within its bounds.
    lemma SettingsOkIff()
      ensures SettingsOk() <==>
        && vtepCidr != "" && asn != 0 && pools.asnMin <= asn <= pools.asnMax
        && Pools.ValidateVtepCidr(vtepCidr, pools) == None
    {
    }

    // registerCluster: the settings are checked after the read and before any
    // write; the agent's own copy is set before the write that may still fail.
    // `gaveUp` tells whether it stopped at that check.
    method RegisterCluster(now: int)
      returns (err: Option<AgentError>, ghost op: Operation, ghost a: Attempt, ghost gaveUp: bool)
      requires At(Idle)
      modifies api, this
      ensures At(Idle)
      ensures !gaveUp ==>
        && api.sys == Run(old(api.sys), Events(pid, Registration(now), op))
        && Performs(old(api.sys), pid, Registration(now), op, a)
        && Tells(err, a)
      ensures gaveUp ==>
        && !SettingsOk() && err.Some? && !err.value.Api? && OthersOnly(op.gap, pid) && op == ReadOnly(op.gap, Done)
        && api.sys == Run(old(api.sys), Events(pid, Registration(now), op) + [Crash(pid)])
      ensures !SettingsOk() ==> op.ReadOnly?
      ensures op.ReadOnly? ==> cluster == old(cluster)
      ensures op.ReadWrite? ==>
        && cluster.Some? && cluster.value.spec.vtepCidr == vtepCidr && cluster.value.spec.asn == asn
        && cluster.value.status.heartbeat == now
    {
      ghost var s0, gap, o := api.sys, [], Refused;
      var got;
      got, gap, o := Read(Registration(now));
      op, a, gaveUp := ReadOnly(gap, o), Gone(Unavailable), false;
      if got.Err? && got.error != NotFound {
        a := Gone(got.error);
        return Some(Api(got.error)), op, a, gaveUp;
      }
      var refused := CheckSettings();
      if refused.Some? {
        op, gaveUp := ReadOnly(gap, Done), true;
        GiveUp(s0, Registration(now), gap, if got.Ok? then Some(got.value) else None);
        return refused, op, a, gaveUp;
      }
      var r;
      r, op := StoreCluster(s0, now, gap, if got.Ok? then Some(got.value) else None);
      a := r;
      return Failure(r), op, a, gaveUp;
    }

    // The second half of registerCluster, with settings that are in order.
    method StoreCluster(ghost s0: Sys, now: int, ghost gap: seq<Event>, found: Option<Record>)
      returns (r: Attempt, ghost op: Operation)
      requires HasRead(s0, Registration(now), gap, found) && OthersOnly(gap, pid)
      modifies api, this
      ensures At(Idle) && op.ReadWrite?
      ensures api.sys == Run(s0, Events(pid, Registration(now), op)) && Performs(s0, pid, Registration(now), op, r)
      ensures cluster.Some? && cluster.value.spec.vtepCidr == vtepCidr && cluster.value.spec.asn == asn
      ensures cluster.value.status.heartbeat == now
    {
      var c := FillIn(Unversioned(found), now);
      cluster := Some(c);
      r, op := WriteBack(s0, Registration(now), gap, found, c);
    }

    ghost method GiveUp(s0: Sys, intent: Intent, gap: seq<Event>, found: Option<Record>)
      requires HasRead(s0, intent, gap, found)
      modifies api`sys
      ensures At(Idle) && api.sys == Run(s0, Events(pid, intent, ReadOnly(gap, Done)) + [Crash(pid)])
    {
      Runs.FoldAppend(Apply, s0, Events(pid, intent, ReadOnly(gap, Done)), Crash(pid));
      api.sys := Apply(api.sys, Crash(pid));
    }

    // The record as it was found, or a new one, with this agent's settings.
    method FillIn(found: Option<Body>, now: int) returns (c: Body)
      ensures c == Edit(Registration(now), found)
    {
      c := if found.Some? then found.value else Body(Spec(clusterID, "", 0), Status(Unset, [], 0));
      c := c.(spec := c.spec.(vtepCidr := vtepCidr, asn := asn));
      if c.status.phase == Unset {
        c := c.(status := c.status.(phase := Pending));
      }
      c := c.(status := c.status.(heartbeat := now));
    }

    method CheckSettings() returns (err: Option<AgentError>)
      ensures match err
        case None => SettingsOk()
        case Some(MissingSettings) => vtepCidr == "" || asn == 0
        case Some(BadVtep) => vtepCidr != "" && asn != 0 && Pools.ValidateVtepCidr(vtepCidr, pools).Some?
        case Some(BadAsn) =>
          && vtepCidr != "" && asn != 0 && Pools.ValidateVtepCidr(vtepCidr, pools) == None
          && !(pools.asnMin <= asn <= pools.asnMax)
        case Some(_) => false
    {
      if vtepCidr == "" || asn == 0 {
        return Some(MissingSettings);
      }
      if Pools.ValidateVtepCidr(vtepCidr, pools).Some? {
        return Some(BadVtep);
      }
      return if Pools.ValidateAsn(asn, pools).Some? then Some(BadAsn) else None;
    }

    // refreshLocalCluster: afterwards the agent's copy is the record that the
    // committed operations, done whole and in order, produce.
    method RefreshLocalCluster() returns (ok: bool)
      requires api.Valid() && Inv(api.sys)
      modifies this
      ensures ok ==> cluster.Some? && cluster == Replay(api.sys.log)
      ensures !ok ==> cluster == old(cluster)
    {
      var reachable := *;
      ok := reachable && api.record.Some?;
      if ok {
        cluster := Some(api.record.value.body);
      }
    }
  }
}
