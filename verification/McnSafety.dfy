// What every run of the broker protocol keeps: agreement, membership, legality of
// the history, and exactly which overlaps can give two networks the same VNI.

module McnSafety {
  import opened Wrappers
  import opened BrokerStore
  import opened Finalizers
  import opened McnProtocol
  import Runs
  import VniAllocator

  // -------------------------------------------------------------- log facts

  lemma MemberAppend(log: seq<Commit>, e: Commit, name: string)
    ensures forall c :: Member(log + [e], c, name) == MemberAfter(e, c, name, Member(log, c, name))
  {
    assert (log + [e])[..|log|] == log;
  }

  lemma LeftSinceAppend(log: seq<Commit>, e: Commit, at: nat, c: string, name: string)
    requires at <= |log|
    ensures LeftSince(log + [e], at, c, name) <==> LeftSince(log, at, c, name) || e == Left(c, name)
  {
    if LeftSince(log, at, c, name) {
      var i :| at <= i < |log| && log[i] == Left(c, name);
      assert (log + [e])[i] == Left(c, name);
    }
    if e == Left(c, name) {
      assert (log + [e])[|log|] == Left(c, name);
    }
  }

  // -------------------------------------------------------------- primitives

  // All Creates and Lists so far happened before the current event.
  ghost predicate Ticked(s: Sys)
  {
    && (forall n :: n in s.births ==> s.births[n].createdAt < s.clock)
    && (forall q :: q in s.procs && s.procs[q].pc.CreateReq? ==> s.procs[q].pc.listedAt < s.clock)
  }

  // Changing program counters, answering and the passing of time leave the
  // broker and its history alone.
  ghost predicate SameBroker(s: Sys, t: Sys)
  {
    t.store == s.store && t.log == s.log && t.births == s.births && s.clock <= t.clock
  }

  lemma SameBrokerKeepsInv(s: Sys, t: Sys)
    requires Inv(s) && SameBroker(s, t)
    requires forall p :: p in t.procs ==> (p in s.procs && t.procs[p] == s.procs[p]) || ProcOk(s, t.procs[p])
    requires forall i :: 0 <= i < |t.returned| ==> t.returned[i] in s.returned || ReturnOk(s, t.returned[i])
    ensures Inv(t)
  {
    forall n ensures RecordOk(t, n) {
      assert RecordOk(s, n);
    }
    forall n, m ensures DistinctUnlessOverlap(t, n, m) {
      assert DistinctUnlessOverlap(s, n, m);
    }
    forall p | p in t.procs ensures ProcOk(t, t.procs[p]) {
      assert ProcOk(s, t.procs[p]);
    }
    forall i | 0 <= i < |t.returned| ensures ReturnOk(t, t.returned[i]) {
      assert ReturnOk(s, t.returned[i]);
    }
  }

  lemma PcKeepsInv(s: Sys, p: nat, pc: Pc)
    requires Inv(s) && p in s.procs && ProcOk(s, s.procs[p].(pc := pc))
    ensures Inv(SetPc(s, p, pc))
  {
    SameBrokerKeepsInv(s, SetPc(s, p, pc));
  }

  lemma AnswerKeepsInv(s: Sys, p: nat, name: string)
    requires Inv(s) && p in s.procs && name in s.store.records
    requires FinalizerName(s.procs[p].cluster) in s.store.records[name].finalizers
    ensures Inv(Answer(s, p, name))
  {
    assert RecordOk(s, name);
    SameBrokerKeepsInv(s, Answer(s, p, name));
  }

  lemma HistoryAppend(log: seq<Commit>, e: Commit)
    requires HistoryLegal(log) && Legal(log, e)
    ensures HistoryLegal(log + [e])
  {
    var log' := log + [e];
    forall i | 0 <= i < |log'| ensures Legal(log'[..i], log'[i]) {
      assert log'[..i] == log[..i];
      assert log[..|log|] == log;
    }
  }

  // A write that keeps the spec of an existing record, with or without a commit in the log.
  ghost predicate Rewrites(s: Sys, t: Sys, name: string, rec: Record)
  {
    && name in s.store.records && rec.spec == s.store.records[name].spec
    && t == s.(store := s.store.Write(name, rec), log := t.log)
  }

  lemma RewriteKeepsOthers(s: Sys, t: Sys, name: string, rec: Record)
    requires Inv(s) && Rewrites(s, t, name, rec)
    ensures forall n, m :: DistinctUnlessOverlap(t, n, m)
    ensures forall p :: p in t.procs ==> ProcOk(t, t.procs[p])
  {
    forall n, m ensures DistinctUnlessOverlap(t, n, m) {
      assert DistinctUnlessOverlap(s, n, m);
    }
    forall p | p in t.procs ensures ProcOk(t, t.procs[p]) {
      assert ProcOk(s, s.procs[p]);
    }
  }

  // The log grows by a commit that does not end anybody else's membership.
  lemma ReturnsFollow(s: Sys, t: Sys, e: Commit)
    requires Inv(s) && t.returned == s.returned && t.log == s.log + [e]
    requires forall n :: n in s.store.records && !(e.Removed? && e.name == n) ==>
               n in t.store.records && t.store.records[n].spec == s.store.records[n].spec
    requires e.Removed? ==> forall c :: !Member(s.log, c, e.name)
    ensures forall i :: 0 <= i < |t.returned| ==> ReturnOk(t, t.returned[i])
  {
    forall i | 0 <= i < |t.returned| ensures ReturnOk(t, t.returned[i]) {
      var r := s.returned[i];
      assert ReturnOk(s, r);
      LeftSinceAppend(s.log, e, r.at, r.cluster, r.name);
      MemberAppend(s.log, e, r.name);
    }
  }

  lemma CreateKeepsInv(s: Sys, p: nat)
    requires Inv(s) && Ticked(s) && p in s.procs && s.procs[p].pc.CreateReq?
    requires s.procs[p].pc.name !in s.store.records
    ensures var pc := s.procs[p].pc;
      Inv(CommitCreate(s, p, pc.name, pc.topology, pc.vni, pc.listedAt))
  {
    var CreateReq(name, topology, vni, listedAt) := s.procs[p].pc;
    var c := s.procs[p].cluster;
    var t := CommitCreate(s, p, name, topology, vni, listedAt);
    FinalizerNameInjective(c);
    assert ProcOk(s, s.procs[p]);
    forall n ensures RecordOk(t, n) {
      assert RecordOk(s, n);
      MemberAppend(s.log, Created(c, name), n);
    }
    forall n, m ensures DistinctUnlessOverlap(t, n, m) {
      assert DistinctUnlessOverlap(s, n, m);
      assert RecordOk(s, n) && RecordOk(s, m);
    }
    forall q | q in t.procs ensures ProcOk(t, t.procs[q]) {
      assert ProcOk(s, s.procs[q]);
    }
    ReturnsFollow(s, t, Created(c, name));
    assert RecordOk(s, name);
    HistoryAppend(s.log, Created(c, name));
  }

  lemma JoinKeepsInv(s: Sys, p: nat)
    requires Inv(s) && p in s.procs && s.procs[p].pc.JoinUpdate?
    requires Current(s, s.procs[p].pc.name, s.procs[p].pc.snapshot)
    ensures Inv(CommitJoin(s, p, s.procs[p].pc.name, s.procs[p].pc.snapshot))
  {
    var JoinUpdate(name, snap) := s.procs[p].pc;
    var c := s.procs[p].cluster;
    var t := CommitJoin(s, p, name, snap);
    FinalizerNameInjective(c);
    assert ProcOk(s, s.procs[p]);
    RewriteKeepsOthers(s, t, name, snap.(finalizers := snap.finalizers + [FinalizerName(c)]));
    forall n ensures RecordOk(t, n) {
      assert RecordOk(s, n);
      MemberAppend(s.log, Joined(c, name), n);
    }
    ReturnsFollow(s, t, Joined(c, name));
    assert RecordOk(s, name);
    HistoryAppend(s.log, Joined(c, name));
  }

  lemma LeaveKeepsInv(s: Sys, p: nat)
    requires Inv(s) && p in s.procs && s.procs[p].pc.LeaveUpdate?
    requires Current(s, s.procs[p].pc.name, s.procs[p].pc.snapshot)
    ensures Inv(CommitLeave(s, p, s.procs[p].pc.name, s.procs[p].pc.snapshot))
  {
    var LeaveUpdate(name, snap) := s.procs[p].pc;
    var c := s.procs[p].cluster;
    var t := CommitLeave(s, p, name, snap);
    FinalizerNameInjective(c);
    assert ProcOk(s, s.procs[p]);
    WithoutMembers(snap.finalizers, FinalizerName(c));
    RewriteKeepsOthers(s, t, name, snap.(finalizers := Without(snap.finalizers, FinalizerName(c))));
    forall n ensures RecordOk(t, n) {
      assert RecordOk(s, n);
      MemberAppend(s.log, Left(c, name), n);
    }
    ReturnsFollow(s, t, Left(c, name));
    assert RecordOk(s, name);
    HistoryAppend(s.log, Left(c, name));
  }

  lemma MarkKeepsInv(s: Sys, name: string)
    requires Inv(s)
    ensures Inv(Effect(s, RequestDeletion(name)))
  {
    if name in s.store.records {
      var t := Effect(s, RequestDeletion(name));
      RewriteKeepsOthers(s, t, name, s.store.records[name].(deleting := true));
      forall n ensures RecordOk(t, n) {
        assert RecordOk(s, n);
      }
      forall i | 0 <= i < |t.returned| ensures ReturnOk(t, t.returned[i]) {
        assert ReturnOk(s, s.returned[i]);
      }
    }
  }

  lemma CollectKeepsInv(s: Sys, name: string)
    requires Inv(s)
    ensures Inv(Effect(s, Collect(name)))
  {
    var t := Effect(s, Collect(name));
    if t != s {
      assert RecordOk(s, name);
      forall n ensures RecordOk(t, n) {
        assert RecordOk(s, n);
        MemberAppend(s.log, Removed(name), n);
      }
      forall n, m ensures DistinctUnlessOverlap(t, n, m) {
        assert DistinctUnlessOverlap(s, n, m);
      }
      forall q | q in t.procs ensures ProcOk(t, t.procs[q]) {
        assert ProcOk(s, s.procs[q]);
      }
      ReturnsFollow(s, t, Removed(name));
      HistoryAppend(s.log, Removed(name));
    }
  }

  // -------------------------------------------------------------- every step, every run

  // What a planned change relies on, given the invariant of the process.
  ghost predicate ChangeOk(s: Sys, proc: Proc, c: Change)
  {
    match c
    case Goto(pc) => ProcOk(s, proc.(pc := pc))
    case ReturnStored(name) =>
      name in s.store.records && FinalizerName(proc.cluster) in s.store.records[name].finalizers
    case DoCreate(name, topology, vni, listedAt, _) => proc.pc == CreateReq(name, topology, vni, listedAt)
    case DoJoin(name, snapshot, _) => proc.pc == JoinUpdate(name, snapshot)
    case DoLeave(name, snapshot) => proc.pc == LeaveUpdate(name, snapshot)
  }

  lemma PlanOk(s: Sys, cluster: string, pc: Pc, o: Outcome)
    requires Inv(s)
    ensures ChangeOk(s, Proc(cluster, pc), Plan(s, cluster, pc, o))
  {
    if pc.JoinGet? || pc.ConflictGet? || pc.LeaveGet? {
      assert RecordOk(s, pc.name);
    } else if pc.VniList? {
      ListChoiceOk(s);
    }
  }

  lemma ListChoiceOk(s: Sys)
    requires Inv(s)
    ensures match VniAllocator.FirstFree(s.store.Vnis())
      case Some(vni) => ChoiceOk(s, vni, s.clock)
      case None => true
  {
    var v := VniAllocator.FirstFree(s.store.Vnis());
    if v.Some? {
      forall n | n in s.store.records ensures s.store.records[n].spec.vni != v.value {
        assert RecordOk(s, n);
        assert s.store.records[n].spec.vni in s.store.Vnis();
      }
    }
  }

  lemma PerformKeepsInv(s: Sys, p: nat, c: Change)
    requires Inv(s) && Ticked(s) && p in s.procs && Enabled(s, c) && ChangeOk(s, s.procs[p], c)
    ensures Inv(Perform(s, p, c))
  {
    match c
    case Goto(pc) => PcKeepsInv(s, p, pc);
    case ReturnStored(name) => AnswerKeepsInv(s, p, name);
    case DoCreate(name, topology, vni, listedAt, answered) =>
      CreateKeepsInv(s, p);
      FinishKeepsInv(CommitCreate(s, p, name, topology, vni, listedAt), p, name);
    case DoJoin(name, snapshot, answered) =>
      JoinKeepsInv(s, p);
      FinishKeepsInv(CommitJoin(s, p, name, snapshot), p, name);
    case DoLeave(name, snapshot) =>
      LeaveKeepsInv(s, p);
      PcKeepsInv(CommitLeave(s, p, name, snapshot), p, Idle);
  }

  lemma FinishKeepsInv(s: Sys, p: nat, name: string)
    requires Inv(s) && p in s.procs && name in s.store.records
    requires FinalizerName(s.procs[p].cluster) in s.store.records[name].finalizers
    ensures Inv(SetPc(s, p, Idle)) && Inv(Answer(s, p, name))
  {
    PcKeepsInv(s, p, Idle);
    AnswerKeepsInv(s, p, name);
  }

  lemma StepKeepsInv(s: Sys, p: nat, o: Outcome)
    requires Inv(s) && Ticked(s) && p in s.procs
    ensures Inv(Step(s, p, o))
  {
    PlanOk(s, s.procs[p].cluster, s.procs[p].pc, o);
    PerformKeepsInv(s, p, Plan(s, s.procs[p].cluster, s.procs[p].pc, o));
  }

  lemma TickKeepsInv(s: Sys)
    requires Inv(s)
    ensures Inv(s.(clock := s.clock + 1)) && Ticked(s.(clock := s.clock + 1))
  {
    SameBrokerKeepsInv(s, s.(clock := s.clock + 1));
    forall n | n in s.births ensures s.births[n].createdAt <= s.clock {
      assert RecordOk(s, n);
    }
    forall p | p in s.procs && s.procs[p].pc.CreateReq? ensures s.procs[p].pc.listedAt <= s.clock {
      assert ProcOk(s, s.procs[p]);
    }
  }

  lemma RequestKeepsInv(s: Sys, p: nat, o: Outcome)
    requires Inv(s)
    ensures Inv(Apply(s, Request(p, o)))
  {
    TickKeepsInv(s);
    if p in s.procs {
      StepKeepsInv(s.(clock := s.clock + 1), p, o);
    }
  }

  lemma ApplyKeepsInv(s: Sys, e: Event)
    requires Inv(s)
    ensures Inv(Apply(s, e))
  {
    if e.Request? {
      RequestKeepsInv(s, e.pid, e.outcome);
    } else {
      TickKeepsInv(s);
      var t := s.(clock := s.clock + 1);
      match e
      case CallJoin(p, name, topology) =>
        if p in t.procs {
          PcKeepsInv(t, p, JoinGet(name, topology));
        }
      case CallLeave(p, name) =>
        if p in t.procs {
          PcKeepsInv(t, p, LeaveGet(name));
        }
      case Crash(p) =>
        if p in t.procs {
          PcKeepsInv(t, p, Idle);
        }
      case RequestDeletion(name) => MarkKeepsInv(t, name);
      case Collect(name) => CollectKeepsInv(t, name);
    }
  }

  lemma {:induction false} RunKeepsInv(s: Sys, events: seq<Event>)
    requires Inv(s)
    ensures Inv(Run(s, events))
  {
    if events != [] {
      RunKeepsInv(s, events[..|events| - 1]);
      ApplyKeepsInv(Run(s, events[..|events| - 1]), events[|events| - 1]);
    }
  }

  // The log and the returns only ever grow.
  lemma {:induction false} HistoryGrows(s: Sys, events: seq<Event>)
    ensures s.log <= Run(s, events).log && s.returned <= Run(s, events).returned
  {
    if events != [] {
      var init := events[..|events| - 1];
      HistoryGrows(s, init);
      StepGrows(Run(s, init), events[|events| - 1]);
    }
  }

  lemma StepGrows(s: Sys, e: Event)
    ensures s.log <= Apply(s, e).log && s.returned <= Apply(s, e).returned
  {
    if e.Request? && e.pid in s.procs {
      RequestPerforms(s, e.pid, e.outcome);
      var t := s.(clock := s.clock + 1);
      PerformGrows(t, e.pid, Plan(t, s.procs[e.pid].cluster, s.procs[e.pid].pc, e.outcome));
    }
  }

  // A request performs one enabled change.
  lemma RequestPerforms(s: Sys, p: nat, o: Outcome)
    requires p in s.procs
    ensures var t := s.(clock := s.clock + 1);
      Apply(s, Request(p, o)) == Perform(t, p, Plan(t, s.procs[p].cluster, s.procs[p].pc, o))
  {
    RequestSteps(s, p, o);
    StepPerforms(s.(clock := s.clock + 1), p, o);
  }

  lemma RequestSteps(s: Sys, p: nat, o: Outcome)
    requires p in s.procs
    ensures Apply(s, Request(p, o)) == Step(s.(clock := s.clock + 1), p, o)
  {
    ApplyTicks(s, Request(p, o));
    EffectSteps(s.(clock := s.clock + 1), p, o);
  }

  lemma ApplyTicks(s: Sys, e: Event)
    ensures Apply(s, e) == Effect(s.(clock := s.clock + 1), e)
  {
  }

  lemma EffectSteps(s: Sys, p: nat, o: Outcome)
    requires p in s.procs
    ensures Effect(s, Request(p, o)) == Step(s, p, o)
  {
  }

  lemma StepPerforms(s: Sys, p: nat, o: Outcome)
    requires p in s.procs
    ensures Step(s, p, o) == Perform(s, p, Plan(s, s.procs[p].cluster, s.procs[p].pc, o))
  {
  }

  lemma PerformGrows(s: Sys, p: nat, c: Change)
    requires p in s.procs && Enabled(s, c)
    ensures s.log <= Perform(s, p, c).log && s.returned <= Perform(s, p, c).returned
  {
  }

  // Agreement at one state: a return stands until the cluster leaves.
  lemma ReturnStands(s: Sys, r: Return)
    requires Inv(s) && r in s.returned && !LeftSince(s.log, r.at, r.cluster, r.name)
    ensures r.name in s.store.records && s.store.records[r.name].spec == r.spec
    ensures FinalizerName(r.cluster) in s.store.records[r.name].finalizers
  {
    var i :| 0 <= i < |s.returned| && s.returned[i] == r;
    assert ReturnOk(s, s.returned[i]);
    assert RecordOk(s, r.name);
  }

  lemma ReturnedBefore(s: Sys, r: Return)
    requires Inv(s) && r in s.returned
    ensures r.at <= |s.log|
  {
    var i :| 0 <= i < |s.returned| && s.returned[i] == r;
    assert ReturnOk(s, s.returned[i]);
  }

  lemma ReachableInv(s: Sys, events: seq<Event>)
    requires Initial(s)
    ensures Inv(Run(s, events))
  {
    RunKeepsInv(s, events);
  }

  // -------------------------------------------------------------- main results

  // Agreement while joined: whatever the other agents did meanwhile, the record
  // is still there and holds what CreateOrJoinMCN returned.
  lemma Agreement(s: Sys, events: seq<Event>, r: Return)
    requires Initial(s)
    requires r in Run(s, events).returned
    requires !LeftSince(Run(s, events).log, r.at, r.cluster, r.name)
    ensures r.name in Run(s, events).store.records
    ensures Run(s, events).store.records[r.name].spec == r.spec
    ensures FinalizerName(r.cluster) in Run(s, events).store.records[r.name].finalizers
  {
    ReachableInv(s, events);
    ReturnStands(Run(s, events), r);
  }

  // So all clusters that are joined to a name hold the same VNI, route target
  // and topology, whoever won the race to create it.
  lemma JoinedClustersAgree(s: Sys, events: seq<Event>, a: Return, b: Return)
    requires Initial(s)
    requires a in Run(s, events).returned && b in Run(s, events).returned && a.name == b.name
    requires !LeftSince(Run(s, events).log, a.at, a.cluster, a.name)
    requires !LeftSince(Run(s, events).log, b.at, b.cluster, b.name)
    ensures a.spec == b.spec
  {
    Agreement(s, events, a);
    Agreement(s, events, b);
  }

  // Membership: the finalizers are, without repetition, exactly those of the
  // clusters whose last committed operation was a create or a join.
  lemma MembershipRefinesSet(s: Sys, events: seq<Event>, name: string, c: string)
    requires Initial(s)
    ensures var t := Run(s, events);
      && (Member(t.log, c, name) <==>
            name in t.store.records && FinalizerName(c) in t.store.records[name].finalizers)
      && (name in t.store.records ==>
            && NoDuplicates(t.store.records[name].finalizers)
            && forall f :: f in t.store.records[name].finalizers ==>
                 exists d :: f == FinalizerName(d) && Member(t.log, d, name))
  {
    ReachableInv(s, events);
    var t := Run(s, events);
    assert RecordOk(t, name);
    if name in t.store.records {
      forall f | f in t.store.records[name].finalizers
        ensures exists d :: f == FinalizerName(d) && Member(t.log, d, name)
      {
        var d :| f == FinalizerName(d);
        assert Member(t.log, d, name);
      }
    }
  }

  // The commits of every run form a legal history of that set; in particular a
  // record never goes away while some cluster is a member of it.
  lemma CommitsAreLegal(s: Sys, events: seq<Event>, i: nat)
    requires Initial(s) && i < |Run(s, events).log|
    ensures Legal(Run(s, events).log[..i], Run(s, events).log[i])
  {
    ReachableInv(s, events);
  }

  // While a cluster stays joined, nothing more is committed in its name.
  lemma {:induction false} NoCommitWhileJoined(log: seq<Commit>, at: nat, c: string, name: string)
    requires HistoryLegal(log) && at <= |log|
    requires Member(log[..at], c, name) && !LeftSince(log, at, c, name)
    ensures Member(log, c, name)
    ensures forall i :: at <= i < |log| ==> log[i] != Joined(c, name) && !(log[i].Created? && log[i].name == name)
    decreases |log|
  {
    if at == |log| {
      assert log[..at] == log;
    } else {
      var init, e := log[..|log| - 1], log[|log| - 1];
      assert HistoryLegal(init) by {
        forall i | 0 <= i < |init| ensures Legal(init[..i], init[i]) {
          assert init[..i] == log[..i];
        }
      }
      assert init[..at] == log[..at];
      assert !LeftSince(init, at, c, name);
      NoCommitWhileJoined(init, at, c, name);
      assert Legal(init, e);
      assert e != Left(c, name);
    }
  }

  // A cluster that is out stays out until it creates or joins itself.
  lemma {:induction false} StaysOut(log: seq<Commit>, at: nat, c: string, name: string)
    requires at <= |log| && !Member(log[..at], c, name)
    requires forall i :: at <= i < |log| ==> log[i] != Joined(c, name) && log[i] != Created(c, name)
    ensures !Member(log, c, name)
    decreases |log|
  {
    if at == |log| {
      assert log[..at] == log;
    } else {
      assert log[..|log| - 1][..at] == log[..at];
      StaysOut(log[..|log| - 1], at, c, name);
    }
  }

  // Whatever an agent's request does, it changes no other cluster's membership:
  // others' finalizers stay in place when one cluster leaves.
  lemma RequestSparesOthers(s: Sys, p: nat, o: Outcome, d: string, name: string)
    requires Inv(s) && p in s.procs && d != s.procs[p].cluster
    ensures var t := Apply(s, Request(p, o));
      && (Member(t.log, d, name) <==> Member(s.log, d, name))
      && (name in s.store.records && FinalizerName(d) in s.store.records[name].finalizers ==>
            && name in t.store.records && t.store.records[name].spec == s.store.records[name].spec
            && FinalizerName(d) in t.store.records[name].finalizers)
  {
    var t := Apply(s, Request(p, o));
    RequestKeepsInv(s, p, o);
    RequestMembers(s, p, o, d, name);
    RequestKeepsSpecs(s, p, o, name);
    assert RecordOk(s, name) && RecordOk(t, name);
  }

  lemma RequestKeepsSpecs(s: Sys, p: nat, o: Outcome, name: string)
    requires Inv(s) && p in s.procs
    ensures var t := Apply(s, Request(p, o));
      name in s.store.records && name in t.store.records ==> t.store.records[name].spec == s.store.records[name].spec
  {
    TickKeepsInv(s);
    var t := s.(clock := s.clock + 1);
    RequestPerforms(s, p, o);
    PlanOk(t, s.procs[p].cluster, s.procs[p].pc, o);
    PerformKeepsSpecs(t, p, Plan(t, s.procs[p].cluster, s.procs[p].pc, o), name);
  }

  lemma PerformKeepsSpecs(s: Sys, p: nat, c: Change, name: string)
    requires Inv(s) && p in s.procs && Enabled(s, c) && ChangeOk(s, s.procs[p], c)
    ensures var t := Perform(s, p, c);
      name in s.store.records && name in t.store.records ==> t.store.records[name].spec == s.store.records[name].spec
  {
    assert ProcOk(s, s.procs[p]);
  }

  // As long as one cluster stays in, the network keeps its values, whatever all
  // others do in a run: joins, leaves, crashes, requested deletions.
  lemma {:induction false} MemberStands(s: Sys, events: seq<Event>, d: string, name: string)
    requires Inv(s) && Member(s.log, d, name)
    requires !LeftSince(Run(s, events).log, |s.log|, d, name)
    ensures var t := Run(s, events);
      && name in s.store.records && name in t.store.records && t.store.records[name].spec == s.store.records[name].spec
      && FinalizerName(d) in t.store.records[name].finalizers && Member(t.log, d, name)
  {
    assert RecordOk(s, name);
    if events != [] {
      var init, e := events[..|events| - 1], events[|events| - 1];
      var u, t := Run(s, init), Run(s, events);
      HistoryGrows(s, init);
      StepGrows(u, e);
      NotLeftBefore(u.log, t.log, |s.log|, d, name);
      MemberStands(s, init, d, name);
      RunKeepsInv(s, init);
      RunKeepsInv(s, events);
      assert t.log[..|s.log|] == s.log;
      NoCommitWhileJoined(t.log, |s.log|, d, name);
      assert RecordOk(t, name);
      StepKeepsSpecs(u, e, name);
    }
  }

  lemma NotLeftBefore(init: seq<Commit>, log: seq<Commit>, at: nat, d: string, name: string)
    requires init <= log && !LeftSince(log, at, d, name)
    ensures !LeftSince(init, at, d, name)
  {
    forall i | at <= i < |init| ensures init[i] != Left(d, name) {
      assert init[i] == log[i];
    }
  }

  lemma StepKeepsSpecs(s: Sys, e: Event, name: string)
    requires Inv(s)
    ensures var t := Apply(s, e);
      name in s.store.records && name in t.store.records ==> t.store.records[name].spec == s.store.records[name].spec
  {
    if e.Request? && e.pid in s.procs {
      RequestKeepsSpecs(s, e.pid, e.outcome, name);
    }
  }

  lemma RequestMembers(s: Sys, p: nat, o: Outcome, d: string, name: string)
    requires p in s.procs && d != s.procs[p].cluster
    ensures Member(Apply(s, Request(p, o)).log, d, name) <==> Member(s.log, d, name)
  {
    RequestPerforms(s, p, o);
    var t := s.(clock := s.clock + 1);
    PerformMembers(t, p, Plan(t, s.procs[p].cluster, s.procs[p].pc, o), d, name);
  }

  lemma PerformMembers(s: Sys, p: nat, c: Change, d: string, name: string)
    requires p in s.procs && Enabled(s, c) && d != s.procs[p].cluster
    ensures Member(Perform(s, p, c).log, d, name) <==> Member(s.log, d, name)
  {
    var own := s.procs[p].cluster;
    match c
    case DoCreate(n, _, _, _, _) => MemberAppend(s.log, Created(own, n), name);
    case DoJoin(n, _, _) => MemberAppend(s.log, Joined(own, n), name);
    case DoLeave(n, _) => MemberAppend(s.log, Left(own, n), name);
    case _ =>
  }

  // The VNI race, necessary side: coexisting records share a VNI only if the
  // later creator listed before the earlier one created.
  lemma DuplicateOnlyIfOverlap(s: Sys, events: seq<Event>, n: string, m: string)
    requires Initial(s)
    requires var t := Run(s, events);
      && n in t.store.records && m in t.store.records && n != m
      && t.store.records[n].spec.vni == t.store.records[m].spec.vni
      && n in t.births && m in t.births
      && t.births[n].createdAt <= t.births[m].createdAt
    ensures var t := Run(s, events);
      t.births[m].listedAt < t.births[n].createdAt < t.births[m].createdAt
  {
    ReachableInv(s, events);
    assert DistinctUnlessOverlap(Run(s, events), n, m);
    assert RecordOk(Run(s, events), m);
  }

  lemma ListReply(s: Sys, p: nat)
    requires p in s.procs && s.procs[p].pc.VniList? && VniAllocator.FirstFree(s.store.Vnis()).Some?
    ensures var pc := s.procs[p].pc;
      Apply(s, Request(p, Done)) == SetPc(s.(clock := s.clock + 1), p,
        CreateReq(pc.name, pc.topology, VniAllocator.FirstFree(s.store.Vnis()).value, s.clock + 1))
  {
  }

  lemma CreateReply(s: Sys, p: nat)
    requires p in s.procs && s.procs[p].pc.CreateReq? && s.procs[p].pc.name !in s.store.records
    ensures var t, pc := Apply(s, Request(p, Done)), s.procs[p].pc;
      && (forall n :: n in t.store.records <==> n == pc.name || n in s.store.records)
      && (forall n :: n in s.store.records ==> t.store.records[n] == s.store.records[n])
      && t.store.records[pc.name].spec.vni == pc.vni
      && t.births == s.births[pc.name := Birth(pc.listedAt, s.clock + 1)]
      && (forall q :: q in s.procs && q != p ==> q in t.procs && t.procs[q] == s.procs[q])
  {
  }

  // Sufficient side: from any state in which two agents are about to list for
  // different new names, listing in either order before the first Create gives
  // both records the same VNI.
  lemma OverlapDuplicates(s: Sys, p: nat, q: nat, first: nat, second: nat)
    requires p in s.procs && q in s.procs && p != q
    requires s.procs[p].pc.VniList? && s.procs[q].pc.VniList?
    requires s.procs[p].pc.name != s.procs[q].pc.name
    requires s.procs[p].pc.name !in s.store.records && s.procs[q].pc.name !in s.store.records
    requires VniAllocator.FirstFree(s.store.Vnis()).Some?
    requires (first == p && second == q) || (first == q && second == p)
    ensures var t := Run(s, [Request(first, Done), Request(second, Done), Request(p, Done), Request(q, Done)]);
      && s.procs[p].pc.name in t.store.records && s.procs[q].pc.name in t.store.records
      && t.store.records[s.procs[p].pc.name].spec.vni == t.store.records[s.procs[q].pc.name].spec.vni
      && s.procs[p].pc.name in t.births && s.procs[q].pc.name in t.births
      && t.births[s.procs[q].pc.name].listedAt < t.births[s.procs[p].pc.name].createdAt
  {
    var s1 := Apply(s, Request(first, Done));
    ListReply(s, first);
    var s2 := Apply(s1, Request(second, Done));
    ListReply(s1, second);
    var s3 := Apply(s2, Request(p, Done));
    CreateReply(s2, p);
    CreateReply(s3, q);
    Runs.FoldFour(Apply, s, Request(first, Done), Request(second, Done), Request(p, Done), Request(q, Done));
  }

  // That situation is reachable from an empty broker: the documented race is real.
  lemma RaceIsReachable() returns (s: Sys, events: seq<Event>)
    ensures Initial(s)
    ensures var t := Run(s, events);
      && "blue" in t.store.records && "red" in t.store.records
      && t.store.records["blue"].spec.vni == t.store.records["red"].spec.vni
  {
    s := Sys(Store(map[], 0), map[0 := Proc("east", Idle), 1 := Proc("west", Idle)], [], [], map[], 0);
    var calls := [CallJoin(0, "blue", "Layer3"), CallJoin(1, "red", "Layer3"), Request(0, Done), Request(1, Done)];
    var race := [Request(0, Done), Request(1, Done), Request(0, Done), Request(1, Done)];
    events := calls + race;
    BothAboutToList(s);
    var t := Run(s, calls);
    NamesDiffer();
    OverlapDuplicates(t, 0, 1, 0, 1);
    Runs.FoldConcat(Apply, s, calls, race);
  }

  lemma NamesDiffer()
    ensures "blue" != "red"
  {
    assert |"blue"| != |"red"|;
  }

  lemma BothAboutToList(s: Sys)
    requires s.store == Store(map[], 0)
    requires s.procs == map[0 := Proc("east", Idle), 1 := Proc("west", Idle)]
    ensures var t := Run(s, [CallJoin(0, "blue", "Layer3"), CallJoin(1, "red", "Layer3"), Request(0, Done), Request(1, Done)]);
      && t.store == s.store
      && t.procs == map[0 := Proc("east", VniList("blue", "Layer3")), 1 := Proc("west", VniList("red", "Layer3"))]
      && VniAllocator.FirstFree(t.store.Vnis()).Some?
  {
    Runs.FoldFour(Apply, s, CallJoin(0, "blue", "Layer3"), CallJoin(1, "red", "Layer3"), Request(0, Done), Request(1, Done));
    assert s.store.Vnis() == {};
    assert VniAllocator.InRange(VniAllocator.VNI_MIN) && VniAllocator.VNI_MIN !in s.store.Vnis();
  }

  // No List-to-Create window of a coexisting record overlaps an earlier Create.
  ghost predicate WindowsDisjoint(s: Sys)
  {
    forall n, m :: n in s.births && m in s.births && s.births[n].createdAt < s.births[m].createdAt ==>
      s.births[n].createdAt <= s.births[m].listedAt
  }

  lemma VnisDistinct(s: Sys, events: seq<Event>, n: string, m: string)
    requires Initial(s) && WindowsDisjoint(Run(s, events))
    requires n in Run(s, events).store.records && m in Run(s, events).store.records && n != m
    ensures Run(s, events).store.records[n].spec.vni != Run(s, events).store.records[m].spec.vni
  {
    ReachableInv(s, events);
    assert DistinctUnlessOverlap(Run(s, events), n, m);
    assert DistinctUnlessOverlap(Run(s, events), m, n);
    assert RecordOk(Run(s, events), n) && RecordOk(Run(s, events), m);
  }

  // In every run each record's VNI is in 5000..10000, fits the 24 bits of
  // section 5 of RFC 7348, and is recovered from its route target.
  lemma SpecsWellFormed(s: Sys, events: seq<Event>, n: string)
    requires Initial(s) && n in Run(s, events).store.records
    ensures var spec := Run(s, events).store.records[n].spec;
      && VniAllocator.InRange(spec.vni) && spec.vni < 0x100_0000
      && spec.routeTarget == VniAllocator.GenerateRouteTarget(spec.vni)
      && VniAllocator.VniOf(spec.routeTarget) == Some(spec.vni)
  {
    ReachableInv(s, events);
    assert RecordOk(Run(s, events), n);
    VniAllocator.RouteTargetRoundTrip(Run(s, events).store.records[n].spec.vni);
  }

  lemma {:induction false} InjectiveImageSize(records: map<string, Record>, names: set<string>)
    requires names <= records.Keys
    requires forall n, m :: n in names && m in names && n != m ==> records[n].spec.vni != records[m].spec.vni
    ensures |set n | n in names :: records[n].spec.vni| == |names|
    decreases |names|
  {
    if names != {} {
      var x :| x in names;
      var rest := names - {x};
      InjectiveImageSize(records, rest);
      var image := set n | n in rest :: records[n].spec.vni;
      assert (set n | n in names :: records[n].spec.vni) == image + {records[x].spec.vni};
      assert records[x].spec.vni !in image;
    }
  }

  // Capacity: without overlapping windows at most 5001 networks coexist, and the
  // allocator's search fails exactly at that number.
  lemma VniCapacity(s: Sys, events: seq<Event>)
    requires Initial(s) && WindowsDisjoint(Run(s, events))
    ensures var store := Run(s, events).store;
      && |store.records| <= VniAllocator.VNI_COUNT
      && (VniAllocator.FirstFree(store.Vnis()) == None <==> |store.records| == VniAllocator.VNI_COUNT)
  {
    var t := Run(s, events);
    ReachableInv(s, events);
    forall n, m | n in t.store.records && m in t.store.records && n != m
      ensures t.store.records[n].spec.vni != t.store.records[m].spec.vni
    {
      VnisDistinct(s, events, n, m);
    }
    var vnis := set n | n in t.store.records.Keys :: t.store.records[n].spec.vni;
    assert t.store.Vnis() == vnis by {
      assert forall n :: n in t.store.records ==> RecordOk(t, n);
    }
    forall v | v in vnis ensures VniAllocator.InRange(v) {
      var n :| n in t.store.records && t.store.records[n].spec.vni == v;
      assert RecordOk(t, n);
    }
    InjectiveImageSize(t.store.records, t.store.records.Keys);
    VniAllocator.ExhaustedIffFull(vnis);
  }
}
