// Calls that nobody disturbs: what CreateOrJoinMCN and LeaveMCN achieve when each
// of their requests is answered and no other step falls in between.

module McnProgress {
  import opened BrokerStore
  import opened Finalizers
  import opened McnProtocol
  import McnSafety
  import Runs
  import VniAllocator

  // What the parties of the protocol can observe; clock and births are bookkeeping.
  datatype View = View(store: Store, log: seq<Commit>, returned: seq<Return>, procs: map<nat, Proc>)

  function Seen(s: Sys): View
  {
    View(s.store, s.log, s.returned, s.procs)
  }

  // A call followed by n answered requests.
  ghost function Alone(s: Sys, call: Event, p: nat, n: nat): Sys
  {
    Run(s, [call] + seq(n, _ => Request(p, Done)))
  }

  lemma AloneStarts(s: Sys, call: Event, p: nat)
    ensures Alone(s, call, p, 0) == Apply(s, call)
  {
    assert [call] + seq(0, _ => Request(p, Done)) == [] + [call];
    Runs.FoldAppend(Apply, s, [], call);
  }

  lemma AloneContinues(s: Sys, call: Event, p: nat, n: nat)
    ensures Alone(s, call, p, n + 1) == Apply(Alone(s, call, p, n), Request(p, Done))
  {
    var sent := [call] + seq(n, _ => Request(p, Done));
    assert [call] + seq(n + 1, _ => Request(p, Done)) == sent + [Request(p, Done)];
    Runs.FoldAppend(Apply, s, sent, Request(p, Done));
  }

  // b is what an answered request of p makes of a.
  ghost predicate Answers(a: Sys, b: Sys, p: nat)
  {
    p in a.procs ==>
      var t := a.(clock := a.clock + 1);
      Seen(b) == Seen(Perform(t, p, Plan(t, a.procs[p].cluster, a.procs[p].pc, Done)))
  }

  lemma AloneAnswers(s: Sys, call: Event, p: nat, n: nat)
    ensures Answers(Alone(s, call, p, n), Alone(s, call, p, n + 1), p)
  {
    AloneContinues(s, call, p, n);
    if p in Alone(s, call, p, n).procs {
      McnSafety.RequestPerforms(Alone(s, call, p, n), p, Done);
    }
  }

  lemma Called(s: Sys, p: nat, name: string, topology: string)
    requires p in s.procs && s.procs[p].pc == Idle
    ensures Seen(Alone(s, CallJoin(p, name, topology), p, 0)) == Seen(SetPc(s, p, JoinGet(name, topology)))
    ensures Seen(Alone(s, CallLeave(p, name), p, 0)) == Seen(SetPc(s, p, LeaveGet(name)))
  {
    AloneStarts(s, CallJoin(p, name, topology), p);
    AloneStarts(s, CallLeave(p, name), p);
  }

  // How many requests an undisturbed join sends, and what it leaves.
  ghost function JoinRequests(s: Sys, cluster: string, name: string): nat
  {
    if name in s.store.records then
      if FinalizerName(cluster) in s.store.records[name].finalizers then 1 else 2
    else if VniAllocator.FirstFree(s.store.Vnis()).Some? then 3
    else 2
  }

  // A member gets its record back; a newcomer is added; a new network gets the
  // first free VNI; without a free VNI nothing happens.
  ghost function AfterJoin(s: Sys, p: nat, name: string, topology: string): View
    requires p in s.procs
  {
    var c := s.procs[p].cluster;
    if name in s.store.records then
      if FinalizerName(c) in s.store.records[name].finalizers then Seen(Answer(s, p, name))
      else Seen(Answer(CommitJoin(s, p, name, s.store.records[name]), p, name))
    else
      match VniAllocator.FirstFree(s.store.Vnis())
      case Some(vni) => Seen(Answer(CommitCreate(s, p, name, topology, vni, 0), p, name))
      case None => Seen(s)
  }

  lemma UndisturbedJoin(s: Sys, p: nat, name: string, topology: string)
    requires p in s.procs && s.procs[p].pc == Idle
    ensures var n := JoinRequests(s, s.procs[p].cluster, name);
      Seen(Alone(s, CallJoin(p, name, topology), p, n)) == AfterJoin(s, p, name, topology)
  {
    var call := CallJoin(p, name, topology);
    var s0, s1, s2, s3 := Alone(s, call, p, 0), Alone(s, call, p, 1), Alone(s, call, p, 2), Alone(s, call, p, 3);
    Called(s, p, name, topology);
    AloneAnswers(s, call, p, 0);
    AloneAnswers(s, call, p, 1);
    AloneAnswers(s, call, p, 2);
    JoinSteps(s, s0, s1, s2, s3, p, name, topology);
  }

  lemma JoinSteps(s: Sys, s0: Sys, s1: Sys, s2: Sys, s3: Sys, p: nat, name: string, topology: string)
    requires p in s.procs && s.procs[p].pc == Idle && Seen(s0) == Seen(SetPc(s, p, JoinGet(name, topology)))
    requires Answers(s0, s1, p) && Answers(s1, s2, p) && Answers(s2, s3, p)
    ensures var t := match JoinRequests(s, s.procs[p].cluster, name) case 1 => s1 case 2 => s2 case _ => s3;
      Seen(t) == AfterJoin(s, p, name, topology)
  {
    if name in s.store.records {
      if FinalizerName(s.procs[p].cluster) in s.store.records[name].finalizers {
        MemberSteps(s, s0, s1, p, name, topology);
      } else {
        NewcomerSteps(s, s0, s1, s2, p, name, topology);
      }
    } else {
      AbsentSteps(s, s0, s1, s2, s3, p, name, topology);
      assert s.procs[p := s.procs[p]] == s.procs;
    }
  }

  lemma MemberSteps(s: Sys, s0: Sys, s1: Sys, p: nat, name: string, topology: string)
    requires p in s.procs && Seen(s0) == Seen(SetPc(s, p, JoinGet(name, topology))) && Answers(s0, s1, p)
    requires name in s.store.records && FinalizerName(s.procs[p].cluster) in s.store.records[name].finalizers
    ensures Seen(s1) == Seen(Answer(s, p, name))
  {
  }

  lemma NewcomerSteps(s: Sys, s0: Sys, s1: Sys, s2: Sys, p: nat, name: string, topology: string)
    requires p in s.procs && Seen(s0) == Seen(SetPc(s, p, JoinGet(name, topology))) && Answers(s0, s1, p)
    requires Answers(s1, s2, p)
    requires name in s.store.records && FinalizerName(s.procs[p].cluster) !in s.store.records[name].finalizers
    ensures Seen(s2) == Seen(Answer(CommitJoin(s, p, name, s.store.records[name]), p, name))
  {
    var rec := s.store.records[name];
    assert Seen(s1) == Seen(SetPc(s, p, JoinUpdate(name, rec)));
  }

  lemma AbsentSteps(s: Sys, s0: Sys, s1: Sys, s2: Sys, s3: Sys, p: nat, name: string, topology: string)
    requires p in s.procs && Seen(s0) == Seen(SetPc(s, p, JoinGet(name, topology)))
    requires Answers(s0, s1, p) && Answers(s1, s2, p) && Answers(s2, s3, p) && name !in s.store.records
    ensures match VniAllocator.FirstFree(s.store.Vnis())
      case Some(vni) => Seen(s3) == Seen(Answer(CommitCreate(s, p, name, topology, vni, 0), p, name))
      case None => Seen(s2) == Seen(SetPc(s, p, Idle))
  {
    AbsentStep(s, s0, s1, p, name, topology);
    ListStep(s, s1, s2, p, name, topology);
    var vni := VniAllocator.FirstFree(s.store.Vnis());
    if vni.Some? {
      CreateStep(s, s2, s3, p, name, topology, vni.value, s1.clock + 1);
    }
  }

  lemma AbsentStep(s: Sys, s0: Sys, s1: Sys, p: nat, name: string, topology: string)
    requires p in s.procs && Seen(s0) == Seen(SetPc(s, p, JoinGet(name, topology)))
    requires Answers(s0, s1, p) && name !in s.store.records
    ensures Seen(s1) == Seen(SetPc(s, p, VniList(name, topology)))
  {
  }

  lemma ListStep(s: Sys, s1: Sys, s2: Sys, p: nat, name: string, topology: string)
    requires p in s.procs && Seen(s1) == Seen(SetPc(s, p, VniList(name, topology))) && Answers(s1, s2, p)
    ensures Seen(s2) == Seen(SetPc(s, p,
      match VniAllocator.FirstFree(s.store.Vnis())
      case Some(vni) => CreateReq(name, topology, vni, s1.clock + 1)
      case None => Idle))
  {
  }

  lemma CreateStep(s: Sys, s2: Sys, s3: Sys, p: nat, name: string, topology: string, vni: nat, listedAt: nat)
    requires p in s.procs && name !in s.store.records
    requires Seen(s2) == Seen(SetPc(s, p, CreateReq(name, topology, vni, listedAt))) && Answers(s2, s3, p)
    ensures Seen(s3) == Seen(Answer(CommitCreate(s, p, name, topology, vni, 0), p, name))
  {
  }

  ghost function LeaveRequests(s: Sys, cluster: string, name: string): nat
  {
    if name in s.store.records && FinalizerName(cluster) in s.store.records[name].finalizers then 2 else 1
  }

  ghost function AfterLeave(s: Sys, p: nat, name: string): View
    requires p in s.procs
  {
    if name in s.store.records && FinalizerName(s.procs[p].cluster) in s.store.records[name].finalizers
    then Seen(CommitLeave(s, p, name, s.store.records[name]))
    else Seen(s)
  }

  lemma UndisturbedLeave(s: Sys, p: nat, name: string)
    requires p in s.procs && s.procs[p].pc == Idle
    ensures Seen(Alone(s, CallLeave(p, name), p, LeaveRequests(s, s.procs[p].cluster, name))) == AfterLeave(s, p, name)
  {
    var call := CallLeave(p, name);
    Called(s, p, name, "");
    AloneAnswers(s, call, p, 0);
    AloneAnswers(s, call, p, 1);
    LeaveSteps(s, Alone(s, call, p, 0), Alone(s, call, p, 1), Alone(s, call, p, 2), p, name);
  }

  lemma LeaveSteps(s: Sys, s0: Sys, s1: Sys, s2: Sys, p: nat, name: string)
    requires p in s.procs && s.procs[p].pc == Idle
    requires Seen(s0) == Seen(SetPc(s, p, LeaveGet(name))) && Answers(s0, s1, p) && Answers(s1, s2, p)
    ensures Seen(if LeaveRequests(s, s.procs[p].cluster, name) == 2 then s2 else s1) == AfterLeave(s, p, name)
  {
    LeaveGetStep(s, s0, s1, p, name);
    if LeaveRequests(s, s.procs[p].cluster, name) == 2 {
      LeaveUpdateStep(s, s1, s2, p, name);
    } else {
      assert s.procs[p := s.procs[p]] == s.procs;
    }
  }

  lemma LeaveGetStep(s: Sys, s0: Sys, s1: Sys, p: nat, name: string)
    requires p in s.procs && Seen(s0) == Seen(SetPc(s, p, LeaveGet(name))) && Answers(s0, s1, p)
    ensures Seen(s1) == Seen(SetPc(s, p,
      if LeaveRequests(s, s.procs[p].cluster, name) == 2 then LeaveUpdate(name, s.store.records[name]) else Idle))
  {
  }

  lemma LeaveUpdateStep(s: Sys, s1: Sys, s2: Sys, p: nat, name: string)
    requires p in s.procs && s.procs[p].pc == Idle && name in s.store.records
    requires Seen(s1) == Seen(SetPc(s, p, LeaveUpdate(name, s.store.records[name]))) && Answers(s1, s2, p)
    ensures Seen(s2) == Seen(CommitLeave(s, p, name, s.store.records[name]))
  {
    assert s.procs[p := s.procs[p]] == s.procs;
  }

  // Joining a network and leaving it again restores the record to its finalizers,
  // spec and mark exactly, whoever else is a member; all other records are untouched.
  lemma JoinThenLeaveRestores(s: Sys, p: nat, name: string, topology: string)
    requires Inv(s) && p in s.procs && s.procs[p].pc == Idle && name in s.store.records
    requires FinalizerName(s.procs[p].cluster) !in s.store.records[name].finalizers
    ensures var joined := Alone(s, CallJoin(p, name, topology), p, 2);
      var left := Alone(joined, CallLeave(p, name), p, 2);
      && name in left.store.records
      && left.store.version == s.store.version + 2
      && left.store.records == s.store.records[name := s.store.records[name].(version := left.store.version)]
      && left.log == s.log + [Joined(s.procs[p].cluster, name), Left(s.procs[p].cluster, name)]
  {
    var c, rec := s.procs[p].cluster, s.store.records[name];
    var f := FinalizerName(c);
    UndisturbedJoin(s, p, name, topology);
    var joined := Alone(s, CallJoin(p, name, topology), p, 2);
    UndisturbedLeave(joined, p, name);
    AppendThenRemove(rec.finalizers, f);
  }

  // A network that a cluster created and left stays on the broker without
  // members; once deletion is requested it is collected, and the broker is as before.
  lemma CreateThenLeaveStays(s: Sys, p: nat, name: string, topology: string)
    requires p in s.procs && s.procs[p].pc == Idle && name !in s.store.records
    requires VniAllocator.FirstFree(s.store.Vnis()).Some?
    ensures var created := Alone(s, CallJoin(p, name, topology), p, 3);
      var left := Alone(created, CallLeave(p, name), p, 2);
      && name in left.store.records && left.store.records[name].finalizers == []
      && left.store.records[name].spec.vni == VniAllocator.FirstFree(s.store.Vnis()).value
      && left.store.records == s.store.records[name := left.store.records[name]]
      && Apply(Apply(left, RequestDeletion(name)), Collect(name)).store.records == s.store.records
  {
    var created := Alone(s, CallJoin(p, name, topology), p, 3);
    UndisturbedJoin(s, p, name, topology);
    CreatedAlone(s, created, p, name, topology);
    UndisturbedLeave(created, p, name);
    LeftAlone(s, created, Alone(created, CallLeave(p, name), p, 2), p, name);
  }

  lemma CreatedAlone(s: Sys, created: Sys, p: nat, name: string, topology: string)
    requires p in s.procs && name !in s.store.records && VniAllocator.FirstFree(s.store.Vnis()).Some?
    requires Seen(created) == AfterJoin(s, p, name, topology)
    ensures p in created.procs && created.procs[p] == Proc(s.procs[p].cluster, Idle) && name in created.store.records
    ensures var rec := created.store.records[name];
      && created.store.records == s.store.records[name := rec]
      && rec.finalizers == [FinalizerName(s.procs[p].cluster)]
      && rec.spec.vni == VniAllocator.FirstFree(s.store.Vnis()).value
  {
  }

  lemma LeftAlone(s: Sys, created: Sys, left: Sys, p: nat, name: string)
    requires p in created.procs && name in created.store.records && name !in s.store.records
    requires created.store.records == s.store.records[name := created.store.records[name]]
    requires created.store.records[name].finalizers == [FinalizerName(created.procs[p].cluster)]
    requires Seen(left) == AfterLeave(created, p, name)
    ensures name in left.store.records && left.store.records[name].finalizers == []
    ensures left.store.records[name].spec == created.store.records[name].spec
    ensures left.store.records == s.store.records[name := left.store.records[name]]
    ensures Apply(Apply(left, RequestDeletion(name)), Collect(name)).store.records == s.store.records
  {
    var f := FinalizerName(created.procs[p].cluster);
    AppendThenRemove([], f);
    assert [] + [f] == [f];
    Collected(left, name);
    assert left.store.records - {name} == s.store.records;
  }

  lemma Collected(s: Sys, name: string)
    requires name in s.store.records && s.store.records[name].finalizers == []
    ensures Apply(Apply(s, RequestDeletion(name)), Collect(name)).store.records == s.store.records - {name}
  {
    var marked := Apply(s, RequestDeletion(name));
    assert marked.store.records == s.store.records[name := marked.store.records[name]];
  }

  // -------------------------------------------------------------- a race to create

  ghost function After(s: Sys, p: nat): Sys
  {
    Apply(s, Request(p, Done))
  }

  lemma AfterAnswers(s: Sys, p: nat)
    ensures Answers(s, After(s, p), p)
  {
    if p in s.procs {
      McnSafety.RequestPerforms(s, p, Done);
    }
  }

  // Two agents are about to create the same network. Whoever comes second finds the
  // name taken, reads the winner's record, joins it, and returns the winner's VNI
  // and topology, not its own.
  lemma CreateRaceResolved(s: Sys, p: nat, q: nat)
    requires p in s.procs && q in s.procs && s.procs[p].cluster != s.procs[q].cluster
    requires s.procs[p].pc.CreateReq? && s.procs[q].pc.CreateReq? && s.procs[p].pc.name == s.procs[q].pc.name
    requires s.procs[p].pc.name !in s.store.records
    ensures var name, c, d := s.procs[p].pc.name, s.procs[p].cluster, s.procs[q].cluster;
      var t := After(After(After(After(s, q), p), p), p);
      var won := NewRecord(d, s.procs[q].pc.topology, s.procs[q].pc.vni);
      && name in t.store.records && t.store.records[name].spec == won.spec
      && t.store.records[name].finalizers == [FinalizerName(d), FinalizerName(c)]
      && t.log == s.log + [Created(d, name), Joined(c, name)]
      && t.returned == s.returned
           + [Return(q, d, name, won.spec, |s.log| + 1), Return(p, c, name, won.spec, |s.log| + 2)]
  {
    var s1, s2, s3 := After(s, q), After(After(s, q), p), After(After(After(s, q), p), p);
    AfterAnswers(s, q);
    AfterAnswers(s1, p);
    AfterAnswers(s2, p);
    AfterAnswers(s3, p);
    RaceSteps(s, s1, s2, s3, After(s3, p), p, q);
  }

  lemma RaceSteps(s: Sys, s1: Sys, s2: Sys, s3: Sys, s4: Sys, p: nat, q: nat)
    requires p in s.procs && q in s.procs && s.procs[p].cluster != s.procs[q].cluster
    requires s.procs[p].pc.CreateReq? && s.procs[q].pc.CreateReq? && s.procs[p].pc.name == s.procs[q].pc.name
    requires s.procs[p].pc.name !in s.store.records
    requires Answers(s, s1, q) && Answers(s1, s2, p) && Answers(s2, s3, p) && Answers(s3, s4, p)
    ensures var name, c, d := s.procs[p].pc.name, s.procs[p].cluster, s.procs[q].cluster;
      var won := NewRecord(d, s.procs[q].pc.topology, s.procs[q].pc.vni);
      && name in s4.store.records && s4.store.records[name].spec == won.spec
      && s4.store.records[name].finalizers == [FinalizerName(d), FinalizerName(c)]
      && s4.log == s.log + [Created(d, name), Joined(c, name)]
      && s4.returned == s.returned
           + [Return(q, d, name, won.spec, |s.log| + 1), Return(p, c, name, won.spec, |s.log| + 2)]
  {
    var name := s.procs[p].pc.name;
    WinnerStep(s, s1, p, q);
    LoserStep(s1, s2, p, name);
    LoserGetStep(s2, s3, p, name, s.procs[q].cluster);
    LoserJoinStep(s3, s4, p, name);
  }

  lemma WinnerStep(s: Sys, s1: Sys, p: nat, q: nat)
    requires p in s.procs && q in s.procs && p != q && s.procs[q].pc.CreateReq?
    requires s.procs[q].pc.name !in s.store.records
    requires Answers(s, s1, q)
    ensures var pc, d := s.procs[q].pc, s.procs[q].cluster;
      var won := NewRecord(d, pc.topology, pc.vni);
      && p in s1.procs && s1.procs[p] == s.procs[p] && pc.name in s1.store.records
      && s1.store.records[pc.name].spec == won.spec && s1.store.records[pc.name].finalizers == [FinalizerName(d)]
      && s1.log == s.log + [Created(d, pc.name)]
      && s1.returned == s.returned + [Return(q, d, pc.name, won.spec, |s.log| + 1)]
  {
  }

  lemma LoserStep(s1: Sys, s2: Sys, p: nat, name: string)
    requires p in s1.procs && s1.procs[p].pc.CreateReq? && s1.procs[p].pc.name == name && name in s1.store.records
    requires Answers(s1, s2, p)
    ensures Seen(s2) == Seen(SetPc(s1, p, ConflictGet(name)))
  {
  }

  lemma LoserGetStep(s2: Sys, s3: Sys, p: nat, name: string, winner: string)
    requires p in s2.procs && s2.procs[p].pc == ConflictGet(name) && name in s2.store.records
    requires s2.store.records[name].finalizers == [FinalizerName(winner)] && winner != s2.procs[p].cluster
    requires Answers(s2, s3, p)
    ensures Seen(s3) == Seen(SetPc(s2, p, JoinUpdate(name, s2.store.records[name])))
  {
    FinalizerNameInjective(winner);
  }

  lemma LoserJoinStep(s3: Sys, s4: Sys, p: nat, name: string)
    requires p in s3.procs && name in s3.store.records && s3.procs[p].pc == JoinUpdate(name, s3.store.records[name])
    requires Answers(s3, s4, p)
    ensures Seen(s4) == Seen(Answer(CommitJoin(s3, p, name, s3.store.records[name]), p, name))
  {
  }
}
