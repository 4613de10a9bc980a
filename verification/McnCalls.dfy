// What calls and runs come to, in the caller's own terms: the arguments of the
// call, the text of names and route targets, and who asked for what.

module McnCalls {
  import opened Wrappers
  import opened BrokerStore
  import opened Finalizers
  import opened McnProtocol
  import opened McnProgress
  import Decimal
  import McnSafety
  import Runs
  import VniAllocator

  // A record with this content, not marked for deletion.
  predicate Holds(rec: Record, vni: nat, topology: string, finalizers: seq<string>)
  {
    && rec.spec.vni == vni && rec.spec.topology == topology
    && rec.spec.routeTarget == "65000" + ":" + Decimal.PrintNat(vni)
    && rec.finalizers == finalizers && !rec.deleting
  }

  // All records but one are the same, and so are all processes.
  predicate OnlyTouches(s: Sys, t: Sys, name: string)
  {
    && t.procs == s.procs
    && t.store.records.Keys == s.store.records.Keys + {name}
    && forall n :: n in s.store.records && n != name ==> t.store.records[n] == s.store.records[n]
  }

  // An undisturbed join of a name that nobody uses creates a network with the
  // topology of the call and the first free VNI, this cluster in it alone, and
  // returns just that.
  lemma JoinCreates(s: Sys, p: nat, name: string, topology: string, vni: nat)
    requires p in s.procs && s.procs[p].pc == Idle && name !in s.store.records
    requires VniAllocator.FirstFree(s.store.Vnis()) == Some(vni)
    ensures var t, c := Alone(s, CallJoin(p, name, topology), p, 3), s.procs[p].cluster;
      && OnlyTouches(s, t, name)
      && Holds(t.store.records[name], vni, topology, [c + ".multicluster.ovn.org"])
      && t.log == s.log + [Created(c, name)]
      && t.returned == s.returned + [Return(p, c, name, t.store.records[name].spec, |s.log| + 1)]
  {
    UndisturbedJoin(s, p, name, topology);
    CreatedView(s, Alone(s, CallJoin(p, name, topology), p, 3), p, name, topology, vni);
  }

  lemma CreatedView(s: Sys, t: Sys, p: nat, name: string, topology: string, vni: nat)
    requires p in s.procs && s.procs[p].pc == Idle && name !in s.store.records
    requires VniAllocator.FirstFree(s.store.Vnis()) == Some(vni) && Seen(t) == AfterJoin(s, p, name, topology)
    ensures var c := s.procs[p].cluster;
      && OnlyTouches(s, t, name)
      && Holds(t.store.records[name], vni, topology, [c + ".multicluster.ovn.org"])
      && t.log == s.log + [Created(c, name)]
      && t.returned == s.returned + [Return(p, c, name, t.store.records[name].spec, |s.log| + 1)]
  {
    assert s.procs[p := s.procs[p]] == s.procs;
    var c := s.procs[p].cluster;
    FinalizerText(c);
    VniAllocator.RouteTargetText(vni);
  }

  lemma FinalizerText(cluster: string)
    ensures FinalizerName(cluster) == cluster + ".multicluster.ovn.org"
  {
    assert "." + FINALIZER_DOMAIN == ".multicluster.ovn.org";
    assert FinalizerName(cluster) == cluster + ("." + FINALIZER_DOMAIN);
  }

  // Without a free VNI nothing is created and nothing returned.
  lemma JoinExhausted(s: Sys, p: nat, name: string, topology: string)
    requires p in s.procs && s.procs[p].pc == Idle && name !in s.store.records
    requires forall vni :: 5000 <= vni <= 10000 ==> vni in s.store.Vnis()
    ensures Seen(Alone(s, CallJoin(p, name, topology), p, 2)) == Seen(s)
  {
    UndisturbedJoin(s, p, name, topology);
    VniAllocator.NoneFree(s.store.Vnis());
    assert s.procs[p := s.procs[p]] == s.procs;
  }

  // A newcomer is appended to the finalizers, keeps the network's values whatever
  // topology it asked for, and gets them back; a member just gets them back.
  lemma JoinJoins(s: Sys, p: nat, name: string, topology: string)
    requires p in s.procs && s.procs[p].pc == Idle && name in s.store.records
    requires s.procs[p].cluster + ".multicluster.ovn.org" !in s.store.records[name].finalizers
    ensures var t, c, rec := Alone(s, CallJoin(p, name, topology), p, 2), s.procs[p].cluster, s.store.records[name];
      && OnlyTouches(s, t, name)
      && t.store.records[name].spec == rec.spec && t.store.records[name].deleting == rec.deleting
      && t.store.records[name].finalizers == rec.finalizers + [c + ".multicluster.ovn.org"]
      && t.log == s.log + [Joined(c, name)]
      && t.returned == s.returned + [Return(p, c, name, rec.spec, |s.log| + 1)]
  {
    var c := s.procs[p].cluster;
    FinalizerText(c);
    UndisturbedJoin(s, p, name, topology);
    assert s.procs[p := s.procs[p]] == s.procs;
    JoinedView(s, Alone(s, CallJoin(p, name, topology), p, 2), p, name, topology);
  }

  lemma JoinedView(s: Sys, t: Sys, p: nat, name: string, topology: string)
    requires p in s.procs && s.procs[p].pc == Idle && name in s.store.records
    requires FinalizerName(s.procs[p].cluster) !in s.store.records[name].finalizers
    requires Seen(t) == AfterJoin(s, p, name, topology)
    ensures var c, rec := s.procs[p].cluster, s.store.records[name];
      && OnlyTouches(s, t, name)
      && t.store.records[name].spec == rec.spec && t.store.records[name].deleting == rec.deleting
      && t.store.records[name].finalizers == rec.finalizers + [FinalizerName(c)]
      && t.log == s.log + [Joined(c, name)]
      && t.returned == s.returned + [Return(p, c, name, rec.spec, |s.log| + 1)]
  {
    assert s.procs[p := s.procs[p]] == s.procs;
  }

  lemma JoinReturns(s: Sys, p: nat, name: string, topology: string)
    requires p in s.procs && s.procs[p].pc == Idle && name in s.store.records
    requires s.procs[p].cluster + ".multicluster.ovn.org" in s.store.records[name].finalizers
    ensures var t, c := Alone(s, CallJoin(p, name, topology), p, 1), s.procs[p].cluster;
      && t.store == s.store && t.log == s.log && t.procs == s.procs
      && t.returned == s.returned + [Return(p, c, name, s.store.records[name].spec, |s.log|)]
  {
    FinalizerText(s.procs[p].cluster);
    UndisturbedJoin(s, p, name, topology);
    assert s.procs[p := s.procs[p]] == s.procs;
  }

  // A member that leaves takes its finalizer off, every other one stays in place;
  // for anybody else leaving changes nothing.
  lemma LeaveLeaves(s: Sys, p: nat, name: string)
    requires p in s.procs && s.procs[p].pc == Idle && name in s.store.records
    requires s.procs[p].cluster + ".multicluster.ovn.org" in s.store.records[name].finalizers
    ensures var t, c, rec := Alone(s, CallLeave(p, name), p, 2), s.procs[p].cluster, s.store.records[name];
      && OnlyTouches(s, t, name)
      && t.store.records[name].spec == rec.spec && t.store.records[name].deleting == rec.deleting
      && (forall f :: f in t.store.records[name].finalizers <==>
            f in rec.finalizers && f != c + ".multicluster.ovn.org")
      && t.log == s.log + [Left(c, name)] && t.returned == s.returned
  {
    var c := s.procs[p].cluster;
    FinalizerText(c);
    UndisturbedLeave(s, p, name);
    WithoutMembers(s.store.records[name].finalizers, FinalizerName(c));
    LeftView(s, Alone(s, CallLeave(p, name), p, 2), p, name);
  }

  lemma LeftView(s: Sys, t: Sys, p: nat, name: string)
    requires p in s.procs && s.procs[p].pc == Idle && name in s.store.records
    requires FinalizerName(s.procs[p].cluster) in s.store.records[name].finalizers
    requires Seen(t) == AfterLeave(s, p, name)
    ensures var c, rec := s.procs[p].cluster, s.store.records[name];
      && OnlyTouches(s, t, name)
      && t.store.records[name].spec == rec.spec && t.store.records[name].deleting == rec.deleting
      && t.store.records[name].finalizers == Without(rec.finalizers, FinalizerName(c))
      && t.log == s.log + [Left(c, name)] && t.returned == s.returned
  {
  }

  lemma LeaveOutsider(s: Sys, p: nat, name: string)
    requires p in s.procs && s.procs[p].pc == Idle
    requires name in s.store.records ==>
      s.procs[p].cluster + ".multicluster.ovn.org" !in s.store.records[name].finalizers
    ensures Seen(Alone(s, CallLeave(p, name), p, 1)) == Seen(s)
  {
    FinalizerText(s.procs[p].cluster);
    UndisturbedLeave(s, p, name);
  }

  // A race to create in plain terms: the record is the winner's, both clusters are
  // in, and both got the winner's values.
  lemma RaceGivesWinners(s: Sys, p: nat, q: nat)
    requires p in s.procs && q in s.procs && s.procs[p].cluster != s.procs[q].cluster
    requires s.procs[p].pc.CreateReq? && s.procs[q].pc.CreateReq? && s.procs[p].pc.name == s.procs[q].pc.name
    requires s.procs[p].pc.name !in s.store.records
    ensures var t, name := After(After(After(After(s, q), p), p), p), s.procs[p].pc.name;
      var c, d := s.procs[p].cluster, s.procs[q].cluster;
      && name in t.store.records
      && t.store.records[name].spec.vni == s.procs[q].pc.vni
      && t.store.records[name].spec.topology == s.procs[q].pc.topology
      && t.store.records[name].finalizers == [d + ".multicluster.ovn.org", c + ".multicluster.ovn.org"]
      && t.returned == s.returned
           + [Return(q, d, name, t.store.records[name].spec, |s.log| + 1),
              Return(p, c, name, t.store.records[name].spec, |s.log| + 2)]
  {
    CreateRaceResolved(s, p, q);
    FinalizerText(s.procs[p].cluster);
    FinalizerText(s.procs[q].cluster);
  }

  // -------------------------------------------------------------- over runs

  // A request makes a record appear only as the Create of its process: with the
  // name, topology and VNI that the process carries, and the process' cluster in it.
  lemma RequestCreates(s: Sys, p: nat, o: Outcome, name: string)
    requires p in s.procs && name !in s.store.records && name in Apply(s, Request(p, o)).store.records
    ensures var pc, rec := s.procs[p].pc, Apply(s, Request(p, o)).store.records[name];
      && pc.CreateReq? && pc.name == name
      && Holds(rec, pc.vni, pc.topology, [s.procs[p].cluster + ".multicluster.ovn.org"])
  {
    McnSafety.RequestPerforms(s, p, o);
    var t := s.(clock := s.clock + 1);
    PerformCreates(t, p, Plan(t, s.procs[p].cluster, s.procs[p].pc, o), name);
    PlanCreates(t, s.procs[p].cluster, s.procs[p].pc, o);
  }

  lemma PerformCreates(s: Sys, p: nat, c: Change, name: string)
    requires p in s.procs && Enabled(s, c) && name !in s.store.records && name in Perform(s, p, c).store.records
    ensures c.DoCreate? && c.name == name
    ensures Holds(Perform(s, p, c).store.records[name], c.vni, c.topology, [s.procs[p].cluster + ".multicluster.ovn.org"])
  {
    FinalizerText(s.procs[p].cluster);
    if c.DoCreate? {
      VniAllocator.RouteTargetText(c.vni);
    }
  }

  lemma PlanCreates(s: Sys, cluster: string, pc: Pc, o: Outcome)
    ensures var c := Plan(s, cluster, pc, o);
      c.DoCreate? ==> pc.CreateReq? && c.name == pc.name && c.topology == pc.topology && c.vni == pc.vni
  {
  }

  // While a call looks for a free VNI it keeps the name and topology it was given.
  ghost predicate Carries(proc: Proc, name: string, topology: string)
  {
    match proc.pc
    case JoinGet(n, t) => n == name && t == topology
    case VniList(n, t) => n == name && t == topology
    case CreateReq(n, t, _, _) => n == name && t == topology
    case _ => false
  }

  lemma RequestCarries(s: Sys, p: nat, o: Outcome, q: nat, name: string, topology: string)
    requires p in s.procs && q in s.procs
    ensures var t := Apply(s, Request(p, o));
      q in t.procs && (Carries(t.procs[q], name, topology) ==> Carries(s.procs[q], name, topology))
  {
    McnSafety.RequestPerforms(s, p, o);
    var t := s.(clock := s.clock + 1);
    PlanCarries(t, s.procs[p].cluster, s.procs[p].pc, o, name, topology);
    PerformCarries(t, p, Plan(t, s.procs[p].cluster, s.procs[p].pc, o), q, name, topology);
  }

  lemma PlanCarries(s: Sys, cluster: string, pc: Pc, o: Outcome, name: string, topology: string)
    ensures var c := Plan(s, cluster, pc, o);
      c.Goto? && Carries(Proc(cluster, c.pc), name, topology) ==> Carries(Proc(cluster, pc), name, topology)
  {
  }

  lemma PerformCarries(s: Sys, p: nat, c: Change, q: nat, name: string, topology: string)
    requires p in s.procs && q in s.procs && Enabled(s, c)
    requires c.Goto? && Carries(Proc(s.procs[p].cluster, c.pc), name, topology) ==> Carries(s.procs[p], name, topology)
    ensures var t := Perform(s, p, c);
      q in t.procs && (Carries(t.procs[q], name, topology) ==> Carries(s.procs[q], name, topology))
  {
  }

  // Somebody called for this network with this topology.
  ghost predicate Asked(events: seq<Event>, name: string, topology: string)
  {
    exists i, p :: 0 <= i < |events| && events[i] == CallJoin(p, name, topology)
  }

  lemma AskedMore(events: seq<Event>, e: Event, name: string, topology: string)
    ensures Asked(events, name, topology) ==> Asked(events + [e], name, topology)
    ensures e.CallJoin? && e.name == name && e.topology == topology ==> Asked(events + [e], name, topology)
  {
    var more := events + [e];
    if Asked(events, name, topology) {
      var i, p :| 0 <= i < |events| && events[i] == CallJoin(p, name, topology);
      assert more[i] == CallJoin(p, name, topology);
    }
    if e.CallJoin? && e.name == name && e.topology == topology {
      assert more[|events|] == CallJoin(e.pid, name, topology);
    }
  }

  // In every run each network has a topology that a call for this very network
  // asked for, each process carries what its call asked for, and the deletion mark
  // is there only if deletion was requested.
  lemma {:induction false} EverythingWasAsked(s: Sys, events: seq<Event>)
    requires Initial(s)
    ensures var t := Run(s, events);
      && (forall n :: n in t.store.records ==> Asked(events, n, t.store.records[n].spec.topology))
      && (forall p, n, topology :: p in t.procs && Carries(t.procs[p], n, topology) ==> Asked(events, n, topology))
  {
    if events != [] {
      var init, e := events[..|events| - 1], events[|events| - 1];
      var u, t := Run(s, init), Run(s, events);
      assert events == init + [e];
      EverythingWasAsked(s, init);
      McnSafety.ReachableInv(s, init);
      forall p, n, topology | p in t.procs && Carries(t.procs[p], n, topology) ensures Asked(events, n, topology) {
        StepCarries(u, e, p, n, topology);
        AskedMore(init, e, n, topology);
      }
      forall n | n in t.store.records ensures Asked(events, n, t.store.records[n].spec.topology) {
        var topology := t.store.records[n].spec.topology;
        StepHasTopology(u, e, n);
        AskedMore(init, e, n, topology);
        if n !in u.store.records {
          assert Carries(u.procs[e.pid], n, topology);
        }
      }
    }
  }

  lemma StepCarries(s: Sys, e: Event, q: nat, name: string, topology: string)
    requires q in Apply(s, e).procs && Carries(Apply(s, e).procs[q], name, topology)
    ensures (q in s.procs && Carries(s.procs[q], name, topology)) || e == CallJoin(q, name, topology)
  {
    if e.Request? && e.pid in s.procs {
      RequestProcs(s, e.pid, e.outcome);
      RequestCarries(s, e.pid, e.outcome, q, name, topology);
    }
  }

  lemma RequestProcs(s: Sys, p: nat, o: Outcome)
    requires p in s.procs
    ensures Apply(s, Request(p, o)).procs.Keys == s.procs.Keys
  {
    McnSafety.RequestPerforms(s, p, o);
    var t := s.(clock := s.clock + 1);
    PerformProcs(t, p, Plan(t, s.procs[p].cluster, s.procs[p].pc, o));
  }

  lemma PerformProcs(s: Sys, p: nat, c: Change)
    requires p in s.procs && Enabled(s, c)
    ensures Perform(s, p, c).procs.Keys == s.procs.Keys
  {
  }

  // A record is an old one with its values, or the Create of a request.
  lemma StepHasTopology(s: Sys, e: Event, name: string)
    requires Inv(s) && name in Apply(s, e).store.records
    ensures name in s.store.records ==> Apply(s, e).store.records[name].spec == s.store.records[name].spec
    ensures name !in s.store.records ==>
      e.Request? && e.pid in s.procs && Carries(s.procs[e.pid], name, Apply(s, e).store.records[name].spec.topology)
  {
    if name in s.store.records {
      McnSafety.StepKeepsSpecs(s, e, name);
    } else if e.Request? && e.pid in s.procs {
      RequestCreates(s, e.pid, e.outcome, name);
    }
  }

  // A network nobody asked to delete is never removed, and never marked.
  lemma {:induction false} KeptUnlessDeletionRequested(s: Sys, events: seq<Event>, name: string)
    requires Initial(s) && RequestDeletion(name) !in events
    ensures Unmarked(Run(s, events), name) && Removed(name) !in Run(s, events).log
  {
    if events != [] {
      var init, e := events[..|events| - 1], events[|events| - 1];
      KeptUnlessDeletionRequested(s, init, name);
      StepKeeps(Run(s, init), e, name);
    }
  }

  // Neither the record nor a snapshot of it that may be written back is marked.
  ghost predicate Unmarked(s: Sys, name: string)
  {
    && (name in s.store.records ==> !s.store.records[name].deleting)
    && forall p :: p in s.procs ==> Clear(s.procs[p].pc, name)
  }

  predicate Clear(pc: Pc, name: string)
  {
    (pc.JoinUpdate? || pc.LeaveUpdate?) && pc.name == name ==> !pc.snapshot.deleting
  }

  lemma StepKeeps(s: Sys, e: Event, name: string)
    requires Unmarked(s, name) && e != RequestDeletion(name)
    ensures Unmarked(Apply(s, e), name) && (Removed(name) in Apply(s, e).log ==> Removed(name) in s.log)
  {
    if e.Request? && e.pid in s.procs {
      McnSafety.RequestPerforms(s, e.pid, e.outcome);
      var t := s.(clock := s.clock + 1);
      PlanUnmarked(t, s.procs[e.pid].cluster, s.procs[e.pid].pc, e.outcome, name);
      PerformUnmarked(t, e.pid, Plan(t, s.procs[e.pid].cluster, s.procs[e.pid].pc, e.outcome), name);
    }
  }

  ghost predicate ChangeUnmarked(s: Sys, c: Change, name: string)
  {
    match c
    case Goto(pc) => Clear(pc, name)
    case DoJoin(n, snapshot, _) => n == name ==> !snapshot.deleting
    case DoLeave(n, snapshot) => n == name ==> !snapshot.deleting
    case _ => true
  }

  lemma PlanUnmarked(s: Sys, cluster: string, pc: Pc, o: Outcome, name: string)
    requires name in s.store.records ==> !s.store.records[name].deleting
    requires Clear(pc, name)
    ensures ChangeUnmarked(s, Plan(s, cluster, pc, o), name)
  {
  }

  lemma PerformUnmarked(s: Sys, p: nat, c: Change, name: string)
    requires Unmarked(s, name) && p in s.procs && Enabled(s, c) && ChangeUnmarked(s, c, name)
    ensures Unmarked(Perform(s, p, c), name) && (Removed(name) in Perform(s, p, c).log ==> Removed(name) in s.log)
  {
  }
}
