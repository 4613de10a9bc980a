// The documented VNI race in full generality: whatever other agents do before,
// between and after the four requests that make it.

module McnRace {
  import opened Wrappers
  import opened BrokerStore
  import opened Finalizers
  import opened McnProtocol
  import opened McnManagers
  import McnSafety
  import Runs
  import VniAllocator

  // Steps of neither of the two processes.
  ghost predicate Bystanders(events: seq<Event>, p: nat, q: nat)
  {
    forall i :: 0 <= i < |events| ==> ConcernsOthers(events[i], p) && ConcernsOthers(events[i], q)
  }

  lemma BystandersFollow(s: Sys, events: seq<Event>, p: nat, q: nat)
    requires p in s.procs && q in s.procs && Bystanders(events, p, q)
    ensures var t := Run(s, events);
      p in t.procs && q in t.procs && t.procs[p] == s.procs[p] && t.procs[q] == s.procs[q]
  {
    OthersFollow(s, events, p);
    OthersFollow(s, events, q);
  }

  lemma {:induction false} ClockRuns(s: Sys, events: seq<Event>)
    ensures s.clock <= Run(s, events).clock
  {
    if events != [] {
      var init, e := events[..|events| - 1], events[|events| - 1];
      ClockRuns(s, init);
      ClockTicks(Run(s, init), e);
    }
  }

  lemma ClockTicks(s: Sys, e: Event)
    ensures Apply(s, e).clock == s.clock + 1
  {
    if e.Request? && e.pid in s.procs {
      McnSafety.RequestPerforms(s, e.pid, e.outcome);
      var t := s.(clock := s.clock + 1);
      PerformKeepsClock(t, e.pid, Plan(t, s.procs[e.pid].cluster, s.procs[e.pid].pc, e.outcome));
    }
  }

  lemma PerformKeepsClock(s: Sys, p: nat, c: Change)
    requires p in s.procs && Enabled(s, c)
    ensures Perform(s, p, c).clock == s.clock
  {
  }

  // A List gives its process the first free VNI and moves nobody else.
  lemma Lists(s: Sys, p: nat, vni: nat)
    requires p in s.procs && s.procs[p].pc.VniList? && VniAllocator.FirstFree(s.store.Vnis()) == Some(vni)
    ensures var t, pc := Apply(s, Request(p, Done)), s.procs[p].pc;
      && p in t.procs && t.procs[p] == Proc(s.procs[p].cluster, CreateReq(pc.name, pc.topology, vni, s.clock + 1))
      && t.clock == s.clock + 1
      && forall q :: q in s.procs && q != p ==> q in t.procs && t.procs[q] == s.procs[q]
  {
    McnSafety.ListReply(s, p);
  }

  lemma Creates(s: Sys, p: nat)
    requires Inv(s) && p in s.procs && s.procs[p].pc.CreateReq? && s.procs[p].pc.name !in s.store.records
    ensures var t, pc, c := Apply(s, Request(p, Done)), s.procs[p].pc, s.procs[p].cluster;
      && pc.name in t.store.records && t.store.records[pc.name].spec.vni == pc.vni && Member(t.log, c, pc.name)
      && t.births == s.births[pc.name := Birth(pc.listedAt, s.clock + 1)] && t.clock == s.clock + 1
      && (forall n :: n in s.store.records ==> n in t.store.records && t.store.records[n] == s.store.records[n])
      && forall q :: q in s.procs && q != p ==> q in t.procs && t.procs[q] == s.procs[q]
  {
    McnSafety.CreateReply(s, p);
    McnSafety.RequestKeepsInv(s, p, Done);
    CreatesFor(s, p);
    ClockTicks(s, Request(p, Done));
  }

  lemma CreatesFor(s: Sys, p: nat)
    requires p in s.procs && s.procs[p].pc.CreateReq? && s.procs[p].pc.name !in s.store.records
    ensures Member(Apply(s, Request(p, Done)).log, s.procs[p].cluster, s.procs[p].pc.name)
  {
    McnSafety.RequestPerforms(s, p, Done);
    var t, c, name := Apply(s, Request(p, Done)), s.procs[p].cluster, s.procs[p].pc.name;
    assert t.log == s.log + [Created(c, name)];
    McnSafety.MemberAppend(s.log, Created(c, name), name);
  }

  // The sufficient side. Two agents list while the same VNI is the first free one,
  // in either order, before either has created; whatever everybody else does in
  // the gaps, both new networks get that VNI and coexist as long as the first
  // creator's cluster stays in its network. It is enough that nobody else has
  // created the two names meanwhile.
  lemma OverlapDuplicates(
    s: Sys, p: nat, q: nat, first: nat, second: nat, vni: nat,
    g1: seq<Event>, u2: Sys, g2: seq<Event>, u3: Sys, g3: seq<Event>, u4: Sys)
    requires Inv(s) && p in s.procs && q in s.procs && p != q
    requires s.procs[p].pc.VniList? && s.procs[q].pc.VniList? && s.procs[p].pc.name != s.procs[q].pc.name
    requires (first == p && second == q) || (first == q && second == p)
    requires Bystanders(g1, p, q) && Bystanders(g2, p, q) && Bystanders(g3, p, q)
    requires u2 == Run(Apply(s, Request(first, Done)), g1)
    requires u3 == Run(Apply(u2, Request(second, Done)), g2)
    requires u4 == Run(Apply(u3, Request(p, Done)), g3)
    requires VniAllocator.FirstFree(s.store.Vnis()) == Some(vni) == VniAllocator.FirstFree(u2.store.Vnis())
    requires s.procs[p].pc.name !in u3.store.records && s.procs[q].pc.name !in u4.store.records
    requires !LeftSince(u4.log, |Apply(u3, Request(p, Done)).log|, s.procs[p].cluster, s.procs[p].pc.name)
    ensures var t, n, m := Apply(u4, Request(q, Done)), s.procs[p].pc.name, s.procs[q].pc.name;
      && n in t.store.records && m in t.store.records
      && t.store.records[n].spec.vni == vni && t.store.records[m].spec.vni == vni
      && m in t.births && t.births[m].listedAt <= u3.clock
  {
    var c1 := Apply(u3, Request(p, Done));
    BothListed(s, p, q, first, second, vni, g1, u2, g2, u3);
    RaceKeepsInv(s, first, g1, second, g2);
    Creates(u3, p);
    McnSafety.RequestKeepsInv(u3, p, Done);
    BystandersFollow(c1, g3, p, q);
    McnSafety.MemberStands(c1, g3, s.procs[p].cluster, s.procs[p].pc.name);
    McnSafety.RunKeepsInv(c1, g3);
    Creates(u4, q);
  }

  // After both Lists both agents are about to create with the same VNI.
  lemma BothListed(
    s: Sys, p: nat, q: nat, first: nat, second: nat, vni: nat, g1: seq<Event>, u2: Sys, g2: seq<Event>, u3: Sys)
    requires p in s.procs && q in s.procs && p != q
    requires s.procs[p].pc.VniList? && s.procs[q].pc.VniList?
    requires (first == p && second == q) || (first == q && second == p)
    requires Bystanders(g1, p, q) && Bystanders(g2, p, q)
    requires u2 == Run(Apply(s, Request(first, Done)), g1)
    requires u3 == Run(Apply(u2, Request(second, Done)), g2)
    requires VniAllocator.FirstFree(s.store.Vnis()) == Some(vni) == VniAllocator.FirstFree(u2.store.Vnis())
    ensures p in u3.procs && AboutToCreate(u3, u3.procs[p], s.procs[p], vni)
    ensures q in u3.procs && AboutToCreate(u3, u3.procs[q], s.procs[q], vni)
  {
    var l1, l2 := Apply(s, Request(first, Done)), Apply(u2, Request(second, Done));
    Lists(s, first, vni);
    BystandersFollow(l1, g1, p, q);
    ClockRuns(l1, g1);
    Lists(u2, second, vni);
    BystandersFollow(l2, g2, p, q);
    ClockRuns(l2, g2);
  }

  predicate AboutToCreate(s: Sys, now: Proc, before: Proc, vni: nat)
    requires before.pc.VniList?
  {
    && now.cluster == before.cluster && now.pc.CreateReq? && now.pc.listedAt <= s.clock
    && now.pc == CreateReq(before.pc.name, before.pc.topology, vni, now.pc.listedAt)
  }

  lemma RaceKeepsInv(s: Sys, first: nat, g1: seq<Event>, second: nat, g2: seq<Event>)
    requires Inv(s)
    ensures var u2 := Run(Apply(s, Request(first, Done)), g1);
      Inv(Run(Apply(u2, Request(second, Done)), g2))
  {
    McnSafety.RequestKeepsInv(s, first, Done);
    McnSafety.RunKeepsInv(Apply(s, Request(first, Done)), g1);
    var u2 := Run(Apply(s, Request(first, Done)), g1);
    McnSafety.RequestKeepsInv(u2, second, Done);
    McnSafety.RunKeepsInv(Apply(u2, Request(second, Done)), g2);
  }
}
