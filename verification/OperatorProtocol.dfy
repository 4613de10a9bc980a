// The second list-then-publish protocol: operators of different clusters check
// their VTEP CIDR and ASN against a List of the broker's Cluster records
// (pkg/operator/skynet/reconciler.go:178-207) and their agents publish them
// later. Between check and publication anybody else may act.

module OperatorProtocol {
  import opened Wrappers
  import opened Ipv4
  import opened Pools
  import Allocators
  import Runs

  // Identifiers that passed the uniqueness check at the given time.
  datatype Ticket = Ticket(clusterId: string, vtepCidr: string, asn: int, checkedAt: nat)

  // A Cluster record on the broker and when its present identifiers first got there.
  datatype Published = Published(vtepCidr: string, asn: int, checkedAt: nat, publishedAt: nat)

  datatype Sys = Sys(records: map<string, Published>, tickets: seq<Ticket>, clock: nat)

  // Check: a pass of computeVtepAndASN whose values, allocated or supplied by
  // the user, meet the broker's List. Publish: an agent registers with values
  // its operator once checked. Republishing the same values changes nothing.
  datatype Event =
    | Check(clusterId: string, vtepCidr: string, asn: int)
    | Publish(ticket: nat)
    | Delete(clusterId: string)

  // The condition of ensureBrokerUnique on the records as they are now.
  ghost predicate Unique(s: Sys, id: string, vtep: string, asn: int)
  {
    forall d :: d in s.records && d != id ==> s.records[d].vtepCidr != vtep && s.records[d].asn != asn
  }

  ghost function Effect(s: Sys, e: Event): Sys
  {
    match e
    case Check(id, vtep, asn) =>
      if Unique(s, id, vtep, asn) then s.(tickets := s.tickets + [Ticket(id, vtep, asn, s.clock)]) else s
    case Publish(k) =>
      if k < |s.tickets| then
        var t := s.tickets[k];
        var same := t.clusterId in s.records &&
          s.records[t.clusterId].vtepCidr == t.vtepCidr && s.records[t.clusterId].asn == t.asn;
        if same then s
        else s.(records := s.records[t.clusterId := Published(t.vtepCidr, t.asn, t.checkedAt, s.clock)])
      else s
    case Delete(id) => s.(records := s.records - {id})
  }

  ghost function Apply(s: Sys, e: Event): Sys
  {
    Effect(s.(clock := s.clock + 1), e)
  }

  ghost function Run(s: Sys, events: seq<Event>): Sys
  {
    Runs.Fold(Apply, s, events)
  }

  predicate Initial(s: Sys)
  {
    s.records == map[] && s.tickets == []
  }

  // What the method ensureBrokerUnique decides on a List is the protocol's condition.
  lemma UniqueIsEnsureBrokerUnique(s: Sys, items: seq<Allocators.Registration>, id: string, vtep: string, asn: int)
    requires forall r :: r in items <==>
      r.clusterId in s.records && r.vtepCidr == s.records[r.clusterId].vtepCidr && r.asn == s.records[r.clusterId].asn
    ensures Unique(s, id, vtep, asn) <==> forall r :: r in items ==> !Allocators.Clashes(r, id, vtep, asn)
  {
    forall d | d in s.records && d != id
      ensures Allocators.Registration(d, s.records[d].vtepCidr, s.records[d].asn) in items
    {
    }
  }

  predicate Shares(vtep: string, asn: int, r: Published)
  {
    r.vtepCidr == vtep || r.asn == asn
  }

  // A ticket shares nothing with another cluster's record that was there at the check.
  ghost predicate TicketOk(s: Sys, t: Ticket)
  {
    && t.checkedAt <= s.clock
    && forall d :: d in s.records && d != t.clusterId && s.records[d].publishedAt <= t.checkedAt ==>
         !Shares(t.vtepCidr, t.asn, s.records[d])
  }

  ghost predicate PairOk(s: Sys, c: string, d: string)
  {
    c in s.records && d in s.records && c != d ==>
      && s.records[c].publishedAt != s.records[d].publishedAt
      && (s.records[c].publishedAt <= s.records[d].checkedAt ==>
            !Shares(s.records[d].vtepCidr, s.records[d].asn, s.records[c]))
  }

  ghost predicate Inv(s: Sys)
  {
    && (forall k :: 0 <= k < |s.tickets| ==> TicketOk(s, s.tickets[k]))
    && (forall c, d :: PairOk(s, c, d))
    && (forall c :: c in s.records ==> s.records[c].checkedAt < s.records[c].publishedAt <= s.clock)
  }

  lemma PublishKeepsInv(s: Sys, k: nat)
    requires Inv(s)
    ensures Inv(Apply(s, Publish(k)))
  {
    var u := Apply(s, Publish(k));
    forall i | 0 <= i < |u.tickets| ensures TicketOk(u, u.tickets[i]) {
      assert TicketOk(s, s.tickets[i]);
    }
    forall c, d ensures PairOk(u, c, d) {
      assert PairOk(s, c, d);
      if k < |s.tickets| {
        assert TicketOk(s, s.tickets[k]);
      }
    }
    if k < |s.tickets| {
      assert TicketOk(s, s.tickets[k]);
    }
  }

  lemma ApplyKeepsInv(s: Sys, e: Event)
    requires Inv(s)
    ensures Inv(Apply(s, e))
  {
    if e.Publish? {
      PublishKeepsInv(s, e.ticket);
    } else {
      var u := Apply(s, e);
      forall i | 0 <= i < |u.tickets| ensures TicketOk(u, u.tickets[i]) {
        if i < |s.tickets| {
          assert TicketOk(s, s.tickets[i]);
        }
      }
      forall c, d ensures PairOk(u, c, d) {
        assert PairOk(s, c, d);
      }
    }
  }

  lemma {:induction false} RunKeepsInv(s: Sys, events: seq<Event>)
    requires Inv(s)
    ensures Inv(Run(s, events))
  {
    if events != [] {
      RunKeepsInv(s, events[..|events| - 1]);
      ApplyKeepsInv(Run(s, events[..|events| - 1]), events[|events| - 1]);
    }
  }

  // Necessary side: clusters of different IDs share a VTEP CIDR string or an ASN
  // only if the later publisher had checked before the earlier one published.
  lemma ClashOnlyIfOverlap(s: Sys, events: seq<Event>, c: string, d: string)
    requires Initial(s)
    requires var u := Run(s, events);
      && c in u.records && d in u.records && c != d
      && u.records[c].publishedAt <= u.records[d].publishedAt
      && Shares(u.records[d].vtepCidr, u.records[d].asn, u.records[c])
    ensures var u := Run(s, events);
      u.records[d].checkedAt < u.records[c].publishedAt < u.records[d].publishedAt
  {
    RunKeepsInv(s, events);
    assert PairOk(Run(s, events), c, d);
  }

  lemma {:induction false} TicketsGrow(s: Sys, events: seq<Event>)
    ensures s.tickets <= Run(s, events).tickets
  {
    if events != [] {
      TicketsGrow(s, events[..|events| - 1]);
    }
  }

  // An event after which a cluster's record may be another one.
  ghost predicate Touches(s: Sys, e: Event, id: string)
  {
    match e
    case Check(_, _, _) => false
    case Publish(k) => k < |s.tickets| && s.tickets[k].clusterId == id
    case Delete(d) => d == id
  }

  // Nothing touches the cluster's record in the course of these events.
  ghost predicate Undisturbed(s: Sys, events: seq<Event>, id: string)
  {
    forall i :: 0 <= i < |events| ==> !Touches(Run(s, events[..i]), events[i], id)
  }

  lemma {:induction false} UndisturbedStays(s: Sys, events: seq<Event>, id: string)
    requires Undisturbed(s, events, id)
    ensures id in s.records <==> id in Run(s, events).records
    ensures id in s.records ==> Run(s, events).records[id] == s.records[id]
  {
    if events != [] {
      var init := events[..|events| - 1];
      assert Undisturbed(s, init, id) by {
        forall i | 0 <= i < |init| ensures !Touches(Run(s, init[..i]), init[i], id) {
          assert init[..i] == events[..i];
        }
      }
      UndisturbedStays(s, init, id);
    }
  }

  // Sufficient side: whenever the same identifiers pass both clusters' checks and
  // both are then published, in either order of checking and with any steps of
  // anybody in between, both clusters end up with them, provided that the record
  // published first is not replaced or deleted before the second is.
  lemma OverlapClashes(
    s: Sys, c: string, d: string, vtep: string, asn: int,
    u1: Sys, g1: seq<Event>, u2: Sys, g2: seq<Event>, u3: Sys, g3: seq<Event>, u4: Sys)
    requires c != d && Unique(s, c, vtep, asn)
    requires u1 == Apply(s, Check(c, vtep, asn)) && u2 == Run(u1, g1) && Unique(u2, d, vtep, asn)
    requires u3 == Run(Apply(u2, Check(d, vtep, asn)), g2)
    requires u4 == Run(Apply(u3, Publish(|s.tickets|)), g3)
    requires Undisturbed(Apply(u3, Publish(|s.tickets|)), g3, c)
    ensures var t := Apply(u4, Publish(|u2.tickets|));
      && c in t.records && t.records[c].vtepCidr == vtep && t.records[c].asn == asn
      && d in t.records && t.records[d].vtepCidr == vtep && t.records[d].asn == asn
  {
    var v2 := Apply(u2, Check(d, vtep, asn));
    var v3 := Apply(u3, Publish(|s.tickets|));
    TicketsGrow(u1, g1);
    TicketsGrow(v2, g2);
    TicketsGrow(v3, g3);
    var mine := u1.tickets[|s.tickets|];
    assert mine.clusterId == c && mine.vtepCidr == vtep && mine.asn == asn;
    assert u3.tickets[|s.tickets|] == v2.tickets[|s.tickets|] == u2.tickets[|s.tickets|] == mine;
    var theirs := v2.tickets[|u2.tickets|];
    assert theirs.clusterId == d && theirs.vtepCidr == vtep && theirs.asn == asn;
    assert v3.tickets == u3.tickets;
    assert u4.tickets[|u2.tickets|] == v3.tickets[|u2.tickets|] == theirs;
    UndisturbedStays(v3, g3, c);
  }

  // Such a race exists: two clusters and an empty broker.
  lemma ClashIsReachable(c: string, d: string, vtep: string, asn: int) returns (s: Sys, events: seq<Event>)
    requires c != d
    ensures Initial(s)
    ensures var t := Run(s, events);
      && c in t.records && t.records[c].vtepCidr == vtep && t.records[c].asn == asn
      && d in t.records && t.records[d].vtepCidr == vtep && t.records[d].asn == asn
  {
    s := Sys(map[], [], 0);
    var a, b := Check(c, vtep, asn), Check(d, vtep, asn);
    events := [a, b, Publish(0), Publish(1)];
    Runs.FoldFour(Apply, s, a, b, Publish(0), Publish(1));
    var u1 := Apply(s, a);
    var u2 := Apply(u1, b);
    assert u1 == Run(u1, []) && u2 == Run(u2, []);
    var u3 := Apply(u2, Publish(0));
    assert u3 == Run(u3, []);
    OverlapClashes(s, c, d, vtep, asn, u1, [], u1, [], u2, [], u3);
  }

  ghost predicate WindowsDisjoint(s: Sys)
  {
    forall c, d :: c in s.records && d in s.records && s.records[c].publishedAt < s.records[d].publishedAt ==>
      s.records[c].publishedAt < s.records[d].checkedAt
  }

  // Without overlapping check-to-publish windows no two clusters share an ASN,
  // and clusters whose VTEP CIDRs were accepted and are canonical have disjoint
  // address blocks.
  lemma RegistrationsDisjoint(s: Sys, events: seq<Event>, c: string, d: string, p: Pool)
    requires Initial(s) && WindowsDisjoint(Run(s, events))
    requires c in Run(s, events).records && d in Run(s, events).records && c != d
    ensures var x, y := Run(s, events).records[c], Run(s, events).records[d];
      && x.asn != y.asn && x.vtepCidr != y.vtepCidr
      && (ValidateVtepCidr(x.vtepCidr, p) == None && ValidateVtepCidr(y.vtepCidr, p) == None
          && IsCanonical(x.vtepCidr) && IsCanonical(y.vtepCidr) ==>
            Disjoint(ParseCidr(x.vtepCidr).value, ParseCidr(y.vtepCidr).value))
  {
    RunKeepsInv(s, events);
    var u := Run(s, events);
    assert PairOk(u, c, d) && PairOk(u, d, c);
    var x, y := u.records[c], u.records[d];
    if ValidateVtepCidr(x.vtepCidr, p) == None && ValidateVtepCidr(y.vtepCidr, p) == None {
      AcceptedOverlap(x.vtepCidr, y.vtepCidr, p);
    }
  }
}
