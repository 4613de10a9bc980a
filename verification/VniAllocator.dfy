// pkg/agent/allocator/vni_allocator.go: the first free VNI and route targets.

module VniAllocator {
  import opened Wrappers
  import Decimal
  import Text

  const VNI_MIN: nat := 5000
  const VNI_MAX: nat := 10000
  const ROUTE_TARGET_ASN: nat := 65000
  const VNI_COUNT: nat := VNI_MAX - VNI_MIN + 1

  predicate InRange(vni: nat)
  {
    VNI_MIN <= vni <= VNI_MAX
  }

  // v is the answer the allocator owes for the VNIs in use: the least free one,
  // and none exactly when the whole range is used.
  ghost predicate IsFirstFree(used: set<nat>, v: Option<nat>)
  {
    match v
    case Some(vni) => InRange(vni) && vni !in used && forall w :: VNI_MIN <= w < vni ==> w in used
    case None => forall w :: InRange(w) ==> w in used
  }

  lemma {:induction false} FirstFreeExists(used: set<nat>, vni: nat) returns (v: Option<nat>)
    requires VNI_MIN <= vni <= VNI_MAX + 1
    requires forall w :: VNI_MIN <= w < vni ==> w in used
    ensures IsFirstFree(used, v)
    decreases VNI_MAX + 1 - vni
  {
    if vni > VNI_MAX {
      v := None;
    } else if vni !in used {
      v := Some(vni);
    } else {
      v := FirstFreeExists(used, vni + 1);
    }
  }

  // The one answer that IsFirstFree admits.
  ghost function FirstFree(used: set<nat>): (v: Option<nat>)
    ensures IsFirstFree(used, v)
  {
    assert exists v :: IsFirstFree(used, v) by {
      var v := FirstFreeExists(used, VNI_MIN);
    }
    var v :| IsFirstFree(used, v);
    v
  }

  lemma FirstFreeUnique(used: set<nat>, v: Option<nat>)
    requires IsFirstFree(used, v)
    ensures v == FirstFree(used)
  {
    var u := FirstFree(used);
    if u.Some? && v.Some? {
      assert !(u.value < v.value) && !(v.value < u.value);
    }
  }

  lemma NoneFree(used: set<nat>)
    requires forall vni :: 5000 <= vni <= 10000 ==> vni in used
    ensures FirstFree(used) == None
  {
    FirstFreeUnique(used, None);
  }

  // findNextAvailableVNI: the counting search loop.
  method FindNextAvailableVNI(inUse: set<nat>) returns (r: Option<nat>)
    ensures IsFirstFree(inUse, r)
    ensures r == FirstFree(inUse)
  {
    var vni := VNI_MIN;
    while vni <= VNI_MAX
      invariant VNI_MIN <= vni <= VNI_MAX + 1
      invariant forall w :: VNI_MIN <= w < vni ==> w in inUse
    {
      if vni !in inUse {
        FirstFreeUnique(inUse, Some(vni));
        return Some(vni);
      }
      vni := vni + 1;
    }
    r := None;
    FirstFreeUnique(inUse, r);
  }

  // Pigeonhole: inside the range there are exactly VNI_COUNT values, so the
  // search fails exactly when that many distinct in-range VNIs are in use.
  lemma {:induction false} RangeSize(used: set<nat>, lo: nat)
    requires lo <= VNI_MAX + 1
    requires forall v :: v in used ==> lo <= v <= VNI_MAX
    ensures |used| <= VNI_MAX + 1 - lo
    ensures |used| == VNI_MAX + 1 - lo <==> forall v :: lo <= v <= VNI_MAX ==> v in used
    decreases VNI_MAX + 1 - lo
  {
    if lo > VNI_MAX {
      assert used == {};
    } else {
      RangeSize(used - {lo}, lo + 1);
      if lo in used {
        assert |used - {lo}| == |used| - 1;
        assert forall v :: lo + 1 <= v <= VNI_MAX ==> (v in used <==> v in used - {lo});
      } else {
        assert used - {lo} == used;
      }
    }
  }

  lemma ExhaustedIffFull(used: set<nat>)
    requires forall v :: v in used ==> InRange(v)
    ensures |used| <= VNI_COUNT
    ensures FirstFree(used) == None <==> |used| == VNI_COUNT
  {
    RangeSize(used, VNI_MIN);
    var v := FirstFree(used);
  }

  // GenerateRouteTarget: "<asn>:<vni>" with the fixed ASN 65000.
  function GenerateRouteTarget(vni: nat): string
  {
    Decimal.PrintNat(ROUTE_TARGET_ASN) + ":" + Decimal.PrintNat(vni)
  }

  // The range and the route target in numbers.
  lemma RangeIs(vni: nat)
    ensures InRange(vni) <==> 5000 <= vni <= 10000
    ensures VNI_COUNT == 5001
  {
  }

  lemma RouteTargetText(vni: nat)
    ensures GenerateRouteTarget(vni) == "65000" + ":" + Decimal.PrintNat(vni)
  {
    assert Decimal.PrintNat(65000) == "65000";
  }

  // The VNI that a route target names.
  function VniOf(routeTarget: string): Option<int>
  {
    var parts := Text.Split(routeTarget, ':');
    if |parts| == 2 then Decimal.ParseUint(parts[1], Decimal.UINT32_MAX) else None
  }

  // The VNI is recovered from the route target, so distinct VNIs never share one.
  lemma RouteTargetRoundTrip(vni: nat)
    requires vni <= Decimal.UINT32_MAX
    ensures VniOf(GenerateRouteTarget(vni)) == Some(vni)
    ensures forall other: nat :: GenerateRouteTarget(other) == GenerateRouteTarget(vni) ==> other == vni
  {
    SplitRouteTarget(vni);
    Decimal.PrintNatCanonical(vni);
    forall other: nat | GenerateRouteTarget(other) == GenerateRouteTarget(vni)
      ensures other == vni
    {
      SplitRouteTarget(other);
      Decimal.PrintNatCanonical(other);
    }
  }

  lemma SplitRouteTarget(vni: nat)
    ensures Text.Split(GenerateRouteTarget(vni), ':')
         == [Decimal.PrintNat(ROUTE_TARGET_ASN), Decimal.PrintNat(vni)]
  {
    Decimal.PrintNatCanonical(ROUTE_TARGET_ASN);
    Decimal.PrintNatCanonical(vni);
    Text.SplitPiece(Decimal.PrintNat(ROUTE_TARGET_ASN), Decimal.PrintNat(vni), ':');
    Text.SplitWhole(Decimal.PrintNat(vni), ':');
  }
}
