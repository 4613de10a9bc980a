// pkg/operator/alloc/vtep.go and asn.go: the first-free searches over the
// identifiers that the clusters on the broker already use.

module Allocators {
  import opened Wrappers
  import opened Decimal
  import opened Arithmetic
  import opened Ipv4
  import opened Pools

  // The part of a broker Cluster record that allocation looks at.
  datatype Registration = Registration(clusterId: string, vtepCidr: string, asn: int)

  // ------------------------------------------------------------ ASN

  // getAllocatedASNs: a Cluster without an ASN (0) is skipped.
  method GetAllocatedAsns(items: seq<Registration>) returns (asns: set<int>)
    ensures forall a :: a in asns <==> a != 0 && exists r :: r in items && r.asn == a
  {
    asns := {};
    for i := 0 to |items|
      invariant forall a :: a in asns <==> a != 0 && exists k :: 0 <= k < i && items[k].asn == a
    {
      if items[i].asn != 0 {
        asns := asns + {items[i].asn};
      }
    }
  }

  // asn++ on an int32.
  function Increment32(x: int): int
  {
    if x == INT32_MAX then INT32_MIN else x + 1
  }

  ghost predicate LeastFree(inUse: set<int>, lo: int, hi: int, a: int)
  {
    lo <= a <= hi && a !in inUse && forall b :: lo <= b < a ==> b in inUse
  }

  // What the loop does, wrap-around included: the least free ASN of the range;
  // failing that, an error, except that a range ending at the largest int32 is
  // left through the other end and the least free int32 overall comes back.
  ghost predicate AsnAnswer(inUse: set<int>, lo: int, hi: int, r: Option<int>)
  {
    if exists a :: lo <= a <= hi && a !in inUse then r.Some? && LeastFree(inUse, lo, hi, r.value)
    else if hi < INT32_MAX then r == None
    else r.Some? && LeastFree(inUse, INT32_MIN, 0, r.value)
  }

  // AllocateASN's int32 counting loop. 0 is never recorded as in use, so even
  // the wrapped loop ends there.
  method FindNextAsn(inUse: set<int>, asnMin: int, asnMax: int) returns (r: Option<int>)
    requires INT32_MIN <= asnMin <= asnMax <= INT32_MAX
    requires 0 !in inUse
    ensures AsnAnswer(inUse, asnMin, asnMax, r)
  {
    var asn := asnMin;
    ghost var wrapped := false;
    while asn <= asnMax
      invariant INT32_MIN <= asn <= INT32_MAX
      invariant !wrapped ==> asnMin <= asn && forall b :: asnMin <= b < asn ==> b in inUse
      invariant wrapped ==>
        && asnMax == INT32_MAX && (forall b :: asnMin <= b <= asnMax ==> b in inUse)
        && asn <= 0 && (forall b :: INT32_MIN <= b < asn ==> b in inUse)
      decreases !wrapped, if asn <= 0 then -asn else INT32_MAX - asn + 1 - INT32_MIN
    {
      if asn !in inUse {
        return Some(asn);
      }
      if asn == INT32_MAX {
        wrapped := true;
      }
      asn := Increment32(asn);
    }
    r := None;
  }

  // The search keeps its promise (the least free ASN of the range, or an error
  // when there is none) exactly when the range stops short of the largest int32
  // or still has a free ASN; otherwise it hands out an ASN the validator refuses.
  lemma AsnSearchKeepsPromise(inUse: set<int>, p: Pool, r: Option<int>)
    requires INT32_MIN <= p.asnMin <= p.asnMax <= INT32_MAX && 0 !in inUse
    requires AsnAnswer(inUse, p.asnMin, p.asnMax, r)
    ensures (match r
             case Some(a) => LeastFree(inUse, p.asnMin, p.asnMax, a) && ValidateAsn(a, p) == None
             case None => forall a :: p.asnMin <= a <= p.asnMax ==> a in inUse)
       <==> p.asnMax < INT32_MAX || exists a :: p.asnMin <= a <= p.asnMax && a !in inUse
    ensures r.Some? ==> r.value !in inUse
  {
    if r.Some? && !(exists a :: p.asnMin <= a <= p.asnMax && a !in inUse) {
      assert 0 !in inUse;
      assert p.asnMin > 0;
    }
  }

  // The failing family is not empty: one Cluster on the only ASN of the pool.
  lemma AsnSearchWraps()
    ensures AsnAnswer({INT32_MAX}, INT32_MAX, INT32_MAX, Some(INT32_MIN))
    ensures ValidateAsn(INT32_MIN, DEFAULT_POOLS.(asnMin := INT32_MAX, asnMax := INT32_MAX)) == Some(AsnOutOfRange)
  {
    assert LeastFree({INT32_MAX}, INT32_MIN, 0, INT32_MIN);
  }

  // ------------------------------------------------------------ VTEP

  method GetAllocatedVtepCidrs(items: seq<Registration>) returns (cidrs: seq<string>)
    ensures forall c :: c in cidrs <==> c != "" && exists r :: r in items && r.vtepCidr == c
  {
    cidrs := [];
    for i := 0 to |items|
      invariant forall c :: c in cidrs <==> c != "" && exists k :: 0 <= k < i && items[k].vtepCidr == c
    {
      if items[i].vtepCidr != "" {
        cidrs := cidrs + [items[i].vtepCidr];
      }
    }
  }

  // The i-th /16 of an /8 pool: octet 1 of the masked base address is i.
  function Subnet(pool: Cidr, i: nat): (c: Cidr)
    requires WellFormed(pool) && i < 256
    ensures WellFormed(c) && c.len == 16
  {
    Cidr(FromOctets(ToOctets(Network(pool).ip)[1 := i]), 16)
  }

  predicate Supported(p: Pool)
  {
    ParseCidr(p.vtepPoolCidr).Some? && ParseCidr(p.vtepPoolCidr).value.len == 8 && p.vtepPrefixLen == 16
  }

  predicate FirstFreeSubnet(inUse: seq<string>, pool: Cidr, i: nat)
    requires WellFormed(pool)
  {
    && i < 256 && PrintCidr(Subnet(pool, i)) !in inUse
    && forall j: nat :: j < i ==> PrintCidr(Subnet(pool, j)) in inUse
  }

  // One step of the search: octet 1 of a fresh copy of the base address is overwritten.
  method SubnetString(pool: Cidr, base: seq<nat>, i: nat) returns (cidr: string)
    requires WellFormed(pool) && base == ToOctets(Network(pool).ip) && i < 256
    ensures cidr == PrintCidr(Subnet(pool, i))
  {
    var subnetIp := new nat[4](k requires 0 <= k < 4 => base[k]);
    subnetIp[1] := i;
    assert subnetIp[..] == base[1 := i];
    OctetsUnique(base[1 := i]);
    cidr := PrintOctets(subnetIp[..]) + "/" + PrintNat(16);
  }

  // findNextAvailableCIDR: the 256-step search.
  method FindNextAvailableCidr(inUse: seq<string>, p: Pool) returns (r: Result<string, Error>)
    ensures match r
      case Ok(cidr) =>
        && Supported(p)
        && exists i: nat :: FirstFreeSubnet(inUse, ParseCidr(p.vtepPoolCidr).value, i)
             && cidr == PrintCidr(Subnet(ParseCidr(p.vtepPoolCidr).value, i))
      case Err(Exhausted) =>
        && Supported(p)
        && forall i: nat :: i < 256 ==> PrintCidr(Subnet(ParseCidr(p.vtepPoolCidr).value, i)) in inUse
      case Err(error) =>
        !Supported(p) && error == if ParseCidr(p.vtepPoolCidr) == None then BadCidr else UnsupportedPool
  {
    var parsed := ParseCidr(p.vtepPoolCidr);
    if parsed == None {
      return Err(BadCidr);
    }
    var pool := parsed.value;
    if pool.len != 8 || p.vtepPrefixLen != 16 {
      return Err(UnsupportedPool);
    }
    var found := SearchSubnets(inUse, pool);
    return if found.Some? then Ok(found.value) else Err(Exhausted);
  }

  method SearchSubnets(inUse: seq<string>, pool: Cidr) returns (r: Option<string>)
    requires WellFormed(pool)
    ensures match r
      case Some(cidr) => exists i: nat :: FirstFreeSubnet(inUse, pool, i) && cidr == PrintCidr(Subnet(pool, i))
      case None => forall i: nat :: i < 256 ==> PrintCidr(Subnet(pool, i)) in inUse
  {
    var base := ToOctets(Network(pool).ip);
    var i := 0;
    while i < 256
      invariant 0 <= i <= 256
      invariant forall j: nat :: j < i ==> PrintCidr(Subnet(pool, j)) in inUse
    {
      var cidr := SubnetString(pool, base, i);
      if cidr !in inUse {
        assert FirstFreeSubnet(inUse, pool, i);
        return Some(cidr);
      }
      i := i + 1;
    }
    return None;
  }

  // Masking with /8 keeps the first octet and clears the rest.
  lemma MaskedBase(pool: Cidr)
    requires WellFormed(pool) && pool.len == 8
    ensures ToOctets(Network(pool).ip) == [ToOctets(pool.ip)[0], 0, 0, 0]
  {
    SizeOf8();
    var o := ToOctets(pool.ip);
    assert pool.ip / 0x100_0000 == o[0];
    OctetsUnique([o[0], 0, 0, 0]);
  }

  lemma SizeOf8()
    ensures Size(8) == 0x100_0000 && Size(16) == 0x1_0000
  {
    assert Pow2(8) == 256;
    Pow2Split(8, 8);
    Pow2Split(8, 16);
  }

  lemma SubnetIp(pool: Cidr, i: nat)
    requires WellFormed(pool) && pool.len == 8 && i < 256
    ensures Subnet(pool, i).ip == pool.ip / 0x100_0000 * 0x100_0000 + i * 0x1_0000
  {
    MaskedBase(pool);
    var o := ToOctets(pool.ip);
    assert [o[0], 0, 0, 0][1 := i] == [o[0], i, 0, 0];
    assert pool.ip / 0x100_0000 == o[0];
  }

  lemma SubnetFacts(pool: Cidr, i: nat)
    requires WellFormed(pool) && pool.len == 8 && i < 256
    ensures Network(Subnet(pool, i)) == Subnet(pool, i)
    ensures Contains(pool, Subnet(pool, i).ip)
    ensures IsCanonical(PrintCidr(Subnet(pool, i))) && ParseCidr(PrintCidr(Subnet(pool, i))) == Some(Subnet(pool, i))
  {
    SizeOf8();
    SubnetIp(pool, i);
    var q := pool.ip / 0x100_0000;
    QuotientIs(Subnet(pool, i).ip, 0x100_0000, q, i * 0x1_0000);
    QuotientIs(Subnet(pool, i).ip, 0x1_0000, q * 256 + i, 0);
    ParsePrintCidr(Subnet(pool, i));
  }

  // The allocated CIDR is canonical, passes the operator's own validator, lies
  // inside the pool and is disjoint from every canonical /16 already listed.
  lemma AllocatedVtepIsSound(inUse: seq<string>, p: Pool, i: nat)
    requires Supported(p) && FirstFreeSubnet(inUse, ParseCidr(p.vtepPoolCidr).value, i)
    ensures var pool, cidr := ParseCidr(p.vtepPoolCidr).value, PrintCidr(Subnet(ParseCidr(p.vtepPoolCidr).value, i));
      && IsCanonical(cidr)
      && ValidateVtepCidr(cidr, p) == None
      && Inside(ParseCidr(cidr).value, pool)
      && forall t :: t in inUse && IsCanonical(t) && ParseCidr(t).value.len == 16 ==>
           Disjoint(ParseCidr(cidr).value, ParseCidr(t).value)
  {
    var pool := ParseCidr(p.vtepPoolCidr).value;
    var cidr := PrintCidr(Subnet(pool, i));
    SubnetFacts(pool, i);
    AcceptedInsideIffPoolShorter(cidr, p);
    forall t | t in inUse && IsCanonical(t) && ParseCidr(t).value.len == 16
      ensures Disjoint(ParseCidr(cidr).value, ParseCidr(t).value)
    {
      CanonicalDistinctIffDisjoint(cidr, t);
    }
  }

  // ------------------------------------------------------------ the operator's pass

  // ensureBrokerUnique: a loop that stops at the first other cluster with the
  // same VTEP CIDR string or the same ASN.
  predicate Clashes(r: Registration, clusterId: string, vtep: string, asn: int)
  {
    r.clusterId != clusterId && (r.vtepCidr == vtep || r.asn == asn)
  }

  // No other cluster clashes, or the error names one that does, and over what.
  ghost predicate Checked(items: seq<Registration>, clusterId: string, vtep: string, asn: int, r: Option<Error>)
  {
    match r
    case None => forall c :: c in items ==> !Clashes(c, clusterId, vtep, asn)
    case Some(error) =>
      exists c :: c in items && c.clusterId != clusterId &&
        if c.vtepCidr == vtep then error == VtepTaken(c.clusterId) else c.asn == asn && error == AsnTaken(c.clusterId)
  }

  method EnsureBrokerUnique(items: seq<Registration>, clusterId: string, vtep: string, asn: int)
    returns (r: Option<Error>)
    ensures Checked(items, clusterId, vtep, asn, r)
  {
    for i := 0 to |items|
      invariant forall k :: 0 <= k < i ==> !Clashes(items[k], clusterId, vtep, asn)
    {
      if items[i].clusterId != clusterId {
        assert items[i] in items;
        if items[i].vtepCidr == vtep {
          return Some(VtepTaken(items[i].clusterId));
        }
        if items[i].asn == asn {
          return Some(AsnTaken(items[i].clusterId));
        }
      }
    }
    return None;
  }

  datatype SkynetCr = SkynetCr(clusterId: string, specVtep: string, specAsn: int, statusVtep: string, statusAsn: int)

  // What the three answers owe: the choice of a VTEP CIDR ...
  ghost predicate Taken(items: seq<Registration>, cidr: string)
  {
    exists r :: r in items && r.vtepCidr == cidr
  }

  ghost predicate LeastFreeSubnet(items: seq<Registration>, pool: Cidr, i: nat)
    requires WellFormed(pool)
  {
    && i < 256 && !Taken(items, PrintCidr(Subnet(pool, i)))
    && forall j: nat :: j < i ==> Taken(items, PrintCidr(Subnet(pool, j)))
  }

  // AllocateVtepCIDR: the least free /16, or why there is none.
  ghost predicate VtepAnswer(listed: Option<seq<Registration>>, p: Pool, r: Result<string, Error>)
  {
    match listed
    case None => r == Err(ListFailed)
    case Some(items) =>
      if !Supported(p) then r == Err(if ParseCidr(p.vtepPoolCidr) == None then BadCidr else UnsupportedPool)
      else
        var pool := ParseCidr(p.vtepPoolCidr).value;
        match r
        case Ok(cidr) => exists i: nat :: LeastFreeSubnet(items, pool, i) && cidr == PrintCidr(Subnet(pool, i))
        case Err(error) => error == Exhausted && forall i: nat :: i < 256 ==> Taken(items, PrintCidr(Subnet(pool, i)))
  }

  // ... of an ASN ...
  function UsedAsns(items: seq<Registration>): set<int>
  {
    set r | r in items && r.asn != 0 :: r.asn
  }

  ghost predicate AsnAnswerOf(listed: Option<seq<Registration>>, p: Pool, r: Result<int, Error>)
  {
    match listed
    case None => r == Err(ListFailed)
    case Some(items) =>
      && AsnAnswer(UsedAsns(items), p.asnMin, p.asnMax, if r.Ok? then Some(r.value) else None)
      && (r.Err? ==> r.error == Exhausted)
  }

  lemma PrintedNotEmpty(c: Cidr)
    requires WellFormed(c)
    ensures PrintCidr(c) != ""
  {
    assert |PrintCidr(c)| == |PrintAddr(c.ip)| + 1 + |PrintNat(c.len)|;
  }

  method AllocateVtepCidr(listed: Option<seq<Registration>>, p: Pool) returns (r: Result<string, Error>)
    ensures VtepAnswer(listed, p, r)
  {
    if listed == None {
      return Err(ListFailed);
    }
    var inUse := GetAllocatedVtepCidrs(listed.value);
    r := FindNextAvailableCidr(inUse, p);
    if Supported(p) {
      AnswerFromUsed(listed.value, inUse, ParseCidr(p.vtepPoolCidr).value);
    }
  }

  lemma AnswerFromUsed(items: seq<Registration>, inUse: seq<string>, pool: Cidr)
    requires WellFormed(pool) && forall c :: c in inUse <==> c != "" && exists r :: r in items && r.vtepCidr == c
    ensures forall i: nat :: i < 256 ==> (PrintCidr(Subnet(pool, i)) in inUse <==> Taken(items, PrintCidr(Subnet(pool, i))))
    ensures forall i: nat :: FirstFreeSubnet(inUse, pool, i) <==> LeastFreeSubnet(items, pool, i)
  {
    forall i: nat | i < 256 ensures PrintCidr(Subnet(pool, i)) in inUse <==> Taken(items, PrintCidr(Subnet(pool, i))) {
      PrintedNotEmpty(Subnet(pool, i));
    }
  }

  // An allocated VTEP CIDR is canonical, passes the operator's own validator and is
  // disjoint from every canonical /16 on the list.
  lemma VtepAnswerIsSound(items: seq<Registration>, p: Pool, cidr: string)
    requires VtepAnswer(Some(items), p, Ok(cidr))
    ensures IsCanonical(cidr) && ValidateVtepCidr(cidr, p) == None
    ensures forall c :: c in items && IsCanonical(c.vtepCidr) && ParseCidr(c.vtepCidr).value.len == 16 ==>
      Disjoint(ParseCidr(cidr).value, ParseCidr(c.vtepCidr).value)
  {
    var pool := ParseCidr(p.vtepPoolCidr).value;
    var i: nat :| LeastFreeSubnet(items, pool, i) && cidr == PrintCidr(Subnet(pool, i));
    SubnetFacts(pool, i);
    forall c | c in items && IsCanonical(c.vtepCidr) && ParseCidr(c.vtepCidr).value.len == 16
      ensures Disjoint(ParseCidr(cidr).value, ParseCidr(c.vtepCidr).value)
    {
      CanonicalDistinctIffDisjoint(cidr, c.vtepCidr);
    }
  }

  // AllocateASN: list, collect, search.
  method AllocateAsn(listed: Option<seq<Registration>>, p: Pool) returns (r: Result<int, Error>)
    requires INT32_MIN <= p.asnMin <= p.asnMax <= INT32_MAX
    ensures AsnAnswerOf(listed, p, r)
  {
    if listed == None {
      return Err(ListFailed);
    }
    var inUse := GetAllocatedAsns(listed.value);
    assert inUse == UsedAsns(listed.value);
    var found := FindNextAsn(inUse, p.asnMin, p.asnMax);
    r := if found.Some? then Ok(found.value) else Err(Exhausted);
  }

  // The user's value, if it is valid, or an allocated one.
  ghost predicate VtepChosen(sk: SkynetCr, p: Pool, listed: Option<seq<Registration>>, r: Result<string, Error>)
  {
    if sk.specVtep == "" then VtepAnswer(listed, p, r)
    else
      match ValidateVtepCidr(sk.specVtep, p)
      case None => r == Ok(sk.specVtep)
      case Some(error) => r == Err(error)
  }

  ghost predicate AsnChosen(sk: SkynetCr, p: Pool, listed: Option<seq<Registration>>, r: Result<int, Error>)
  {
    if sk.specAsn == 0 then AsnAnswerOf(listed, p, r)
    else
      match ValidateAsn(sk.specAsn, p)
      case None => r == Ok(sk.specAsn)
      case Some(error) => r == Err(error)
  }

  // ... and of both: what is in the status stays; otherwise each is chosen in turn,
  // the first error is the answer, and the pair must clash with nobody.
  ghost predicate Computed(sk: SkynetCr, p: Pool,
    forVtep: Option<seq<Registration>>, forAsn: Option<seq<Registration>>, forCheck: Option<seq<Registration>>,
    r: Result<(string, int), Error>)
  {
    if sk.statusVtep != "" && sk.statusAsn != 0 then r == Ok((sk.statusVtep, sk.statusAsn))
    else
      exists v ::
        && VtepChosen(sk, p, forVtep, v)
        && if v.Err? then r == Err(v.error) else ComputedWith(sk, p, v.value, forAsn, forCheck, r)
  }

  ghost predicate ComputedWith(sk: SkynetCr, p: Pool, vtep: string,
    forAsn: Option<seq<Registration>>, forCheck: Option<seq<Registration>>, r: Result<(string, int), Error>)
  {
    exists a ::
      && AsnChosen(sk, p, forAsn, a)
      && if a.Err? then r == Err(a.error) else Admitted(sk.clusterId, vtep, a.value, forCheck, r)
  }

  ghost predicate Admitted(
    clusterId: string, vtep: string, asn: int, forCheck: Option<seq<Registration>>, r: Result<(string, int), Error>)
  {
    if forCheck == None then r == Err(ListFailed)
    else
      && Checked(forCheck.value, clusterId, vtep, asn, if r.Ok? then None else Some(r.error))
      && (r.Ok? ==> r.value == (vtep, asn))
  }

  method ChooseVtep(sk: SkynetCr, p: Pool, listed: Option<seq<Registration>>) returns (r: Result<string, Error>)
    ensures VtepChosen(sk, p, listed, r)
  {
    if sk.specVtep == "" {
      r := AllocateVtepCidr(listed, p);
    } else {
      var refused := ValidateVtepCidr(sk.specVtep, p);
      r := if refused.Some? then Err(refused.value) else Ok(sk.specVtep);
    }
  }

  method ChooseAsn(sk: SkynetCr, p: Pool, listed: Option<seq<Registration>>) returns (r: Result<int, Error>)
    requires INT32_MIN <= p.asnMin <= p.asnMax <= INT32_MAX
    ensures AsnChosen(sk, p, listed, r)
  {
    if sk.specAsn == 0 {
      r := AllocateAsn(listed, p);
    } else {
      var refused := ValidateAsn(sk.specAsn, p);
      r := if refused.Some? then Err(refused.value) else Ok(sk.specAsn);
    }
  }

  // computeVtepAndASN. The broker is listed up to three times, and other
  // operators may publish in between, so each list is its own argument.
  method ComputeVtepAndAsn(sk: SkynetCr, p: Pool,
      forVtep: Option<seq<Registration>>, forAsn: Option<seq<Registration>>, forCheck: Option<seq<Registration>>)
    returns (r: Result<(string, int), Error>)
    requires INT32_MIN <= p.asnMin <= p.asnMax <= INT32_MAX
    ensures Computed(sk, p, forVtep, forAsn, forCheck, r)
  {
    if sk.statusVtep != "" && sk.statusAsn != 0 {
      return Ok((sk.statusVtep, sk.statusAsn));
    }
    var v := ChooseVtep(sk, p, forVtep);
    if v.Err? {
      return Err(v.error);
    }
    r := FinishWith(sk, p, v.value, forAsn, forCheck);
  }

  method FinishWith(
    sk: SkynetCr, p: Pool, vtep: string, forAsn: Option<seq<Registration>>, forCheck: Option<seq<Registration>>)
    returns (r: Result<(string, int), Error>)
    requires INT32_MIN <= p.asnMin <= p.asnMax <= INT32_MAX
    ensures ComputedWith(sk, p, vtep, forAsn, forCheck, r)
  {
    var a := ChooseAsn(sk, p, forAsn);
    if a.Err? {
      return Err(a.error);
    }
    if forCheck == None {
      return Err(ListFailed);
    }
    var taken := EnsureBrokerUnique(forCheck.value, sk.clusterId, vtep, a.value);
    r := if taken.Some? then Err(taken.value) else Ok((vtep, a.value));
    assert Admitted(sk.clusterId, vtep, a.value, forCheck, r);
  }

  // What a computed pair is worth: valid, canonical where it was allocated, the
  // user's where the user gave one, and clashing with nobody on the last list.
  lemma ComputedIsSound(sk: SkynetCr, p: Pool,
      forVtep: Option<seq<Registration>>, forAsn: Option<seq<Registration>>, forCheck: Option<seq<Registration>>,
      vtep: string, asn: int)
    requires INT32_MIN <= p.asnMin <= p.asnMax <= INT32_MAX
    requires Computed(sk, p, forVtep, forAsn, forCheck, Ok((vtep, asn))) && !(sk.statusVtep != "" && sk.statusAsn != 0)
    ensures sk.specVtep != "" ==> vtep == sk.specVtep
    ensures sk.specAsn != 0 ==> asn == sk.specAsn
    ensures ValidateVtepCidr(vtep, p) == None && (sk.specVtep == "" ==> IsCanonical(vtep))
    ensures sk.specAsn != 0 || p.asnMax < INT32_MAX ==> ValidateAsn(asn, p) == None
    ensures forCheck.Some? && forall c :: c in forCheck.value ==> !Clashes(c, sk.clusterId, vtep, asn)
  {
    if sk.specVtep == "" {
      VtepAnswerIsSound(forVtep.value, p, vtep);
    }
    if sk.specAsn == 0 {
      AsnSearchKeepsPromise(UsedAsns(forAsn.value), p, Some(asn));
    }
  }

  // The allocators look at every record on the broker, the cluster's own included
  // (only the final check skips it). So once a cluster's values are published,
  // computing them again after the status was lost gives the same values back
  // exactly when the user supplied both, they are still valid, and nobody else
  // has them; an allocated value is never allocated to its own cluster again.
  lemma RecomputingIsStableIff(sk: SkynetCr, p: Pool,
      forVtep: seq<Registration>, forAsn: seq<Registration>, forCheck: seq<Registration>, own: Registration)
    requires INT32_MIN <= p.asnMin <= p.asnMax <= INT32_MAX
    requires !(sk.statusVtep != "" && sk.statusAsn != 0)
    requires own in forVtep && own in forAsn && own.vtepCidr != "" && own.asn != 0
    ensures Computed(sk, p, Some(forVtep), Some(forAsn), Some(forCheck), Ok((own.vtepCidr, own.asn)))
       <==>
       && sk.specVtep == own.vtepCidr && sk.specAsn == own.asn
       && ValidateVtepCidr(own.vtepCidr, p) == None && ValidateAsn(own.asn, p) == None
       && forall c :: c in forCheck ==> !Clashes(c, sk.clusterId, own.vtepCidr, own.asn)
  {
    assert Taken(forVtep, own.vtepCidr) && own.asn in UsedAsns(forAsn);
    if sk.specVtep == own.vtepCidr && sk.specAsn == own.asn
      && ValidateVtepCidr(own.vtepCidr, p) == None && ValidateAsn(own.asn, p) == None
      && Checked(forCheck, sk.clusterId, own.vtepCidr, own.asn, None)
    {
      UserPairComputed(sk, p, forVtep, forAsn, forCheck);
    }
  }

  lemma UserPairComputed(
    sk: SkynetCr, p: Pool, forVtep: seq<Registration>, forAsn: seq<Registration>, forCheck: seq<Registration>)
    requires !(sk.statusVtep != "" && sk.statusAsn != 0) && sk.specVtep != "" && sk.specAsn != 0
    requires ValidateVtepCidr(sk.specVtep, p) == None && ValidateAsn(sk.specAsn, p) == None
    requires Checked(forCheck, sk.clusterId, sk.specVtep, sk.specAsn, None)
    ensures Computed(sk, p, Some(forVtep), Some(forAsn), Some(forCheck), Ok((sk.specVtep, sk.specAsn)))
  {
    assert AsnChosen(sk, p, Some(forAsn), Ok(sk.specAsn));
    assert ComputedWith(sk, p, sk.specVtep, Some(forAsn), Some(forCheck), Ok((sk.specVtep, sk.specAsn)));
    assert VtepChosen(sk, p, Some(forVtep), Ok(sk.specVtep));
  }
}
