// pkg/operator/alloc/poolconfig.go and validate.go: pool bounds and validators.

module Pools {
  import opened Wrappers
  import opened Decimal
  import opened Text
  import opened Ipv4

  datatype Pool = Pool(
    asnMin: int, asnMax: int,
    vtepPoolCidr: string, vtepPrefixLen: int,
    vniMin: int, vniMax: int, routeTargetAsn: int)

  datatype Error =
    | Unparsable(key: string)
    | BadAsnRange
    | BadPrefixLen
    | BadVniRange
    | EmptyPool
    | BadCidr
    | WrongPrefixLen
    | OutsidePool
    | AsnOutOfRange
    | UnsupportedPool
    | Exhausted
    | VtepTaken(holder: string)
    | AsnTaken(holder: string)
    | ListFailed

  const DEFAULT_POOLS := Pool(64512, 65534, "100.0.0.0/8", 16, 5000, 10000, 65000)

  function Lookup(data: map<string, string>, key: string): string
  {
    TrimSpace(if key in data then data[key] else "")
  }

  // A key that is missing or blank keeps its default; any other value must parse.
  function IntField(data: map<string, string>, key: string, default: int, lo: int, hi: int): Option<int>
  {
    if Lookup(data, key) == "" then Some(default) else ParseInt(Lookup(data, key), lo, hi)
  }

  function UintField(data: map<string, string>, key: string, default: int): Option<int>
  {
    if Lookup(data, key) == "" then Some(default) else ParseUint(Lookup(data, key), UINT32_MAX)
  }

  // Every field is the default or the value written for it.
  predicate Reads(data: map<string, string>, p: Pool)
  {
    && IntField(data, "asnMin", DEFAULT_POOLS.asnMin, INT32_MIN, INT32_MAX) == Some(p.asnMin)
    && IntField(data, "asnMax", DEFAULT_POOLS.asnMax, INT32_MIN, INT32_MAX) == Some(p.asnMax)
    && p.vtepPoolCidr ==
       (if Lookup(data, "vtepPoolCIDR") == "" then DEFAULT_POOLS.vtepPoolCidr else Lookup(data, "vtepPoolCIDR"))
    && IntField(data, "vtepPrefixLen", DEFAULT_POOLS.vtepPrefixLen, INT64_MIN, INT64_MAX) == Some(p.vtepPrefixLen)
    && UintField(data, "vniMin", DEFAULT_POOLS.vniMin) == Some(p.vniMin)
    && UintField(data, "vniMax", DEFAULT_POOLS.vniMax) == Some(p.vniMax)
    && UintField(data, "routeTargetASN", DEFAULT_POOLS.routeTargetAsn) == Some(p.routeTargetAsn)
  }

  predicate Accepted(p: Pool)
  {
    p.asnMin <= p.asnMax && 8 <= p.vtepPrefixLen <= 30 && p.vniMin <= p.vniMax
  }

  method OverwriteInt(data: map<string, string>, key: string, current: int, lo: int, hi: int) returns (n: Option<int>)
    ensures n == IntField(data, key, current, lo, hi)
  {
    var v := Lookup(data, key);
    n := Some(current);
    if v != "" {
      n := ParseInt(v, lo, hi);
    }
  }

  method OverwriteUint(data: map<string, string>, key: string, current: int) returns (n: Option<int>)
    ensures n == UintField(data, key, current)
  {
    var v := Lookup(data, key);
    n := Some(current);
    if v != "" {
      n := ParseUint(v, UINT32_MAX);
    }
  }

  // poolsFromConfigMapData: the defaults, overwritten field by field.
  method PoolsFromConfigMapData(data: map<string, string>) returns (r: Result<Pool, Error>)
    ensures r.Ok? ==> Reads(data, r.value) && Accepted(r.value)
    ensures r.Err? ==> forall p :: !(Reads(data, p) && Accepted(p))
  {
    var p := DEFAULT_POOLS;
    var n: Option<int>;
    n := OverwriteInt(data, "asnMin", p.asnMin, INT32_MIN, INT32_MAX);
    if n == None { return Err(Unparsable("asnMin")); }
    p := p.(asnMin := n.value);
    n := OverwriteInt(data, "asnMax", p.asnMax, INT32_MIN, INT32_MAX);
    if n == None { return Err(Unparsable("asnMax")); }
    p := p.(asnMax := n.value);
    var v := Lookup(data, "vtepPoolCIDR");
    if v != "" { p := p.(vtepPoolCidr := v); }
    n := OverwriteInt(data, "vtepPrefixLen", p.vtepPrefixLen, INT64_MIN, INT64_MAX);
    if n == None { return Err(Unparsable("vtepPrefixLen")); }
    p := p.(vtepPrefixLen := n.value);
    n := OverwriteUint(data, "vniMin", p.vniMin);
    if n == None { return Err(Unparsable("vniMin")); }
    p := p.(vniMin := n.value);
    n := OverwriteUint(data, "vniMax", p.vniMax);
    if n == None { return Err(Unparsable("vniMax")); }
    p := p.(vniMax := n.value);
    n := OverwriteUint(data, "routeTargetASN", p.routeTargetAsn);
    if n == None { return Err(Unparsable("routeTargetASN")); }
    p := p.(routeTargetAsn := n.value);
    if p.asnMin > p.asnMax { return Err(BadAsnRange); }
    if p.vtepPrefixLen < 8 || p.vtepPrefixLen > 30 { return Err(BadPrefixLen); }
    if p.vniMin > p.vniMax { return Err(BadVniRange); }
    return Ok(p);
  }

  // What an accepted configuration gives the rest of the operator.
  lemma ReadsWellFormed(data: map<string, string>, p: Pool)
    requires Reads(data, p)
    ensures INT32_MIN <= p.asnMin <= INT32_MAX && INT32_MIN <= p.asnMax <= INT32_MAX
    ensures p.vtepPoolCidr != "" && Trimmed(p.vtepPoolCidr)
  {
    TrimSpaceFixes(if "vtepPoolCIDR" in data then data["vtepPoolCIDR"] else "");
  }

  // The defaults in numbers, and the bounds of what is accepted.
  lemma DefaultsAre()
    ensures DEFAULT_POOLS.asnMin == 64512 && DEFAULT_POOLS.asnMax == 65534
    ensures DEFAULT_POOLS.vtepPoolCidr == "100.0.0.0/8" && DEFAULT_POOLS.vtepPrefixLen == 16
    ensures DEFAULT_POOLS.vniMin == 5000 && DEFAULT_POOLS.vniMax == 10000 && DEFAULT_POOLS.routeTargetAsn == 65000
  {
  }

  lemma AcceptedIff(p: Pool)
    ensures Accepted(p) <==>
      p.asnMin <= p.asnMax && p.vtepPrefixLen >= 8 && p.vtepPrefixLen <= 30 && p.vniMin <= p.vniMax
  {
  }

  // A field that is missing or blank has its default; otherwise it is the signed
  // number written there, inside its width, or an error.
  lemma IntFieldIff(data: map<string, string>, key: string, default: int, lo: int, hi: int, n: int)
    ensures var text := TrimSpace(if key in data then data[key] else "");
      IntField(data, key, default, lo, hi) == Some(n) <==>
        if text == "" then n == default
        else lo <= n <= hi && Denotes(text, n)
  {
    ParseIntIff(TrimSpace(if key in data then data[key] else ""), lo, hi, n);
  }

  lemma UintFieldIff(data: map<string, string>, key: string, default: int, n: int)
    ensures var text := TrimSpace(if key in data then data[key] else "");
      UintField(data, key, default) == Some(n) <==>
        if text == "" then n == default else AllDigits(text) && n == Value(text) <= 0xFFFF_FFFF
  {
  }

  // Without a configuration the defaults are read, and they are accepted.
  lemma DefaultsRead()
    ensures Reads(map[], DEFAULT_POOLS) && Accepted(DEFAULT_POOLS)
  {
    assert Lookup(map[], "") == "";
  }

  // PoolsFromValues: what the agent rebuilds from its environment. The VNI
  // bounds are not passed on and stay zero.
  function PoolsFromValues(asnMin: int, asnMax: int, vtepPool: string, vtepPrefix: int): Result<Pool, Error>
  {
    if asnMin > asnMax then Err(BadAsnRange)
    else if vtepPool == "" then Err(EmptyPool)
    else if vtepPrefix < 8 || vtepPrefix > 30 then Err(BadPrefixLen)
    else Ok(Pool(asnMin, asnMax, vtepPool, vtepPrefix, 0, 0, 0))
  }

  lemma PoolsFromValuesIff(asnMin: int, asnMax: int, vtepPool: string, vtepPrefix: int)
    ensures var r := PoolsFromValues(asnMin, asnMax, vtepPool, vtepPrefix);
      && (r.Ok? <==> asnMin <= asnMax && vtepPool != "" && 8 <= vtepPrefix <= 30)
      && (r.Ok? ==> r.value == Pool(asnMin, asnMax, vtepPool, vtepPrefix, 0, 0, 0))
  {
  }

  // ValidateVtepCIDR: format, prefix length, and the written address in the pool.
  function ValidateVtepCidr(cidr: string, p: Pool): Option<Error>
  {
    match ParseCidr(cidr)
    case None => Some(BadCidr)
    case Some(c) =>
      if c.len != p.vtepPrefixLen then Some(WrongPrefixLen)
      else
        match ParseCidr(p.vtepPoolCidr)
        case None => Some(BadCidr)
        case Some(pool) => if Contains(pool, c.ip) then None else Some(OutsidePool)
  }

  function ValidateAsn(asn: int, p: Pool): Option<Error>
  {
    if asn < p.asnMin || asn > p.asnMax then Some(AsnOutOfRange) else None
  }

  // An accepted VTEP CIDR lies wholly inside the pool, although one address is
  // tested, exactly when the pool prefix is no longer than the required length.
  lemma AcceptedInsideIffPoolShorter(cidr: string, p: Pool)
    requires ValidateVtepCidr(cidr, p) == None
    ensures ParseCidr(cidr).Some? && ParseCidr(p.vtepPoolCidr).Some?
    ensures Inside(ParseCidr(cidr).value, ParseCidr(p.vtepPoolCidr).value)
       <==> ParseCidr(p.vtepPoolCidr).value.len <= p.vtepPrefixLen
  {
    InsideIffPoolShorter(ParseCidr(cidr).value, ParseCidr(p.vtepPoolCidr).value);
  }

  // For a pool prefix no longer than the required length, the validator accepts
  // exactly the CIDRs of that length that lie wholly inside the pool.
  lemma AcceptedIffInside(cidr: string, p: Pool)
    requires ParseCidr(p.vtepPoolCidr).Some? && ParseCidr(p.vtepPoolCidr).value.len <= p.vtepPrefixLen
    ensures ValidateVtepCidr(cidr, p) == None <==>
      && ParseCidr(cidr).Some? && ParseCidr(cidr).value.len == p.vtepPrefixLen
      && Inside(ParseCidr(cidr).value, ParseCidr(p.vtepPoolCidr).value)
  {
    if ParseCidr(cidr).Some? {
      var c := ParseCidr(cidr).value;
      NetworkContainsSame(c);
      if ValidateVtepCidr(cidr, p) == None {
        AcceptedInsideIffPoolShorter(cidr, p);
      }
    }
  }

  // Two accepted VTEP CIDRs share addresses exactly when masking gives the same
  // block; for canonical spellings, exactly when the strings are equal.
  lemma AcceptedOverlap(s: string, t: string, p: Pool)
    requires ValidateVtepCidr(s, p) == None && ValidateVtepCidr(t, p) == None
    ensures var c, d := ParseCidr(s).value, ParseCidr(t).value;
      && (Disjoint(c, d) <==> Network(c) != Network(d))
      && (IsCanonical(s) && IsCanonical(t) ==> (Disjoint(c, d) <==> s != t))
  {
    DisjointIffNetworksDiffer(ParseCidr(s).value, ParseCidr(t).value);
    if IsCanonical(s) && IsCanonical(t) {
      CanonicalDistinctIffDisjoint(s, t);
    }
  }

  // So the validator accepts, beside any CIDR, another spelling of the same value ...
  lemma AnotherSpellingAccepted(s: string, p: Pool) returns (t: string)
    requires ValidateVtepCidr(s, p) == None
    ensures t != s && ValidateVtepCidr(t, p) == None && ParseCidr(t) == ParseCidr(s)
  {
    t := LeadingZeroDefeatsStringComparison(s);
  }

  // ... and beside any canonical one an address with host bits of the same block.
  lemma HostBitsAccepted(s: string, p: Pool) returns (t: string)
    requires ValidateVtepCidr(s, p) == None && IsCanonical(s) && p.vtepPrefixLen < 32
    requires ParseCidr(p.vtepPoolCidr).value.len <= p.vtepPrefixLen
    ensures t != s && ValidateVtepCidr(t, p) == None
    ensures ParseCidr(t).value.ip != ParseCidr(s).value.ip && Network(ParseCidr(t).value) == Network(ParseCidr(s).value)
  {
    t := HostBitsDefeatStringComparison(s);
    AcceptedInsideIffPoolShorter(s, p);
    AcceptedIf(t, ParseCidr(t).value, ParseCidr(p.vtepPoolCidr).value, p);
  }

  lemma AcceptedIf(s: string, c: Cidr, pool: Cidr, p: Pool)
    requires ParseCidr(s) == Some(c) && ParseCidr(p.vtepPoolCidr) == Some(pool)
    requires c.len == p.vtepPrefixLen && Contains(pool, c.ip)
    ensures ValidateVtepCidr(s, p) == None
  {
  }
}
