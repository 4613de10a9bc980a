// IPv4 addresses and CIDRs as net.ParseCIDR and (*net.IPNet).String treat them
// (notation: section 3.1 of RFC 4632), and the address arithmetic behind
// pkg/operator/alloc/validate.go and vtep.go.

module Ipv4 {
  import opened Arithmetic
  import opened Wrappers
  import opened Decimal
  import opened Text

  const ADDRESSES: nat := 0x1_0000_0000

  // How many addresses share a prefix of this length.
  function Size(len: nat): (s: nat)
    requires len <= 32
    ensures s >= 1
  {
    Pow2(32 - len)
  }

  // ------------------------------------------------------------ addresses

  predicate IsOctets(o: seq<nat>)
  {
    |o| == 4 && forall i :: 0 <= i < 4 ==> o[i] < 256
  }

  function FromOctets(o: seq<nat>): (a: nat)
    requires IsOctets(o)
    ensures a < ADDRESSES
  {
    ((o[0] * 256 + o[1]) * 256 + o[2]) * 256 + o[3]
  }

  function ToOctets(a: nat): (o: seq<nat>)
    requires a < ADDRESSES
    ensures IsOctets(o) && FromOctets(o) == a
  {
    [a / 256 / 256 / 256, a / 256 / 256 % 256, a / 256 % 256, a % 256]
  }

  lemma OctetsUnique(o: seq<nat>)
    requires IsOctets(o)
    ensures ToOctets(FromOctets(o)) == o
  {
    var a := o[0] * 256 + o[1];
    LastDigit(o[0], o[1]);
    LastDigit(a, o[2]);
    LastDigit(a * 256 + o[2], o[3]);
    assert o == [o[0], o[1], o[2], o[3]];
  }

  // One octet: decimal, at most 255, no superfluous leading zero.
  predicate IsOctet(s: string)
  {
    Canonical(s) && Value(s) < 256
  }

  function ParseAddr(s: string): Option<nat>
  {
    var p := Split(s, '.');
    if |p| == 4 && IsOctet(p[0]) && IsOctet(p[1]) && IsOctet(p[2]) && IsOctet(p[3])
    then Some(FromOctets([Value(p[0]), Value(p[1]), Value(p[2]), Value(p[3])]))
    else None
  }

  function PrintOctets(o: seq<nat>): string
    requires IsOctets(o)
  {
    Join([PrintNat(o[0]), PrintNat(o[1]), PrintNat(o[2]), PrintNat(o[3])], '.')
  }

  function PrintAddr(a: nat): string
    requires a < ADDRESSES
  {
    PrintOctets(ToOctets(a))
  }

  lemma NumeralsHaveNo(n: nat, c: char)
    requires !IsDigit(c)
    ensures c !in PrintNat(n)
  {
    PrintNatCanonical(n);
  }

  lemma PrintedOctetsSplit(o: seq<nat>)
    requires IsOctets(o)
    ensures Split(PrintOctets(o), '.') == [PrintNat(o[0]), PrintNat(o[1]), PrintNat(o[2]), PrintNat(o[3])]
  {
    NumeralsHaveNo(o[0], '.');
    NumeralsHaveNo(o[1], '.');
    NumeralsHaveNo(o[2], '.');
    NumeralsHaveNo(o[3], '.');
    SplitJoin([PrintNat(o[0]), PrintNat(o[1]), PrintNat(o[2]), PrintNat(o[3])], '.');
  }

  // Parsing undoes printing ...
  lemma ParsePrintAddr(a: nat)
    requires a < ADDRESSES
    ensures ParseAddr(PrintAddr(a)) == Some(a)
  {
    var o := ToOctets(a);
    PrintedOctetsSplit(o);
    PrintNatCanonical(o[0]);
    PrintNatCanonical(o[1]);
    PrintNatCanonical(o[2]);
    PrintNatCanonical(o[3]);
    assert o == [o[0], o[1], o[2], o[3]];
  }

  // ... and printing undoes parsing: an address has one accepted spelling.
  lemma PrintParseAddr(s: string)
    requires ParseAddr(s).Some?
    ensures PrintAddr(ParseAddr(s).value) == s
  {
    var p := Split(s, '.');
    PrintOfValue(p[0]);
    PrintOfValue(p[1]);
    PrintOfValue(p[2]);
    PrintOfValue(p[3]);
    OctetsUnique([Value(p[0]), Value(p[1]), Value(p[2]), Value(p[3])]);
    assert p == [p[0], p[1], p[2], p[3]];
    JoinSplit(s, '.');
  }

  // ------------------------------------------------------------ CIDRs

  // The address as written, host bits included, and the prefix length.
  datatype Cidr = Cidr(ip: nat, len: nat)

  predicate WellFormed(c: Cidr)
  {
    c.ip < ADDRESSES && c.len <= 32
  }

  // The mask may have leading zeros; the address may have host bits.
  function ParseCidr(s: string): (r: Option<Cidr>)
    ensures r.Some? ==> WellFormed(r.value)
  {
    var p := Split(s, '/');
    if |p| == 2 && ParseAddr(p[0]).Some? && p[1] != [] && AllDigits(p[1]) && Value(p[1]) <= 32
    then Some(Cidr(ParseAddr(p[0]).value, Value(p[1])))
    else None
  }

  function PrintCidr(c: Cidr): string
    requires WellFormed(c)
  {
    PrintAddr(c.ip) + "/" + PrintNat(c.len)
  }

  lemma AddrHasNoSlash(a: nat)
    requires a < ADDRESSES
    ensures '/' !in PrintAddr(a)
  {
    var o := ToOctets(a);
    NumeralsHaveNo(o[0], '/');
    NumeralsHaveNo(o[1], '/');
    NumeralsHaveNo(o[2], '/');
    NumeralsHaveNo(o[3], '/');
    JoinHasNo([PrintNat(o[0]), PrintNat(o[1]), PrintNat(o[2]), PrintNat(o[3])], '.', '/');
  }

  lemma ParsePrintCidr(c: Cidr)
    requires WellFormed(c)
    ensures ParseCidr(PrintCidr(c)) == Some(c)
  {
    AddrHasNoSlash(c.ip);
    NumeralsHaveNo(c.len, '/');
    SplitPiece(PrintAddr(c.ip), PrintNat(c.len), '/');
    SplitWhole(PrintNat(c.len), '/');
    ParsePrintAddr(c.ip);
    PrintNatCanonical(c.len);
  }

  // ip.Mask(mask): the network with the host bits cleared.
  function Network(c: Cidr): (n: Cidr)
    requires WellFormed(c)
    ensures WellFormed(n) && n.len == c.len
  {
    RoundDown(c.ip, Size(c.len));
    Cidr(c.ip / Size(c.len) * Size(c.len), c.len)
  }

  // (*net.IPNet).Contains.
  predicate Contains(c: Cidr, ip: nat)
    requires WellFormed(c)
  {
    ip < ADDRESSES && ip / Size(c.len) == c.ip / Size(c.len)
  }

  ghost predicate Disjoint(c: Cidr, d: Cidr)
    requires WellFormed(c) && WellFormed(d)
  {
    forall ip :: !(Contains(c, ip) && Contains(d, ip))
  }

  ghost predicate Inside(c: Cidr, pool: Cidr)
    requires WellFormed(c) && WellFormed(pool)
  {
    forall ip :: Contains(c, ip) ==> Contains(pool, ip)
  }

  // The spelling (*net.IPNet).String gives: masked address, plain length.
  predicate IsCanonical(s: string)
  {
    ParseCidr(s).Some? && PrintCidr(Network(ParseCidr(s).value)) == s
  }

  lemma NetworkContainsSame(c: Cidr)
    requires WellFormed(c)
    ensures forall ip :: Contains(Network(c), ip) <==> Contains(c, ip)
    ensures Network(Network(c)) == Network(c)
    ensures Contains(c, c.ip) && Contains(c, Network(c).ip)
  {
    QuotientIs(Network(c).ip, Size(c.len), c.ip / Size(c.len), 0);
  }

  // Blocks of equal length are equal or disjoint, and which of the two their
  // masked spellings decide.
  lemma DisjointIffNetworksDiffer(c: Cidr, d: Cidr)
    requires WellFormed(c) && WellFormed(d) && c.len == d.len
    ensures Disjoint(c, d) <==> Network(c) != Network(d)
  {
    NetworkContainsSame(c);
    NetworkContainsSame(d);
    if Network(c) != Network(d) {
      assert c.ip / Size(c.len) != d.ip / Size(d.len);
    } else {
      assert Contains(c, Network(c).ip) && Contains(d, Network(c).ip);
    }
  }

  // The string comparison of the operators is exact on canonical spellings.
  lemma CanonicalDistinctIffDisjoint(s: string, t: string)
    requires IsCanonical(s) && IsCanonical(t) && ParseCidr(s).value.len == ParseCidr(t).value.len
    ensures s != t <==> Disjoint(ParseCidr(s).value, ParseCidr(t).value)
  {
    DisjointIffNetworksDiffer(ParseCidr(s).value, ParseCidr(t).value);
  }

  // On other spellings it is not: every canonical CIDR that leaves host bits has
  // another spelling (100.0.0.1/16 beside 100.0.0.0/16) of the same block.
  lemma HostBitsDefeatStringComparison(s: string) returns (t: string)
    requires IsCanonical(s) && ParseCidr(s).value.len < 32
    ensures t != s && ParseCidr(t).Some? && ParseCidr(t).value.len == ParseCidr(s).value.len
    ensures ParseCidr(t).value.ip != ParseCidr(s).value.ip
    ensures Contains(ParseCidr(s).value, ParseCidr(t).value.ip)
    ensures Network(ParseCidr(t).value) == Network(ParseCidr(s).value)
    ensures !Disjoint(ParseCidr(s).value, ParseCidr(t).value)
  {
    var c := ParseCidr(s).value;
    var n := Network(c);
    var d := Cidr(n.ip + 1, n.len);
    NetworkContainsSame(c);
    BlockFits(c.ip, c.len);
    assert Size(c.len) >= 2;
    QuotientIs(n.ip + 1, Size(c.len), c.ip / Size(c.len), 1);
    ParsePrintCidr(n);
    ParsePrintCidr(d);
    DisjointIffNetworksDiffer(c, d);
    t := PrintCidr(d);
  }

  // Nor are leading zeros in the prefix length refused: every CIDR that parses
  // has another spelling (100.0.0.0/016) of the same value.
  lemma LeadingZeroDefeatsStringComparison(s: string) returns (t: string)
    requires ParseCidr(s).Some?
    ensures t != s && ParseCidr(t) == ParseCidr(s)
  {
    var p := Split(s, '/');
    var padded := "0" + p[1];
    t := p[0] + ['/'] + padded;
    SplitPiece(p[0], padded, '/');
    SplitWhole(padded, '/');
    LeadingZero(p[1]);
    JoinSplit(s, '/');
    assert p[1..] == [p[1]];
    assert s == p[0] + ['/'] + p[1];
    assert |t| == |s| + 1;
  }

  // ------------------------------------------------------------ nesting

  lemma {:induction false} Pow2Split(a: nat, b: nat)
    ensures Pow2(a + b) == Pow2(a) * Pow2(b)
  {
    if a > 0 {
      Pow2Split(a - 1, b);
      assert Pow2(a) * Pow2(b) == 2 * (Pow2(a - 1) * Pow2(b));
    }
  }

  // One contained address is enough exactly when the pool prefix is no longer
  // than the subnet prefix.
  lemma InsideIffPoolShorter(c: Cidr, pool: Cidr)
    requires WellFormed(c) && WellFormed(pool) && Contains(pool, c.ip)
    ensures Inside(c, pool) <==> pool.len <= c.len
  {
    if pool.len <= c.len {
      var m, k := Size(c.len), Pow2(c.len - pool.len);
      SizeRatio(pool.len, c.len);
      forall ip | Contains(c, ip) ensures Contains(pool, ip) {
        DivideTwice(ip, m, k);
        DivideTwice(c.ip, m, k);
      }
    } else {
      LongerPoolMisses(c, pool);
    }
  }

  lemma InBlock(c: Cidr, offset: nat)
    requires WellFormed(c) && offset < Size(c.len)
    ensures Contains(c, Network(c).ip + offset)
  {
    BlockFits(c.ip, c.len);
    QuotientIs(Network(c).ip + offset, Size(c.len), c.ip / Size(c.len), offset);
  }

  lemma NotInside(c: Cidr, pool: Cidr, a: nat, b: nat)
    requires WellFormed(c) && WellFormed(pool) && Contains(c, a) && Contains(c, b)
    requires a / Size(pool.len) != b / Size(pool.len)
    ensures !Inside(c, pool)
  {
    assert !(Contains(pool, a) && Contains(pool, b));
  }

  // The first address of a block and the one a pool size further are both in the
  // block but not both in the longer pool.
  lemma LongerPoolMisses(c: Cidr, pool: Cidr)
    requires WellFormed(c) && WellFormed(pool) && c.len < pool.len
    ensures !Inside(c, pool)
  {
    PoolBoundaryInside(c, pool.len);
    InBlock(c, 0);
    InBlock(c, Size(pool.len));
    NotInside(c, pool, Network(c).ip, Network(c).ip + Size(pool.len));
  }

  lemma PoolBoundaryInside(c: Cidr, longer: nat)
    requires WellFormed(c) && c.len < longer <= 32
    ensures Size(longer) < Size(c.len)
    ensures Network(c).ip / Size(longer) != (Network(c).ip + Size(longer)) / Size(longer)
  {
    SizeRatio(c.len, longer);
    BoundaryInside(c.ip, Size(longer), Pow2(longer - c.len), Size(c.len));
  }

  lemma SizeRatio(shorter: nat, longer: nat)
    requires shorter <= longer <= 32
    ensures Size(shorter) == Size(longer) * Pow2(longer - shorter)
    ensures shorter < longer ==> Pow2(longer - shorter) >= 2
  {
    Pow2Split(32 - longer, longer - shorter);
    assert 32 - longer + (longer - shorter) == 32 - shorter;
  }

  lemma Pow2Of32()
    ensures Pow2(32) == ADDRESSES
  {
    assert Pow2(8) == 256;
    Pow2Split(8, 8);
    Pow2Split(16, 16);
  }

  // A block never runs over the end of the address space.
  lemma BlockFits(ip: nat, len: nat)
    requires ip < ADDRESSES && len <= 32
    ensures ip / Size(len) * Size(len) + Size(len) <= ADDRESSES
  {
    var m, k := Size(len), Pow2(len);
    Pow2Split(32 - len, len);
    Pow2Of32();
    assert m * k == ADDRESSES;
    BlockBelow(ip, m, k);
  }
}
