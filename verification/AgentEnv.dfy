// The operator-to-agent chain: pkg/operator/skynet/agent_resources.go prints the
// identifiers into environment variables, pkg/agent/bootstrap/env.go parses them
// back, and the agent checks them again before it registers.

module AgentEnv {
  import opened Wrappers
  import opened Decimal
  import opened Text
  import opened Ipv4
  import opened Pools
  import Allocators

  const CLUSTER_ID := "SKYNET_CLUSTER_ID"
  const BROKER_API_SERVER := "SKYNET_BROKER_API_SERVER"
  const BROKER_TOKEN := "SKYNET_BROKER_TOKEN"
  const BROKER_CA := "SKYNET_BROKER_CA"
  const BROKER_NAMESPACE := "SKYNET_BROKER_NAMESPACE"
  const BROKER_KUBECONFIG := "SKYNET_BROKER_KUBECONFIG"
  const ALLOCATED_VTEP_CIDR := "SKYNET_ALLOCATED_VTEP_CIDR"
  const ALLOCATED_ASN := "SKYNET_ALLOCATED_ASN"
  const POOL_ASN_MIN := "SKYNET_POOL_ASN_MIN"
  const POOL_ASN_MAX := "SKYNET_POOL_ASN_MAX"
  const POOL_VTEP_CIDR := "SKYNET_POOL_VTEP_CIDR"
  const POOL_VTEP_PREFIX_LEN := "SKYNET_POOL_VTEP_PREFIX_LEN"
  const DEFAULT_BROKER_NAMESPACE := "skynet-broker"

  // What the operator reads off the Skynet resource for the pod template.
  datatype Install = Install(clusterId: string, server: string, brokerNamespace: string, vtepCidr: string, asn: int)

  datatype EnvVar =
    | Literal(name: string, value: string)
    | FromSecret(name: string, key: string, optional: bool)

  // The environment list of newSkynetAgentPodTemplate, in its order.
  function PodEnv(sk: Install, p: Pool): seq<EnvVar>
  {
    [ Literal(CLUSTER_ID, sk.clusterId),
      Literal(BROKER_API_SERVER, sk.server),
      Literal(BROKER_NAMESPACE, if sk.brokerNamespace == "" then DEFAULT_BROKER_NAMESPACE else sk.brokerNamespace),
      FromSecret(BROKER_TOKEN, "token", false)]
    + [ Literal(ALLOCATED_VTEP_CIDR, sk.vtepCidr),
        Literal(ALLOCATED_ASN, PrintInt(sk.asn)),
        Literal(POOL_ASN_MIN, PrintInt(p.asnMin)),
        Literal(POOL_ASN_MAX, PrintInt(p.asnMax)),
        Literal(POOL_VTEP_CIDR, p.vtepPoolCidr),
        Literal(POOL_VTEP_PREFIX_LEN, PrintInt(p.vtepPrefixLen))]
    + [FromSecret(BROKER_CA, "ca.crt", true)]
  }

  // os.Getenv inside the container; a secret key that is absent leaves the variable unset.
  function Getenv(env: seq<EnvVar>, secret: map<string, string>, name: string): string
  {
    if env == [] then ""
    else
      var e := env[|env| - 1];
      if e.name != name then Getenv(env[..|env| - 1], secret, name)
      else
        match e
        case Literal(_, value) => value
        case FromSecret(_, key, _) => if key in secret then secret[key] else ""
  }

  datatype FromEnvironment = FromEnvironment(
    clusterId: string, brokerApiServer: string, brokerToken: string, brokerCa: string,
    brokerNamespace: string, brokerKubeconfigPath: string,
    allocatedVtepCidr: string, allocatedAsn: int,
    poolAsnMin: int, poolAsnMax: int, poolVtepCidr: string, poolVtepPrefixLen: int)

  // A blank or unparsable number is silently left at zero.
  function NumberOrZero(s: string, lo: int, hi: int): int
  {
    var parsed := ParseInt(TrimSpace(s), lo, hi);
    if TrimSpace(s) != "" && parsed.Some? then parsed.value else 0
  }

  function Parsed(env: seq<EnvVar>, secret: map<string, string>): FromEnvironment
  {
    var ns := TrimSpace(Getenv(env, secret, BROKER_NAMESPACE));
    FromEnvironment(
      TrimSpace(Getenv(env, secret, CLUSTER_ID)),
      TrimSpace(Getenv(env, secret, BROKER_API_SERVER)),
      TrimSpace(Getenv(env, secret, BROKER_TOKEN)),
      Getenv(env, secret, BROKER_CA),
      if ns == "" then DEFAULT_BROKER_NAMESPACE else ns,
      TrimSpace(Getenv(env, secret, BROKER_KUBECONFIG)),
      TrimSpace(Getenv(env, secret, ALLOCATED_VTEP_CIDR)),
      NumberOrZero(Getenv(env, secret, ALLOCATED_ASN), INT32_MIN, INT32_MAX),
      NumberOrZero(Getenv(env, secret, POOL_ASN_MIN), INT32_MIN, INT32_MAX),
      NumberOrZero(Getenv(env, secret, POOL_ASN_MAX), INT32_MIN, INT32_MAX),
      TrimSpace(Getenv(env, secret, POOL_VTEP_CIDR)),
      NumberOrZero(Getenv(env, secret, POOL_VTEP_PREFIX_LEN), INT64_MIN, INT64_MAX))
  }

  method LoadNumber(env: seq<EnvVar>, secret: map<string, string>, name: string, lo: int, hi: int) returns (n: int)
    ensures n == NumberOrZero(Getenv(env, secret, name), lo, hi)
  {
    n := 0;
    var s := TrimSpace(Getenv(env, secret, name));
    if s != "" {
      var v := ParseInt(s, lo, hi);
      if v.Some? {
        n := v.value;
      }
    }
  }

  // LoadEnv: the struct is filled field by field.
  method LoadEnv(env: seq<EnvVar>, secret: map<string, string>) returns (out: FromEnvironment)
    ensures out == Parsed(env, secret)
  {
    out := FromEnvironment(
      TrimSpace(Getenv(env, secret, CLUSTER_ID)),
      TrimSpace(Getenv(env, secret, BROKER_API_SERVER)),
      TrimSpace(Getenv(env, secret, BROKER_TOKEN)),
      Getenv(env, secret, BROKER_CA),
      TrimSpace(Getenv(env, secret, BROKER_NAMESPACE)),
      TrimSpace(Getenv(env, secret, BROKER_KUBECONFIG)),
      TrimSpace(Getenv(env, secret, ALLOCATED_VTEP_CIDR)),
      0, 0, 0, "", 0);
    if out.brokerNamespace == "" {
      out := out.(brokerNamespace := DEFAULT_BROKER_NAMESPACE);
    }
    var n := LoadNumber(env, secret, ALLOCATED_ASN, INT32_MIN, INT32_MAX);
    out := out.(allocatedAsn := n);
    n := LoadNumber(env, secret, POOL_ASN_MIN, INT32_MIN, INT32_MAX);
    out := out.(poolAsnMin := n);
    n := LoadNumber(env, secret, POOL_ASN_MAX, INT32_MIN, INT32_MAX);
    out := out.(poolAsnMax := n);
    out := out.(poolVtepCidr := TrimSpace(Getenv(env, secret, POOL_VTEP_CIDR)));
    n := LoadNumber(env, secret, POOL_VTEP_PREFIX_LEN, INT64_MIN, INT64_MAX);
    out := out.(poolVtepPrefixLen := n);
  }

  predicate HasPreallocatedNetwork(e: FromEnvironment)
  {
    e.allocatedVtepCidr != "" && e.allocatedAsn != 0
  }

  predicate HasBrokerPoolEnv(e: FromEnvironment)
  {
    e.poolAsnMin != 0 && e.poolAsnMax != 0 && e.poolVtepCidr != "" && e.poolVtepPrefixLen != 0
  }

  // The checks between the start of the agent process and its registration
  // (cmd/agent/main.go:54-72, pkg/agent/agent.go:282-291).
  predicate AgentAccepts(e: FromEnvironment)
  {
    && e.clusterId != ""
    && HasPreallocatedNetwork(e) && HasBrokerPoolEnv(e)
    && var pools := PoolsFromValues(e.poolAsnMin, e.poolAsnMax, e.poolVtepCidr, e.poolVtepPrefixLen);
       && pools.Ok?
       && ValidateVtepCidr(e.allocatedVtepCidr, pools.value) == None
       && ValidateAsn(e.allocatedAsn, pools.value) == None
  }

  // ------------------------------------------------------------ the round trip

  lemma PrintedNumberLoads(v: int, lo: int, hi: int)
    requires lo <= v <= hi
    ensures NumberOrZero(PrintInt(v), lo, hi) == v
  {
    ParsePrintInt(v, lo, hi);
    PrintIntChars(v);
    TrimSpaceFixes(PrintInt(v));
  }

  // One variable of the list, read back.
  lemma Variables(sk: Install, p: Pool, secret: map<string, string>)
    ensures var env := PodEnv(sk, p);
      && Getenv(env, secret, CLUSTER_ID) == sk.clusterId
      && Getenv(env, secret, BROKER_API_SERVER) == sk.server
      && Getenv(env, secret, BROKER_NAMESPACE) == (if sk.brokerNamespace == "" then "skynet-broker" else sk.brokerNamespace)
      && Getenv(env, secret, ALLOCATED_VTEP_CIDR) == sk.vtepCidr
      && Getenv(env, secret, ALLOCATED_ASN) == PrintInt(sk.asn)
      && Getenv(env, secret, POOL_ASN_MIN) == PrintInt(p.asnMin)
      && Getenv(env, secret, POOL_ASN_MAX) == PrintInt(p.asnMax)
      && Getenv(env, secret, POOL_VTEP_CIDR) == p.vtepPoolCidr
      && Getenv(env, secret, POOL_VTEP_PREFIX_LEN) == PrintInt(p.vtepPrefixLen)
  {
    var env := PodEnv(sk, p);
    forall i, name | 0 <= i < |env| && name == env[i].name ensures GetenvAt(env, secret, name, i) {
      DistinctNames(sk, p);
      GetenvOf(env, secret, i);
    }
    assert env[1].name == BROKER_API_SERVER && env[2].name == BROKER_NAMESPACE;
    assert GetenvAt(env, secret, BROKER_API_SERVER, 1) && GetenvAt(env, secret, BROKER_NAMESPACE, 2);
    assert env[0].name == CLUSTER_ID && env[4].name == ALLOCATED_VTEP_CIDR && env[5].name == ALLOCATED_ASN;
    assert env[6].name == POOL_ASN_MIN && env[7].name == POOL_ASN_MAX;
    assert env[8].name == POOL_VTEP_CIDR && env[9].name == POOL_VTEP_PREFIX_LEN;
    assert GetenvAt(env, secret, CLUSTER_ID, 0) && GetenvAt(env, secret, ALLOCATED_VTEP_CIDR, 4);
    assert GetenvAt(env, secret, ALLOCATED_ASN, 5) && GetenvAt(env, secret, POOL_ASN_MIN, 6);
    assert GetenvAt(env, secret, POOL_ASN_MAX, 7) && GetenvAt(env, secret, POOL_VTEP_CIDR, 8);
    assert GetenvAt(env, secret, POOL_VTEP_PREFIX_LEN, 9);
  }

  ghost predicate GetenvAt(env: seq<EnvVar>, secret: map<string, string>, name: string, i: nat)
    requires i < |env|
  {
    env[i].Literal? ==> Getenv(env, secret, name) == env[i].value
  }

  predicate NamesDistinct(env: seq<EnvVar>)
  {
    forall i, j :: 0 <= i < j < |env| ==> env[i].name != env[j].name
  }

  const NAMES := [CLUSTER_ID, BROKER_API_SERVER, BROKER_NAMESPACE, BROKER_TOKEN, ALLOCATED_VTEP_CIDR, ALLOCATED_ASN,
                  POOL_ASN_MIN, POOL_ASN_MAX, POOL_VTEP_CIDR, POOL_VTEP_PREFIX_LEN, BROKER_CA]

  lemma EnvNames(sk: Install, p: Pool)
    ensures var env := PodEnv(sk, p); |env| == |NAMES| && forall i :: 0 <= i < |env| ==> env[i].name == NAMES[i]
  {
  }

  lemma NameLengths()
    ensures |CLUSTER_ID| == 17 && |BROKER_API_SERVER| == 24 && |BROKER_NAMESPACE| == 23 && |BROKER_TOKEN| == 19
    ensures |ALLOCATED_VTEP_CIDR| == 26 && |ALLOCATED_ASN| == 20 && |POOL_ASN_MIN| == 19 && |POOL_ASN_MAX| == 19
    ensures |POOL_VTEP_CIDR| == 21 && |POOL_VTEP_PREFIX_LEN| == 27 && |BROKER_CA| == 16
    ensures BROKER_TOKEN[7] == 'B' && POOL_ASN_MIN[7] == 'P' && POOL_ASN_MAX[7] == 'P'
    ensures POOL_ASN_MIN[17] == 'I' && POOL_ASN_MAX[17] == 'A'
  {
  }

  lemma ListedNamesDistinct()
    ensures forall i, j :: 0 <= i < j < |NAMES| ==> NAMES[i] != NAMES[j]
  {
    NameLengths();
  }

  lemma DistinctNames(sk: Install, p: Pool)
    ensures NamesDistinct(PodEnv(sk, p))
  {
    EnvNames(sk, p);
    ListedNamesDistinct();
  }

  lemma {:induction false} GetenvOf(env: seq<EnvVar>, secret: map<string, string>, i: nat)
    requires i < |env| && NamesDistinct(env)
    ensures GetenvAt(env, secret, env[i].name, i)
  {
    if i < |env| - 1 {
      assert env[i].name != env[|env| - 1].name;
      GetenvOf(env[..|env| - 1], secret, i);
    }
  }

  // Print to environment, parse from environment: the same values come back, for
  // every int32 ASN and bound and every trimmed CIDR text.
  lemma EnvRoundTrip(sk: Install, p: Pool, secret: map<string, string>)
    requires INT32_MIN <= sk.asn <= INT32_MAX
    requires INT32_MIN <= p.asnMin <= INT32_MAX && INT32_MIN <= p.asnMax <= INT32_MAX
    requires INT64_MIN <= p.vtepPrefixLen <= INT64_MAX
    requires Trimmed(sk.vtepCidr) && Trimmed(p.vtepPoolCidr)
    ensures var e := Parsed(PodEnv(sk, p), secret);
      && e.allocatedVtepCidr == sk.vtepCidr && e.allocatedAsn == sk.asn
      && e.poolAsnMin == p.asnMin && e.poolAsnMax == p.asnMax
      && e.poolVtepCidr == p.vtepPoolCidr && e.poolVtepPrefixLen == p.vtepPrefixLen
      && e.clusterId == TrimSpace(sk.clusterId)
  {
    Variables(sk, p, secret);
    PrintedNumberLoads(sk.asn, INT32_MIN, INT32_MAX);
    PrintedNumberLoads(p.asnMin, INT32_MIN, INT32_MAX);
    PrintedNumberLoads(p.asnMax, INT32_MIN, INT32_MAX);
    PrintedNumberLoads(p.vtepPrefixLen, INT64_MIN, INT64_MAX);
    TrimSpaceFixes(sk.vtepCidr);
    TrimSpaceFixes(p.vtepPoolCidr);
  }

  // The broker's address and namespace, the namespace by default skynet-broker.
  lemma BrokerArrives(sk: Install, p: Pool, secret: map<string, string>)
    ensures var e := Parsed(PodEnv(sk, p), secret);
      && e.brokerApiServer == TrimSpace(sk.server)
      && e.brokerNamespace == if TrimSpace(sk.brokerNamespace) == "" then "skynet-broker" else TrimSpace(sk.brokerNamespace)
  {
    Variables(sk, p, secret);
    TrimSpaceFixes("skynet-broker");
    assert Trimmed("skynet-broker") && TrimSpace("") == "";
  }

  // The token and the CA come from the secret, the CA as it is; what is not in the
  // list or not in the secret is empty.
  lemma SecretsArrive(sk: Install, p: Pool, secret: map<string, string>)
    ensures var e := Parsed(PodEnv(sk, p), secret);
      && e.brokerToken == TrimSpace(if "token" in secret then secret["token"] else "")
      && e.brokerCa == (if "ca.crt" in secret then secret["ca.crt"] else "")
      && e.brokerKubeconfigPath == ""
  {
    var env := PodEnv(sk, p);
    DistinctNames(sk, p);
    EnvNames(sk, p);
    assert env[3].name == BROKER_TOKEN && env[10].name == BROKER_CA;
    GetenvSecret(env, secret, 3);
    GetenvSecret(env, secret, 10);
    NoKubeconfig();
    GetenvMissing(env, secret, BROKER_KUBECONFIG);
  }

  lemma NoKubeconfig()
    ensures forall i :: 0 <= i < |NAMES| ==> NAMES[i] != BROKER_KUBECONFIG
  {
    NameLengths();
    assert |BROKER_KUBECONFIG| == 24 && BROKER_KUBECONFIG[14] == 'K' && BROKER_API_SERVER[14] == 'A';
  }

  lemma {:induction false} GetenvSecret(env: seq<EnvVar>, secret: map<string, string>, i: nat)
    requires i < |env| && NamesDistinct(env) && env[i].FromSecret?
    ensures Getenv(env, secret, env[i].name) == if env[i].key in secret then secret[env[i].key] else ""
  {
    if i < |env| - 1 {
      assert env[i].name != env[|env| - 1].name;
      GetenvSecret(env[..|env| - 1], secret, i);
    }
  }

  lemma {:induction false} GetenvMissing(env: seq<EnvVar>, secret: map<string, string>, name: string)
    requires forall i :: 0 <= i < |env| ==> env[i].name != name
    ensures Getenv(env, secret, name) == ""
  {
    if env != [] {
      GetenvMissing(env[..|env| - 1], secret, name);
    }
  }

  // A CIDR that parses starts and ends with a digit, so trimming leaves it alone.
  lemma CidrTrimmed(s: string)
    requires ParseCidr(s).Some?
    ensures s != "" && Trimmed(s)
  {
    var p := Split(s, '/');
    JoinSplit(s, '/');
    assert p[1..] == [p[1]];
    assert s == p[0] + ['/'] + p[1];
    var o := Split(p[0], '.');
    JoinSplit(p[0], '.');
    assert p[0][0] == o[0][0];
    assert IsDigit(s[0]) && IsDigit(s[|s| - 1]);
  }

  // The agent's checks on values that arrived as they were sent.
  lemma AcceptsIffNonzero(e: FromEnvironment, p: Pool, vtep: string, asn: int)
    requires Accepted(p) && p.vtepPoolCidr != "" && vtep != ""
    requires ValidateVtepCidr(vtep, p) == None && ValidateAsn(asn, p) == None
    requires e.allocatedVtepCidr == vtep && e.allocatedAsn == asn
    requires e.poolAsnMin == p.asnMin && e.poolAsnMax == p.asnMax
    requires e.poolVtepCidr == p.vtepPoolCidr && e.poolVtepPrefixLen == p.vtepPrefixLen
    ensures AgentAccepts(e) <==> p.asnMin != 0 && p.asnMax != 0 && asn != 0 && e.clusterId != ""
  {
    var q := Pool(p.asnMin, p.asnMax, p.vtepPoolCidr, p.vtepPrefixLen, 0, 0, 0);
    assert PoolsFromValues(e.poolAsnMin, e.poolAsnMax, e.poolVtepCidr, e.poolVtepPrefixLen) == Ok(q);
    assert ValidateVtepCidr(vtep, q) == ValidateVtepCidr(vtep, p);
  }

  // The agent's checks by themselves, for a pool prefix no longer than the subnet's.
  lemma AgentAcceptsIff(e: FromEnvironment, pool: Cidr)
    requires ParseCidr(e.poolVtepCidr) == Some(pool) && pool.len <= e.poolVtepPrefixLen
    ensures AgentAccepts(e) <==>
      && e.clusterId != "" && e.poolAsnMin != 0 && e.poolAsnMax != 0 && e.allocatedAsn != 0
      && e.poolAsnMin <= e.allocatedAsn <= e.poolAsnMax && 8 <= e.poolVtepPrefixLen <= 30
      && ParseCidr(e.allocatedVtepCidr).Some? && ParseCidr(e.allocatedVtepCidr).value.len == e.poolVtepPrefixLen
      && Inside(ParseCidr(e.allocatedVtepCidr).value, pool)
  {
    CidrTrimmed(e.poolVtepCidr);
    if ParseCidr(e.allocatedVtepCidr).Some? {
      CidrTrimmed(e.allocatedVtepCidr);
    }
    AcceptedIffInside(
      e.allocatedVtepCidr, Pool(e.poolAsnMin, e.poolAsnMax, e.poolVtepCidr, e.poolVtepPrefixLen, 0, 0, 0));
  }

  // The whole chain: for pools the operator accepted and identifiers it
  // validated, the agent starts exactly when neither ASN bound nor the ASN is
  // zero and the cluster ID is not blank. (A pool with a bound of zero is accepted
  // by the operator and then refused by every agent.)
  lemma AgentAcceptsIffNonzero(data: map<string, string>, p: Pool, sk: Install, secret: map<string, string>)
    requires Reads(data, p) && Accepted(p)
    requires ValidateVtepCidr(sk.vtepCidr, p) == None && ValidateAsn(sk.asn, p) == None
    ensures AgentAccepts(Parsed(PodEnv(sk, p), secret))
       <==> p.asnMin != 0 && p.asnMax != 0 && sk.asn != 0 && TrimSpace(sk.clusterId) != ""
  {
    ReadsWellFormed(data, p);
    CidrTrimmed(sk.vtepCidr);
    EnvRoundTrip(sk, p, secret);
    AcceptsIffNonzero(Parsed(PodEnv(sk, p), secret), p, sk.vtepCidr, sk.asn);
  }

  lemma DefaultPoolParses()
    ensures ParseCidr(DEFAULT_POOLS.vtepPoolCidr) == Some(Cidr(0x6400_0000, 8))
  {
    assert ToOctets(0x6400_0000) == [100, 0, 0, 0];
    assert PrintNat(100) == "100" && PrintNat(0) == "0" && PrintNat(8) == "8";
    var words := ["100", "0", "0", "0"];
    assert words[1..] == ["0", "0", "0"] && words[1..][1..] == ["0", "0"] && words[1..][1..][1..] == ["0"];
    assert Join(words, '.') == "100.0.0.0";
    assert PrintOctets([100, 0, 0, 0]) == "100.0.0.0";
    assert PrintCidr(Cidr(0x6400_0000, 8)) == "100.0.0.0/8";
    ParsePrintCidr(Cidr(0x6400_0000, 8));
  }

  // Out of the box: without any configured pools, every VTEP CIDR and ASN that the
  // operator can allocate is one its agent accepts.
  lemma DefaultsAgree(sk: Install, secret: map<string, string>, i: nat)
    requires i < 256 && sk.vtepCidr == PrintCidr(Allocators.Subnet(Cidr(0x6400_0000, 8), i))
    requires 64512 <= sk.asn <= 65534 && TrimSpace(sk.clusterId) != ""
    ensures Allocators.Supported(DEFAULT_POOLS)
    ensures AgentAccepts(Parsed(PodEnv(sk, DEFAULT_POOLS), secret))
  {
    DefaultPoolParses();
    Allocators.SubnetFacts(Cidr(0x6400_0000, 8), i);
    DefaultsRead();
    AgentAcceptsIffNonzero(map[], DEFAULT_POOLS, sk, secret);
  }
}
