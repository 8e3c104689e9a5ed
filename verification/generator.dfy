/**
  The generator end to end: settings lines in, the node lists, the effective
  HAProxy address and both generated files out, or the error `int()` raises
  on the first setting that is not an integer.
 */
module Generator {
  import opened Wrappers
  import opened Text
  import opened Settings
  import opened Topology
  import opened Reconciler
  import opened ComposeEmitter
  import opened HaproxyEmitter

  /** `int()` rejected the text of a setting. */
  datatype Error = NotAnInteger(key: string, text: string)

  /**
    Everything one run produces. The two files' text is
    `ComposeText(compose)` and `HaproxyText(proxyConfig)`.
   */
  datatype Output = Output(
    etcd: seq<Node>,
    pg: seq<Node>,
    haproxyIp: string,
    compose: Compose,
    proxyConfig: ProxyConfig)

  /** The texts the four integer settings are read from, with their fallbacks. */
  function PostgresCountText(vars: map<string, string>): string {
    ResolveCountText(vars, PostgresCountKey)
  }

  function EtcdCountText(vars: map<string, string>): string {
    ResolveCountText(vars, EtcdCountKey)
  }

  function EtcdStartText(vars: map<string, string>): string {
    Get(vars, EtcdStartKey, DefaultEtcdStart)
  }

  function PostgresStartText(vars: map<string, string>): string {
    Get(vars, PostgresStartKey, DefaultPostgresStart)
  }

  /** Python's `int(text)` for the setting `key`. */
  function ReadInt(key: string, text: string): (r: Result<int, Error>)
    ensures r.Success? <==> ParseInt(text).Some?
    ensures r.Success? ==> Some(r.value) == ParseInt(text)
    ensures r.Failure? ==> r.error == NotAnInteger(key, text)
  {
    match ParseInt(text)
    case Some(v) => Success(v)
    case None => Failure(NotAnInteger(key, text))
  }

  /** All four integer settings read as integers. */
  predicate IntegersParse(vars: map<string, string>) {
    && ParseInt(PostgresCountText(vars)).Some?
    && ParseInt(EtcdCountText(vars)).Some?
    && ParseInt(EtcdStartText(vars)).Some?
    && ParseInt(PostgresStartText(vars)).Some?
  }

  /**
    The run once the four integers are read: both node lists, the effective
    HAProxy address, and both documents built from the same lists. There are
    as many nodes of each kind as configured (none for a count below one);
    HAProxy's address is the reconciled one, free unless its block is
    exhausted; the compose document and the server pools are built from the
    very node lists and address the output reports.
   */
  function Assemble(vars: map<string, string>, numPg: int, numEtcd: int, etcdStart: int, pgStart: int): (out: Output)
    ensures out.etcd == BuildNodes(vars, Etcd, numEtcd, etcdStart)
    ensures out.pg == BuildNodes(vars, Postgres, numPg, pgStart)
    ensures |out.pg| == (if numPg > 0 then numPg else 0)
    ensures |out.etcd| == (if numEtcd > 0 then numEtcd else 0)
    ensures out.haproxyIp == Reconcile(ConfiguredHaproxyIp(vars), UsedIps(out.pg, out.etcd))
    ensures var used := UsedIps(out.pg, out.etcd);
      out.haproxyIp !in used || BlockExhausted(BlockBase(ConfiguredHaproxyIp(vars)), used)
    ensures out.compose == BuildCompose(vars, out.pg, out.etcd, numEtcd, out.haproxyIp)
    ensures |out.compose.services| == |out.etcd| + |out.pg|
    ensures out.compose.proxy.ip == out.haproxyIp
    ensures out.compose.proxy.dependsOn == Names(out.pg)
    ensures out.proxyConfig == BuildProxyConfig(vars, out.pg)
    ensures |out.proxyConfig.rwServers| == |out.pg|
    ensures forall k :: 0 <= k < |out.pg| ==>
      out.proxyConfig.rwServers[k] == ServerLine(out.pg[k], PostgresPort(vars), PatroniPort(vars))
    ensures out.proxyConfig.roServers == out.proxyConfig.rwServers
  {
    var etcd := BuildNodes(vars, Etcd, numEtcd, etcdStart);
    var pg := BuildNodes(vars, Postgres, numPg, pgStart);
    var haproxyIp := Reconcile(ConfiguredHaproxyIp(vars), UsedIps(pg, etcd));
    Output(etcd, pg, haproxyIp, BuildCompose(vars, pg, etcd, numEtcd, haproxyIp), BuildProxyConfig(vars, pg))
  }

  /**
    One run from the settings dictionary. It fails exactly when an integer
    setting does not parse, naming the first such setting in the order the
    generator reads them (postgres count, etcd count, etcd start, postgres
    start); otherwise it assembles the output from the four integers read.
   */
  function GenerateFromSettings(vars: map<string, string>): (r: Result<Output, Error>)
    ensures r.Success? <==> IntegersParse(vars)
    ensures ParseInt(PostgresCountText(vars)).None? ==>
      r == Failure(NotAnInteger(PostgresCountKey, PostgresCountText(vars)))
    ensures ParseInt(PostgresCountText(vars)).Some? && ParseInt(EtcdCountText(vars)).None? ==>
      r == Failure(NotAnInteger(EtcdCountKey, EtcdCountText(vars)))
    ensures ParseInt(PostgresCountText(vars)).Some? && ParseInt(EtcdCountText(vars)).Some? && ParseInt(EtcdStartText(vars)).None? ==>
      r == Failure(NotAnInteger(EtcdStartKey, EtcdStartText(vars)))
    ensures (ParseInt(PostgresCountText(vars)).Some? && ParseInt(EtcdCountText(vars)).Some? && ParseInt(EtcdStartText(vars)).Some?
             && ParseInt(PostgresStartText(vars)).None?) ==>
      r == Failure(NotAnInteger(PostgresStartKey, PostgresStartText(vars)))
    ensures r.Success? ==>
      r.value == Assemble(vars, ParseInt(PostgresCountText(vars)).value, ParseInt(EtcdCountText(vars)).value,
                          ParseInt(EtcdStartText(vars)).value, ParseInt(PostgresStartText(vars)).value)
  {
    var numPg :- ReadInt(PostgresCountKey, PostgresCountText(vars));
    var numEtcd :- ReadInt(EtcdCountKey, EtcdCountText(vars));
    var etcdStart :- ReadInt(EtcdStartKey, EtcdStartText(vars));
    var pgStart :- ReadInt(PostgresStartKey, PostgresStartText(vars));
    Success(Assemble(vars, numPg, numEtcd, etcdStart, pgStart))
  }

  /** One run from the lines of the settings file. */
  function Generate(lines: seq<string>): (r: Result<Output, Error>)
    ensures r.Success? <==> IntegersParse(Parse(lines))
  {
    GenerateFromSettings(Parse(lines))
  }

  /** The addresses of a node list, in order. */
  function Ips(nodes: seq<Node>): (ips: seq<string>)
    ensures |ips| == |nodes|
  {
    seq(|nodes|, k requires 0 <= k < |nodes| => nodes[k].ip)
  }

  /** Three etcd and two postgres nodes, everything else at its default. */
  const ScenarioSettings: map<string, string> := map[EtcdCountKey := "3", PostgresCountKey := "2"]

  /** The one-digit renderings the scenario needs. */
  lemma SmallNumerals()
    ensures NatToString(2) == "2" && NatToString(3) == "3"
    ensures IntToString(2) == "2" && IntToString(3) == "3"
  {
    assert DigitChar(2) == '2' && DigitChar(3) == '3';
  }

  /** The etcd octets of the scenario, rendered. */
  lemma EtcdNumerals()
    ensures IntToString(10) == "10" && IntToString(11) == "11" && IntToString(12) == "12"
  {
    assert NatToString(1) == "1";
    assert NatToString(10) == NatToString(1) + [DigitChar(0)];
    assert NatToString(11) == NatToString(1) + [DigitChar(1)];
    assert NatToString(12) == NatToString(1) + [DigitChar(2)];
  }

  /** The postgres octets of the scenario, rendered. */
  lemma PostgresNumerals()
    ensures IntToString(100) == "100" && IntToString(101) == "101"
  {
    EtcdNumerals();
    assert NatToString(100) == NatToString(10) + [DigitChar(0)];
    assert NatToString(101) == NatToString(10) + [DigitChar(1)];
  }

  /** The four integer settings of the scenario read as 2, 3, 10 and 100. */
  lemma ScenarioIntegers()
    ensures ParseInt(PostgresCountText(ScenarioSettings)) == Some(2)
    ensures ParseInt(EtcdCountText(ScenarioSettings)) == Some(3)
    ensures ParseInt(EtcdStartText(ScenarioSettings)) == Some(10)
    ensures ParseInt(PostgresStartText(ScenarioSettings)) == Some(100)
  {
    var vars := ScenarioSettings;
    assert PostgresCountText(vars) == "2" && EtcdCountText(vars) == "3";
    assert EtcdStartText(vars) == "10" && PostgresStartText(vars) == "100";
    SmallNumerals();
    EtcdNumerals();
    PostgresNumerals();
    ParseIntOfIntToString(2);
    ParseIntOfIntToString(3);
    ParseIntOfIntToString(10);
    ParseIntOfIntToString(100);
  }

  /** No address override is set in the scenario: every such key ends in `P`, neither count key does. */
  lemma ScenarioNoIpOverride(kind: Kind, i: nat)
    ensures !IsSet(ScenarioSettings, IpKey(kind, i))
  {
    var key := IpKey(kind, i);
    assert key[|key| - 1] == 'P';
    assert EtcdCountKey[|EtcdCountKey| - 1] == 'R';
    assert PostgresCountKey[|PostgresCountKey| - 1] == 'R';
  }

  /** Node `k` of a scenario list sits at its default address. */
  lemma ScenarioIp(kind: Kind, count: int, start: int, k: nat)
    requires k < count
    ensures Ips(BuildNodes(ScenarioSettings, kind, count, start))[k] == DefaultPrefix + IntToString(start + k)
  {
    ScenarioNoIpOverride(kind, k + 1);
  }

  /** The etcd list of the scenario: three nodes from octet 10. */
  lemma ScenarioEtcdNodes(count: int, start: int)
    requires count == 3 && start == 10
    ensures Ips(BuildNodes(ScenarioSettings, Etcd, count, start)) == [DefaultPrefix + "10", DefaultPrefix + "11", DefaultPrefix + "12"]
  {
    var ips := Ips(BuildNodes(ScenarioSettings, Etcd, count, start));
    ScenarioIp(Etcd, count, start, 0);
    ScenarioIp(Etcd, count, start, 1);
    ScenarioIp(Etcd, count, start, 2);
    EtcdNumerals();
    assert ips == [ips[0], ips[1], ips[2]];
  }

  /** The postgres list of the scenario: two nodes from octet 100. */
  lemma ScenarioPostgresNodes(count: int, start: int)
    requires count == 2 && start == 100
    ensures Ips(BuildNodes(ScenarioSettings, Postgres, count, start)) == [DefaultPrefix + "100", DefaultPrefix + "101"]
  {
    var ips := Ips(BuildNodes(ScenarioSettings, Postgres, count, start));
    ScenarioIp(Postgres, count, start, 0);
    ScenarioIp(Postgres, count, start, 1);
    PostgresNumerals();
    assert ips == [ips[0], ips[1]];
  }

  /** The default block as its three dot-separated parts. */
  lemma DefaultBlockParts()
    ensures DefaultBlock == "172" + "." + "25" + "." + "0"
  {
    var q := "172" + "." + "25" + "." + "0";
    assert |q| == 8;
    assert q[0] == '1' && q[1] == '7' && q[2] == '2' && q[3] == '.';
    assert q[4] == '2' && q[5] == '5' && q[6] == '.' && q[7] == '0';
  }

  /** The default HAProxy address lies in the default block. */
  lemma DefaultHaproxyIpBlock()
    ensures BlockBase(DefaultHaproxyIp) == DefaultBlock
  {
    DefaultBlockParts();
    assert DefaultHaproxyIp == "172" + "." + "25" + "." + "0" + "." + "100";
    BlockBaseOfQuad("172", "25", "0", "100");
  }

  /**
    The default HAProxy address collides with the first postgres node; octet 2
    of the default block is free, so the address moves there.
   */
  lemma ScenarioReconcile(used: set<string>)
    requires used == {DefaultPrefix + "10", DefaultPrefix + "11", DefaultPrefix + "12", DefaultPrefix + "100", DefaultPrefix + "101"}
    ensures Reconcile(DefaultHaproxyIp, used) == DefaultPrefix + "2"
  {
    DefaultHaproxyIpBlock();
    SmallNumerals();
    var c := Candidate(DefaultBlock, 2);
    assert c == DefaultPrefix + "2";
    assert c !in used by {
      assert |c| == |DefaultPrefix| + 1;
    }
    assert DefaultHaproxyIp in used by {
      assert DefaultHaproxyIp == DefaultPrefix + "100";
    }
  }

  /** The used set of a two-node and a three-node list. */
  lemma UsedIpsOfFive(pg: seq<Node>, etcd: seq<Node>, p1: string, p2: string, e1: string, e2: string, e3: string)
    requires Ips(pg) == [p1, p2] && Ips(etcd) == [e1, e2, e3]
    ensures UsedIps(pg, etcd) == {e1, e2, e3, p1, p2}
  {
    assert Ips(etcd)[0] == etcd[0].ip && Ips(etcd)[1] == etcd[1].ip && Ips(etcd)[2] == etcd[2].ip;
    assert Ips(pg)[0] == pg[0].ip && Ips(pg)[1] == pg[1].ip;
  }

  /** `HAPROXY_IP` is not set in the scenario. */
  lemma ScenarioHaproxyIp()
    ensures ConfiguredHaproxyIp(ScenarioSettings) == DefaultHaproxyIp
  {
    var key := "HAPROXY_IP";
    assert key[0] == 'H' && EtcdCountKey[0] == 'N' && PostgresCountKey[0] == 'N';
    assert key !in ScenarioSettings;
  }

  /**
    With those settings etcd sits at .10 to .12 and postgres at .100 and .101
    of the default block; HAProxy's default .100 collides with the first
    postgres node and moves to .2, the lowest octet not in use.
   */
  lemma DefaultsScenario()
    ensures var r := GenerateFromSettings(ScenarioSettings);
      && r.Success?
      && Ips(r.value.etcd) == [DefaultPrefix + "10", DefaultPrefix + "11", DefaultPrefix + "12"]
      && Ips(r.value.pg) == [DefaultPrefix + "100", DefaultPrefix + "101"]
      && r.value.haproxyIp == DefaultPrefix + "2"
  {
    var vars := ScenarioSettings;
    ScenarioIntegers();
    var out := Assemble(vars, 2, 3, 10, 100);
    assert GenerateFromSettings(vars) == Success(out);
    ScenarioEtcdNodes(3, 10);
    ScenarioPostgresNodes(2, 100);
    UsedIpsOfFive(out.pg, out.etcd, DefaultPrefix + "100", DefaultPrefix + "101", DefaultPrefix + "10", DefaultPrefix + "11", DefaultPrefix + "12");
    ScenarioHaproxyIp();
    ScenarioReconcile(UsedIps(out.pg, out.etcd));
  }
}
