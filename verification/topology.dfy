/**
  The topology builder: the etcd and postgres node lists, each indexed from 1,
  with per-index name and address overrides or deterministic defaults, and the
  comma-joined membership strings derived from them.
 */
module Topology {
  import opened Text
  import opened Settings

  /** The two node kinds: etcd members and postgres (Patroni) members. */
  datatype Kind = Etcd | Postgres

  /** One generated node: its 1-based index, service name and IPv4 address text. */
  datatype Node = Node(index: nat, name: string, ip: string)

  /** The first three parts of every default address. */
  const DefaultBlock := "172.25.0"
  /** The prefix default node addresses are built from. */
  const DefaultPrefix := DefaultBlock + "."
  /** Default first octets: etcd from .10, postgres from .100. */
  const EtcdStartKey := "ETCD_IP_START_OCTET"
  const PostgresStartKey := "PG_IP_START_OCTET"
  const DefaultEtcdStart := "10"
  const DefaultPostgresStart := "100"

  /** Prefix of the per-index override keys: `ETCD<i>_…` or `NODE<i>_…`. */
  function KeyPrefix(kind: Kind): string {
    match kind
    case Etcd => "ETCD"
    case Postgres => "NODE"
  }

  /** Prefix of the default service names: `etcd-NN` or `postgresql-NN`. */
  function NamePrefix(kind: Kind): string {
    match kind
    case Etcd => "etcd-"
    case Postgres => "postgresql-"
  }

  function NameKey(kind: Kind, i: nat): string {
    KeyPrefix(kind) + NatToString(i) + "_NAME"
  }

  function IpKey(kind: Kind, i: nat): string {
    KeyPrefix(kind) + NatToString(i) + "_IP"
  }

  /** `<kind>-NN`: the index zero-padded to at least two digits. */
  function DefaultName(kind: Kind, i: nat): string {
    NamePrefix(kind) + ZFill(NatToString(i), 2)
  }

  /** `172.25.0.(start + i - 1)`; nothing keeps the octet within 0..255. */
  function DefaultIp(start: int, i: nat): string {
    DefaultPrefix + IntToString(start + i - 1)
  }

  /** Python truthiness of `vars.get(key)`: the key is present and its value non-empty. */
  predicate IsSet(vars: map<string, string>, key: string) {
    key in vars && vars[key] != ""
  }

  /**
    Node `i` of a kind. The name override wins whenever its key is present, even
    with an empty value; the address override only when it is non-empty.
   */
  function MakeNode(vars: map<string, string>, kind: Kind, start: int, i: nat): (n: Node)
    ensures n.index == i
    ensures NameKey(kind, i) in vars ==> n.name == vars[NameKey(kind, i)]
    ensures NameKey(kind, i) !in vars ==> n.name == DefaultName(kind, i)
    ensures IsSet(vars, IpKey(kind, i)) ==> n.ip == vars[IpKey(kind, i)]
    ensures !IsSet(vars, IpKey(kind, i)) ==> n.ip == DefaultIp(start, i)
  {
    var name := Get(vars, NameKey(kind, i), DefaultName(kind, i));
    var ip := if IsSet(vars, IpKey(kind, i)) then vars[IpKey(kind, i)] else DefaultIp(start, i);
    Node(i, name, ip)
  }

  /**
    The nodes of one kind for `range(1, count + 1)`: exactly `count` nodes (none
    when the count is zero or negative), the k-th carrying index k + 1.
   */
  function BuildNodes(vars: map<string, string>, kind: Kind, count: int, start: int): (nodes: seq<Node>)
    ensures |nodes| == if count > 0 then count else 0
    ensures forall k :: 0 <= k < |nodes| ==> nodes[k].index == k + 1
    ensures forall k :: 0 <= k < |nodes| ==> nodes[k] == MakeNode(vars, kind, start, k + 1)
    decreases count
  {
    if count <= 0 then []
    else BuildNodes(vars, kind, count - 1, start) + [MakeNode(vars, kind, start, count)]
  }

  // ---------------------------------------------------------------------------
  // Uniqueness of the defaults
  // ---------------------------------------------------------------------------

  /** Distinct indices get distinct default names, past 99 as well. */
  lemma DefaultNamesDistinct(kind: Kind, i: nat, j: nat)
    requires i != j
    ensures DefaultName(kind, i) != DefaultName(kind, j)
  {
    var p := NamePrefix(kind);
    if DefaultName(kind, i) == DefaultName(kind, j) {
      assert DefaultName(kind, i)[|p|..] == ZFill(NatToString(i), 2);
      assert DefaultName(kind, j)[|p|..] == ZFill(NatToString(j), 2);
      ParseIntOfZFill(i, 2);
      ParseIntOfZFill(j, 2);
    }
  }

  /** Distinct octets give distinct default addresses. */
  lemma DefaultIpInjective(start1: int, i: nat, start2: int, j: nat)
    requires start1 + i != start2 + j
    ensures DefaultIp(start1, i) != DefaultIp(start2, j)
  {
    if DefaultIp(start1, i) == DefaultIp(start2, j) {
      var n := |DefaultPrefix|;
      assert DefaultIp(start1, i)[n..] == IntToString(start1 + i - 1);
      assert DefaultIp(start2, j)[n..] == IntToString(start2 + j - 1);
      IntToStringInjective(start1 + i - 1, start2 + j - 1);
    }
  }

  /**
    Without overrides the nodes of one kind have pairwise distinct names and
    pairwise distinct addresses.
   */
  lemma {:induction false} DefaultNodesDistinct(vars: map<string, string>, kind: Kind, count: int, start: int)
    requires forall i: nat :: 1 <= i <= count ==> NameKey(kind, i) !in vars && !IsSet(vars, IpKey(kind, i))
    ensures var nodes := BuildNodes(vars, kind, count, start);
      forall a, b :: 0 <= a < b < |nodes| ==> nodes[a].name != nodes[b].name && nodes[a].ip != nodes[b].ip
  {
    var nodes := BuildNodes(vars, kind, count, start);
    forall a, b | 0 <= a < b < |nodes|
      ensures nodes[a].name != nodes[b].name && nodes[a].ip != nodes[b].ip
    {
      DefaultMakeNodesDiffer(vars, kind, count, start, a + 1, b + 1);
    }
  }

  /** Two different indices without overrides give nodes differing in name and in address. */
  lemma DefaultMakeNodesDiffer(vars: map<string, string>, kind: Kind, count: int, start: int, i: nat, j: nat)
    requires forall i: nat :: 1 <= i <= count ==> NameKey(kind, i) !in vars && !IsSet(vars, IpKey(kind, i))
    requires 1 <= i < j <= count
    ensures MakeNode(vars, kind, start, i).name != MakeNode(vars, kind, start, j).name
    ensures MakeNode(vars, kind, start, i).ip != MakeNode(vars, kind, start, j).ip
  {
    NoOverrideAt(vars, kind, count, i);
    NoOverrideAt(vars, kind, count, j);
    DefaultNamesDistinct(kind, i, j);
    DefaultIpInjective(start, i, start, j);
  }

  /** The no-override assumption at one index. */
  lemma NoOverrideAt(vars: map<string, string>, kind: Kind, count: int, i: nat)
    requires forall i: nat :: 1 <= i <= count ==> NameKey(kind, i) !in vars && !IsSet(vars, IpKey(kind, i))
    requires 1 <= i <= count
    ensures NameKey(kind, i) !in vars && !IsSet(vars, IpKey(kind, i))
  {
  }

  /**
    Default etcd and postgres addresses never meet when the etcd octets end
    before the postgres ones begin (true of the defaults 10 and 100 for up to
    90 etcd nodes). Nothing in the generator checks this.
   */
  lemma DefaultRangesDisjoint(etcdStart: int, etcdCount: int, pgStart: int, i: nat, j: nat)
    requires 1 <= i <= etcdCount && 1 <= j
    requires etcdStart + etcdCount <= pgStart
    ensures DefaultIp(etcdStart, i) != DefaultIp(pgStart, j)
  {
    DefaultIpInjective(etcdStart, i, pgStart, j);
  }

  // ---------------------------------------------------------------------------
  // Derived membership strings
  // ---------------------------------------------------------------------------

  /** `name=https://ip:2380`, one entry of CLUSTER_NODES. */
  function ClusterEntry(n: Node): string {
    n.name + "=https://" + n.ip + ":2380"
  }

  /** `ip:2379`, one entry of ETCD_HOSTS. */
  function EtcdHostEntry(n: Node): string {
    n.ip + ":2379"
  }

  /** `name=http://ip:2380`, one entry of ETCD_INITIAL_CLUSTER. */
  function InitialClusterEntry(n: Node): string {
    n.name + "=http://" + n.ip + ":2380"
  }

  function ClusterEntries(pg: seq<Node>): seq<string> {
    seq(|pg|, k requires 0 <= k < |pg| => ClusterEntry(pg[k]))
  }

  function EtcdHostEntries(etcd: seq<Node>): seq<string> {
    seq(|etcd|, k requires 0 <= k < |etcd| => EtcdHostEntry(etcd[k]))
  }

  function InitialClusterEntries(etcd: seq<Node>): seq<string> {
    seq(|etcd|, k requires 0 <= k < |etcd| => InitialClusterEntry(etcd[k]))
  }

  /** CLUSTER_NODES: the postgres entries joined by commas. */
  function ClusterNodes(pg: seq<Node>): string {
    Join(',', ClusterEntries(pg))
  }

  /** ETCD_HOSTS: the etcd client endpoints joined by commas. */
  function EtcdHosts(etcd: seq<Node>): string {
    Join(',', EtcdHostEntries(etcd))
  }

  /** ETCD_INITIAL_CLUSTER: the etcd peer entries joined by commas. */
  function EtcdInitialCluster(etcd: seq<Node>): string {
    Join(',', InitialClusterEntries(etcd))
  }

  /** No name or address of the nodes holds a comma. */
  predicate CommaFree(nodes: seq<Node>) {
    forall k :: 0 <= k < |nodes| ==> ',' !in nodes[k].name && ',' !in nodes[k].ip
  }

  lemma CommaFreeConcat(a: string, b: string)
    requires ',' !in a && ',' !in b
    ensures ',' !in a + b
  {
  }

  lemma EntriesCommaFree(n: Node)
    requires ',' !in n.name && ',' !in n.ip
    ensures ',' !in ClusterEntry(n) && ',' !in EtcdHostEntry(n) && ',' !in InitialClusterEntry(n)
  {
    CommaFreeConcat(n.name, "=https://");
    CommaFreeConcat(n.name + "=https://", n.ip);
    CommaFreeConcat(n.name + "=https://" + n.ip, ":2380");
    CommaFreeConcat(n.ip, ":2379");
    CommaFreeConcat(n.name, "=http://");
    CommaFreeConcat(n.name + "=http://", n.ip);
    CommaFreeConcat(n.name + "=http://" + n.ip, ":2380");
  }

  /**
    Reading CLUSTER_NODES back field by field gives one entry per postgres node
    in node order, and the string holds exactly N - 1 commas.
   */
  lemma ClusterNodesFields(pg: seq<Node>)
    requires |pg| >= 1 && CommaFree(pg)
    ensures Split(ClusterNodes(pg), ',') == ClusterEntries(pg)
    ensures CountChar(ClusterNodes(pg), ',') == |pg| - 1
  {
    var entries := ClusterEntries(pg);
    forall k | 0 <= k < |entries|
      ensures ',' !in entries[k]
    {
      EntriesCommaFree(pg[k]);
    }
    SplitJoin(',', entries);
    JoinCount(',', entries);
  }

  /** The same for ETCD_HOSTS over the etcd nodes. */
  lemma EtcdHostsFields(etcd: seq<Node>)
    requires |etcd| >= 1 && CommaFree(etcd)
    ensures Split(EtcdHosts(etcd), ',') == EtcdHostEntries(etcd)
    ensures CountChar(EtcdHosts(etcd), ',') == |etcd| - 1
  {
    var entries := EtcdHostEntries(etcd);
    forall k | 0 <= k < |entries|
      ensures ',' !in entries[k]
    {
      EntriesCommaFree(etcd[k]);
    }
    SplitJoin(',', entries);
    JoinCount(',', entries);
  }

  /** The same for ETCD_INITIAL_CLUSTER over the etcd nodes. */
  lemma EtcdInitialClusterFields(etcd: seq<Node>)
    requires |etcd| >= 1 && CommaFree(etcd)
    ensures Split(EtcdInitialCluster(etcd), ',') == InitialClusterEntries(etcd)
    ensures CountChar(EtcdInitialCluster(etcd), ',') == |etcd| - 1
  {
    var entries := InitialClusterEntries(etcd);
    forall k | 0 <= k < |entries|
      ensures ',' !in entries[k]
    {
      EntriesCommaFree(etcd[k]);
    }
    SplitJoin(',', entries);
    JoinCount(',', entries);
  }

  /** With no nodes every derived string is empty. */
  lemma DerivedStringsOfNoNodes()
    ensures ClusterNodes([]) == "" && EtcdHosts([]) == "" && EtcdInitialCluster([]) == ""
  {
  }
}
