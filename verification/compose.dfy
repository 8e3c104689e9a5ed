/**
  The docker-compose emitter: the document as records (network subnet,
  declared volumes, one service per node, the HAProxy service) and their
  rendering as the YAML lines the generator joins with newlines.
 */
module ComposeEmitter {
  import opened Wrappers
  import opened Text
  import opened Settings
  import opened Topology

  /** A published port, rendered `- "host:container"`. */
  datatype PortMapping = PortMapping(host: string, container: string)

  /** One environment entry, rendered `- NAME=value`. */
  datatype EnvVar = EnvVar(name: string, value: string)

  /** The service of one etcd or postgres node. */
  datatype Service = Service(
    kind: Kind,
    name: string,
    ip: string,
    ports: seq<PortMapping>,
    environment: seq<EnvVar>,
    volume: string)

  /** The HAProxy service. */
  datatype ProxyService = ProxyService(name: string, ip: string, ports: seq<PortMapping>, dependsOn: seq<string>)

  /** The whole compose document. */
  datatype Compose = Compose(subnet: string, volumes: seq<string>, services: seq<Service>, proxy: ProxyService)

  // ---------------------------------------------------------------------------
  // Per-node pieces
  // ---------------------------------------------------------------------------

  /** Host-port override keys: client and peer for etcd, postgres and Patroni for postgres. */
  function FirstPortKey(kind: Kind, i: nat): string {
    match kind
    case Etcd => "ETCD" + NatToString(i) + "_CLIENT_PORT"
    case Postgres => "POSTGRES" + NatToString(i) + "_PORT"
  }

  function SecondPortKey(kind: Kind, i: nat): string {
    match kind
    case Etcd => "ETCD" + NatToString(i) + "_PEER_PORT"
    case Postgres => "PATRONI" + NatToString(i) + "_PORT"
  }

  /** The container side of each published port. */
  function FirstContainerPort(vars: map<string, string>, kind: Kind): string {
    match kind
    case Etcd => Get(vars, "ETCD_CLIENT_PORT", "2379")
    case Postgres => PostgresPort(vars)
  }

  function SecondContainerPort(vars: map<string, string>, kind: Kind): string {
    match kind
    case Etcd => Get(vars, "ETCD_PEER_PORT", "2380")
    case Postgres => PatroniPort(vars)
  }

  /**
    The published ports of node `i`: one mapping per override that is set
    (present and non-empty), the first override's mapping first. No override,
    no ports.
   */
  function PortMappings(vars: map<string, string>, kind: Kind, i: nat): (ports: seq<PortMapping>)
    ensures ports != [] <==> IsSet(vars, FirstPortKey(kind, i)) || IsSet(vars, SecondPortKey(kind, i))
    ensures |ports| == (if IsSet(vars, FirstPortKey(kind, i)) then 1 else 0) + (if IsSet(vars, SecondPortKey(kind, i)) then 1 else 0)
    ensures IsSet(vars, FirstPortKey(kind, i)) ==>
      ports[0] == PortMapping(vars[FirstPortKey(kind, i)], FirstContainerPort(vars, kind))
    ensures IsSet(vars, SecondPortKey(kind, i)) ==>
      ports[|ports| - 1] == PortMapping(vars[SecondPortKey(kind, i)], SecondContainerPort(vars, kind))
  {
    var first := FirstPortKey(kind, i);
    var second := SecondPortKey(kind, i);
    (if IsSet(vars, first) then [PortMapping(vars[first], FirstContainerPort(vars, kind))] else [])
    + (if IsSet(vars, second) then [PortMapping(vars[second], SecondContainerPort(vars, kind))] else [])
  }

  function PostgresPassword(vars: map<string, string>): string {
    Get(vars, "POSTGRES_PASSWORD", "postgres")
  }

  /**
    An etcd member's environment. `etcdCount` is the configured etcd count,
    which equals the number of etcd nodes whenever an etcd service exists.
   */
  function EtcdEnvironment(vars: map<string, string>, n: Node, etcd: seq<Node>, etcdCount: int): seq<EnvVar> {
    [ EnvVar("NODE_NAME", n.name),
      EnvVar("NODE_IP", n.ip),
      EnvVar("ETCD_CLUSTER_SIZE", IntToString(etcdCount)),
      EnvVar("ETCD_INITIAL_CLUSTER", EtcdInitialCluster(etcd)),
      EnvVar("SKIP_POSTGRES", "1"),
      EnvVar("POSTGRES_PASSWORD", PostgresPassword(vars)) ]
  }

  /** A postgres member's environment. */
  function PostgresEnvironment(vars: map<string, string>, n: Node, pg: seq<Node>, etcd: seq<Node>): seq<EnvVar> {
    [ EnvVar("NODE_NAME", n.name),
      EnvVar("NODE_IP", n.ip),
      EnvVar("CLUSTER_NODES", ClusterNodes(pg)),
      EnvVar("ETCD_HOSTS", EtcdHosts(etcd)),
      EnvVar("SKIP_ETCD", "1"),
      EnvVar("POSTGRES_PASSWORD", PostgresPassword(vars)),
      EnvVar("REPLICATOR_PASSWORD", Get(vars, "REPLICATOR_PASSWORD", "replicator")) ]
  }

  function VolumePrefix(kind: Kind): string {
    match kind
    case Etcd => "etcd_data_"
    case Postgres => "postgres_data_"
  }

  /** Where a node's data volume is mounted inside its container. */
  function MountPoint(kind: Kind): string {
    match kind
    case Etcd => "/var/lib/etcd"
    case Postgres => "/var/lib/postgresql/data"
  }

  /** `etcd_data_NN` / `postgres_data_NN`: the node index zero-padded to two digits. */
  function VolumeName(kind: Kind, i: nat): string {
    VolumePrefix(kind) + ZFill(NatToString(i), 2)
  }

  function NodeService(vars: map<string, string>, kind: Kind, n: Node, env: seq<EnvVar>): Service {
    Service(kind, n.name, n.ip, PortMappings(vars, kind, n.index), env, VolumeName(kind, n.index))
  }

  function EtcdServices(vars: map<string, string>, etcd: seq<Node>, etcdCount: int): (services: seq<Service>)
    ensures |services| == |etcd|
  {
    seq(|etcd|, k requires 0 <= k < |etcd| =>
      NodeService(vars, Etcd, etcd[k], EtcdEnvironment(vars, etcd[k], etcd, etcdCount)))
  }

  function PostgresServices(vars: map<string, string>, pg: seq<Node>, etcd: seq<Node>): (services: seq<Service>)
    ensures |services| == |pg|
  {
    seq(|pg|, k requires 0 <= k < |pg| =>
      NodeService(vars, Postgres, pg[k], PostgresEnvironment(vars, pg[k], pg, etcd)))
  }

  function VolumeNames(kind: Kind, nodes: seq<Node>): (names: seq<string>)
    ensures |names| == |nodes|
  {
    seq(|nodes|, k requires 0 <= k < |nodes| => VolumeName(kind, nodes[k].index))
  }

  function Names(nodes: seq<Node>): (names: seq<string>)
    ensures |names| == |nodes|
    ensures forall k :: 0 <= k < |nodes| ==> names[k] == nodes[k].name
  {
    seq(|nodes|, k requires 0 <= k < |nodes| => nodes[k].name)
  }

  /** HAProxy publishes its read-write, read-only and stats ports on the same host ports. */
  function ProxyPorts(vars: map<string, string>): seq<PortMapping> {
    [ PortMapping(ReadWritePort(vars), ReadWritePort(vars)),
      PortMapping(ReadOnlyPort(vars), ReadOnlyPort(vars)),
      PortMapping(StatsPort(vars), StatsPort(vars)) ]
  }

  /** The HAProxy service at address `ip`, depending on the postgres nodes. */
  function BuildProxy(vars: map<string, string>, pg: seq<Node>, ip: string): ProxyService {
    ProxyService(Get(vars, "HAPROXY_NAME", "haproxy"), ip, ProxyPorts(vars), Names(pg))
  }

  /**
    The compose document: one service per node, one declared volume per node,
    HAProxy at `haproxyIp` depending on every postgres node, in order. The
    order of services and volumes is stated by the lemmas below.
   */
  function BuildCompose(vars: map<string, string>, pg: seq<Node>, etcd: seq<Node>, etcdCount: int, haproxyIp: string): (c: Compose)
    ensures c.subnet == Subnet(vars)
    ensures |c.services| == |etcd| + |pg|
    ensures |c.volumes| == |pg| + |etcd|
    ensures c.proxy.ip == haproxyIp
    ensures |c.proxy.dependsOn| == |pg| && forall k :: 0 <= k < |pg| ==> c.proxy.dependsOn[k] == pg[k].name
  {
    Compose(
      Subnet(vars),
      VolumeNames(Postgres, pg) + VolumeNames(Etcd, etcd),
      EtcdServices(vars, etcd, etcdCount) + PostgresServices(vars, pg, etcd),
      BuildProxy(vars, pg, haproxyIp))
  }

  // ---------------------------------------------------------------------------
  // Properties of the document
  // ---------------------------------------------------------------------------

  /** The first services of the document are the etcd services, in node order. */
  lemma ComposeEtcdServices(vars: map<string, string>, pg: seq<Node>, etcd: seq<Node>, etcdCount: int, haproxyIp: string)
    ensures var c := BuildCompose(vars, pg, etcd, etcdCount, haproxyIp);
      forall k :: 0 <= k < |etcd| ==>
        c.services[k] == NodeService(vars, Etcd, etcd[k], EtcdEnvironment(vars, etcd[k], etcd, etcdCount))
  {
    var es := EtcdServices(vars, etcd, etcdCount);
    var ps := PostgresServices(vars, pg, etcd);
    assert BuildCompose(vars, pg, etcd, etcdCount, haproxyIp).services == es + ps;
    AppendIndex(es, ps);
  }

  /** The postgres services follow the etcd services, in node order. */
  lemma ComposePostgresServices(vars: map<string, string>, pg: seq<Node>, etcd: seq<Node>, etcdCount: int, haproxyIp: string)
    ensures var c := BuildCompose(vars, pg, etcd, etcdCount, haproxyIp);
      forall k :: |etcd| <= k < |c.services| ==>
        c.services[k] == NodeService(vars, Postgres, pg[k - |etcd|], PostgresEnvironment(vars, pg[k - |etcd|], pg, etcd))
  {
    var es := EtcdServices(vars, etcd, etcdCount);
    var ps := PostgresServices(vars, pg, etcd);
    assert BuildCompose(vars, pg, etcd, etcdCount, haproxyIp).services == es + ps;
    AppendIndex(es, ps);
  }

  /** The declared volumes of the document, by position: postgres first, then etcd. */
  lemma ComposeVolumes(vars: map<string, string>, pg: seq<Node>, etcd: seq<Node>, etcdCount: int, haproxyIp: string)
    ensures var c := BuildCompose(vars, pg, etcd, etcdCount, haproxyIp);
      && (forall k :: 0 <= k < |pg| ==> c.volumes[k] == VolumeName(Postgres, pg[k].index))
      && (forall k :: |pg| <= k < |c.volumes| ==> c.volumes[k] == VolumeName(Etcd, etcd[k - |pg|].index))
  {
    var pv := VolumeNames(Postgres, pg);
    var ev := VolumeNames(Etcd, etcd);
    assert BuildCompose(vars, pg, etcd, etcdCount, haproxyIp).volumes == pv + ev;
    AppendIndex(pv, ev);
  }

  /** Where the two halves of a concatenation sit. */
  lemma AppendIndex<T>(a: seq<T>, b: seq<T>)
    ensures forall k :: 0 <= k < |a| ==> (a + b)[k] == a[k]
    ensures forall k :: |a| <= k < |a| + |b| ==> (a + b)[k] == b[k - |a|]
  {
  }

  /**
    Services follow the node lists: the etcd services first, then the postgres
    services, each of the node's kind and carrying its node's name and address.
   */
  lemma ServicesFollowNodes(vars: map<string, string>, pg: seq<Node>, etcd: seq<Node>, etcdCount: int, haproxyIp: string)
    ensures var c := BuildCompose(vars, pg, etcd, etcdCount, haproxyIp);
      forall k :: 0 <= k < |etcd| ==>
        c.services[k].kind == Etcd && c.services[k].name == etcd[k].name && c.services[k].ip == etcd[k].ip
    ensures var c := BuildCompose(vars, pg, etcd, etcdCount, haproxyIp);
      forall k :: |etcd| <= k < |c.services| ==>
        && c.services[k].kind == Postgres
        && c.services[k].name == pg[k - |etcd|].name && c.services[k].ip == pg[k - |etcd|].ip
  {
    ComposeEtcdServices(vars, pg, etcd, etcdCount, haproxyIp);
    ComposePostgresServices(vars, pg, etcd, etcdCount, haproxyIp);
  }

  /** Every volume a service mounts is declared in the top-level volumes section. */
  lemma VolumesDeclared(vars: map<string, string>, pg: seq<Node>, etcd: seq<Node>, etcdCount: int, haproxyIp: string)
    ensures var c := BuildCompose(vars, pg, etcd, etcdCount, haproxyIp);
      forall k :: 0 <= k < |c.services| ==> c.services[k].volume in c.volumes
  {
    var c := BuildCompose(vars, pg, etcd, etcdCount, haproxyIp);
    ComposeEtcdServices(vars, pg, etcd, etcdCount, haproxyIp);
    ComposePostgresServices(vars, pg, etcd, etcdCount, haproxyIp);
    ComposeVolumes(vars, pg, etcd, etcdCount, haproxyIp);
    forall k | 0 <= k < |c.services|
      ensures c.services[k].volume in c.volumes
    {
      if k < |etcd| {
        assert c.services[k].volume == c.volumes[|pg| + k];
      } else {
        assert c.services[k].volume == c.volumes[k - |etcd|];
      }
    }
  }

  /**
    The `depends_on` entries are the names of the postgres services, in the
    order those services appear, which is right after the etcd services.
   */
  lemma DependenciesArePostgresServices(vars: map<string, string>, pg: seq<Node>, etcd: seq<Node>, etcdCount: int, haproxyIp: string)
    ensures var c := BuildCompose(vars, pg, etcd, etcdCount, haproxyIp);
      && |c.proxy.dependsOn| == |c.services| - |etcd|
      && forall k :: |etcd| <= k < |c.services| ==>
        c.services[k].kind == Postgres && c.services[k].name == c.proxy.dependsOn[k - |etcd|]
  {
    ServicesFollowNodes(vars, pg, etcd, etcdCount, haproxyIp);
  }

  /**
    The environment of every etcd member carries the same initial cluster, a
    cluster size that reads back as the configured count, and the flag that
    keeps postgres off.
   */
  lemma EtcdEnvironmentWiring(vars: map<string, string>, pg: seq<Node>, etcd: seq<Node>, etcdCount: int, haproxyIp: string)
    ensures var c := BuildCompose(vars, pg, etcd, etcdCount, haproxyIp);
      forall k :: 0 <= k < |etcd| ==>
        && EnvVar("ETCD_INITIAL_CLUSTER", EtcdInitialCluster(etcd)) in c.services[k].environment
        && EnvVar("SKIP_POSTGRES", "1") in c.services[k].environment
        && (exists e :: e in c.services[k].environment && e.name == "ETCD_CLUSTER_SIZE" && ParseInt(e.value) == Some(etcdCount))
  {
    var c := BuildCompose(vars, pg, etcd, etcdCount, haproxyIp);
    ComposeEtcdServices(vars, pg, etcd, etcdCount, haproxyIp);
    forall k | 0 <= k < |etcd|
      ensures EnvVar("ETCD_INITIAL_CLUSTER", EtcdInitialCluster(etcd)) in c.services[k].environment
      ensures EnvVar("SKIP_POSTGRES", "1") in c.services[k].environment
      ensures exists e :: e in c.services[k].environment && e.name == "ETCD_CLUSTER_SIZE" && ParseInt(e.value) == Some(etcdCount)
    {
      EtcdEnvironmentEntries(vars, etcd[k], etcd, etcdCount);
    }
  }

  /** One etcd member's environment holds the cluster-wide entries. */
  lemma EtcdEnvironmentEntries(vars: map<string, string>, n: Node, etcd: seq<Node>, etcdCount: int)
    ensures var env := EtcdEnvironment(vars, n, etcd, etcdCount);
      && EnvVar("ETCD_INITIAL_CLUSTER", EtcdInitialCluster(etcd)) in env
      && EnvVar("SKIP_POSTGRES", "1") in env
      && (exists e :: e in env && e.name == "ETCD_CLUSTER_SIZE" && ParseInt(e.value) == Some(etcdCount))
  {
    var env := EtcdEnvironment(vars, n, etcd, etcdCount);
    ParseIntOfIntToString(etcdCount);
    assert env[2] in env && env[3] in env && env[4] in env;
  }

  /**
    The environment of every postgres member carries the same CLUSTER_NODES
    and ETCD_HOSTS and the flag that keeps etcd off.
   */
  lemma PostgresEnvironmentWiring(vars: map<string, string>, pg: seq<Node>, etcd: seq<Node>, etcdCount: int, haproxyIp: string)
    ensures var c := BuildCompose(vars, pg, etcd, etcdCount, haproxyIp);
      forall k :: |etcd| <= k < |c.services| ==>
        && EnvVar("CLUSTER_NODES", ClusterNodes(pg)) in c.services[k].environment
        && EnvVar("ETCD_HOSTS", EtcdHosts(etcd)) in c.services[k].environment
        && EnvVar("SKIP_ETCD", "1") in c.services[k].environment
  {
    var c := BuildCompose(vars, pg, etcd, etcdCount, haproxyIp);
    ComposePostgresServices(vars, pg, etcd, etcdCount, haproxyIp);
    forall k | |etcd| <= k < |c.services|
      ensures EnvVar("CLUSTER_NODES", ClusterNodes(pg)) in c.services[k].environment
      ensures EnvVar("ETCD_HOSTS", EtcdHosts(etcd)) in c.services[k].environment
      ensures EnvVar("SKIP_ETCD", "1") in c.services[k].environment
    {
      var env := PostgresEnvironment(vars, pg[k - |etcd|], pg, etcd);
      assert c.services[k].environment == env;
      assert env[2] in env && env[3] in env && env[4] in env;
    }
  }

  /** The two kinds' volume names never meet, and within a kind the index decides the name. */
  lemma VolumeNameInjective(kind1: Kind, i: nat, kind2: Kind, j: nat)
    requires kind1 != kind2 || i != j
    ensures VolumeName(kind1, i) != VolumeName(kind2, j)
  {
    if kind1 != kind2 {
      assert VolumeName(kind1, i)[0] != VolumeName(kind2, j)[0];
    } else if VolumeName(kind1, i) == VolumeName(kind2, j) {
      var p := VolumePrefix(kind1);
      assert VolumeName(kind1, i)[|p|..] == ZFill(NatToString(i), 2);
      assert VolumeName(kind2, j)[|p|..] == ZFill(NatToString(j), 2);
      ParseIntOfZFill(i, 2);
      ParseIntOfZFill(j, 2);
    }
  }

  /**
    With node indices distinct within each kind (as the node lists' 1..N
    indices are), no two declared volumes share a name, even past 99 nodes.
   */
  lemma VolumesDistinct(vars: map<string, string>, pg: seq<Node>, etcd: seq<Node>, etcdCount: int, haproxyIp: string)
    requires forall a, b :: 0 <= a < b < |pg| ==> pg[a].index != pg[b].index
    requires forall a, b :: 0 <= a < b < |etcd| ==> etcd[a].index != etcd[b].index
    ensures var c := BuildCompose(vars, pg, etcd, etcdCount, haproxyIp);
      forall a, b :: 0 <= a < b < |c.volumes| ==> c.volumes[a] != c.volumes[b]
  {
    var c := BuildCompose(vars, pg, etcd, etcdCount, haproxyIp);
    ComposeVolumes(vars, pg, etcd, etcdCount, haproxyIp);
    forall a, b | 0 <= a < b < |c.volumes|
      ensures c.volumes[a] != c.volumes[b]
    {
      if b < |pg| {
        VolumeNameInjective(Postgres, pg[a].index, Postgres, pg[b].index);
      } else if a < |pg| {
        VolumeNameInjective(Postgres, pg[a].index, Etcd, etcd[b - |pg|].index);
      } else {
        VolumeNameInjective(Etcd, etcd[a - |pg|].index, Etcd, etcd[b - |pg|].index);
      }
    }
  }

  // ---------------------------------------------------------------------------
  // Rendering
  // ---------------------------------------------------------------------------

  /** Two spaces per nesting level. */
  function Indent(level: nat): (r: string)
    ensures |r| == 2 * level
    ensures forall i :: 0 <= i < |r| ==> r[i] == ' '
  {
    seq(2 * level, _ => ' ')
  }

  function PortLine(m: PortMapping): string {
    Indent(3) + "- \"" + m.host + ":" + m.container + "\""
  }

  /** A `ports:` heading followed by one line per mapping; nothing at all without mappings. */
  function PortLines(ports: seq<PortMapping>): (lines: seq<string>)
    ensures ports == [] ==> lines == []
    ensures ports != [] ==> |lines| == |ports| + 1 && lines[0] == Indent(2) + "ports:"
    ensures forall k :: 0 <= k < |ports| ==> lines[k + 1] == PortLine(ports[k])
  {
    if ports == [] then []
    else [Indent(2) + "ports:"] + seq(|ports|, k requires 0 <= k < |ports| => PortLine(ports[k]))
  }

  function EnvLines(env: seq<EnvVar>): (lines: seq<string>)
    ensures |lines| == |env|
  {
    seq(|env|, k requires 0 <= k < |env| => Indent(3) + "- " + env[k].name + "=" + env[k].value)
  }

  function HealthcheckLines(kind: Kind): seq<string> {
    match kind
    case Etcd => []
    case Postgres =>
      [ Indent(2) + "healthcheck:",
        Indent(3) + "test: [\"CMD-SHELL\", \"curl -f http://localhost:${PATRONI_PORT}/health || exit 1\"]",
        Indent(3) + "interval: 30s",
        Indent(3) + "timeout: 10s",
        Indent(3) + "retries: 3",
        Indent(3) + "start_period: 60s" ]
  }

  /** The seven lines that open every node service: key, build, names and address. */
  function ServiceHeader(name: string, ip: string): (lines: seq<string>)
    ensures |lines| == 7
    ensures lines[0] == Indent(1) + name + ":" && lines[6] == Indent(4) + "ipv4_address: " + ip
  {
    [ Indent(1) + name + ":",
      Indent(2) + "build: .",
      Indent(2) + "container_name: " + name,
      Indent(2) + "hostname: " + name,
      Indent(2) + "networks:",
      Indent(3) + "patroni_network:",
      Indent(4) + "ipv4_address: " + ip ]
  }

  /** What follows the ports block: environment, volume, restart policy, health check, blank line. */
  function ServiceTail(s: Service): (lines: seq<string>)
    ensures |lines| >= 5
    ensures lines[0] == Indent(2) + "environment:" && lines[|lines| - 1] == ""
  {
    [Indent(2) + "environment:"]
    + (EnvLines(s.environment)
       + [ Indent(2) + "volumes:",
           Indent(3) + "- " + s.volume + ":" + MountPoint(s.kind),
           Indent(2) + "restart: unless-stopped" ]
       + HealthcheckLines(s.kind)
       + [""])
  }

  function ServiceLines(s: Service): (lines: seq<string>)
    ensures |lines| >= 12
  {
    ServiceHeader(s.name, s.ip) + (PortLines(s.ports) + ServiceTail(s))
  }

  function ServicesLines(services: seq<Service>): seq<string> {
    if services == [] then [] else ServiceLines(services[0]) + ServicesLines(services[1..])
  }

  function DependsOnLines(names: seq<string>): (lines: seq<string>)
    ensures |lines| == |names|
  {
    seq(|names|, k requires 0 <= k < |names| => Indent(3) + "- " + names[k])
  }

  /** The HAProxy service up to its volumes. */
  function ProxyHead(p: ProxyService): seq<string> {
    [ Indent(1) + "haproxy:",
      Indent(2) + "build:",
      Indent(3) + "context: ./docker-haproxy",
      Indent(2) + "container_name: " + p.name,
      Indent(2) + "hostname: " + p.name,
      Indent(2) + "networks:",
      Indent(3) + "patroni_network:",
      Indent(4) + "ipv4_address: " + p.ip ]
    + PortLines(p.ports)
    + [ Indent(2) + "volumes:",
        Indent(3) + "- ./haproxy.cfg:/usr/local/etc/haproxy/haproxy.cfg.template:ro" ]
  }

  /** The `depends_on:` block and the restart policy that close the HAProxy service. */
  function DependsOnSection(names: seq<string>): seq<string> {
    [Indent(2) + "depends_on:"] + DependsOnLines(names) + [Indent(2) + "restart: unless-stopped"]
  }

  function ProxyLines(p: ProxyService): seq<string> {
    ProxyHead(p) + DependsOnSection(p.dependsOn)
  }

  function PreambleLines(subnet: string): seq<string> {
    [ "version: \"3.8\"",
      "",
      "networks:",
      Indent(1) + "patroni_network:",
      Indent(2) + "driver: bridge",
      Indent(2) + "ipam:",
      Indent(3) + "config:",
      Indent(4) + "- subnet: " + subnet,
      "" ]
  }

  function VolumeLines(volumes: seq<string>): (lines: seq<string>)
    ensures |lines| == |volumes|
  {
    seq(|volumes|, k requires 0 <= k < |volumes| => Indent(1) + volumes[k] + ":")
  }

  /** The top-level `volumes:` section and the `services:` key. */
  function VolumesSection(volumes: seq<string>): seq<string> {
    ["volumes:"] + VolumeLines(volumes) + ["", "services:"]
  }

  /** The lines of docker-compose.yml, in emission order. */
  function ComposeLines(c: Compose): seq<string> {
    PreambleLines(c.subnet) + VolumesSection(c.volumes) + ServicesLines(c.services) + ProxyLines(c.proxy)
  }

  /** The file text: the lines joined by newlines, with a final newline. */
  function ComposeText(c: Compose): string {
    Join('\n', ComposeLines(c)) + "\n"
  }

  // ---------------------------------------------------------------------------
  // Properties of the rendering
  // ---------------------------------------------------------------------------

  /** A node service opens with its key and address lines and ends with a blank line. */
  lemma ServiceLinesFrame(s: Service)
    ensures var lines := ServiceLines(s);
      && lines[0] == Indent(1) + s.name + ":"
      && lines[6] == Indent(4) + "ipv4_address: " + s.ip
      && lines[|lines| - 1] == ""
  {
    var header := ServiceHeader(s.name, s.ip);
    var tail := ServiceTail(s);
    var body := PortLines(s.ports) + tail;
    AppendIndex(header, body);
    AppendIndex(PortLines(s.ports), tail);
  }

  /** The layout of seven header lines, an optional ports block and a tail opening with `environment:`. */
  lemma PortsLayout(header: seq<string>, mappings: seq<PortMapping>, tail: seq<string>)
    requires |header| == 7 && |tail| >= 1 && tail[0] == Indent(2) + "environment:"
    ensures var lines := header + (PortLines(mappings) + tail);
      && (lines[7] == Indent(2) + "ports:" <==> mappings != [])
      && (mappings == [] ==> lines[7] == Indent(2) + "environment:")
  {
    var ports := PortLines(mappings);
    var body := ports + tail;
    assert (header + body)[7] == body[0];
    if mappings == [] {
      assert body[0] == tail[0];
      assert (Indent(2) + "environment:")[4] != (Indent(2) + "ports:")[4];
    } else {
      assert body[0] == ports[0];
    }
  }

  /** In that layout the port lines follow the `ports:` heading, in order. */
  lemma PortLinesLayout(header: seq<string>, mappings: seq<PortMapping>, tail: seq<string>)
    requires |header| == 7
    ensures var lines := header + (PortLines(mappings) + tail);
      forall k :: 0 <= k < |mappings| ==> lines[8 + k] == PortLine(mappings[k])
  {
    var ports := PortLines(mappings);
    var body := ports + tail;
    forall k | 0 <= k < |mappings|
      ensures (header + body)[8 + k] == PortLine(mappings[k])
    {
      assert (header + body)[8 + k] == body[k + 1] == ports[k + 1];
    }
  }

  /**
    The eighth line of a node service is the `ports:` heading exactly when the
    service publishes ports, and the port lines follow it in order; without
    ports the eighth line is the `environment:` heading.
   */
  lemma ServiceLinesPorts(s: Service)
    ensures var lines := ServiceLines(s);
      && (lines[7] == Indent(2) + "ports:" <==> s.ports != [])
      && (s.ports == [] ==> lines[7] == Indent(2) + "environment:")
      && forall k :: 0 <= k < |s.ports| ==> lines[8 + k] == PortLine(s.ports[k])
  {
    PortsLayout(ServiceHeader(s.name, s.ip), s.ports, ServiceTail(s));
    PortLinesLayout(ServiceHeader(s.name, s.ip), s.ports, ServiceTail(s));
  }

  /** An etcd service publishes a `ports:` block exactly when its client or peer port override is set. */
  lemma EtcdPortsBlockIffOverride(vars: map<string, string>, pg: seq<Node>, etcd: seq<Node>, etcdCount: int, haproxyIp: string)
    ensures var c := BuildCompose(vars, pg, etcd, etcdCount, haproxyIp);
      forall k :: 0 <= k < |etcd| ==>
        (ServiceLines(c.services[k])[7] == Indent(2) + "ports:" <==>
          IsSet(vars, FirstPortKey(Etcd, etcd[k].index)) || IsSet(vars, SecondPortKey(Etcd, etcd[k].index)))
  {
    var c := BuildCompose(vars, pg, etcd, etcdCount, haproxyIp);
    ComposeEtcdServices(vars, pg, etcd, etcdCount, haproxyIp);
    forall k | 0 <= k < |etcd|
      ensures ServiceLines(c.services[k])[7] == Indent(2) + "ports:" <==>
        IsSet(vars, FirstPortKey(Etcd, etcd[k].index)) || IsSet(vars, SecondPortKey(Etcd, etcd[k].index))
    {
      assert c.services[k].ports == PortMappings(vars, Etcd, etcd[k].index);
      ServiceLinesPorts(c.services[k]);
    }
  }

  /** A postgres service publishes a `ports:` block exactly when its postgres or Patroni port override is set. */
  lemma PostgresPortsBlockIffOverride(vars: map<string, string>, pg: seq<Node>, etcd: seq<Node>, etcdCount: int, haproxyIp: string)
    ensures var c := BuildCompose(vars, pg, etcd, etcdCount, haproxyIp);
      forall k :: |etcd| <= k < |c.services| ==>
        (ServiceLines(c.services[k])[7] == Indent(2) + "ports:" <==>
          IsSet(vars, FirstPortKey(Postgres, pg[k - |etcd|].index)) || IsSet(vars, SecondPortKey(Postgres, pg[k - |etcd|].index)))
  {
    var c := BuildCompose(vars, pg, etcd, etcdCount, haproxyIp);
    ComposePostgresServices(vars, pg, etcd, etcdCount, haproxyIp);
    forall k | |etcd| <= k < |c.services|
      ensures ServiceLines(c.services[k])[7] == Indent(2) + "ports:" <==>
        IsSet(vars, FirstPortKey(Postgres, pg[k - |etcd|].index)) || IsSet(vars, SecondPortKey(Postgres, pg[k - |etcd|].index))
    {
      assert c.services[k].ports == PortMappings(vars, Postgres, pg[k - |etcd|].index);
      ServiceLinesPorts(c.services[k]);
    }
  }

  /**
    The document opens with the subnet line and closes with the HAProxy
    `depends_on:` block, one entry per dependency in order, and the restart
    policy.
   */
  lemma ComposeLinesFrame(c: Compose)
    ensures var lines := ComposeLines(c); var d := c.proxy.dependsOn;
      && lines[7] == Indent(4) + "- subnet: " + c.subnet
      && |lines| >= |d| + 2
      && lines[|lines| - |d| - 2] == Indent(2) + "depends_on:"
      && (forall k :: 0 <= k < |d| ==> lines[|lines| - |d| - 1 + k] == Indent(3) + "- " + d[k])
      && lines[|lines| - 1] == Indent(2) + "restart: unless-stopped"
  {
    var pre := PreambleLines(c.subnet);
    var front := pre + VolumesSection(c.volumes) + ServicesLines(c.services);
    var head := ProxyHead(c.proxy);
    var tail := DependsOnSection(c.proxy.dependsOn);
    assert ComposeLines(c) == (front + head) + tail;
    AppendIndex(front + head, tail);
    SubnetLine(c, front + head, tail);
    DependsOnSectionShape(c.proxy.dependsOn);
  }

  lemma SubnetLine(c: Compose, prefix: seq<string>, tail: seq<string>)
    requires prefix == PreambleLines(c.subnet) + VolumesSection(c.volumes) + ServicesLines(c.services) + ProxyHead(c.proxy)
    ensures |prefix| > 7 && prefix[7] == Indent(4) + "- subnet: " + c.subnet
  {
    var pre := PreambleLines(c.subnet);
    var a := pre + VolumesSection(c.volumes);
    var b := a + ServicesLines(c.services);
    AppendIndex(pre, VolumesSection(c.volumes));
    AppendIndex(a, ServicesLines(c.services));
    AppendIndex(b, ProxyHead(c.proxy));
  }

  /** The closing block: heading, one entry per name, restart policy. */
  lemma DependsOnSectionShape(names: seq<string>)
    ensures var t := DependsOnSection(names);
      && |t| == |names| + 2
      && t[0] == Indent(2) + "depends_on:"
      && (forall k :: 0 <= k < |names| ==> t[1 + k] == Indent(3) + "- " + names[k])
      && t[|t| - 1] == Indent(2) + "restart: unless-stopped"
  {
    var x := [Indent(2) + "depends_on:"];
    var y := DependsOnLines(names);
    AppendIndex(x, y);
    AppendIndex(x + y, [Indent(2) + "restart: unless-stopped"]);
  }
}
