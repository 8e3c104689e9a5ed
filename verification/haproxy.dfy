/**
  The haproxy.cfg emitter: a fixed template with the three front-end ports and
  the two back-end server pools substituted in. Both pools list every postgres
  node; Patroni's health check decides which server is the primary.
 */
module HaproxyEmitter {
  import opened Text
  import opened Settings
  import opened Topology

  /** The values substituted into the template. */
  datatype ProxyConfig = ProxyConfig(
    statsPort: string,
    readWritePort: string,
    readOnlyPort: string,
    rwServers: seq<string>,
    roServers: seq<string>)

  /** `    server <name> <ip>:<pg port> check port <patroni port> inter 2s`. */
  function ServerLine(n: Node, pgPort: string, patroniPort: string): string {
    "    server " + n.name + " " + n.ip + ":" + pgPort + " check port " + patroniPort + " inter 2s"
  }

  /** One server line per postgres node, in node order. */
  function ServerLines(pg: seq<Node>, pgPort: string, patroniPort: string): (lines: seq<string>)
    ensures |lines| == |pg|
  {
    seq(|pg|, k requires 0 <= k < |pg| => ServerLine(pg[k], pgPort, patroniPort))
  }

  /**
    The template values: the configured front-end ports, and a read-only pool
    identical to the read-write pool, which holds one server per postgres node
    in order, addressed at the postgres port and checked at the Patroni port.
   */
  function BuildProxyConfig(vars: map<string, string>, pg: seq<Node>): (cfg: ProxyConfig)
    ensures cfg.statsPort == StatsPort(vars)
    ensures cfg.readWritePort == ReadWritePort(vars) && cfg.readOnlyPort == ReadOnlyPort(vars)
    ensures cfg.roServers == cfg.rwServers
    ensures |cfg.rwServers| == |pg|
    ensures forall k :: 0 <= k < |pg| ==> cfg.rwServers[k] == ServerLine(pg[k], PostgresPort(vars), PatroniPort(vars))
  {
    var rw := ServerLines(pg, PostgresPort(vars), PatroniPort(vars));
    ProxyConfig(StatsPort(vars), ReadWritePort(vars), ReadOnlyPort(vars), rw, rw)
  }

  const GlobalSection: seq<string> := [
    "global",
    "    daemon",
    "    maxconn 4096",
    "    log stdout local0",
    ""]

  const DefaultsSection: seq<string> := [
    "defaults",
    "    mode tcp",
    "    timeout client 30s",
    "    timeout connect 5s",
    "    timeout server 30s",
    "    timeout check 5s",
    "    retries 3",
    "    log global",
    ""]

  function StatsSection(statsPort: string): seq<string> {
    [ "# HAProxy Stats",
      "listen stats",
      "    bind *:" + statsPort,
      "    mode http",
      "    stats enable",
      "    stats uri /stats",
      "    stats refresh 30s",
      "" ]
  }

  function FrontendSection(name: string, port: string, backend: string): seq<string> {
    [ "frontend " + name,
      "    bind *:" + port,
      "    mode tcp",
      "    default_backend " + backend,
      "" ]
  }

  /** A back-end whose health check expects `role`; the pool is one element holding all server lines. */
  function BackendSection(name: string, role: string, servers: seq<string>): (lines: seq<string>)
    ensures |lines| == 6 && lines[5] == Join('\n', servers)
  {
    [ "backend " + name,
      "    mode tcp",
      "    balance roundrobin",
      "    option httpchk GET /role",
      "    http-check expect string " + role,
      Join('\n', servers) ]
  }

  /** Position of the read-write and read-only pools among the template lines. */
  const ReadWritePoolLine := 38
  const ReadOnlyPoolLine := 45

  /** Position of the `bind` lines of the stats listener and the two front-ends. */
  const StatsBindLine := 16
  const ReadWriteBindLine := 24
  const ReadOnlyBindLine := 29

  /**
    The template's lines after substitution, each pool a single element that
    spans one text line per server (no text at all for an empty pool).
   */
  function HaproxyLines(cfg: ProxyConfig): (lines: seq<string>)
    ensures |lines| == ReadOnlyPoolLine + 1
  {
    GlobalSection + DefaultsSection + StatsSection(cfg.statsPort)
    + ["# PostgreSQL Read/Write and Read-Only"]
    + FrontendSection("postgres_rw_frontend", cfg.readWritePort, "postgres_rw")
    + FrontendSection("postgres_ro_frontend", cfg.readOnlyPort, "postgres_ro")
    + BackendSection("postgres_rw", "primary", cfg.rwServers)
    + [""]
    + BackendSection("postgres_ro", "replica", cfg.roServers)
  }

  /** The file text: the template's lines joined by newlines, with a final newline. */
  function HaproxyText(cfg: ProxyConfig): string {
    Join('\n', HaproxyLines(cfg)) + "\n"
  }

  /**
    The pools sit where the template puts them: the read-write pool under the
    back-end that expects the primary, the read-only one under the back-end
    that expects a replica.
   */
  lemma PoolPositions(cfg: ProxyConfig)
    ensures var lines := HaproxyLines(cfg);
      && lines[ReadWritePoolLine] == Join('\n', cfg.rwServers)
      && lines[ReadWritePoolLine - 5] == "backend postgres_rw"
      && lines[ReadWritePoolLine - 1] == "    http-check expect string primary"
      && lines[ReadOnlyPoolLine] == Join('\n', cfg.roServers)
      && lines[ReadOnlyPoolLine - 5] == "backend postgres_ro"
      && lines[ReadOnlyPoolLine - 1] == "    http-check expect string replica"
  {
  }

  /** The stats listener and the two front-ends bind the configured ports. */
  lemma FrontendPorts(cfg: ProxyConfig)
    ensures var lines := HaproxyLines(cfg);
      && lines[StatsBindLine] == "    bind *:" + cfg.statsPort
      && lines[ReadWriteBindLine] == "    bind *:" + cfg.readWritePort
      && lines[ReadOnlyBindLine] == "    bind *:" + cfg.readOnlyPort
  {
  }

  /** No newline in a node's name or address, nor in the two ports. */
  predicate LineSafe(pg: seq<Node>, pgPort: string, patroniPort: string) {
    && '\n' !in pgPort && '\n' !in patroniPort
    && forall k :: 0 <= k < |pg| ==> '\n' !in pg[k].name && '\n' !in pg[k].ip
  }

  lemma NoNewlineConcat(a: string, b: string)
    requires '\n' !in a && '\n' !in b
    ensures '\n' !in a + b
  {
  }

  lemma ServerLineNoNewline(n: Node, pgPort: string, patroniPort: string)
    requires '\n' !in n.name && '\n' !in n.ip && '\n' !in pgPort && '\n' !in patroniPort
    ensures '\n' !in ServerLine(n, pgPort, patroniPort)
  {
    NoNewlineConcat("    server ", n.name);
    NoNewlineConcat("    server " + n.name, " ");
    NoNewlineConcat("    server " + n.name + " ", n.ip);
    NoNewlineConcat("    server " + n.name + " " + n.ip, ":");
    NoNewlineConcat("    server " + n.name + " " + n.ip + ":", pgPort);
    NoNewlineConcat("    server " + n.name + " " + n.ip + ":" + pgPort, " check port ");
    NoNewlineConcat("    server " + n.name + " " + n.ip + ":" + pgPort + " check port ", patroniPort);
    NoNewlineConcat("    server " + n.name + " " + n.ip + ":" + pgPort + " check port " + patroniPort, " inter 2s");
  }

  /**
    Reading either pool of the generated configuration back line by line gives
    one server line per postgres node, in node order, the same for both pools;
    with no postgres nodes both pools are empty text.
   */
  lemma PoolsListEveryPostgresNode(vars: map<string, string>, pg: seq<Node>)
    requires LineSafe(pg, PostgresPort(vars), PatroniPort(vars))
    ensures var lines := HaproxyLines(BuildProxyConfig(vars, pg));
      && lines[ReadOnlyPoolLine] == lines[ReadWritePoolLine]
      && (pg == [] ==> lines[ReadWritePoolLine] == "")
      && (pg != [] ==>
            && |Split(lines[ReadWritePoolLine], '\n')| == |pg|
            && forall k :: 0 <= k < |pg| ==>
                 Split(lines[ReadWritePoolLine], '\n')[k] == ServerLine(pg[k], PostgresPort(vars), PatroniPort(vars)))
  {
    var cfg := BuildProxyConfig(vars, pg);
    PoolPositions(cfg);
    if pg != [] {
      forall k | 0 <= k < |cfg.rwServers|
        ensures '\n' !in cfg.rwServers[k]
      {
        ServerLineNoNewline(pg[k], PostgresPort(vars), PatroniPort(vars));
      }
      SplitJoin('\n', cfg.rwServers);
    }
  }
}
