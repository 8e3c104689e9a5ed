# generate_compose model

A Dafny model of `scripts/generate_compose.py`. That script reads the `.env`
settings of a Patroni/etcd/HAProxy deployment. From them it produces a
`docker-compose.yml` with one service per etcd member and per postgres
(Patroni) member plus an HAProxy service, and an `haproxy.cfg` whose
read-write and read-only back-ends list every postgres member.

The model follows the script's stages, one module each:

- `Text`: the Python string operations the script relies on, with their edge
  cases written out. These are `str.strip()`, `str.split(sep)`,
  `sep.join(parts)`, `str(n)`, `int(s)` and `str.zfill(width)`.
- `Settings`: the `.env` line parser, from a sequence of lines to a
  dictionary. It also holds the fallback chain for the two node counts and the
  keyed defaults (subnet, ports).
- `Topology`: the etcd and postgres node lists, each 1-indexed, with per-index
  name and address overrides or deterministic defaults. It also builds the
  three comma-joined membership strings `CLUSTER_NODES`, `ETCD_HOSTS` and
  `ETCD_INITIAL_CLUSTER`.
- `Reconciler`: the HAProxy address collision fix. It picks the least free
  last octet in 2..255 of the configured address's block, and keeps the
  configured address when the block is exhausted.
- `ComposeEmitter`: the compose document, first as records (services,
  volumes, HAProxy's `depends_on`) and then as the emitted line sequence.
- `HaproxyEmitter`: the haproxy.cfg template as a line sequence with its
  ports and the two server pools substituted in.
- `Generator`: one run end to end. It reads the four integer settings, failing
  like `int()` does and naming the first setting that does not parse, then
  builds both lists, the effective HAProxy address and both documents.
  `DefaultsScenario` works one concrete run through.

Integers are unbounded, like Python's, except that the model does not have
CPython's limit on the number of decimal digits it converts (see "Left out").
`int()` is modelled as a partial function (`Option`). Its `ValueError`
becomes a `Failure` of the run that carries the offending key and text.

## Model

| member | source | states |
|---|---|---|
| Text.Strip | scripts/generate_compose.py:22 | the stripped line has no whitespace at either end and is a contiguous slice starting right after the leading whitespace |
| Text.StripRemovesOnlySpace | scripts/generate_compose.py:22 | stripping removes whitespace only: the original is whitespace, then the stripped text, then whitespace |
| Text.StripStripped | scripts/generate_compose.py:27 | stripping text that has no whitespace at its ends leaves it unchanged (strip is idempotent on its own results) |
| Text.Join | scripts/generate_compose.py:70-73 | reference definition of `sep.join(parts)`; its properties are stated by Text.JoinSplit, Text.SplitJoin, Text.JoinAppend and Text.JoinCount |
| Text.IndexOf | scripts/generate_compose.py:25-26 | `'=' in line` holds exactly when a first occurrence exists; that position holds `=` and nothing before it does |
| Text.Split | scripts/generate_compose.py:79 | `str.split` yields at least one piece and no piece contains the separator |
| Text.SplitCount | scripts/generate_compose.py:79 | a split yields one more piece than the text has separators |
| Text.JoinSplit | scripts/generate_compose.py:79-80 | joining the pieces of a split with the same separator restores the text |
| Text.SplitJoin | scripts/generate_compose.py:70-73 | splitting a join of separator-free pieces gives back exactly those pieces |
| Text.JoinAppend | scripts/generate_compose.py:83 | appending one piece to a non-empty join adds one separator and the piece |
| Text.JoinCount | scripts/generate_compose.py:70-73 | a join of n separator-free pieces holds exactly n - 1 separators |
| Text.NatToString | scripts/generate_compose.py:49 | `str(i)` of a natural is a non-empty digit string with no leading zero except for 0 itself |
| Text.DigitsValueOfNatToString | scripts/generate_compose.py:49 | the digits `str(n)` renders denote n |
| Text.ParseInt | scripts/generate_compose.py:30-31 | reference definition of `int(text)`: strip, optional sign, ASCII digits with single underscores between them, `None` for `ValueError`; its properties are stated by Text.ParseIntDigits, Text.ParseIntNegated, Text.ParseIntOfIntToString and Text.ParseIntOfZFill |
| Text.IntToString | scripts/generate_compose.py:55 | `str(n)` of any integer is non-empty; that it reads back as n and is injective is stated by Text.ParseIntOfIntToString and Text.IntToStringInjective |
| Text.ParseIntOfIntToString | scripts/generate_compose.py:30-31 | `int(str(n)) == n` for every integer, negative ones included |
| Text.ParseIntOfNegative | scripts/generate_compose.py:44-45 | `int` reads the rendering of a negative number back as that number |
| Text.IntToStringInjective | scripts/generate_compose.py:55 | distinct integers render as distinct texts |
| Text.ParseIntDigits | scripts/generate_compose.py:30 | `int` of a plain digit string is the number those digits denote |
| Text.ParseIntNegated | scripts/generate_compose.py:44 | `int` of a minus sign followed by digits is the negated number |
| Text.ZFill | scripts/generate_compose.py:52 | `zfill` keeps text at least as wide as asked for; otherwise it pads unsigned text with zeros on the left to exactly the width |
| Text.ParseIntOfZFill | scripts/generate_compose.py:52 | the zero-padded rendering of n still reads back as n, so padding never merges two indices |
| Text.DigitsValueLeadingZeros | scripts/generate_compose.py:109 | leading zeros do not change the number a digit string denotes |
| Settings.ParseLine | scripts/generate_compose.py:22-27 | a line yields no entry exactly when it is blank once stripped, starts with `#`, or has no `=`; otherwise the key has no `=`, and both key and value are stripped |
| Settings.ParseLineSplitsAtFirstEquals | scripts/generate_compose.py:25-27 | a kept line maps the stripped text before its first `=` to the stripped text after it |
| Settings.ParseLineRoundTrip | scripts/generate_compose.py:22-27 | writing a stripped key without `=` or a leading `#` as `key=value` and reading it back gives the key and value, even when the value contains `=` |
| Settings.Parse | scripts/generate_compose.py:19-27 | a key is in the dictionary exactly when some line defines it, and it holds the value from the last such line |
| Settings.Collect | scripts/generate_compose.py:21-27 | the loop over parsed entries keeps both halves of that description, entry by entry |
| Settings.CollectStep | scripts/generate_compose.py:27 | one more entry stored with overwriting preserves the description of the dictionary |
| Settings.SkippedLineAddsNothing | scripts/generate_compose.py:23-25 | appending a skipped line leaves the dictionary unchanged |
| Settings.LaterLineOverwrites | scripts/generate_compose.py:27 | appending a line for a key overwrites that key's value and changes nothing else |
| Settings.ResolveCountText | scripts/generate_compose.py:30-31 | the count text is the kind-specific key if present, else `NUMBER_OF_CLUSTER` if present, else `3` |
| Settings.PostgresCountFromLines | scripts/generate_compose.py:30 | the last line defining `NUMBER_OF_POSTGRES_CLUSTER` decides the postgres count, whatever the generic count says |
| Settings.CountsDefaultToThree | scripts/generate_compose.py:30-31 | without any count key on any line, both counts are `3` |
| Topology.DefaultName | scripts/generate_compose.py:52 | reference definition of `etcd-NN` / `postgresql-NN`; its injectivity is stated by Topology.DefaultNamesDistinct |
| Topology.DefaultIp | scripts/generate_compose.py:55 | reference definition of `172.25.0.(start+i-1)`; its injectivity is stated by Topology.DefaultIpInjective |
| Topology.MakeNode | scripts/generate_compose.py:49-56 | node i takes the name override whenever its key is present, even if empty, and `<kind>-NN` otherwise; it takes the address override only when non-empty, and `172.25.0.(start+i-1)` otherwise |
| Topology.BuildNodes | scripts/generate_compose.py:48-67 | a list holds exactly N nodes (none for N below one), the k-th carrying index k+1 and built as node k+1 |
| Topology.DefaultNamesDistinct | scripts/generate_compose.py:52 | distinct indices get distinct default names, including past 99 |
| Topology.DefaultIpInjective | scripts/generate_compose.py:55 | default addresses of two nodes differ whenever their octets `start + i - 1` differ, whatever the two starts are |
| Topology.DefaultNodesDistinct | scripts/generate_compose.py:48-67 | without overrides, the nodes of one kind have pairwise distinct names and pairwise distinct addresses |
| Topology.DefaultRangesDisjoint | scripts/generate_compose.py:44-45 | default etcd and postgres addresses never meet when the etcd octets end before the postgres ones begin |
| Topology.ClusterNodes | scripts/generate_compose.py:70 | reference definition of CLUSTER_NODES; read back by Topology.ClusterNodesFields and Topology.DerivedStringsOfNoNodes |
| Topology.EtcdHosts | scripts/generate_compose.py:71 | reference definition of ETCD_HOSTS; read back by Topology.EtcdHostsFields and Topology.DerivedStringsOfNoNodes |
| Topology.EtcdInitialCluster | scripts/generate_compose.py:73 | reference definition of ETCD_INITIAL_CLUSTER; read back by Topology.EtcdInitialClusterFields and Topology.DerivedStringsOfNoNodes |
| Topology.ClusterNodesFields | scripts/generate_compose.py:70 | CLUSTER_NODES read back field by field is `name=https://ip:2380` for every postgres node in order, with exactly N - 1 commas |
| Topology.EtcdHostsFields | scripts/generate_compose.py:71 | ETCD_HOSTS read back field by field is `ip:2379` for every etcd node in order, with exactly N - 1 commas |
| Topology.EtcdInitialClusterFields | scripts/generate_compose.py:73 | ETCD_INITIAL_CLUSTER read back field by field is `name=http://ip:2380` for every etcd node in order, with exactly N - 1 commas |
| Topology.DerivedStringsOfNoNodes | scripts/generate_compose.py:70-73 | with no nodes, all three derived strings are empty |
| Reconciler.UsedIps | scripts/generate_compose.py:76 | an address is used exactly when some postgres or etcd node has it |
| Reconciler.BlockBase | scripts/generate_compose.py:79-80 | reference definition of the block: the first three dot-separated parts, or `172.25.0` with fewer; stated by Reconciler.BlockBaseOfQuad and Reconciler.CandidateInSameBlock |
| Reconciler.Candidate | scripts/generate_compose.py:83 | reference definition of `f"{base}.{octet}"`; its shape is stated by Reconciler.CandidateInSameBlock |
| Reconciler.BlockBaseOfQuad | scripts/generate_compose.py:79-80 | the block of a dotted quad `a.b.c.d` is `a.b.c` |
| Reconciler.FirstFreeOctet | scripts/generate_compose.py:82-86 | the ascending scan returns the first octet up to 255 whose address is unused, all before it being used, or nothing when every one is used |
| Reconciler.Reconcile | scripts/generate_compose.py:76-91 | no collision keeps the configured address; a collision moves to the least free octet of the block; an exhausted block keeps the configured address; the result is unused unless the block is exhausted |
| Reconciler.LeastFreeOctetUnique | scripts/generate_compose.py:82-86 | the least free octet is unique |
| Reconciler.ReconcileByScan | scripts/generate_compose.py:77-89 | the script's loop over octets 2..255, stopping at the first free candidate, computes exactly the reconciled address |
| Reconciler.CandidateInSameBlock | scripts/generate_compose.py:79-83 | a candidate has four dot-separated parts, and its first three are the configured address's first three |
| ComposeEmitter.PortMappings | scripts/generate_compose.py:131-138 | a node publishes ports exactly when one of its two host-port overrides is non-empty; there is one mapping per such override, to the right container port, in order |
| ComposeEmitter.BuildCompose | scripts/generate_compose.py:97-216 | the document has the configured subnet, one service and one volume per node, HAProxy at the reconciled address, and `depends_on` holding the postgres names in order |
| ComposeEmitter.ComposeEtcdServices | scripts/generate_compose.py:116-151 | the first services are the etcd services, in node order |
| ComposeEmitter.ComposePostgresServices | scripts/generate_compose.py:154-196 | the postgres services follow the etcd services, in node order |
| ComposeEmitter.ComposeVolumes | scripts/generate_compose.py:107-111 | the declared volumes are the postgres volumes, then the etcd volumes, in node order |
| ComposeEmitter.ServicesFollowNodes | scripts/generate_compose.py:116-128 | each service has its node's kind, name and address, etcd first and then postgres |
| ComposeEmitter.VolumesDeclared | scripts/generate_compose.py:107-111 | every volume a service mounts is declared in the top-level volumes section |
| ComposeEmitter.DependenciesArePostgresServices | scripts/generate_compose.py:213-215 | the `depends_on` entries are exactly the names of the postgres services, in the order those services appear |
| ComposeEmitter.EtcdEnvironmentWiring | scripts/generate_compose.py:140-147 | every etcd member gets the same initial cluster, a cluster size that reads back as the configured etcd count, and `SKIP_POSTGRES=1` |
| ComposeEmitter.PostgresEnvironmentWiring | scripts/generate_compose.py:178-186 | every postgres member gets the same CLUSTER_NODES and ETCD_HOSTS, and `SKIP_ETCD=1` |
| ComposeEmitter.VolumeNameInjective | scripts/generate_compose.py:109-111 | volume names of different kinds never meet, and within a kind distinct indices give distinct names |
| ComposeEmitter.VolumesDistinct | scripts/generate_compose.py:107-111 | with distinct indices, no two declared volumes share a name |
| ComposeEmitter.PortLines | scripts/generate_compose.py:133-138 | there is no ports block without mappings; otherwise a `ports:` heading is followed by one line per mapping, in order |
| ComposeEmitter.ServiceLinesFrame | scripts/generate_compose.py:122-151 | a node service opens with its key line, carries its address on the seventh line, and ends with a blank line |
| ComposeEmitter.ServiceLinesPorts | scripts/generate_compose.py:133-140 | the eighth line of a service is `ports:` exactly when it publishes ports, with the port lines after it in order; otherwise it is `environment:` |
| ComposeEmitter.EtcdPortsBlockIffOverride | scripts/generate_compose.py:131-138 | an etcd service's lines hold a `ports:` block exactly when its client or peer override is set |
| ComposeEmitter.PostgresPortsBlockIffOverride | scripts/generate_compose.py:169-176 | a postgres service's lines hold a `ports:` block exactly when its postgres or Patroni override is set |
| ComposeEmitter.ComposeLinesFrame | scripts/generate_compose.py:97-216 | the document carries the subnet on line 8 and ends with `depends_on:`, one entry per dependency in order, and the restart policy |
| ComposeEmitter.ComposeLines | scripts/generate_compose.py:97-216 | reference definition of the emitted lines: preamble, volumes, services in order, HAProxy; stated by ComposeEmitter.ComposeLinesFrame, ComposeEmitter.ServiceLinesFrame and ComposeEmitter.ServiceLinesPorts |
| ComposeEmitter.ComposeText | scripts/generate_compose.py:218 | reference definition of the file text: the lines joined by newlines, with a final newline |
| HaproxyEmitter.ServerLines | scripts/generate_compose.py:274 | one server line per postgres node; the lines themselves are stated by HaproxyEmitter.BuildProxyConfig |
| HaproxyEmitter.HaproxyLines | scripts/generate_compose.py:226-283 | the substituted template has 46 lines whatever the configuration, since each server pool is inserted as one newline-joined value; the contents of those lines are stated by HaproxyEmitter.PoolPositions and HaproxyEmitter.FrontendPorts |
| HaproxyEmitter.HaproxyText | scripts/generate_compose.py:226-283 | reference definition of the file text: the template lines joined by newlines, with the template's final newline |
| HaproxyEmitter.BuildProxyConfig | scripts/generate_compose.py:274-283 | the template gets the configured ports; the read-write pool has one server line per postgres node in order; the read-only pool is identical |
| HaproxyEmitter.PoolPositions | scripts/generate_compose.py:259-271 | the read-write pool sits under the back-end expecting `primary`, the read-only pool under the one expecting `replica` |
| HaproxyEmitter.FrontendPorts | scripts/generate_compose.py:242-255 | the stats listener and the two front-ends bind the configured ports |
| HaproxyEmitter.PoolsListEveryPostgresNode | scripts/generate_compose.py:259-283 | read line by line, either pool gives one server line per postgres node, in order, the same for both; with no postgres nodes both are empty |
| Generator.ReadInt | scripts/generate_compose.py:30-31 | reading a setting succeeds exactly when `int` accepts its text, with that value; otherwise it fails naming the setting |
| Generator.Assemble | scripts/generate_compose.py:48-283 | the etcd and postgres lists are the built node lists, as many nodes of each kind as configured (none when the count is below one); HAProxy's address is the reconciled one, free unless its block is exhausted; the compose document is built from those lists, the configured etcd count and that address; the proxy configuration is built from the postgres list, its read-write pool holding one server line per postgres node in order and the read-only pool identical |
| Generator.GenerateFromSettings | scripts/generate_compose.py:30-45 | a run fails exactly when an integer setting does not parse, naming the first one in the order the script reads them; otherwise it is the assembled output |
| Generator.Generate | scripts/generate_compose.py:19-45 | a run from the lines succeeds exactly when the four integer settings of the parsed dictionary parse |
| Generator.DefaultsScenario | scripts/generate_compose.py:30-91 | with three etcd and two postgres nodes, etcd sits at .10-.12 and postgres at .100-.101; HAProxy's default .100 collides and moves to .2 |

## Left out

- Choosing the root directory and checking whether `.env` exists (lines
  11-16 and 20) are filesystem I/O. The model starts from the lines of the
  settings file, and a missing file is the empty sequence of lines.
- `str.splitlines()` (line 21) is not modelled; the lines are the input.
- Writing the two files and the `print` diagnostics (lines 88, 91, 222-223,
  285-286) are side effects. The file contents are `ComposeText` and
  `HaproxyText` of the output records, not fields of `Generator.Output`.
- `int()` accepts non-ASCII Unicode digits; `Text.ParseInt` accepts ASCII
  digits only (with Python's single underscores between digits).
- Text.ParseInt: does not model CPython's limit on decimal conversions
  (`sys.get_int_max_str_digits()`, 4300 digits by default). `int()` raises
  `ValueError` on a setting with more digits (4300 zeros followed by `3`, say),
  where the model reads the number.
- Text.IntToString: likewise does not model that limit; rendering an octet of
  more than 4300 digits in lines 55 and 66 raises in CPython, not in the model.
- Generator.ReadInt: inherits that gap; "fails exactly when `int()` rejects"
  holds for settings within the digit limit.
- Generator.GenerateFromSettings: inherits the same gap, for the four integer
  settings and for the default addresses built from the start octets.
- The `string.Template` mechanics (lines 226-283) are not modelled. The
  template is written out as its lines with the values already in place.
  `substitute` (line 277) makes one pass over the template and inserts each
  value verbatim, without scanning it again, so a `$` inside a port, a node
  name or an address comes out as written; the model inserts the values the
  same way.
- No IPv4 validity is checked or promised: octets above 255 and malformed
  overrides pass through, as in the script.
- Collisions between the etcd and postgres address ranges are not checked by
  the script. `Topology.DefaultRangesDisjoint` states only when the defaults
  avoid them.
- Password values (`POSTGRES_PASSWORD`, `REPLICATOR_PASSWORD`) are passed
  through as opaque text.
- `ETCD_CLUSTER_SIZE` carries the configured etcd count (line 143), not the
  number of nodes. The two differ only when the count is below one, and then
  there is no etcd service to carry it.
- A host-port block appears when an override's value is non-empty (lines
  133 and 171 test truthiness), not merely when its key is present. The model
  follows the code.
- Topology.ClusterNodesFields: stated for at least one node; the empty case is
  `Topology.DerivedStringsOfNoNodes`, since `"".split(",")` is `[""]`, not `[]`.
