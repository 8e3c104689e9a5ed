/**
  The `.env` loader: a sequence of `KEY=value` lines becomes a dictionary from
  key to value, and the two node counts are resolved from it with fallbacks.
 */
module Settings {
  import opened Wrappers
  import opened Text

  /** One `KEY=value` entry read from a settings line. */
  datatype Setting = Setting(key: string, value: string)

  /** The generic count both node kinds fall back to. */
  const GenericCountKey := "NUMBER_OF_CLUSTER"
  const PostgresCountKey := "NUMBER_OF_POSTGRES_CLUSTER"
  const EtcdCountKey := "NUMBER_OF_ETCD_CLUSTER"
  /** The count used when neither the specific nor the generic key is set. */
  const DefaultCount := "3"

  /** The line is skipped: blank once stripped, a `#` comment, or without `=`. */
  predicate IsSkipped(line: string) {
    var s := Strip(line);
    s == [] || s[0] == '#' || '=' !in s
  }

  /**
    Reads one line: the stripped line is split at its first `=`, and key and
    value are stripped again. Skipped lines yield nothing; the key never holds
    `=` and neither key nor value has whitespace at its ends.
   */
  function ParseLine(line: string): (r: Option<Setting>)
    ensures r.None? <==> IsSkipped(line)
    ensures r.Some? ==> '=' !in r.value.key && IsStripped(r.value.key) && IsStripped(r.value.value)
  {
    var s := Strip(line);
    if s == [] || s[0] == '#' then None
    else
      match IndexOf(s, '=')
      case None => None
      case Some(i) =>
        var key := Strip(s[..i]);
        assert '=' !in key by {
          var a := LeadingSpace(s[..i]);
          assert forall k :: 0 <= k < |key| ==> key[k] == s[..i][a + k];
        }
        Some(Setting(key, Strip(s[i + 1..])))
  }

  /**
    A line that is not skipped is cut at its first `=`: the key is the stripped
    text before it and the value the stripped text after it.
   */
  lemma ParseLineSplitsAtFirstEquals(line: string)
    requires !IsSkipped(line)
    ensures var s := Strip(line);
      exists i :: 0 <= i < |s| && s[i] == '=' && '=' !in s[..i]
        && ParseLine(line) == Some(Setting(Strip(s[..i]), Strip(s[i + 1..])))
  {
    var s := Strip(line);
    var i := IndexOf(s, '=').value;
    assert s[i] == '=' && '=' !in s[..i];
  }

  /** The parsed entry of a line defines `key`. */
  predicate Defines(entry: Option<Setting>, key: string) {
    entry.Some? && entry.value.key == key
  }

  /** Entry `i` is the last of `entries` that defines `key`. */
  ghost predicate IsLastDefinition(entries: seq<Option<Setting>>, key: string, i: int) {
    && 0 <= i < |entries|
    && Defines(entries[i], key)
    && forall j :: i < j < |entries| ==> !Defines(entries[j], key)
  }

  /** Exactly the keys some entry defines are present. */
  ghost predicate HasDefinedKeys(entries: seq<Option<Setting>>, vars: map<string, string>) {
    forall key :: key in vars <==> exists i :: 0 <= i < |entries| && Defines(entries[i], key)
  }

  /** Every key holds the value of the last entry that defines it. */
  ghost predicate LastEntryWins(entries: seq<Option<Setting>>, vars: map<string, string>) {
    forall key, i :: IsLastDefinition(entries, key, i) ==>
      key in vars && vars[key] == entries[i].value.value
  }

  /** The entries read from the lines, one per line, in order. */
  function Entries(lines: seq<string>): (entries: seq<Option<Setting>>)
    ensures |entries| == |lines|
    ensures forall i :: 0 <= i < |lines| ==> entries[i] == ParseLine(lines[i])
  {
    seq(|lines|, i requires 0 <= i < |lines| => ParseLine(lines[i]))
  }

  /**
    The dictionary the loader builds from the lines, in order: a key is present
    exactly when some line defines it, and its value comes from the last line
    that does.
   */
  function Parse(lines: seq<string>): (vars: map<string, string>)
    ensures HasDefinedKeys(Entries(lines), vars)
    ensures LastEntryWins(Entries(lines), vars)
  {
    Collect(Entries(lines))
  }

  /** The loader's loop over already-parsed entries. */
  function Collect(entries: seq<Option<Setting>>): (vars: map<string, string>)
    ensures HasDefinedKeys(entries, vars)
    ensures LastEntryWins(entries, vars)
  {
    if entries == [] then map[]
    else
      var init := entries[..|entries| - 1];
      var last := entries[|entries| - 1];
      var prev := Collect(init);
      CollectStep(init, last, prev);
      assert entries == init + [last];
      AddEntry(prev, last)
  }

  /** One iteration of the loader's loop: a parsed entry is stored, overwriting. */
  function AddEntry(vars: map<string, string>, entry: Option<Setting>): map<string, string>
  {
    match entry
    case None => vars
    case Some(setting) => vars[setting.key := setting.value]
  }

  /** Adding one entry keeps both halves of the dictionary's description. */
  lemma CollectStep(init: seq<Option<Setting>>, last: Option<Setting>, prev: map<string, string>)
    requires HasDefinedKeys(init, prev) && LastEntryWins(init, prev)
    ensures HasDefinedKeys(init + [last], AddEntry(prev, last))
    ensures LastEntryWins(init + [last], AddEntry(prev, last))
  {
    var entries := init + [last];
    var vars := AddEntry(prev, last);
    assert forall i :: 0 <= i < |init| ==> entries[i] == init[i];
    assert entries[|init|] == last;
    forall key
      ensures key in vars <==> exists i :: 0 <= i < |entries| && Defines(entries[i], key)
    {
      if key in vars && !Defines(last, key) {
        var i :| 0 <= i < |init| && Defines(init[i], key);
        assert Defines(entries[i], key);
      }
      if Defines(last, key) {
        assert Defines(entries[|init|], key);
      }
      if j :| 0 <= j < |entries| && Defines(entries[j], key) {
        if j < |init| {
          assert Defines(init[j], key);
        }
      }
    }
    forall key, i | IsLastDefinition(entries, key, i)
      ensures key in vars && vars[key] == entries[i].value.value
    {
      if i < |init| {
        assert !Defines(entries[|init|], key);
        assert IsLastDefinition(init, key, i);
      }
    }
  }

  /** A skipped line leaves the dictionary as it was. */
  lemma SkippedLineAddsNothing(lines: seq<string>, line: string)
    requires IsSkipped(line)
    ensures Parse(lines + [line]) == Parse(lines)
  {
    var entries := Entries(lines + [line]);
    assert entries[..|lines|] == Entries(lines);
  }

  /** A later line for the same key overwrites whatever earlier lines said. */
  lemma LaterLineOverwrites(lines: seq<string>, line: string, key: string, value: string)
    requires ParseLine(line) == Some(Setting(key, value))
    ensures Parse(lines + [line]) == Parse(lines)[key := value]
  {
    var entries := Entries(lines + [line]);
    assert entries[..|lines|] == Entries(lines);
  }

  /**
    Writing a setting as `key=value` and reading it back gives the setting, as
    long as the key is stripped, holds no `=` and does not start a comment, and
    the value is stripped. The value may itself contain `=`.
   */
  lemma ParseLineRoundTrip(key: string, value: string)
    requires IsStripped(key) && IsStripped(value)
    requires '=' !in key
    requires key == [] || key[0] != '#'
    ensures ParseLine(key + "=" + value) == Some(Setting(key, value))
  {
    var line := key + ['='] + value;
    assert key + "=" + value == line;
    StripOfSettingLine(key, value);
    assert line[0] != '#' by {
      if key != [] {
        assert line[0] == key[0];
      }
    }
    IndexOfAfterPrefix(key, '=', value);
    assert line[..|key|] == key;
    assert line[|key| + 1..] == value;
    StripStripped(key);
    StripStripped(value);
  }

  lemma StripOfSettingLine(key: string, value: string)
    requires IsStripped(key) && IsStripped(value)
    ensures Strip(key + ['='] + value) == key + ['='] + value
  {
    var line := key + ['='] + value;
    if key != [] {
      assert line[0] == key[0];
    }
    if value != [] {
      assert line[|line| - 1] == value[|value| - 1];
    }
    StripStripped(line);
  }

  /** Python's `vars.get(key, default)`. */
  function Get(vars: map<string, string>, key: string, default: string): string
  {
    if key in vars then vars[key] else default
  }

  /** The network subnet and HAProxy's three published ports. */
  function Subnet(vars: map<string, string>): string {
    Get(vars, "PROJECT_NETWORK_SUBNET", "172.25.0.0/16")
  }

  function ReadWritePort(vars: map<string, string>): string {
    Get(vars, "HAPROXY_FRONTEND_READWRITE", "5000")
  }

  function ReadOnlyPort(vars: map<string, string>): string {
    Get(vars, "HAPROXY_FRONTEND_READONLY", "5001")
  }

  function StatsPort(vars: map<string, string>): string {
    Get(vars, "HAPROXY_STATS_PORT", "8404")
  }

  /** The in-container postgres and Patroni REST ports, shared by compose and HAProxy. */
  function PostgresPort(vars: map<string, string>): string {
    Get(vars, "POSTGRES_PORT", "5432")
  }

  function PatroniPort(vars: map<string, string>): string {
    Get(vars, "PATRONI_PORT", "8008")
  }

  /**
    The text of a node count: the kind-specific key if present, else the
    generic `NUMBER_OF_CLUSTER`, else `3`.
   */
  function ResolveCountText(vars: map<string, string>, specificKey: string): (r: string)
    ensures specificKey in vars ==> r == vars[specificKey]
    ensures specificKey !in vars && GenericCountKey in vars ==> r == vars[GenericCountKey]
    ensures specificKey !in vars && GenericCountKey !in vars ==> r == DefaultCount
  {
    Get(vars, specificKey, Get(vars, GenericCountKey, DefaultCount))
  }

  /**
    The postgres count read from the lines: the last line defining
    `NUMBER_OF_POSTGRES_CLUSTER` decides it, even when a generic count is also
    given.
   */
  lemma PostgresCountFromLines(lines: seq<string>, i: int)
    requires IsLastDefinition(Entries(lines), PostgresCountKey, i)
    ensures ResolveCountText(Parse(lines), PostgresCountKey) == ParseLine(lines[i]).value.value
  {
  }

  /** Without any count key on any line, both counts are the default `3`. */
  lemma CountsDefaultToThree(lines: seq<string>)
    requires forall i :: 0 <= i < |lines| ==> ParseLine(lines[i]).None? || ParseLine(lines[i]).value.key !in {PostgresCountKey, EtcdCountKey, GenericCountKey}
    ensures ResolveCountText(Parse(lines), PostgresCountKey) == DefaultCount
    ensures ResolveCountText(Parse(lines), EtcdCountKey) == DefaultCount
  {
    var vars := Parse(lines);
    assert PostgresCountKey !in vars && EtcdCountKey !in vars && GenericCountKey !in vars;
  }
}
