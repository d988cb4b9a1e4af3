/** `useAgents`: the agents the turns name merged with the configured
    ones, each with its turn count, the time of its latest turn and its
    config, if any. */
module Agents {
  import opened Common
  import opened Turns
  import opened OrderedMap
  import opened Grouping

  /** A Supabase error, of which only the code matters here. */
  datatype DbError = DbError(code: string)

  /** A query's `{ data, error }`. */
  datatype Fetch<T> = Rows(rows: seq<T>) | Failed(error: DbError)

  /** What the query function resolves to, or the error it throws. */
  datatype Outcome<T> = Ok(value: T) | Thrown(error: DbError)

  /** The `agent_configs` columns the hook reads, and a few more. */
  datatype AgentConfig = AgentConfig(id: string, agentIdentifier: string, name: string, defaultModel: string)

  /** `{ count, lastActivity }` */
  datatype Stats = Stats(count: nat, lastActivity: string)

  /** The body of the `forEach`: the first row of an agent records its
      `created_at`, later rows only bump the count. */
  function StatsStep(o: Option<Stats>, t: Turn): Stats {
    match o
    case None => Stats(1, t.createdAt)
    case Some(e) => Stats(e.count + 1, e.lastActivity)
  }

  /** The first row of agent `a`, if any. */
  function FirstRow(turns: seq<Turn>, a: string): (r: Option<nat>)
    ensures r.Some? ==> r.value < |turns| && AgentKey(turns[r.value]) == a
    ensures r.Some? ==> forall j :: 0 <= j < r.value ==> AgentKey(turns[j]) != a
    ensures r.None? <==> forall j :: 0 <= j < |turns| ==> AgentKey(turns[j]) != a
  {
    var r := IndexOf(MapSeq(turns, AgentKey), a);
    assert r.None? ==> forall j :: 0 <= j < |turns| ==> MapSeq(turns, AgentKey)[j] != a;
    r
  }

  /** The first row of `a` in a longer list is the one it had before, or
      else the new last row if that row is `a`'s. */
  lemma FirstRowLast(turns: seq<Turn>, a: string)
    requires turns != []
    ensures FirstRow(turns, a)
         == if FirstRow(turns[..|turns| - 1], a).Some? then FirstRow(turns[..|turns| - 1], a)
            else if AgentKey(turns[|turns| - 1]) == a then Some(|turns| - 1)
            else None
  {
    var front := turns[..|turns| - 1];
    var r := FirstRow(turns, a);
    var q := FirstRow(front, a);
    assert forall j :: 0 <= j < |front| ==> front[j] == turns[j];
    if q.Some? {
      assert r.Some? && r.value <= q.value;
    } else if AgentKey(turns[|turns| - 1]) == a {
      assert r.Some?;
    }
  }

  /** An agent's record holds its number of rows and the `created_at` of
      its first row. */
  lemma {:induction false} FoldStats(turns: seq<Turn>, a: string)
    ensures FoldFor(turns, AgentKey, StatsStep, a)
         == match FirstRow(turns, a)
            case None => None
            case Some(k) => Some(Stats(Count(turns, HasKey(AgentKey, a)), turns[k].createdAt))
    decreases |turns|
  {
    if turns != [] {
      var front := turns[..|turns| - 1];
      FoldStats(front, a);
      CountLast(turns, HasKey(AgentKey, a));
      FirstRowLast(turns, a);
      match FirstRow(front, a) {
        case Some(k) =>
          assert turns[k] == front[k];
        case None =>
          CountNone(front, a);
      }
    }
  }

  lemma {:induction false} CountNone(turns: seq<Turn>, a: string)
    requires forall j :: 0 <= j < |turns| ==> AgentKey(turns[j]) != a
    ensures Count(turns, HasKey(AgentKey, a)) == 0
    decreases |turns|
  {
    if turns != [] {
      CountNone(turns[1..], a);
    }
  }

  /** The rows arrive newest first, so the first row of an agent is its
      latest: whatever the time order, `lastActivity` belongs to the row
      that is not older than any other row of that agent. */
  lemma LastActivityIsLatest(turns: seq<Turn>, time: Turn -> int, a: string)
    requires forall i, j :: 0 <= i < j < |turns| ==> time(turns[i]) >= time(turns[j])
    requires FirstRow(turns, a).Some?
    ensures var k := FirstRow(turns, a).value;
      forall j :: 0 <= j < |turns| && AgentKey(turns[j]) == a ==> time(turns[k]) >= time(turns[j])
  {
  }

  function ConfigId(c: AgentConfig): string {
    c.agentIdentifier
  }

  /** `new Map(configs.map((c) => [c.agent_identifier, c]))`: later entries
      overwrite earlier ones. */
  function KeepLast(o: Option<AgentConfig>, c: AgentConfig): AgentConfig {
    c
  }

  function ConfigMap(configs: seq<AgentConfig>): OMap<string, AgentConfig> {
    Tally(configs, ConfigId, KeepLast)
  }

  /** The last config with identifier `id`, if any. */
  function LastConfig(configs: seq<AgentConfig>, id: string): (r: Option<nat>)
    ensures r.Some? ==> r.value < |configs| && configs[r.value].agentIdentifier == id
    ensures r.Some? ==> forall j :: r.value < j < |configs| ==> configs[j].agentIdentifier != id
    ensures r.None? <==> forall j :: 0 <= j < |configs| ==> configs[j].agentIdentifier != id
    decreases |configs|
  {
    if configs == [] then None
    else if configs[|configs| - 1].agentIdentifier == id then Some(|configs| - 1)
    else LastConfig(configs[..|configs| - 1], id)
  }

  /** The config map holds, for each identifier, its last config. */
  lemma {:induction false} ConfigMapGet(configs: seq<AgentConfig>, id: string)
    ensures Get(ConfigMap(configs), id)
         == match LastConfig(configs, id)
            case None => None
            case Some(k) => Some(configs[k])
    decreases |configs|
  {
    TallyGet(configs, ConfigId, KeepLast, id);
    FoldLast(configs, id);
  }

  lemma {:induction false} FoldLast(configs: seq<AgentConfig>, id: string)
    ensures FoldFor(configs, ConfigId, KeepLast, id)
         == match LastConfig(configs, id)
            case None => None
            case Some(k) => Some(configs[k])
    decreases |configs|
  {
    if configs != [] {
      FoldLast(configs[..|configs| - 1], id);
    }
  }

  /** `new Set([...discovered, ...configs.map((c) => c.agent_identifier)])` */
  function AllAgentIds(discovered: seq<string>, configs: seq<AgentConfig>): seq<string> {
    Dedup(discovered + MapSeq(configs, ConfigId))
  }

  /** `{ identifier, config, turnCount, lastActivity }` */
  datatype AgentWithConfig = AgentWithConfig(
    identifier: string,
    config: Option<AgentConfig>,
    turnCount: nat,
    lastActivity: Option<string>
  )

  function AgentRow(id: string, configMap: OMap<string, AgentConfig>, statsMap: OMap<string, Stats>): AgentWithConfig {
    var stats := Get(statsMap, id);
    AgentWithConfig(id, Get(configMap, id),
                    if stats.Some? then stats.value.count else 0,
                    if stats.Some? then Some(stats.value.lastActivity) else None)
  }

  function AgentsOf(discovered: seq<string>, configs: seq<AgentConfig>, turns: seq<Turn>): seq<AgentWithConfig> {
    var statsMap := Tally(turns, AgentKey, StatsStep);
    var configMap := ConfigMap(configs);
    MapSeq(AllAgentIds(discovered, configs), id => AgentRow(id, configMap, statsMap))
  }

  /** The query function: a config error other than "42P01" (no such
      table) is thrown, "42P01" means no configs; then a turns error is
      thrown. */
  function UseAgents(discovered: seq<string>, configFetch: Fetch<AgentConfig>, statsFetch: Fetch<Turn>)
    : (r: Outcome<seq<AgentWithConfig>>)
    ensures r.Thrown? <==> (configFetch.Failed? && configFetch.error.code != "42P01") || statsFetch.Failed?
    ensures configFetch.Failed? && configFetch.error.code != "42P01" ==> r == Thrown(configFetch.error)
    ensures r.Ok? ==> r.value == AgentsOf(discovered, if configFetch.Rows? then configFetch.rows else [], statsFetch.rows)
  {
    if configFetch.Failed? && configFetch.error.code != "42P01" then Thrown(configFetch.error)
    else
      var configs := if configFetch.Rows? then configFetch.rows else [];
      match statsFetch
      case Failed(e) => Thrown(e)
      case Rows(turns) => Ok(AgentsOf(discovered, configs, turns))
  }

  /** The same, with the `forEach` over the turns as a loop. */
  method RunUseAgents(discovered: seq<string>, configFetch: Fetch<AgentConfig>, statsFetch: Fetch<Turn>)
    returns (r: Outcome<seq<AgentWithConfig>>)
    ensures r == UseAgents(discovered, configFetch, statsFetch)
  {
    if configFetch.Failed? && configFetch.error.code != "42P01" {
      return Thrown(configFetch.error);
    }
    if statsFetch.Failed? {
      return Thrown(statsFetch.error);
    }
    var configs := if configFetch.Rows? then configFetch.rows else [];
    var statsMap := RunTally(statsFetch.rows, AgentKey, StatsStep);
    var configMap := ConfigMap(configs);
    var ids := AllAgentIds(discovered, configs);
    r := Ok(MapSeq(ids, id => AgentRow(id, configMap, statsMap)));
  }

  /** Each identifier of either source once, discovered agents first. */
  lemma AgentsIdentifiers(discovered: seq<string>, configs: seq<AgentConfig>, turns: seq<Turn>)
    ensures var ids := MapSeq(AgentsOf(discovered, configs, turns), (a: AgentWithConfig) => a.identifier);
      && Distinct(ids)
      && (forall id :: id in ids <==> id in discovered || exists j :: 0 <= j < |configs| && configs[j].agentIdentifier == id)
      && |Dedup(discovered)| <= |ids| && ids[..|Dedup(discovered)|] == Dedup(discovered)
  {
    var ids := MapSeq(AgentsOf(discovered, configs, turns), (a: AgentWithConfig) => a.identifier);
    var all := AllAgentIds(discovered, configs);
    assert ids == all;
    DedupConcat(discovered, MapSeq(configs, ConfigId));
    forall id ensures id in all <==> id in discovered || exists j :: 0 <= j < |configs| && configs[j].agentIdentifier == id {
      assert id in discovered + MapSeq(configs, ConfigId) <==> id in discovered || id in MapSeq(configs, ConfigId);
      if id in MapSeq(configs, ConfigId) {
        var j :| 0 <= j < |configs| && MapSeq(configs, ConfigId)[j] == id;
      }
      if exists j :: 0 <= j < |configs| && configs[j].agentIdentifier == id {
        var j :| 0 <= j < |configs| && configs[j].agentIdentifier == id;
        assert MapSeq(configs, ConfigId)[j] == id;
      }
    }
  }

  /** Each row counts the agent's turns and carries its latest turn's time
      (none, with count 0, for an agent without turns) and its last config
      (none if it has no config). */
  lemma AgentsEntry(discovered: seq<string>, configs: seq<AgentConfig>, turns: seq<Turn>, i: nat)
    requires i < |AgentsOf(discovered, configs, turns)|
    ensures var e := AgentsOf(discovered, configs, turns)[i];
      && e.turnCount == Count(turns, HasKey(AgentKey, e.identifier))
      && (match FirstRow(turns, e.identifier)
          case None => e.lastActivity == None
          case Some(k) => e.lastActivity == Some(turns[k].createdAt))
      && (match LastConfig(configs, e.identifier)
          case None => e.config == None
          case Some(k) => e.config == Some(configs[k]))
  {
    var e := AgentsOf(discovered, configs, turns)[i];
    TallyGet(turns, AgentKey, StatsStep, e.identifier);
    FoldStats(turns, e.identifier);
    ConfigMapGet(configs, e.identifier);
    if FirstRow(turns, e.identifier).None? {
      CountNone(turns, e.identifier);
    }
  }
}
