/**
 The agent-facing side of the MCP manager (src-tauri/src/mcp.rs): prefixed tool names, the
 transport lookup, and the tools a snapshot of the manager exposes.
 */
module McpTools {
  import opened Base
  import opened L = McpLifecycle
  import opened Text

  // ---- Tool names ------------------------------------------------------------------------------------

  const MCP_TOOL_PREFIX := "mcp__"

  function PrefixedToolName(serverId: string, toolName: string): string {
    MCP_TOOL_PREFIX + serverId + "__" + toolName
  }

  /** `find("__")`: the first position where two underscores start. */
  function FindSeparator(s: string): (r: Option<nat>)
    ensures r.Some? ==> r.value + 2 <= |s| && s[r.value] == '_' && s[r.value + 1] == '_'
    ensures r.Some? ==> forall i | 0 <= i < r.value :: !(s[i] == '_' && s[i + 1] == '_')
    ensures r.None? ==> forall i | 0 <= i < |s| - 1 :: !(s[i] == '_' && s[i + 1] == '_')
  {
    if |s| < 2 then None
    else if s[0] == '_' && s[1] == '_' then Some(0)
    else match FindSeparator(s[1..])
      case None => None
      case Some(k) => Some(k + 1)
  }

  function ParseMcpToolName(name: string): Option<(string, string)> {
    if !IsPrefix(MCP_TOOL_PREFIX, name) then None
    else
      var rest := name[|MCP_TOOL_PREFIX|..];
      match FindSeparator(rest)
      case None => None
      case Some(i) =>
        var (serverId, toolName) := (rest[..i], rest[i + 2..]);
        if serverId == "" || toolName == "" then None else Some((serverId, toolName))
  }

  /** Server ids that the name format can carry. */
  predicate CleanId(serverId: string) {
    FindSeparator(serverId) == None && (serverId != "" ==> serverId[|serverId| - 1] != '_')
  }

  /** The separator is found at the end of the id exactly for clean ids. */
  lemma SeparatorAfterCleanId(serverId: string, toolName: string)
    ensures FindSeparator(serverId + "__" + toolName) == Some(|serverId|) <==> CleanId(serverId)
  {
    var n := |serverId|;
    var rest := serverId + "__" + toolName;
    assert rest[n] == '_' && rest[n + 1] == '_';
    var k := FindSeparator(rest).value;
    assert k <= n;
    if k == n {
      assert serverId == rest[..n];
      assert n > 0 ==> serverId[n - 1] == rest[n - 1];
    } else if k + 1 < n {
      assert serverId[k] == '_' && serverId[k + 1] == '_';
    } else {
      assert serverId[n - 1] == rest[n - 1];
    }
  }

  /** Main result: parsing inverts prefixing exactly for non-empty clean ids and non-empty tool names. */
  lemma ParseInvertsPrefix(serverId: string, toolName: string)
    ensures ParseMcpToolName(PrefixedToolName(serverId, toolName)) == Some((serverId, toolName))
       <==> serverId != "" && toolName != "" && CleanId(serverId)
  {
    var rest := serverId + "__" + toolName;
    var name := PrefixedToolName(serverId, toolName);
    assert name == MCP_TOOL_PREFIX + rest && name[|MCP_TOOL_PREFIX|..] == rest;
    SeparatorAfterCleanId(serverId, toolName);
    if FindSeparator(rest) == Some(|serverId|) {
      assert rest[..|serverId|] == serverId && rest[|serverId| + 2..] == toolName;
    } else if FindSeparator(rest).Some? {
      assert |rest[..FindSeparator(rest).value]| != |serverId|;
    }
  }

  lemma SplitAtSeparator(s: string, i: nat)
    requires i + 2 <= |s| && s[i] == '_' && s[i + 1] == '_'
    ensures s == s[..i] + "__" + s[i + 2..]
  {
    assert s == s[..i] + [s[i], s[i + 1]] + s[i + 2..];
  }

  /** Main result: whatever parses is the prefixed form of its parts. */
  lemma PrefixInvertsParse(name: string)
    requires ParseMcpToolName(name).Some?
    ensures var (serverId, toolName) := ParseMcpToolName(name).value;
            PrefixedToolName(serverId, toolName) == name && CleanId(serverId) && serverId != "" && toolName != ""
  {
    hide FindSeparator, CleanId;
    var rest := name[|MCP_TOOL_PREFIX|..];
    var i := FindSeparator(rest).value;
    var (serverId, toolName) := ParseMcpToolName(name).value;
    SplitAtSeparator(rest, i);
    assert name == name[..|MCP_TOOL_PREFIX|] + rest;
    SeparatorAfterCleanId(serverId, toolName);
  }

  lemma PrefixIsInjective(s1: string, t1: string, s2: string, t2: string)
    requires CleanId(s1) && CleanId(s2) && PrefixedToolName(s1, t1) == PrefixedToolName(s2, t2)
    ensures s1 == s2 && t1 == t2
  {
    var r1, r2 := s1 + "__" + t1, s2 + "__" + t2;
    assert PrefixedToolName(s1, t1) == MCP_TOOL_PREFIX + r1 && PrefixedToolName(s2, t2) == MCP_TOOL_PREFIX + r2;
    assert r1 == (MCP_TOOL_PREFIX + r1)[|MCP_TOOL_PREFIX|..] == r2;
    SeparatorAfterCleanId(s1, t1);
    SeparatorAfterCleanId(s2, t2);
    assert s1 == r1[..|s1|] && t1 == r1[|s1| + 2..];
    assert s2 == r2[..|s2|] && t2 == r2[|s2| + 2..];
  }

  // ---- Exposure --------------------------------------------------------------------------------------

  /** `order` is an enumeration of the hash map: every key once. */
  ghost predicate Enumerates(order: seq<ServerId>, servers: map<ServerId, Server>) {
    NoDuplicates(order) && (forall id :: id in order <==> id in servers)
  }

  /** The transport a proxy would call for this server, at this snapshot. */
  function GetTransport(servers: map<ServerId, Server>, id: ServerId): Option<Connection> {
    if id in servers then servers[id].connection else None
  }

  function ToolsOf(server: Server): seq<ToolDef> {
    if server.status == Connected then server.tools else []
  }

  function AllTools(servers: map<ServerId, Server>, order: seq<ServerId>): seq<ToolDef>
    requires forall id | id in order :: id in servers
  {
    if order == [] then [] else ToolsOf(servers[order[0]]) + AllTools(servers, order[1..])
  }

  /** server_meta: flags and allowlists keyed by the id inside each config, later entries winning. */
  function ServerMeta(servers: map<ServerId, Server>, order: seq<ServerId>): map<ServerId, ServerConfig>
    requires forall id | id in order :: id in servers
  {
    if order == [] then map[]
    else
      var config := servers[order[|order| - 1]].config;
      ServerMeta(servers, order[..|order| - 1])[config.id := config]
  }

  datatype ToolProxy = ToolProxy(tool: ToolDef, prefixedName: string, autoApprove: bool)

  predicate Allowed(meta: map<ServerId, ServerConfig>, tool: ToolDef) {
    tool.serverId in meta && meta[tool.serverId].allowlist.Some? ==> tool.name in meta[tool.serverId].allowlist.value
  }

  function MakeProxy(meta: map<ServerId, ServerConfig>, tool: ToolDef): ToolProxy {
    ToolProxy(tool, PrefixedToolName(tool.serverId, tool.name),
              tool.serverId in meta && meta[tool.serverId].autoApprove)
  }

  function CreateToolProxies(servers: map<ServerId, Server>, order: seq<ServerId>): (r: seq<ToolProxy>)
    requires forall id | id in order :: id in servers
  {
    var meta := ServerMeta(servers, order);
    var kept := Filter(AllTools(servers, order), (t: ToolDef) => Allowed(meta, t));
    seq(|kept|, i requires 0 <= i < |kept| => MakeProxy(meta, kept[i]))
  }

  lemma {:induction false} AllToolsMembers(servers: map<ServerId, Server>, order: seq<ServerId>, t: ToolDef)
    requires forall id | id in order :: id in servers
    ensures t in AllTools(servers, order) <==> exists id | id in order :: t in ToolsOf(servers[id])
  {
    if order != [] {
      AllToolsMembers(servers, order[1..], t);
      assert forall id :: id in order <==> id == order[0] || id in order[1..];
    }
  }

  /** Main result: in every reachable state, every exposed tool can be called: its server has a transport. */
  lemma ExposedToolsHaveTransports(configs: map<ServerId, ServerConfig>, es: seq<Event>, order: seq<ServerId>, t: ToolDef)
    requires Run(Initial(configs), es).Some?
    requires Enumerates(order, Run(Initial(configs), es).value.servers)
    requires t in AllTools(Run(Initial(configs), es).value.servers, order)
    ensures GetTransport(Run(Initial(configs), es).value.servers, t.serverId).Some?
  {
    var s := Run(Initial(configs), es).value;
    RunsKeepInvariant(configs, es);
    AllToolsMembers(s.servers, order, t);
    var id :| id in order && t in ToolsOf(s.servers[id]);
    assert ServerOk(s, id);
  }

  // ---- Which tools are exposed ---------------------------------------------------------------------------

  /** Every server is filed under the id its config carries. */
  ghost predicate FiledUnderOwnId(servers: map<ServerId, Server>) {
    forall id | id in servers :: servers[id].config.id == id
  }

  /** update_server is the only call that can break this, and does so exactly when it changes the id. */
  lemma StepKeepsFiling(s: State, e: Event)
    requires FiledUnderOwnId(s.servers) && Enabled(s, e)
    ensures FiledUnderOwnId(Apply(s, e).servers) <==> (e.UpdateServer? && e.id in s.servers ==> e.config.id == e.id)
  {
    var t := Apply(s, e).servers;
    if e.UpdateServer? && e.id in s.servers {
      assert t[e.id].config == e.config;
    }
    assert forall id | id in t && id in s.servers && !(e.UpdateServer? && id == e.id) :: t[id].config == s.servers[id].config;
  }

  lemma {:induction false} MetaIsOwnConfig(servers: map<ServerId, Server>, order: seq<ServerId>)
    requires FiledUnderOwnId(servers) && forall id | id in order :: id in servers
    ensures forall id :: id in ServerMeta(servers, order) <==> id in order
    ensures forall id | id in order :: ServerMeta(servers, order)[id] == servers[id].config
  {
    if order != [] {
      var init := order[..|order| - 1];
      assert order == init + [order[|order| - 1]];
      MetaIsOwnConfig(servers, init);
    }
  }

  ghost predicate FiledAfter(configs: map<ServerId, ServerConfig>, es: seq<Event>) {
    Run(Initial(configs), es).Some? && FiledUnderOwnId(Run(Initial(configs), es).value.servers)
  }

  ghost predicate FiledThroughout(configs: map<ServerId, ServerConfig>, es: seq<Event>) {
    forall n | 0 <= n <= |es| :: FiledAfter(configs, es[..n])
  }

  /** e, coming after es, is not an update of a known server with another id. */
  ghost predicate KeepsId(configs: map<ServerId, ServerConfig>, es: seq<Event>, e: Event) {
    e.UpdateServer? && Configured(configs, es, e.id) ==> e.config.id == e.id
  }

  /** The configs are loaded under their own ids, and no update of a known server changes the id. */
  ghost predicate KeepsIds(configs: map<ServerId, ServerConfig>, es: seq<Event>) {
    && (forall id | id in configs :: configs[id].id == id)
    && (forall n | 0 <= n < |es| :: KeepsId(configs, es[..n], es[n]))
  }

  /** Main result: servers stay filed under their own ids through a whole run exactly when ids are kept. */
  lemma {:induction false} RunsKeepFiling(configs: map<ServerId, ServerConfig>, es: seq<Event>)
    requires Run(Initial(configs), es).Some?
    ensures FiledThroughout(configs, es) <==> KeepsIds(configs, es)
  {
    hide KeepsId, FiledAfter, Apply, Enabled;
    if es == [] {
      assert es[..0] == es;
      InitialFiling(configs);
    } else {
      var n := |es| - 1;
      var before := es[..n];
      RunsKeepFiling(configs, before);
      assert forall k | 0 <= k <= n :: before[..k] == es[..k];
      assert es[..n + 1] == es && before[..n] == before;
      assert FiledThroughout(configs, es) <==> FiledThroughout(configs, before) && FiledAfter(configs, es);
      if FiledThroughout(configs, before) {
        assert FiledAfter(configs, before[..n]);
        FilingStep(configs, es);
      }
    }
  }

  lemma FilingStep(configs: map<ServerId, ServerConfig>, es: seq<Event>)
    requires Run(Initial(configs), es).Some? && es != [] && FiledAfter(configs, es[..|es| - 1])
    ensures FiledAfter(configs, es) <==> KeepsId(configs, es[..|es| - 1], es[|es| - 1])
  {
    hide Apply, Enabled, Configured, FiledUnderOwnId;
    var before, e := es[..|es| - 1], es[|es| - 1];
    if e.UpdateServer? {
      OnlyAddAndRemoveChangeServers(configs, before, e.id);
    }
    StepKeepsFiling(Run(Initial(configs), before).value, e);
  }

  lemma InitialFiling(configs: map<ServerId, ServerConfig>)
    ensures FiledAfter(configs, []) <==> forall id | id in configs :: configs[id].id == id
  {
    RunNothing(Initial(configs));
    assert forall id :: id in Initial(configs).servers <==> id in configs;
    assert forall id | id in configs :: Initial(configs).servers[id].config == configs[id];
  }

  /** t's server is connected, has the tool and does not hide it. */
  ghost predicate IsAllowed(servers: map<ServerId, Server>, t: ToolDef) {
    && t.serverId in servers
    && var server := servers[t.serverId];
       && server.status == Connected && t in server.tools
       && (server.config.allowlist.Some? ==> t.name in server.config.allowlist.value)
  }

  /** t has a proxy exactly when it is allowed, and the proxy carries its server's flag and the prefixed name. */
  ghost predicate ExposedAsAllowed(servers: map<ServerId, Server>, order: seq<ServerId>, t: ToolDef)
    requires Enumerates(order, servers)
  {
    && (IsExposed(servers, order, t) <==> IsAllowed(servers, t))
    && forall p | p in CreateToolProxies(servers, order) && p.tool == t ::
         t.serverId in servers && p.autoApprove == servers[t.serverId].config.autoApprove
         && p.prefixedName == PrefixedToolName(t.serverId, t.name)
  }

  ghost predicate IsExposed(servers: map<ServerId, Server>, order: seq<ServerId>, t: ToolDef)
    requires Enumerates(order, servers)
  {
    exists p | p in CreateToolProxies(servers, order) :: p.tool == t
  }

  lemma ExposedTools(servers: map<ServerId, Server>, order: seq<ServerId>, t: ToolDef)
    requires Enumerates(order, servers)
    ensures IsExposed(servers, order, t) <==> t in AllTools(servers, order) && Allowed(ServerMeta(servers, order), t)
    ensures forall p | p in CreateToolProxies(servers, order) && p.tool == t :: p == MakeProxy(ServerMeta(servers, order), t)
  {
    hide ServerMeta, AllTools, Allowed;
    var meta := ServerMeta(servers, order);
    var kept := Filter(AllTools(servers, order), (u: ToolDef) => Allowed(meta, u));
    var proxies := CreateToolProxies(servers, order);
    if t in kept {
      var i :| 0 <= i < |kept| && kept[i] == t;
      assert proxies[i].tool == t;
    }
    forall p | p in proxies && p.tool == t ensures t in kept && p == MakeProxy(meta, t) {
      var i :| 0 <= i < |proxies| && proxies[i] == p;
    }
  }

  /** Main result: the proxies are exactly the allowlisted tools of connected servers. */
  lemma ProxiesCoverAllowedTools(s: State, order: seq<ServerId>, t: ToolDef)
    requires Invariant(s) && Enumerates(order, s.servers) && FiledUnderOwnId(s.servers)
    ensures ExposedAsAllowed(s.servers, order, t)
  {
    hide AuditAgrees, TasksOk, CreateToolProxies, ServerMeta, AllTools;
    MetaIsOwnConfig(s.servers, order);
    AllToolsMembers(s.servers, order, t);
    ExposedTools(s.servers, order, t);
    forall id | id in order && t in ToolsOf(s.servers[id]) ensures id == t.serverId {
      assert ServerOk(s, id);
    }
  }

  /** Main result: so it is after every run that keeps ids. */
  lemma ReachableProxiesCoverAllowedTools(configs: map<ServerId, ServerConfig>, es: seq<Event>, order: seq<ServerId>, t: ToolDef)
    requires Run(Initial(configs), es).Some? && KeepsIds(configs, es)
    requires Enumerates(order, Run(Initial(configs), es).value.servers)
    ensures ExposedAsAllowed(Run(Initial(configs), es).value.servers, order, t)
  {
    RunsKeepInvariant(configs, es);
    RunsKeepFiling(configs, es);
    assert es[..|es|] == es;
    ProxiesCoverAllowedTools(Run(Initial(configs), es).value, order, t);
  }

  // ---- When an allowlist holds without that filing -----------------------------------------------------------

  /** The allowlist looked up under an id is that of the last server enumerated whose config carries the id. */
  lemma {:induction false} MetaIsLastCarrier(servers: map<ServerId, Server>, order: seq<ServerId>, id: ServerId)
    requires forall x | x in order :: x in servers
    ensures id in ServerMeta(servers, order) <==> exists k :: 0 <= k < |order| && servers[order[k]].config.id == id
    ensures forall k | 0 <= k < |order| && servers[order[k]].config.id == id
                     && (forall l | k < l < |order| :: servers[order[l]].config.id != id) ::
              id in ServerMeta(servers, order) && ServerMeta(servers, order)[id] == servers[order[k]].config
  {
    if order != [] {
      var init := order[..|order| - 1];
      assert order == init + [order[|order| - 1]];
      MetaIsLastCarrier(servers, init, id);
      assert forall k | 0 <= k < |init| :: init[k] == order[k];
    }
  }

  /** No tool of the server is exposed against its own allowlist. */
  ghost predicate RespectsAllowlist(servers: map<ServerId, Server>, order: seq<ServerId>, id: ServerId)
    requires Enumerates(order, servers)
  {
    forall t: ToolDef | IsExposed(servers, order, t) && t.serverId == id :: IsAllowed(servers, t)
  }

  /** The server has no allowlist, or the one looked up under its key is there and admits no more. */
  ghost predicate LookupIsAsStrict(servers: map<ServerId, Server>, order: seq<ServerId>, id: ServerId)
    requires Enumerates(order, servers) && id in servers
  {
    servers[id].config.allowlist.Some? ==>
      var meta := ServerMeta(servers, order);
      && id in meta && meta[id].allowlist.Some?
      && forall name | name in meta[id].allowlist.value :: name in servers[id].config.allowlist.value
  }

  /**
   Main result: a connected server's allowlist is respected whatever tools it may list exactly
   when the allowlist looked up under its key is as strict as its own.
   */
  lemma AllowlistHoldsExactly(s: State, order: seq<ServerId>, id: ServerId)
    requires Invariant(s) && Enumerates(order, s.servers) && id in s.servers && s.servers[id].status == Connected
    ensures (forall found :: RespectsAllowlist(Apply(s, RefreshTools(id, found)).servers, order, id))
       <==> LookupIsAsStrict(s.servers, order, id)
  {
    hide AllTools, ServerMeta, Apply, CreateToolProxies, IsExposed, AuditAgrees, TasksOk, Invariant;
    forall found ensures Refreshed(s, order, id, found) {
      RefreshedTools(s, order, id, found);
    }
    if LookupIsAsStrict(s.servers, order, id) {
      forall found
        ensures Refreshed(s, order, id, found) && RespectsAllowlist(Apply(s, RefreshTools(id, found)).servers, order, id)
      {
      }
    } else {
      var own, meta := s.servers[id].config.allowlist.value, ServerMeta(s.servers, order);
      var name := FreshString(own);
      if id in meta && meta[id].allowlist.Some? {
        name :| name in meta[id].allowlist.value && name !in own;
      }
      var found := [RemoteTool(name, "", "")];
      assert Refreshed(s, order, id, found);
      assert TagTools(id, found)[0] == ToolDef(id, name, "", "");
      assert IsExposed(Apply(s, RefreshTools(id, found)).servers, order, ToolDef(id, name, "", ""));
    }
  }

  /** What a refresh does to the tools exposed for its server. */
  ghost predicate Refreshed(s: State, order: seq<ServerId>, id: ServerId, found: seq<RemoteTool>)
    requires Enumerates(order, s.servers) && id in s.servers
  {
    var servers := Apply(s, RefreshTools(id, found)).servers;
    && Enumerates(order, servers) && id in servers
    && servers[id].config == s.servers[id].config && servers[id].status == s.servers[id].status
    && servers[id].tools == TagTools(id, found)
    && forall t: ToolDef | t.serverId == id ::
         IsExposed(servers, order, t) <==> t in servers[id].tools && Allowed(ServerMeta(s.servers, order), t)
  }

  lemma RefreshedTools(s: State, order: seq<ServerId>, id: ServerId, found: seq<RemoteTool>)
    requires Invariant(s) && Enumerates(order, s.servers) && id in s.servers && s.servers[id].status == Connected
    ensures Refreshed(s, order, id, found)
  {
    hide AllTools, ServerMeta, CreateToolProxies, IsExposed, AuditAgrees, TasksOk, Allowed;
    var u := Apply(s, RefreshTools(id, found));
    assert ServerOk(s, id);
    StepKeepsInvariant(s, RefreshTools(id, found));
    MetaReadsConfigs(s.servers, u.servers, order);
    forall t: ToolDef | t.serverId == id
      ensures IsExposed(u.servers, order, t) <==> t in u.servers[id].tools && Allowed(ServerMeta(s.servers, order), t)
    {
      ExposedTools(u.servers, order, t);
      AllToolsMembers(u.servers, order, t);
      forall x | x in order && t in ToolsOf(u.servers[x]) ensures x == id {
        assert ServerOk(u, x);
      }
    }
  }

  lemma {:induction false} MetaReadsConfigs(a: map<ServerId, Server>, b: map<ServerId, Server>, order: seq<ServerId>)
    requires forall id | id in order :: id in a && id in b && a[id].config == b[id].config
    ensures ServerMeta(a, order) == ServerMeta(b, order)
  {
    if order != [] {
      MetaReadsConfigs(a, b, order[..|order| - 1]);
    }
  }

  /** A run to a lost allowlist: after connecting, an update changes the id inside the config. */
  lemma MisfiledServerLosesItsAllowlist(config: ServerConfig, newId: ServerId, tool: RemoteTool)
    requires newId != config.id && config.allowlist.Some? && tool.name !in config.allowlist.value
    ensures var id := config.id;
            var es := [Prepare(id, None), CommitOk(0, [tool]), UpdateServer(id, config.(id := newId))];
            var r := Run(Initial(map[id := config]), es);
            && r.Some? && Enumerates([id], r.value.servers)
            && !RespectsAllowlist(r.value.servers, [id], id)
  {
    hide Run, Apply, CreateToolProxies;
    var id := config.id;
    var es := [Prepare(id, None), CommitOk(0, [tool]), UpdateServer(id, config.(id := newId))];
    var s0 := Initial(map[id := config]);
    ConnectedThenMisfiled(config, newId, tool);
    RunNothing(s0);
    assert es[..0] == [];
    var s1 := RunNext(s0, es, 0, s0);
    var s2 := RunNext(s0, es, 1, s1);
    var s3 := RunNext(s0, es, 2, s2);
    assert es[..3] == es;
    OneServersMeta(s3.servers, id);
    var t := ToolDef(id, tool.name, tool.description, tool.schema);
    ExposedTools(s3.servers, [id], t);
    assert TagTools(id, [tool])[0] == t;
    assert IsExposed(s3.servers, [id], t) && !IsAllowed(s3.servers, t);
  }

  lemma ConnectedThenMisfiled(config: ServerConfig, newId: ServerId, tool: RemoteTool)
    ensures var id := config.id;
            var s1 := Apply(Initial(map[id := config]), Prepare(id, None));
            && Enabled(s1, CommitOk(0, [tool]))
            && var s3 := Apply(Apply(s1, CommitOk(0, [tool])), UpdateServer(id, config.(id := newId)));
               s3.servers == map[id := Server(config.(id := newId), Connected, TagTools(id, [tool]), None, Some(Connection(0)))]
  {
  }

  lemma OneServersMeta(servers: map<ServerId, Server>, id: ServerId)
    requires servers.Keys == {id}
    ensures Enumerates([id], servers)
    ensures ServerMeta(servers, [id]) == map[servers[id].config.id := servers[id].config]
    ensures AllTools(servers, [id]) == ToolsOf(servers[id])
  {
    assert [id][..0] == [] && ServerMeta(servers, []) == map[];
    assert AllTools(servers, [id]) == ToolsOf(servers[id]) + AllTools(servers, []);
    assert id in servers.Keys;
  }

  // ---- Distinct names --------------------------------------------------------------------------------

  /** No server lists the same tool name twice. */
  ghost predicate DistinctPerServer(servers: map<ServerId, Server>) {
    forall id, i, j | id in servers && 0 <= i < j < |servers[id].tools| ::
      servers[id].tools[i].name != servers[id].tools[j].name
  }

  /** Pairwise different (server, name) pairs. */
  ghost predicate DistinctPairs(ts: seq<ToolDef>) {
    forall i, j | 0 <= i < j < |ts| :: ts[i].serverId != ts[j].serverId || ts[i].name != ts[j].name
  }

  lemma {:induction false} AllToolsDistinct(s: State, order: seq<ServerId>)
    requires Invariant(s) && DistinctPerServer(s.servers) && NoDuplicates(order)
    requires forall id | id in order :: id in s.servers
    ensures DistinctPairs(AllTools(s.servers, order))
    ensures forall t | t in AllTools(s.servers, order) :: t.serverId in order
  {
    if order != [] {
      AllToolsDistinct(s, order[1..]);
      assert ServerOk(s, order[0]);
      assert order[0] !in order[1..];
    }
  }

  lemma {:induction false} FilterKeepsDistinct(ts: seq<ToolDef>, p: ToolDef -> bool)
    requires DistinctPairs(ts)
    ensures DistinctPairs(Filter(ts, p))
  {
    if ts != [] {
      FilterKeepsDistinct(ts[1..], p);
      var rest := Filter(ts[1..], p);
      forall j | 0 <= j < |rest| ensures ts[0].serverId != rest[j].serverId || ts[0].name != rest[j].name {
        assert rest[j] in ts[1..];
      }
    }
  }

  /** Main result: with clean ids and tool names distinct per server, no two proxies share a name. */
  lemma ProxyNamesAreDistinct(s: State, order: seq<ServerId>)
    requires Invariant(s) && Enumerates(order, s.servers) && DistinctPerServer(s.servers)
    requires forall id | id in s.servers :: CleanId(id)
    ensures forall i, j | 0 <= i < j < |CreateToolProxies(s.servers, order)| ::
              CreateToolProxies(s.servers, order)[i].prefixedName != CreateToolProxies(s.servers, order)[j].prefixedName
  {
    var meta := ServerMeta(s.servers, order);
    var kept := Filter(AllTools(s.servers, order), (t: ToolDef) => Allowed(meta, t));
    AllToolsDistinct(s, order);
    FilterKeepsDistinct(AllTools(s.servers, order), (t: ToolDef) => Allowed(meta, t));
    var proxies := CreateToolProxies(s.servers, order);
    forall i, j | 0 <= i < j < |proxies| ensures proxies[i].prefixedName != proxies[j].prefixedName {
      assert kept[i] in kept && kept[j] in kept;
      if proxies[i].prefixedName == proxies[j].prefixedName {
        PrefixIsInjective(kept[i].serverId, kept[i].name, kept[j].serverId, kept[j].name);
      }
    }
  }
}
