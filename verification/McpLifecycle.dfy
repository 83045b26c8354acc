/**
 The connection lifecycle of the MCP client manager (src-tauri/src/mcp.rs) as a state machine.
 Every section that runs under the manager's write lock is one atomic event; the IO between
 prepare and commit is an attempt in flight, which other events may overtake.
 */
module McpLifecycle {
  import opened Base

  type ServerId = string

  /** `Failing` is the status the source calls Error. */
  datatype Status = Disconnected | Connecting | Connected | Failing

  datatype ServerConfig = ServerConfig(id: ServerId, enabled: bool, autoApprove: bool, allowlist: Option<seq<string>>)

  datatype RemoteTool = RemoteTool(name: string, description: string, schema: string)

  datatype ToolDef = ToolDef(serverId: ServerId, name: string, description: string, schema: string)

  /** An installed transport, named by the connect attempt that produced it. */
  datatype Connection = Connection(attempt: nat)

  datatype Server = Server(
    config: ServerConfig,
    status: Status,
    tools: seq<ToolDef>,
    error: Option<string>,
    connection: Option<Connection>)

  datatype Phase = InFlight | Succeeded | Failed | Cancelled

  /** One run of connect_server_shared past its prepare section; `owner` is the health task awaiting it, if any. */
  datatype Attempt = Attempt(server: ServerId, owner: Option<nat>, phase: Phase)

  datatype AuditKind = ConnectAttempt | ConnectSucceeded | ConnectFailed | HealthFailed | Disconnect | Removed

  datatype AuditRow = AuditRow(server: ServerId, kind: AuditKind)

  /**
   servers, health: the manager's maps (health task handle by server). tasks: the server each
   health task ever spawned works for. attempts: every attempt ever prepared. audit: the mcp_audit rows.
   */
  datatype State = State(
    servers: map<ServerId, Server>,
    health: map<ServerId, nat>,
    tasks: seq<ServerId>,
    attempts: seq<Attempt>,
    audit: seq<AuditRow>)

  datatype Event =
    | AddServer(config: ServerConfig)
    | UpdateServer(id: ServerId, config: ServerConfig)
    | RemoveServer(id: ServerId)
    | Prepare(id: ServerId, owner: Option<nat>)
    | CommitOk(attempt: nat, found: seq<RemoteTool>)
    | CommitErr(attempt: nat, message: string)
    | DisconnectServer(id: ServerId)
    | Reconnect(id: ServerId, task: nat)
    | Restart(id: ServerId)
    | RefreshTools(id: ServerId, found: seq<RemoteTool>)
    | ReportError(id: ServerId, outcome: Option<string>)
    | HealthCheckFailed(id: ServerId, task: nat, message: string)
    | StartHealthLoop(id: ServerId)

  // ---- What each section does -----------------------------------------------------------------

  function Fresh(config: ServerConfig): Server {
    Server(config, Disconnected, [], None, None)
  }

  function TagTools(id: ServerId, found: seq<RemoteTool>): (r: seq<ToolDef>)
    ensures |r| == |found|
    ensures forall i | 0 <= i < |r| :: r[i] == ToolDef(id, found[i].name, found[i].description, found[i].schema)
  {
    seq(|found|, i requires 0 <= i < |found| => ToolDef(id, found[i].name, found[i].description, found[i].schema))
  }

  function Audit(s: State, id: ServerId, kind: AuditKind): State {
    s.(audit := s.audit + [AuditRow(id, kind)])
  }

  /** Aborting a health task drops the attempt it is awaiting. */
  function CancelOwned(attempts: seq<Attempt>, task: nat): (r: seq<Attempt>)
    ensures |r| == |attempts|
    ensures forall i | 0 <= i < |r| :: r[i] == if attempts[i].owner == Some(task) && attempts[i].phase == InFlight
                                              then attempts[i].(phase := Cancelled) else attempts[i]
  {
    seq(|attempts|, i requires 0 <= i < |attempts| =>
      if attempts[i].owner == Some(task) && attempts[i].phase == InFlight
      then attempts[i].(phase := Cancelled) else attempts[i])
  }

  function StopHealthLoop(s: State, id: ServerId): State {
    if id in s.health
    then s.(health := s.health - {id}, attempts := CancelOwned(s.attempts, s.health[id]))
    else s
  }

  /** set_error and set_error_for_state: a message makes the server Failing, None only clears the message. */
  function WithError(server: Server, outcome: Option<string>): Server {
    server.(error := outcome, status := if outcome.Some? then Failing else server.status)
  }

  function SetServer(s: State, id: ServerId, server: Server): State {
    s.(servers := s.servers[id := server])
  }

  predicate LiveTask(s: State, id: ServerId, task: nat) {
    id in s.health && s.health[id] == task
  }

  /** Only a live health task acts, and only an attempt still in flight commits. */
  predicate Enabled(s: State, e: Event) {
    match e
    case Prepare(id, owner) => owner.Some? ==> LiveTask(s, id, owner.value)
    case CommitOk(k, _) => k < |s.attempts| && s.attempts[k].phase == InFlight
    case CommitErr(k, _) => k < |s.attempts| && s.attempts[k].phase == InFlight
    case Reconnect(id, task) => LiveTask(s, id, task)
    case HealthCheckFailed(id, task, _) => LiveTask(s, id, task)
    case _ => true
  }

  /** What a disconnect and the first section of a restart both do, whether or not the server is known. */
  function TakenDown(s: State, id: ServerId): State {
    var t := StopHealthLoop(s, id);
    var u := if id !in t.servers then t
             else SetServer(t, id, t.servers[id].(status := Disconnected, tools := [], error := None, connection := None));
    Audit(u, id, Disconnect)
  }

  function Apply(s: State, e: Event): State
    requires Enabled(s, e)
  {
    match e
    case AddServer(config) =>
      if config.id in s.servers then s else SetServer(s, config.id, Fresh(config))
    case UpdateServer(id, config) =>
      if id in s.servers then SetServer(s, id, s.servers[id].(config := config)) else s
    case RemoveServer(id) =>
      var t := Audit(StopHealthLoop(s, id), id, Removed);
      t.(servers := t.servers - {id})
    case Prepare(id, owner) =>
      if id !in s.servers || s.servers[id].status == Connecting then s
      else
        var t := SetServer(s, id, s.servers[id].(status := Connecting, error := None));
        Audit(t.(attempts := t.attempts + [Attempt(id, owner, InFlight)]), id, ConnectAttempt)
    case CommitOk(k, found) =>
      var id := s.attempts[k].server;
      var t := s.(attempts := s.attempts[k := s.attempts[k].(phase := Succeeded)]);
      var u := if id !in t.servers then t
               else SetServer(t, id, t.servers[id].(status := Connected, error := None,
                                                    tools := TagTools(id, found), connection := Some(Connection(k))));
      Audit(u, id, ConnectSucceeded)
    case CommitErr(k, message) =>
      var id := s.attempts[k].server;
      var t := Audit(s.(attempts := s.attempts[k := s.attempts[k].(phase := Failed)]), id, ConnectFailed);
      if id in t.servers then SetServer(t, id, t.servers[id].(status := Failing, error := Some(message))) else t
    case DisconnectServer(id) => TakenDown(s, id)
    case Reconnect(id, _) =>
      if id in s.servers then SetServer(s, id, s.servers[id].(status := Disconnected, connection := None)) else s
    case Restart(id) => TakenDown(s, id)
    case RefreshTools(id, found) =>
      if id in s.servers && s.servers[id].connection.Some?
      then SetServer(s, id, s.servers[id].(tools := TagTools(id, found))) else s
    case ReportError(id, outcome) =>
      if id in s.servers then SetServer(s, id, WithError(s.servers[id], outcome)) else s
    case HealthCheckFailed(id, _, message) =>
      var t := if id in s.servers then SetServer(s, id, WithError(s.servers[id], Some(message))) else s;
      Audit(t, id, HealthFailed)
    case StartHealthLoop(id) =>
      var t := StopHealthLoop(s, id);
      t.(health := t.health[id := |t.tasks|], tasks := t.tasks + [id])
  }

  /** The state after load_config: every configured server disconnected. */
  function Initial(configs: map<ServerId, ServerConfig>): State {
    State(map id | id in configs :: Fresh(configs[id]), map[], [], [], [])
  }

  /** The state after a run, or None when some event of it was not enabled. */
  function Run(s: State, es: seq<Event>): Option<State> {
    if es == [] then Some(s)
    else match Run(s, es[..|es| - 1])
      case None => None
      case Some(t) => if Enabled(t, es[|es| - 1]) then Some(Apply(t, es[|es| - 1])) else None
  }

  // ---- What every state of every run satisfies -----------------------------------------------------

  ghost predicate ServerOk(s: State, id: ServerId)
    requires id in s.servers
  {
    var v := s.servers[id];
    && (v.status == Connected ==> v.connection.Some? && v.error.None?)
    && (v.status == Connecting ==> v.error.None?)
    && (v.status == Disconnected ==> v.connection.None?)
    && (forall i | 0 <= i < |v.tools| :: v.tools[i].serverId == id)
    && (v.connection.Some? ==> var k := v.connection.value.attempt;
          k < |s.attempts| && s.attempts[k].server == id && s.attempts[k].phase == Succeeded)
  }

  function Rows(audit: seq<AuditRow>, id: ServerId, kind: AuditKind): nat {
    |Filter(audit, r => r == AuditRow(id, kind))|
  }

  function Attempts(attempts: seq<Attempt>, id: ServerId): nat {
    |Filter(attempts, (a: Attempt) => a.server == id)|
  }

  function InPhase(attempts: seq<Attempt>, id: ServerId, phase: Phase): nat {
    |Filter(attempts, (a: Attempt) => a.server == id && a.phase == phase)|
  }

  /** The audit rows and the attempts agree, server by server. */
  ghost predicate AuditAgrees(s: State, id: ServerId) {
    && Rows(s.audit, id, ConnectAttempt) == Attempts(s.attempts, id)
    && Rows(s.audit, id, ConnectSucceeded) == InPhase(s.attempts, id, Succeeded)
    && Rows(s.audit, id, ConnectFailed) == InPhase(s.attempts, id, Failed)
  }

  /** Health tasks work for the server they are filed under, and so do the attempts they own. */
  ghost predicate TasksOk(s: State) {
    && (forall id | id in s.health :: s.health[id] < |s.tasks| && s.tasks[s.health[id]] == id)
    && (forall k | 0 <= k < |s.attempts| && s.attempts[k].owner.Some? ::
          s.attempts[k].owner.value < |s.tasks| && s.tasks[s.attempts[k].owner.value] == s.attempts[k].server)
  }

  ghost predicate Invariant(s: State) {
    && (forall id | id in s.servers :: ServerOk(s, id))
    && (forall id :: AuditAgrees(s, id))
    && TasksOk(s)
  }

  lemma CancelKeepsCounts(attempts: seq<Attempt>, task: nat, id: ServerId)
    ensures Attempts(CancelOwned(attempts, task), id) == Attempts(attempts, id)
    ensures forall phase | phase == Succeeded || phase == Failed ::
              InPhase(CancelOwned(attempts, task), id, phase) == InPhase(attempts, id, phase)
  {
    var r := CancelOwned(attempts, task);
    CountPointwise(r, attempts, (a: Attempt) => a.server == id, (a: Attempt) => a.server == id);
    forall phase | phase == Succeeded || phase == Failed ensures InPhase(r, id, phase) == InPhase(attempts, id, phase) {
      CountPointwise(r, attempts, (a: Attempt) => a.server == id && a.phase == phase,
                     (a: Attempt) => a.server == id && a.phase == phase);
    }
  }

  lemma StopKeepsInvariant(s: State, id: ServerId)
    requires Invariant(s)
    ensures Invariant(StopHealthLoop(s, id))
  {
    var t := StopHealthLoop(s, id);
    if id in s.health {
      forall x ensures AuditAgrees(t, x) {
        assert AuditAgrees(s, x);
        CancelKeepsCounts(s.attempts, s.health[id], x);
      }
      forall x | x in t.servers ensures ServerOk(t, x) {
        assert ServerOk(s, x);
      }
    }
  }

  lemma AppendRow(audit: seq<AuditRow>, row: AuditRow, id: ServerId, kind: AuditKind)
    ensures Rows(audit + [row], id, kind) == Rows(audit, id, kind) + (if row == AuditRow(id, kind) then 1 else 0)
  {
    CountAppend(audit, row, r => r == AuditRow(id, kind));
  }

  /** Rows of the other kinds (disconnect, removed, health failed) do not disturb the agreement. */
  lemma OtherRowKeepsInvariant(s: State, id: ServerId, kind: AuditKind)
    requires Invariant(s) && kind in {Disconnect, Removed, HealthFailed}
    ensures Invariant(Audit(s, id, kind))
  {
    var t := Audit(s, id, kind);
    forall x ensures AuditAgrees(t, x) {
      assert AuditAgrees(s, x);
      AppendRow(s.audit, AuditRow(id, kind), x, ConnectAttempt);
      AppendRow(s.audit, AuditRow(id, kind), x, ConnectSucceeded);
      AppendRow(s.audit, AuditRow(id, kind), x, ConnectFailed);
    }
    forall x | x in t.servers ensures ServerOk(t, x) {
      assert ServerOk(s, x);
    }
  }

  lemma SetServerKeepsInvariant(s: State, id: ServerId, server: Server)
    requires Invariant(s) && ServerOk(SetServer(s, id, server), id)
    ensures Invariant(SetServer(s, id, server))
  {
    var t := SetServer(s, id, server);
    forall x ensures AuditAgrees(t, x) { assert AuditAgrees(s, x); }
    forall x | x in t.servers ensures ServerOk(t, x) {
      if x != id { assert ServerOk(s, x); }
    }
  }

  lemma DropServerKeepsInvariant(s: State, id: ServerId)
    requires Invariant(s)
    ensures Invariant(s.(servers := s.servers - {id}))
  {
    var t := s.(servers := s.servers - {id});
    forall x ensures AuditAgrees(t, x) { assert AuditAgrees(s, x); }
    forall x | x in t.servers ensures ServerOk(t, x) { assert ServerOk(s, x); }
  }

  /** A new attempt together with its ConnectAttempt row. */
  lemma BeginKeepsInvariant(s: State, id: ServerId, owner: Option<nat>)
    requires Invariant(s) && (owner.Some? ==> LiveTask(s, id, owner.value))
    ensures Invariant(Audit(s.(attempts := s.attempts + [Attempt(id, owner, InFlight)]), id, ConnectAttempt))
  {
    var a := Attempt(id, owner, InFlight);
    var t := Audit(s.(attempts := s.attempts + [a]), id, ConnectAttempt);
    forall x ensures AuditAgrees(t, x) {
      assert AuditAgrees(s, x);
      AppendRow(s.audit, AuditRow(id, ConnectAttempt), x, ConnectAttempt);
      AppendRow(s.audit, AuditRow(id, ConnectAttempt), x, ConnectSucceeded);
      AppendRow(s.audit, AuditRow(id, ConnectAttempt), x, ConnectFailed);
      CountAppend(s.attempts, a, (b: Attempt) => b.server == x);
      CountAppend(s.attempts, a, (b: Attempt) => b.server == x && b.phase == Succeeded);
      CountAppend(s.attempts, a, (b: Attempt) => b.server == x && b.phase == Failed);
    }
    forall x | x in t.servers ensures ServerOk(t, x) { assert ServerOk(s, x); }
  }

  lemma EndingCounts(attempts: seq<Attempt>, k: nat, end: Phase, id: ServerId)
    requires k < |attempts| && attempts[k].phase == InFlight && end in {Succeeded, Failed}
    ensures var r := attempts[k := attempts[k].(phase := end)];
            && Attempts(r, id) == Attempts(attempts, id)
            && (forall p | p in {Succeeded, Failed} ::
                  InPhase(r, id, p) == InPhase(attempts, id, p) + (if p == end && attempts[k].server == id then 1 else 0))
  {
    var a := attempts[k].(phase := end);
    CountUpdate(attempts, k, a, (b: Attempt) => b.server == id);
    forall p | p in {Succeeded, Failed}
      ensures InPhase(attempts[k := a], id, p) == InPhase(attempts, id, p) + (if p == end && a.server == id then 1 else 0)
    {
      CountUpdate(attempts, k, a, (b: Attempt) => b.server == id && b.phase == p);
    }
  }

  lemma AddKeepsInvariant(s: State, config: ServerConfig)
    requires Invariant(s) && config.id !in s.servers
    ensures Invariant(SetServer(s, config.id, Fresh(config)))
  {
    hide AuditAgrees, TagTools, TasksOk;
    SetServerKeepsInvariant(s, config.id, Fresh(config));
  }

  lemma UpdateKeepsInvariant(s: State, id: ServerId, config: ServerConfig)
    requires Invariant(s) && id in s.servers
    ensures Invariant(SetServer(s, id, s.servers[id].(config := config)))
  {
    hide AuditAgrees, TagTools, TasksOk;
    assert ServerOk(s, id);
    SetServerKeepsInvariant(s, id, s.servers[id].(config := config));
  }

  lemma ErrorKeepsInvariant(s: State, id: ServerId, outcome: Option<string>)
    requires Invariant(s) && id in s.servers
    ensures Invariant(SetServer(s, id, WithError(s.servers[id], outcome)))
  {
    hide AuditAgrees, TagTools, TasksOk;
    assert ServerOk(s, id);
    SetServerKeepsInvariant(s, id, WithError(s.servers[id], outcome));
  }

  lemma ReconnectKeepsInvariant(s: State, id: ServerId)
    requires Invariant(s) && id in s.servers
    ensures Invariant(SetServer(s, id, s.servers[id].(status := Disconnected, connection := None)))
  {
    hide AuditAgrees, TagTools, TasksOk;
    assert ServerOk(s, id);
    SetServerKeepsInvariant(s, id, s.servers[id].(status := Disconnected, connection := None));
  }

  lemma RefreshKeepsInvariant(s: State, id: ServerId, found: seq<RemoteTool>)
    requires Invariant(s) && id in s.servers && s.servers[id].connection.Some?
    ensures Invariant(SetServer(s, id, s.servers[id].(tools := TagTools(id, found))))
  {
    hide AuditAgrees, TagTools, TasksOk;
    assert ServerOk(s, id);
    SetServerKeepsInvariant(s, id, s.servers[id].(tools := TagTools(id, found)));
  }

  lemma PrepareKeepsInvariant(s: State, id: ServerId, owner: Option<nat>)
    requires Invariant(s) && Enabled(s, Prepare(id, owner)) && id in s.servers && s.servers[id].status != Connecting
    ensures Invariant(Apply(s, Prepare(id, owner)))
  {
    hide AuditAgrees, TasksOk;
    assert ServerOk(s, id);
    var v := s.servers[id].(status := Connecting, error := None);
    SetServerKeepsInvariant(s, id, v);
    BeginKeepsInvariant(SetServer(s, id, v), id, owner);
  }

  /** An attempt that ends together with its ConnectSucceeded or ConnectFailed row. */
  lemma FinishKeepsInvariant(s: State, k: nat, success: bool)
    requires Invariant(s) && k < |s.attempts| && s.attempts[k].phase == InFlight
    ensures var a := s.attempts[k].(phase := if success then Succeeded else Failed);
            Invariant(Audit(s.(attempts := s.attempts[k := a]), a.server, if success then ConnectSucceeded else ConnectFailed))
  {
    var a := s.attempts[k].(phase := if success then Succeeded else Failed);
    var kind := if success then ConnectSucceeded else ConnectFailed;
    var t := Audit(s.(attempts := s.attempts[k := a]), a.server, kind);
    forall x ensures AuditAgrees(t, x) {
      assert AuditAgrees(s, x);
      AppendRow(s.audit, AuditRow(a.server, kind), x, ConnectAttempt);
      AppendRow(s.audit, AuditRow(a.server, kind), x, ConnectSucceeded);
      AppendRow(s.audit, AuditRow(a.server, kind), x, ConnectFailed);
      EndingCounts(s.attempts, k, a.phase, x);
    }
    forall x | x in t.servers ensures ServerOk(t, x) { assert ServerOk(s, x); }
  }

  lemma StepKeepsInvariant(s: State, e: Event)
    requires Invariant(s) && Enabled(s, e)
    ensures Invariant(Apply(s, e))
  {
    hide Invariant, ServerOk, TagTools, StopHealthLoop, WithError;
    match e {
      case AddServer(config) =>
        if config.id !in s.servers {
          AddKeepsInvariant(s, config);
        }
      case UpdateServer(id, config) =>
        if id in s.servers {
          UpdateKeepsInvariant(s, id, config);
        }
      case RemoveServer(id) =>
        StopKeepsInvariant(s, id);
        OtherRowKeepsInvariant(StopHealthLoop(s, id), id, Removed);
        DropServerKeepsInvariant(Audit(StopHealthLoop(s, id), id, Removed), id);
      case Prepare(id, owner) =>
        if id in s.servers && s.servers[id].status != Connecting {
          PrepareKeepsInvariant(s, id, owner);
        }
      case CommitOk(k, found) => CommitOkKeepsInvariant(s, k, found);
      case CommitErr(k, message) => CommitErrKeepsInvariant(s, k, message);
      case DisconnectServer(id) => StoppedKeepsInvariant(s, id);
      case Restart(id) => StoppedKeepsInvariant(s, id);
      case Reconnect(id, _) =>
        if id in s.servers {
          ReconnectKeepsInvariant(s, id);
        }
      case RefreshTools(id, found) =>
        if id in s.servers && s.servers[id].connection.Some? {
          RefreshKeepsInvariant(s, id, found);
        }
      case ReportError(id, outcome) =>
        if id in s.servers {
          ErrorKeepsInvariant(s, id, outcome);
        }
      case HealthCheckFailed(id, _, message) =>
        if id in s.servers {
          ErrorKeepsInvariant(s, id, Some(message));
        }
        OtherRowKeepsInvariant(if id in s.servers then SetServer(s, id, WithError(s.servers[id], Some(message))) else s,
                               id, HealthFailed);
      case StartHealthLoop(id) => StartKeepsInvariant(s, id);
    }
  }

  lemma CommitOkKeepsInvariant(s: State, k: nat, found: seq<RemoteTool>)
    requires Invariant(s) && Enabled(s, CommitOk(k, found))
    ensures Invariant(Apply(s, CommitOk(k, found)))
  {
    hide AuditAgrees, TagTools;
    FinishKeepsInvariant(s, k, true);
    var id := s.attempts[k].server;
    var t := Audit(s.(attempts := s.attempts[k := s.attempts[k].(phase := Succeeded)]), id, ConnectSucceeded);
    if id in s.servers {
      SetServerKeepsInvariant(t, id, t.servers[id].(status := Connected, error := None,
                                                    tools := TagTools(id, found), connection := Some(Connection(k))));
    }
  }

  lemma CommitErrKeepsInvariant(s: State, k: nat, message: string)
    requires Invariant(s) && Enabled(s, CommitErr(k, message))
    ensures Invariant(Apply(s, CommitErr(k, message)))
  {
    hide AuditAgrees;
    FinishKeepsInvariant(s, k, false);
    var id := s.attempts[k].server;
    var t := Audit(s.(attempts := s.attempts[k := s.attempts[k].(phase := Failed)]), id, ConnectFailed);
    if id in s.servers {
      assert ServerOk(t, id);
      SetServerKeepsInvariant(t, id, t.servers[id].(status := Failing, error := Some(message)));
    }
  }

  lemma StartKeepsInvariant(s: State, id: ServerId)
    requires Invariant(s)
    ensures Invariant(Apply(s, StartHealthLoop(id)))
  {
    StopKeepsInvariant(s, id);
    var t, u := StopHealthLoop(s, id), Apply(s, StartHealthLoop(id));
    forall x ensures AuditAgrees(u, x) { assert AuditAgrees(t, x); }
    forall x | x in u.servers ensures ServerOk(u, x) { assert ServerOk(t, x); }
  }

  /** The section shared by disconnect and restart. */
  lemma StoppedKeepsInvariant(s: State, id: ServerId)
    requires Invariant(s)
    ensures Invariant(Apply(s, DisconnectServer(id)))
  {
    StopKeepsInvariant(s, id);
    var t := StopHealthLoop(s, id);
    if id in t.servers {
      SetServerKeepsInvariant(t, id, t.servers[id].(status := Disconnected, tools := [], error := None, connection := None));
    }
    OtherRowKeepsInvariant(
      if id !in t.servers then t
      else SetServer(t, id, t.servers[id].(status := Disconnected, tools := [], error := None, connection := None)),
      id, Disconnect);
  }

  /** Main result: the invariant holds in every reachable state, whatever the interleaving. */
  lemma {:induction false} RunsKeepInvariant(configs: map<ServerId, ServerConfig>, es: seq<Event>)
    requires Run(Initial(configs), es).Some?
    ensures Invariant(Run(Initial(configs), es).value)
  {
    if es != [] {
      RunsKeepInvariant(configs, es[..|es| - 1]);
      StepKeepsInvariant(Run(Initial(configs), es[..|es| - 1]).value, es[|es| - 1]);
    }
  }

  // ---- Attempts are conserved -----------------------------------------------------------------------

  lemma {:induction false} PhasesPartition(attempts: seq<Attempt>, id: ServerId)
    ensures Attempts(attempts, id) == InPhase(attempts, id, InFlight) + InPhase(attempts, id, Succeeded)
                                    + InPhase(attempts, id, Failed) + InPhase(attempts, id, Cancelled)
  {
    if attempts != [] {
      PhasesPartition(attempts[1..], id);
    }
  }

  /**
   Main result: at every point of every run and for every server, each ConnectAttempt row is
   accounted for by one success row, one failure row, an attempt still in flight, or an attempt
   that a health-loop abort cancelled.
   */
  lemma AttemptsAreConserved(configs: map<ServerId, ServerConfig>, es: seq<Event>, id: ServerId)
    requires Run(Initial(configs), es).Some?
    ensures var s := Run(Initial(configs), es).value;
            (Rows(s.audit, id, ConnectAttempt)
              == Rows(s.audit, id, ConnectSucceeded) + Rows(s.audit, id, ConnectFailed)
               + InPhase(s.attempts, id, InFlight) + InPhase(s.attempts, id, Cancelled))
  {
    RunsKeepInvariant(configs, es);
    var s := Run(Initial(configs), es).value;
    assert AuditAgrees(s, id);
    PhasesPartition(s.attempts, id);
  }

  /** The audit table is append-only, and an attempt that has ended never changes again. */
  lemma StepOnlyAppends(s: State, e: Event)
    requires Enabled(s, e)
    ensures s.audit <= Apply(s, e).audit && |Apply(s, e).audit| <= |s.audit| + 1
    ensures |s.attempts| <= |Apply(s, e).attempts|
    ensures forall k | 0 <= k < |s.attempts| && s.attempts[k].phase != InFlight :: Apply(s, e).attempts[k] == s.attempts[k]
  {
  }

  /** In the audit table read from the top, a server's outcomes never outnumber its attempts. */
  lemma {:induction false} OutcomesFollowAttempts(configs: map<ServerId, ServerConfig>, es: seq<Event>, id: ServerId, n: nat)
    requires Run(Initial(configs), es).Some? && n <= |Run(Initial(configs), es).value.audit|
    ensures var rows := Run(Initial(configs), es).value.audit[..n];
            Rows(rows, id, ConnectSucceeded) + Rows(rows, id, ConnectFailed) <= Rows(rows, id, ConnectAttempt)
  {
    var s := Run(Initial(configs), es).value;
    if n == |s.audit| {
      AttemptsAreConserved(configs, es, id);
      assert s.audit[..n] == s.audit;
    } else {
      var t := Run(Initial(configs), es[..|es| - 1]).value;
      StepOnlyAppends(t, es[|es| - 1]);
      assert s.audit[..n] == t.audit[..n];
      OutcomesFollowAttempts(configs, es[..|es| - 1], id, n);
    }
  }

  // ---- Who is in the map -----------------------------------------------------------------------------

  /** Whether id is configured after es, read off the add and remove calls alone. */
  predicate Configured(configs: map<ServerId, ServerConfig>, es: seq<Event>, id: ServerId) {
    if es == [] then id in configs
    else match es[|es| - 1]
      case AddServer(config) => config.id == id || Configured(configs, es[..|es| - 1], id)
      case RemoveServer(x) => x != id && Configured(configs, es[..|es| - 1], id)
      case _ => Configured(configs, es[..|es| - 1], id)
  }

  /** A commit, an error report or any other late event never brings back a removed server. */
  lemma {:induction false} OnlyAddAndRemoveChangeServers(configs: map<ServerId, ServerConfig>, es: seq<Event>, id: ServerId)
    requires Run(Initial(configs), es).Some?
    ensures id in Run(Initial(configs), es).value.servers <==> Configured(configs, es, id)
  {
    hide Apply;
    if es != [] {
      OnlyAddAndRemoveChangeServers(configs, es[..|es| - 1], id);
      StepChangesServers(Run(Initial(configs), es[..|es| - 1]).value, es[|es| - 1]);
    }
  }

  lemma StepChangesServers(s: State, e: Event)
    requires Enabled(s, e)
    ensures Apply(s, e).servers.Keys == match e
              case AddServer(config) => s.servers.Keys + {config.id}
              case RemoveServer(id) => s.servers.Keys - {id}
              case _ => s.servers.Keys
  {
  }

  // ---- Connecting is never left without an attempt, except by replacing a live loop ------------------------

  ghost predicate AttemptInFlight(s: State, id: ServerId) {
    exists k | 0 <= k < |s.attempts| :: s.attempts[k].server == id && s.attempts[k].phase == InFlight
  }

  ghost predicate NobodyStranded(s: State) {
    forall id | id in s.servers && s.servers[id].status == Connecting :: AttemptInFlight(s, id)
  }

  /** The one call that strands a server: start_health_loop replacing the loop that owns its only attempts. */
  ghost predicate Strands(s: State, e: Event) {
    && e.StartHealthLoop? && e.id in s.health
    && e.id in s.servers && s.servers[e.id].status == Connecting
    && forall k | 0 <= k < |s.attempts| && s.attempts[k].server == e.id && s.attempts[k].phase == InFlight ::
         s.attempts[k].owner == Some(s.health[e.id])
  }

  lemma StopKeepsOtherAttempts(s: State, id: ServerId, x: ServerId)
    requires TasksOk(s) && x != id && AttemptInFlight(s, x)
    ensures AttemptInFlight(StopHealthLoop(s, id), x)
  {
    var k :| 0 <= k < |s.attempts| && s.attempts[k].server == x && s.attempts[k].phase == InFlight;
    assert StopHealthLoop(s, id).attempts[k] == s.attempts[k];
  }

  /** Main result: exactly the calls described by Strands leave a server Connecting with nothing in flight. */
  lemma StepStrandsExactly(s: State, e: Event)
    requires Invariant(s) && NobodyStranded(s) && Enabled(s, e)
    ensures NobodyStranded(Apply(s, e)) <==> !Strands(s, e)
  {
    hide Invariant, TagTools, Apply, Enabled, Strands;
    var t := Apply(s, e);
    if Strands(s, e) {
      StrandingIsReplacing(s, e);
      ReplacedLoopStrands(s, e.id);
    } else {
      forall x | x in t.servers && t.servers[x].status == Connecting ensures AttemptInFlight(t, x) {
        var becomes := BecomesConnecting(s, e, x);
        if !becomes {
          assert AttemptInFlight(s, x);
          StillInFlight(s, e, x);
        }
      }
    }
  }

  lemma StrandingIsReplacing(s: State, e: Event)
    requires Strands(s, e)
    ensures e.StartHealthLoop? && e == StartHealthLoop(e.id)
  {
  }

  /** A server that was not Connecting becomes so only by a prepare, which puts an attempt in flight. */
  lemma BecomesConnecting(s: State, e: Event, x: ServerId) returns (becomes: bool)
    requires Enabled(s, e) && x in Apply(s, e).servers && Apply(s, e).servers[x].status == Connecting
    ensures becomes ==> AttemptInFlight(Apply(s, e), x)
    ensures !becomes ==> x in s.servers && s.servers[x].status == Connecting
  {
    hide TagTools, CancelOwned;
    var t := Apply(s, e);
    becomes := e.Prepare? && e.id == x && x in s.servers && s.servers[x].status != Connecting;
    if becomes {
      assert t.attempts[|s.attempts|] == Attempt(x, e.owner, InFlight);
    }
  }

  /** A server that stays Connecting keeps an attempt in flight. */
  lemma StillInFlight(s: State, e: Event, x: ServerId)
    requires Invariant(s) && Enabled(s, e) && !Strands(s, e)
    requires x in s.servers && s.servers[x].status == Connecting && AttemptInFlight(s, x)
    requires x in Apply(s, e).servers && Apply(s, e).servers[x].status == Connecting
    ensures AttemptInFlight(Apply(s, e), x)
  {
    hide AuditAgrees, ServerOk, TagTools, Apply;
    match e {
      case RemoveServer(id) => StopStillInFlight(s, e, id, x);
      case DisconnectServer(id) => StopStillInFlight(s, e, id, x);
      case Restart(id) => StopStillInFlight(s, e, id, x);
      case StartHealthLoop(id) => StopStillInFlight(s, e, id, x);
      case _ =>
        var k :| 0 <= k < |s.attempts| && s.attempts[k].server == x && s.attempts[k].phase == InFlight;
        OtherEventsKeepAttempt(s, e, k);
    }
  }

  predicate StopsLoop(e: Event) {
    e.RemoveServer? || e.DisconnectServer? || e.Restart? || e.StartHealthLoop?
  }

  /** Events that abort no loop keep an attempt, unless they commit it and so end its Connecting. */
  lemma OtherEventsKeepAttempt(s: State, e: Event, k: nat)
    requires Enabled(s, e) && !StopsLoop(e) && k < |s.attempts|
    requires var x := s.attempts[k].server; x in Apply(s, e).servers && Apply(s, e).servers[x].status == Connecting
    ensures k < |Apply(s, e).attempts| && Apply(s, e).attempts[k] == s.attempts[k]
  {
    hide TagTools;
  }

  lemma StopStillInFlight(s: State, e: Event, id: ServerId, x: ServerId)
    requires TasksOk(s) && Enabled(s, e) && StopsLoop(e) && id == e.id && !Strands(s, e)
    requires x in s.servers && s.servers[x].status == Connecting && AttemptInFlight(s, x)
    requires x in Apply(s, e).servers && Apply(s, e).servers[x].status == Connecting
    ensures AttemptInFlight(Apply(s, e), x)
  {
    var t := Apply(s, e);
    assert t.attempts == StopHealthLoop(s, id).attempts;
    if id != x {
      StopKeepsOtherAttempts(s, id, x);
      var u := StopHealthLoop(s, id);
      var k :| 0 <= k < |u.attempts| && u.attempts[k].server == x && u.attempts[k].phase == InFlight;
      assert t.attempts[k].server == x;
    } else if id in s.health {
      assert e.StartHealthLoop?;
      var j :| 0 <= j < |s.attempts| && s.attempts[j].server == x && s.attempts[j].phase == InFlight
               && s.attempts[j].owner != Some(s.health[id]);
      assert t.attempts[j] == s.attempts[j];
    } else {
      assert t.attempts == s.attempts;
    }
  }

  /** No event of the run, in the state where it happens, replaces a loop that owns a server's only attempts. */
  ghost predicate NeverStrands(s: State, es: seq<Event>) {
    forall n | 0 <= n < |es| :: Run(s, es[..n]).Some? ==> !Strands(Run(s, es[..n]).value, es[n])
  }

  lemma {:induction false} ConnectingHasAnAttempt(configs: map<ServerId, ServerConfig>, es: seq<Event>)
    requires Run(Initial(configs), es).Some? && NeverStrands(Initial(configs), es)
    ensures NobodyStranded(Run(Initial(configs), es).value)
  {
    if es != [] {
      var before := es[..|es| - 1];
      forall n | 0 <= n < |before| && Run(Initial(configs), before[..n]).Some?
        ensures !Strands(Run(Initial(configs), before[..n]).value, before[n])
      {
        assert before[..n] == es[..n];
      }
      ConnectingHasAnAttempt(configs, before);
      RunsKeepInvariant(configs, before);
      StepStrandsExactly(Run(Initial(configs), before).value, es[|es| - 1]);
    }
  }

  /**
   The exception is reachable: after a failed ping the health loop reconnects, and start_health_loop
   replaces it while its attempt is in flight, as the end of the connect pass at boot or a user's
   connect may do. The server stays Connecting, and a later connect is refused.
   */
  lemma ReplacingALiveLoopStrands(config: ServerConfig, m: string)
    ensures var id := config.id;
            var es := [Prepare(id, None), CommitOk(0, []), StartHealthLoop(id),
                       HealthCheckFailed(id, 0, m), Reconnect(id, 0), Prepare(id, Some(0)), StartHealthLoop(id)];
            var r := Run(Initial(map[id := config]), es);
            && r.Some? && !NobodyStranded(r.value) && id in r.value.servers
            && r.value.servers[id].status == Connecting
            && Apply(r.value, Prepare(id, None)) == r.value
  {
    hide *;
    var id := config.id;
    var es := [Prepare(id, None), CommitOk(0, []), StartHealthLoop(id),
               HealthCheckFailed(id, 0, m), Reconnect(id, 0), Prepare(id, Some(0)), StartHealthLoop(id)];
    var s0 := Initial(map[id := config]);
    ConnectedWithLoop(config);
    RunNothing(s0);
    assert es[..0] == [];
    var s1 := RunNext(s0, es, 0, s0);
    var s2 := RunNext(s0, es, 1, s1);
    var s3 := RunNext(s0, es, 2, s2);
    LoopReconnects(s3, id, m);
    var s4 := RunNext(s0, es, 3, s3);
    var s5 := RunNext(s0, es, 4, s4);
    var s6 := RunNext(s0, es, 5, s5);
    var s7 := RunNext(s0, es, 6, s6);
    assert es[..7] == es;
    ReplacedLoopStrands(s6, id);
  }

  /** A server connected on request, with its health loop started. */
  lemma ConnectedWithLoop(config: ServerConfig)
    ensures var id, s0 := config.id, Initial(map[config.id := config]);
            && Enabled(s0, Prepare(id, None))
            && var s1 := Apply(s0, Prepare(id, None));
               && Enabled(s1, CommitOk(0, []))
               && var s2 := Apply(s1, CommitOk(0, []));
                  && Enabled(s2, StartHealthLoop(id))
                  && var s3 := Apply(s2, StartHealthLoop(id));
                     id in s3.servers && LiveTask(s3, id, 0) && s3.attempts == [Attempt(id, None, Succeeded)]
  {
  }

  /** The loop's ping fails and it reconnects: its attempt is the only one in flight. */
  lemma LoopReconnects(s3: State, id: ServerId, m: string)
    requires id in s3.servers && LiveTask(s3, id, 0) && s3.attempts == [Attempt(id, None, Succeeded)]
    ensures && Enabled(s3, HealthCheckFailed(id, 0, m))
            && var s4 := Apply(s3, HealthCheckFailed(id, 0, m));
               && Enabled(s4, Reconnect(id, 0))
               && var s5 := Apply(s4, Reconnect(id, 0));
                  && Enabled(s5, Prepare(id, Some(0)))
                  && var s6 := Apply(s5, Prepare(id, Some(0)));
                     Strands(s6, StartHealthLoop(id)) && Enabled(s6, StartHealthLoop(id))
  {
  }

  lemma RunNothing(s: State)
    ensures Run(s, []) == Some(s)
  {
  }

  lemma RunNext(s: State, es: seq<Event>, n: nat, t: State) returns (u: State)
    requires n < |es| && Run(s, es[..n]) == Some(t) && Enabled(t, es[n])
    ensures u == Apply(t, es[n]) && Run(s, es[..n + 1]) == Some(u)
  {
    assert es[..n + 1][..n] == es[..n];
    u := Apply(t, es[n]);
  }

  lemma ReplacedLoopStrands(s: State, id: ServerId)
    requires Strands(s, StartHealthLoop(id))
    ensures var t := Apply(s, StartHealthLoop(id));
            && !NobodyStranded(t) && id in t.servers && t.servers[id].status == Connecting
            && Enabled(t, Prepare(id, None)) && Apply(t, Prepare(id, None)) == t
  {
    var t := Apply(s, StartHealthLoop(id));
    assert forall k | 0 <= k < |t.attempts| && t.attempts[k].server == id :: t.attempts[k].phase != InFlight;
    assert !AttemptInFlight(t, id);
  }
}
