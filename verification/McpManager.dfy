/**
 McpManager and the `*_shared` functions (src-tauri/src/mcp.rs), section by section, over the
 fields they update. Each method refines one event of McpLifecycle, and states what it does to each field.
 */
module McpManager {
  import opened Base
  import L = McpLifecycle

  datatype McpError = NotFound(id: string) | NotConnected(id: string) | AlreadyConnecting(id: string)

  // ---- What a section changes, field by field ------------------------------------------------------------

  /** Every server but id is as it was. */
  ghost predicate OthersKept(before: map<L.ServerId, L.Server>, after: map<L.ServerId, L.Server>, id: L.ServerId) {
    forall x | x != id :: (x in after <==> x in before) && (x in before ==> after[x] == before[x])
  }

  /** If known, id is now server; the rest, and whether id is known, are as before. */
  ghost predicate Becomes(before: map<L.ServerId, L.Server>, after: map<L.ServerId, L.Server>, id: L.ServerId, server: L.Server) {
    OthersKept(before, after, id) && (id in after <==> id in before) && (id in before ==> after[id] == server)
  }

  /** No health loop is filed under id, and the attempts its task was awaiting are cancelled; nothing else is. */
  ghost predicate LoopAborted(before: L.State, after: L.State, id: L.ServerId) {
    && id !in after.health
    && (forall x | x != id :: (x in after.health <==> x in before.health) && (x in before.health ==> after.health[x] == before.health[x]))
    && |after.attempts| == |before.attempts|
    && forall k | 0 <= k < |before.attempts| ::
         var a := before.attempts[k];
         if id in before.health && a.owner == Some(before.health[id]) && a.phase == L.InFlight
         then after.attempts[k] == L.Attempt(a.server, a.owner, L.Cancelled)
         else after.attempts[k] == a
  }

  /** Loops, tasks and attempts are as before. */
  ghost predicate LoopsKept(before: L.State, after: L.State) {
    after.health == before.health && after.tasks == before.tasks && after.attempts == before.attempts
  }

  class McpManager {
    var servers: map<L.ServerId, L.Server>
    var health: map<L.ServerId, nat>
    var tasks: seq<L.ServerId>
    var attempts: seq<L.Attempt>
    var audit: seq<L.AuditRow>

    function Snapshot(): L.State
      reads this
    {
      L.State(servers, health, tasks, attempts, audit)
    }

    /** Every reachable manager satisfies this; each method below keeps it by StepKeepsInvariant. */
    ghost predicate Valid()
      reads this
    {
      L.Invariant(Snapshot())
    }

    constructor (configs: map<L.ServerId, L.ServerConfig>)
      ensures Valid() && Snapshot() == L.Initial(configs)
    {
      servers := map id | id in configs :: L.Fresh(configs[id]);
      health, tasks, attempts, audit := map[], [], [], [];
      new;
      L.RunsKeepInvariant(configs, []);
    }

    method AddServer(config: L.ServerConfig) returns (added: bool)
      requires Valid()
      modifies this
      ensures Valid() && Snapshot() == L.Apply(old(Snapshot()), L.AddServer(config))
      ensures LoopsKept(old(Snapshot()), Snapshot()) && audit == old(audit)
      ensures added ==> servers == old(servers)[config.id := L.Server(config, L.Disconnected, [], None, None)]
      ensures !added ==> servers == old(servers)
      ensures added <==> config.id !in old(servers)
    {
      hide L.Invariant;
      L.StepKeepsInvariant(Snapshot(), L.AddServer(config));
      if config.id in servers {
        return false;
      }
      servers := servers[config.id := L.Server(config, L.Disconnected, [], None, None)];
      added := true;
    }

    method UpdateServer(id: L.ServerId, config: L.ServerConfig) returns (found: bool)
      requires Valid()
      modifies this
      ensures Valid() && Snapshot() == L.Apply(old(Snapshot()), L.UpdateServer(id, config))
      ensures id in old(servers) ==> var v := old(servers)[id];
                Becomes(old(servers), servers, id, L.Server(config, v.status, v.tools, v.error, v.connection))
      ensures (!found ==> servers == old(servers)) && LoopsKept(old(Snapshot()), Snapshot()) && audit == old(audit)
      ensures found <==> id in old(servers)
    {
      hide L.Invariant;
      L.StepKeepsInvariant(Snapshot(), L.UpdateServer(id, config));
      found := id in servers;
      if found {
        servers := servers[id := servers[id].(config := config)];
      }
    }

    method RecordAudit(id: L.ServerId, kind: L.AuditKind)
      modifies this`audit
      ensures audit == old(audit) + [L.AuditRow(id, kind)]
    {
      audit := audit + [L.AuditRow(id, kind)];
    }

    /** Removes the health task of id and aborts it, which drops the attempt it awaits. */
    method StopHealthLoop(id: L.ServerId)
      modifies this`health, this`attempts
      ensures Snapshot() == L.StopHealthLoop(old(Snapshot()), id)
      ensures LoopAborted(old(Snapshot()), Snapshot(), id)
    {
      if id in health {
        var task := health[id];
        health := health - {id};
        attempts := L.CancelOwned(attempts, task);
      }
    }

    method StartHealthLoop(id: L.ServerId) returns (task: nat)
      requires Valid()
      modifies this
      ensures Valid() && Snapshot() == L.Apply(old(Snapshot()), L.StartHealthLoop(id))
      ensures servers == old(servers) && audit == old(audit) && task == |old(tasks)| && tasks == old(tasks) + [id]
      ensures health == old(health)[id := task]
      ensures LoopAborted(old(Snapshot()), Snapshot().(health := health - {id}), id)
      ensures L.LiveTask(Snapshot(), id, task)
    {
      hide L.Invariant;
      L.StepKeepsInvariant(Snapshot(), L.StartHealthLoop(id));
      StopHealthLoop(id);
      task := |tasks|;
      tasks := tasks + [id];
      health := health[id := task];
    }

    method RemoveServer(id: L.ServerId) returns (removed: Option<L.ServerConfig>)
      requires Valid()
      modifies this
      ensures Valid() && Snapshot() == L.Apply(old(Snapshot()), L.RemoveServer(id))
      ensures id !in servers && OthersKept(old(servers), servers, id) && tasks == old(tasks)
      ensures LoopAborted(old(Snapshot()), Snapshot(), id) && audit == old(audit) + [L.AuditRow(id, L.Removed)]
      ensures removed == if id in old(servers) then Some(old(servers)[id].config) else None
    {
      hide L.Invariant;
      L.StepKeepsInvariant(Snapshot(), L.RemoveServer(id));
      StopHealthLoop(id);
      RecordAudit(id, L.Removed);
      if id !in servers {
        assert servers - {id} == servers;
        return None;
      }
      removed := Some(servers[id].config);
      servers := servers - {id};
    }

    /** First section of connect_server_shared: returns the number of the attempt it puts in flight. */
    method Prepare(id: L.ServerId, owner: Option<nat>) returns (r: Result<nat, McpError>)
      requires Valid() && L.Enabled(Snapshot(), L.Prepare(id, owner))
      modifies this
      ensures Valid() && Snapshot() == L.Apply(old(Snapshot()), L.Prepare(id, owner))
      ensures r.Ok? <==> id in old(servers) && old(servers)[id].status != L.Connecting
      ensures r.Ok? ==> r.value == |old(attempts)| && attempts == old(attempts) + [L.Attempt(id, owner, L.InFlight)]
      ensures r.Err? ==> Snapshot() == old(Snapshot())
      ensures r.Err? ==> r.error == if id in old(servers) then AlreadyConnecting(id) else NotFound(id)
      ensures r.Ok? ==> var v := old(servers)[id];
                && Becomes(old(servers), servers, id, L.Server(v.config, L.Connecting, v.tools, None, v.connection))
                && health == old(health) && tasks == old(tasks) && audit == old(audit) + [L.AuditRow(id, L.ConnectAttempt)]
    {
      hide L.Invariant;
      L.StepKeepsInvariant(Snapshot(), L.Prepare(id, owner));
      if id !in servers {
        return Err(NotFound(id));
      }
      if servers[id].status == L.Connecting {
        return Err(AlreadyConnecting(id));
      }
      servers := servers[id := servers[id].(status := L.Connecting, error := None)];
      r := Ok(|attempts|);
      attempts := attempts + [L.Attempt(id, owner, L.InFlight)];
      RecordAudit(id, L.ConnectAttempt);
    }

    /** Last section of connect_server_shared after the IO succeeded with the tools it discovered. */
    method CommitOk(k: nat, found: seq<L.RemoteTool>)
      requires Valid() && L.Enabled(Snapshot(), L.CommitOk(k, found))
      modifies this
      ensures Valid() && Snapshot() == L.Apply(old(Snapshot()), L.CommitOk(k, found))
      ensures var a := old(attempts)[k];
              && attempts == old(attempts)[k := L.Attempt(a.server, a.owner, L.Succeeded)]
              && health == old(health) && tasks == old(tasks)
              && audit == old(audit) + [L.AuditRow(a.server, L.ConnectSucceeded)]
              && (a.server !in old(servers) ==> servers == old(servers))
              && (a.server in old(servers) ==>
                    && a.server in servers && |servers[a.server].tools| == |found|
                    && Becomes(old(servers), servers, a.server,
                               L.Server(old(servers)[a.server].config, L.Connected, servers[a.server].tools, None,
                                        Some(L.Connection(k))))
                    && forall i | 0 <= i < |found| :: servers[a.server].tools[i]
                         == L.ToolDef(a.server, found[i].name, found[i].description, found[i].schema))
    {
      hide L.Invariant;
      L.StepKeepsInvariant(Snapshot(), L.CommitOk(k, found));
      var id := attempts[k].server;
      attempts := attempts[k := attempts[k].(phase := L.Succeeded)];
      var tools := DefineTools(id, found);
      if id in servers {
        servers := servers[id := servers[id].(status := L.Connected, error := None, tools := tools,
                                              connection := Some(L.Connection(k)))];
      }
      RecordAudit(id, L.ConnectSucceeded);
    }

    method CommitErr(k: nat, message: string)
      requires Valid() && L.Enabled(Snapshot(), L.CommitErr(k, message))
      modifies this
      ensures Valid() && Snapshot() == L.Apply(old(Snapshot()), L.CommitErr(k, message))
      ensures var a := old(attempts)[k];
              && attempts == old(attempts)[k := L.Attempt(a.server, a.owner, L.Failed)]
              && health == old(health) && tasks == old(tasks)
              && audit == old(audit) + [L.AuditRow(a.server, L.ConnectFailed)]
              && (a.server !in old(servers) ==> servers == old(servers))
              && (a.server in old(servers) ==>
                    var v := old(servers)[a.server];
                    Becomes(old(servers), servers, a.server, L.Server(v.config, L.Failing, v.tools, Some(message), v.connection)))
    {
      hide L.Invariant;
      L.StepKeepsInvariant(Snapshot(), L.CommitErr(k, message));
      var id := attempts[k].server;
      attempts := attempts[k := attempts[k].(phase := L.Failed)];
      RecordAudit(id, L.ConnectFailed);
      if id in servers {
        servers := servers[id := servers[id].(status := L.Failing, error := Some(message))];
      }
    }

    /** The tool definitions stored for a server, each carrying the server's own key. */
    static method DefineTools(id: L.ServerId, found: seq<L.RemoteTool>) returns (tools: seq<L.ToolDef>)
      ensures tools == L.TagTools(id, found) && |tools| == |found|
      ensures forall i | 0 <= i < |found| :: tools[i] == L.ToolDef(id, found[i].name, found[i].description, found[i].schema)
    {
      tools := [];
      for i := 0 to |found|
        invariant tools == L.TagTools(id, found)[..i]
      {
        tools := tools + [L.ToolDef(id, found[i].name, found[i].description, found[i].schema)];
      }
    }

    method DisconnectServer(id: L.ServerId)
      requires Valid()
      modifies this
      ensures Valid() && Snapshot() == L.Apply(old(Snapshot()), L.DisconnectServer(id))
      ensures id in servers <==> id in old(servers)
      ensures id in servers ==> servers[id] == L.Server(old(servers)[id].config, L.Disconnected, [], None, None)
      ensures OthersKept(old(servers), servers, id) && tasks == old(tasks)
      ensures LoopAborted(old(Snapshot()), Snapshot(), id) && audit == old(audit) + [L.AuditRow(id, L.Disconnect)]
    {
      hide L.Invariant;
      L.StepKeepsInvariant(Snapshot(), L.DisconnectServer(id));
      StopHealthLoop(id);
      if id in servers {
        servers := servers[id := servers[id].(connection := None, status := L.Disconnected, tools := [], error := None)];
      }
      RecordAudit(id, L.Disconnect);
    }

    /** First section of reconnect_server_shared, run by the health task itself: tools and error stay. */
    method BeginReconnect(id: L.ServerId, task: nat)
      requires Valid() && L.LiveTask(Snapshot(), id, task)
      modifies this
      ensures Valid() && Snapshot() == L.Apply(old(Snapshot()), L.Reconnect(id, task))
      ensures id in old(servers) ==> var v := old(servers)[id];
                Becomes(old(servers), servers, id, L.Server(v.config, L.Disconnected, v.tools, v.error, None))
      ensures (id !in old(servers) ==> servers == old(servers)) && LoopsKept(old(Snapshot()), Snapshot()) && audit == old(audit)
    {
      hide L.Invariant;
      L.StepKeepsInvariant(Snapshot(), L.Reconnect(id, task));
      if id in servers {
        servers := servers[id := servers[id].(connection := None, status := L.Disconnected)];
      }
    }

    /** First section of restart_server_shared. */
    method BeginRestart(id: L.ServerId)
      requires Valid()
      modifies this
      ensures Valid() && Snapshot() == L.Apply(old(Snapshot()), L.Restart(id))
      ensures id in servers <==> id in old(servers)
      ensures id in servers ==> servers[id] == L.Server(old(servers)[id].config, L.Disconnected, [], None, None)
      ensures OthersKept(old(servers), servers, id) && tasks == old(tasks)
      ensures LoopAborted(old(Snapshot()), Snapshot(), id) && audit == old(audit) + [L.AuditRow(id, L.Disconnect)]
    {
      hide L.Invariant;
      L.StepKeepsInvariant(Snapshot(), L.Restart(id));
      StopHealthLoop(id);
      if id in servers {
        servers := servers[id := servers[id].(connection := None, status := L.Disconnected, tools := [], error := None)];
      }
      RecordAudit(id, L.Disconnect);
    }

    /** refresh_tools once tools/list has answered; a failed listing changes nothing. */
    method RefreshTools(id: L.ServerId, found: seq<L.RemoteTool>) returns (r: Result<seq<L.ToolDef>, McpError>)
      requires Valid()
      modifies this
      ensures Valid() && Snapshot() == L.Apply(old(Snapshot()), L.RefreshTools(id, found))
      ensures r.Ok? ==> && id in old(servers) && |r.value| == |found|
                        && (forall i | 0 <= i < |found| ::
                              r.value[i] == L.ToolDef(id, found[i].name, found[i].description, found[i].schema))
                        && var v := old(servers)[id];
                           Becomes(old(servers), servers, id, L.Server(v.config, v.status, r.value, v.error, v.connection))
      ensures r.Err? ==> servers == old(servers) && r.error == if id in old(servers) then NotConnected(id) else NotFound(id)
      ensures LoopsKept(old(Snapshot()), Snapshot()) && audit == old(audit)
      ensures r.Ok? <==> id in old(servers) && old(servers)[id].connection.Some?
      ensures r.Ok? ==> r.value == servers[id].tools
    {
      hide L.Invariant;
      L.StepKeepsInvariant(Snapshot(), L.RefreshTools(id, found));
      if id !in servers {
        return Err(NotFound(id));
      }
      if servers[id].connection.None? {
        return Err(NotConnected(id));
      }
      var tools := DefineTools(id, found);
      servers := servers[id := servers[id].(tools := tools)];
      r := Ok(tools);
    }

    /** set_error: the message, if any, after classification. */
    method SetError(id: L.ServerId, outcome: Option<string>)
      requires Valid()
      modifies this`servers
      ensures Valid() && Snapshot() == L.Apply(old(Snapshot()), L.ReportError(id, outcome))
      ensures id in old(servers) ==> var v := old(servers)[id];
                Becomes(old(servers), servers, id, L.Server(v.config, if outcome.Some? then L.Failing else v.status, v.tools, outcome, v.connection))
      ensures (id !in old(servers) ==> servers == old(servers)) && LoopsKept(old(Snapshot()), Snapshot())
      ensures audit == old(audit)
    {
      hide L.Invariant;
      L.StepKeepsInvariant(Snapshot(), L.ReportError(id, outcome));
      if id in servers {
        var state := servers[id];
        state := state.(error := outcome);
        if outcome.Some? {
          state := state.(status := L.Failing);
        }
        servers := servers[id := state];
      }
    }

    /** What run_health_loop does under the write lock after a failed ping. */
    method ReportHealthFailure(id: L.ServerId, task: nat, message: string)
      requires Valid() && L.LiveTask(Snapshot(), id, task)
      modifies this
      ensures Valid() && Snapshot() == L.Apply(old(Snapshot()), L.HealthCheckFailed(id, task, message))
      ensures id in old(servers) ==> var v := old(servers)[id];
                Becomes(old(servers), servers, id, L.Server(v.config, L.Failing, v.tools, Some(message), v.connection))
      ensures (id !in old(servers) ==> servers == old(servers)) && LoopsKept(old(Snapshot()), Snapshot())
      ensures audit == old(audit) + [L.AuditRow(id, L.HealthFailed)]
    {
      hide L.Invariant;
      L.StepKeepsInvariant(Snapshot(), L.HealthCheckFailed(id, task, message));
      SetError(id, Some(message));
      RecordAudit(id, L.HealthFailed);
    }
  }
}
