/**
 What a server looks like after a run of the MCP manager (src-tauri/src/mcp.rs), read off the
 calls made rather than off the states: each field has the value the last call that speaks of it
 gave it.
 */
module McpHistory {
  import opened Base
  import opened McpLifecycle
  import T = McpTools

  /** The value given by the last event that says something, else the initial one. */
  ghost function LastWord<V>(es: seq<Event>, said: (seq<Event>, Event) -> Option<V>, initial: V): V {
    if es == [] then initial
    else match said(es[..|es| - 1], es[|es| - 1])
      case Some(v) => v
      case None => LastWord(es[..|es| - 1], said, initial)
  }

  /** The server each attempt of a state is for. */
  function Targets(s: State): (r: seq<ServerId>)
    ensures |r| == |s.attempts| && forall k | 0 <= k < |r| :: r[k] == s.attempts[k].server
  {
    seq(|s.attempts|, k requires 0 <= k < |s.attempts| => s.attempts[k].server)
  }

  /** Attempt k is for id. */
  predicate IsFor(targets: seq<ServerId>, k: nat, id: ServerId) {
    k < |targets| && targets[k] == id
  }

  /** The call is one of disconnect, reconnect and restart of id, all of which give up the connection. */
  predicate GivesUp(e: Event, id: ServerId) {
    e == DisconnectServer(id) || e == Restart(id) || (e.Reconnect? && e.id == id)
  }

  /** The add call that puts id, not configured so far, into the map. */
  ghost predicate Adds(configs: map<ServerId, ServerConfig>, before: seq<Event>, e: Event, id: ServerId) {
    e.AddServer? && e.config.id == id && !Configured(configs, before, id)
  }

  ghost function StatusSaid(configs: map<ServerId, ServerConfig>, targets: seq<ServerId>, id: ServerId): (seq<Event>, Event) -> Option<Status> {
    (before: seq<Event>, e: Event) =>
      if Adds(configs, before, e, id) || GivesUp(e, id) then Some(Disconnected)
      else if e.Prepare? && e.id == id then Some(Connecting)
      else if e.CommitOk? && IsFor(targets, e.attempt, id) then Some(Connected)
      else if e.CommitErr? && IsFor(targets, e.attempt, id) then Some(Failing)
      else if e.HealthCheckFailed? && e.id == id then Some(Failing)
      else if e.ReportError? && e.id == id && e.outcome.Some? then Some(Failing)
      else None
  }

  ghost function ErrorSaid(configs: map<ServerId, ServerConfig>, targets: seq<ServerId>, id: ServerId)
    : (seq<Event>, Event) -> Option<Option<string>>
  {
    (before: seq<Event>, e: Event) =>
      if Adds(configs, before, e, id) || e == DisconnectServer(id) || e == Restart(id) then Some(None)
      else if e.Prepare? && e.id == id then Some(None)
      else if e.CommitOk? && IsFor(targets, e.attempt, id) then Some(None)
      else if e.CommitErr? && IsFor(targets, e.attempt, id) then Some(Some(e.message))
      else if e.HealthCheckFailed? && e.id == id then Some(Some(e.message))
      else if e.ReportError? && e.id == id then Some(e.outcome)
      else None
  }

  ghost function ConnectionSaid(configs: map<ServerId, ServerConfig>, targets: seq<ServerId>, id: ServerId)
    : (seq<Event>, Event) -> Option<Option<Connection>>
  {
    (before: seq<Event>, e: Event) =>
      if Adds(configs, before, e, id) || GivesUp(e, id) then Some(None)
      else if e.CommitOk? && IsFor(targets, e.attempt, id) then Some(Some(Connection(e.attempt)))
      else None
  }

  /** A refresh speaks of the tools only while a connection is installed. */
  ghost function ToolsSaid(configs: map<ServerId, ServerConfig>, targets: seq<ServerId>, id: ServerId)
    : (seq<Event>, Event) -> Option<seq<ToolDef>>
  {
    (before: seq<Event>, e: Event) =>
      if Adds(configs, before, e, id) || e == DisconnectServer(id) || e == Restart(id) then Some([])
      else if e.CommitOk? && IsFor(targets, e.attempt, id) then Some(TagTools(id, e.found))
      else if e.RefreshTools? && e.id == id && LastWord(before, ConnectionSaid(configs, targets, id), None).Some?
      then Some(TagTools(id, e.found))
      else None
  }

  ghost function ConfigSaid(configs: map<ServerId, ServerConfig>, id: ServerId): (seq<Event>, Event) -> Option<Option<ServerConfig>> {
    (before: seq<Event>, e: Event) =>
      if Adds(configs, before, e, id) then Some(Some(e.config))
      else if e.UpdateServer? && e.id == id then Some(Some(e.config))
      else None
  }

  /** Every field of the server is what the history says. */
  ghost predicate IsAsTold(configs: map<ServerId, ServerConfig>, targets: seq<ServerId>, es: seq<Event>, id: ServerId, v: Server) {
    && v.status == LastWord(es, StatusSaid(configs, targets, id), Disconnected)
    && v.error == LastWord(es, ErrorSaid(configs, targets, id), None)
    && v.connection == LastWord(es, ConnectionSaid(configs, targets, id), None)
    && v.tools == LastWord(es, ToolsSaid(configs, targets, id), [])
    && Some(v.config) == LastWord(es, ConfigSaid(configs, id), if id in configs then Some(configs[id]) else None)
  }

  lemma WordStep<V>(es: seq<Event>, said: (seq<Event>, Event) -> Option<V>, initial: V)
    requires es != []
    ensures LastWord(es, said, initial) == match said(es[..|es| - 1], es[|es| - 1])
              case Some(v) => v
              case None => LastWord(es[..|es| - 1], said, initial)
  {
  }

  /**
   Main result: after every run, each configured server's status, error, connection, tools and
   config are those given by the last call that speaks of them.
   */
  lemma {:induction false} HistoryDecides(configs: map<ServerId, ServerConfig>, es: seq<Event>, id: ServerId, targets: seq<ServerId>)
    requires Run(Initial(configs), es).Some? && id in Run(Initial(configs), es).value.servers
    requires Targets(Run(Initial(configs), es).value) <= targets
    ensures IsAsTold(configs, targets, es, id, Run(Initial(configs), es).value.servers[id])
  {
    hide Apply, Enabled, Configured, IsAsTold, LastWord;
    if es == [] {
      FreshIsAsTold(configs, targets, id);
    } else {
      var before, e := es[..|es| - 1], es[|es| - 1];
      var s := Run(Initial(configs), before).value;
      TargetsGrow(s, e);
      OnlyAddAndRemoveChangeServers(configs, before, id);
      OnlyAddAndRemoveChangeServers(configs, es, id);
      if id in s.servers {
        HistoryDecides(configs, before, id, targets);
        RunsKeepInvariant(configs, before);
        StaysAsTold(configs, targets, before, e, s, id);
      } else {
        AddedIsAsTold(configs, targets, before, e, s, id);
      }
      assert before + [e] == es;
    }
  }

  lemma FreshIsAsTold(configs: map<ServerId, ServerConfig>, targets: seq<ServerId>, id: ServerId)
    requires id in configs
    ensures IsAsTold(configs, targets, [], id, Initial(configs).servers[id])
  {
  }

  lemma TargetsGrow(s: State, e: Event)
    requires Enabled(s, e)
    ensures Targets(s) <= Targets(Apply(s, e))
  {
    hide TagTools;
  }

  lemma AddedIsAsTold(configs: map<ServerId, ServerConfig>, targets: seq<ServerId>, before: seq<Event>, e: Event, s: State, id: ServerId)
    requires Enabled(s, e) && id !in s.servers && id in Apply(s, e).servers && !Configured(configs, before, id)
    ensures IsAsTold(configs, targets, before + [e], id, Apply(s, e).servers[id])
  {
    var es := before + [e];
    assert es[..|es| - 1] == before;
    AddedSays(configs, targets, before, e, s, id);
    hide *;
    WordStep(es, StatusSaid(configs, targets, id), Disconnected);
    WordStep(es, ErrorSaid(configs, targets, id), None);
    WordStep(es, ConnectionSaid(configs, targets, id), None);
    WordStep(es, ToolsSaid(configs, targets, id), []);
    WordStep(es, ConfigSaid(configs, id), if id in configs then Some(configs[id]) else None);
    ToldIs(configs, targets, es, id, Apply(s, e).servers[id]);
  }

  lemma ToldIs(configs: map<ServerId, ServerConfig>, targets: seq<ServerId>, es: seq<Event>, id: ServerId, v: Server)
    requires v.status == LastWord(es, StatusSaid(configs, targets, id), Disconnected)
    requires v.error == LastWord(es, ErrorSaid(configs, targets, id), None)
    requires v.connection == LastWord(es, ConnectionSaid(configs, targets, id), None)
    requires v.tools == LastWord(es, ToolsSaid(configs, targets, id), [])
    requires Some(v.config) == LastWord(es, ConfigSaid(configs, id), if id in configs then Some(configs[id]) else None)
    ensures IsAsTold(configs, targets, es, id, v)
  {
    hide LastWord, StatusSaid, ErrorSaid, ConnectionSaid, ToolsSaid, ConfigSaid;
  }

  lemma AddedSays(configs: map<ServerId, ServerConfig>, targets: seq<ServerId>, before: seq<Event>, e: Event, s: State, id: ServerId)
    requires Enabled(s, e) && id !in s.servers && id in Apply(s, e).servers && !Configured(configs, before, id)
    ensures var w := Apply(s, e).servers[id];
            && StatusSaid(configs, targets, id)(before, e) == Some(w.status)
            && ErrorSaid(configs, targets, id)(before, e) == Some(w.error)
            && ConnectionSaid(configs, targets, id)(before, e) == Some(w.connection)
            && ToolsSaid(configs, targets, id)(before, e) == Some(w.tools)
            && ConfigSaid(configs, id)(before, e) == Some(Some(w.config))
  {
    hide LastWord, TagTools, Configured, StopHealthLoop, IsFor;
    StopKeepsServers(s);
    assert e.AddServer? && e.config.id == id;
  }

  lemma StaysAsTold(configs: map<ServerId, ServerConfig>, targets: seq<ServerId>, before: seq<Event>, e: Event, s: State, id: ServerId)
    requires Enabled(s, e) && id in s.servers && id in Apply(s, e).servers && Configured(configs, before, id)
    requires Targets(s) <= targets && IsAsTold(configs, targets, before, id, s.servers[id])
    requires Invariant(s)
    ensures IsAsTold(configs, targets, before + [e], id, Apply(s, e).servers[id])
  {
    var es := before + [e];
    assert es[..|es| - 1] == before;
    hide LastWord;
    WordStep(es, StatusSaid(configs, targets, id), Disconnected);
    WordStep(es, ErrorSaid(configs, targets, id), None);
    WordStep(es, ConnectionSaid(configs, targets, id), None);
    WordStep(es, ToolsSaid(configs, targets, id), []);
    WordStep(es, ConfigSaid(configs, id), if id in configs then Some(configs[id]) else None);
    StepSays(configs, targets, before, e, s, id);
  }

  /** v, or what was there before when nothing was said. */
  function Otherwise<V>(said: Option<V>, old_: V): V {
    match said case Some(v) => v case None => old_
  }

  /** From v to w, each field changes as e says. */
  ghost predicate ChangesAsSaid(configs: map<ServerId, ServerConfig>, targets: seq<ServerId>, before: seq<Event>, e: Event,
                                id: ServerId, v: Server, w: Server)
  {
    && w.status == Otherwise(StatusSaid(configs, targets, id)(before, e), v.status)
    && w.error == Otherwise(ErrorSaid(configs, targets, id)(before, e), v.error)
    && w.connection == Otherwise(ConnectionSaid(configs, targets, id)(before, e), v.connection)
    && w.tools == Otherwise(ToolsSaid(configs, targets, id)(before, e), v.tools)
    && Some(w.config) == Otherwise(ConfigSaid(configs, id)(before, e), Some(v.config))
  }

  lemma StepSays(configs: map<ServerId, ServerConfig>, targets: seq<ServerId>, before: seq<Event>, e: Event, s: State, id: ServerId)
    requires Enabled(s, e) && id in s.servers && id in Apply(s, e).servers && Configured(configs, before, id)
    requires Targets(s) <= targets && Invariant(s)
    requires s.servers[id].connection == LastWord(before, ConnectionSaid(configs, targets, id), None)
    ensures ChangesAsSaid(configs, targets, before, e, id, s.servers[id], Apply(s, e).servers[id])
  {
    assert ServerOk(s, id);
    if e.CommitOk? || e.CommitErr? {
      CommitSays(configs, targets, before, e, s, id);
    } else {
      OtherSays(configs, targets, before, e, s, id);
    }
  }

  lemma CommitSays(configs: map<ServerId, ServerConfig>, targets: seq<ServerId>, before: seq<Event>, e: Event, s: State, id: ServerId)
    requires Enabled(s, e) && (e.CommitOk? || e.CommitErr?) && id in s.servers && Targets(s) <= targets
    ensures id in Apply(s, e).servers
    ensures ChangesAsSaid(configs, targets, before, e, id, s.servers[id], Apply(s, e).servers[id])
  {
    hide LastWord, TagTools, Configured, GivesUp;
    var k := e.attempt;
    assert Targets(s)[k] == targets[k];
    assert IsFor(targets, k, id) <==> s.attempts[k].server == id;
    hide IsFor, Targets;
    var v, w := s.servers[id], Apply(s, e).servers[id];
    if s.attempts[k].server != id {
      assert w == v;
    }
    GivesUpMeans(e, id);
  }

  lemma GivesUpMeans(e: Event, id: ServerId)
    ensures GivesUp(e, id) ==> e.DisconnectServer? || e.Restart? || e.Reconnect?
  {
  }

  lemma OtherSays(configs: map<ServerId, ServerConfig>, targets: seq<ServerId>, before: seq<Event>, e: Event, s: State, id: ServerId)
    requires Enabled(s, e) && !e.CommitOk? && !e.CommitErr?
    requires id in s.servers && id in Apply(s, e).servers && Configured(configs, before, id) && ServerOk(s, id)
    requires s.servers[id].connection == LastWord(before, ConnectionSaid(configs, targets, id), None)
    ensures ChangesAsSaid(configs, targets, before, e, id, s.servers[id], Apply(s, e).servers[id])
  {
    hide Apply, Enabled, Configured, ServerOk, LastWord, StatusSaid, ErrorSaid, ConnectionSaid, ToolsSaid, ConfigSaid, Otherwise;
    OtherStatus(configs, targets, before, e, s, id);
    OtherError(configs, targets, before, e, s, id);
    OtherConnection(configs, targets, before, e, s, id);
    OtherTools(configs, targets, before, e, s, id);
    OtherConfig(configs, targets, before, e, s, id);
  }

  lemma OtherStatus(configs: map<ServerId, ServerConfig>, targets: seq<ServerId>, before: seq<Event>, e: Event, s: State, id: ServerId)
    requires Enabled(s, e) && !e.CommitOk? && !e.CommitErr?
    requires id in s.servers && id in Apply(s, e).servers && Configured(configs, before, id) && ServerOk(s, id)
    ensures Apply(s, e).servers[id].status == Otherwise(StatusSaid(configs, targets, id)(before, e), s.servers[id].status)
  {
    hide LastWord, TagTools, Configured, StopHealthLoop, IsFor;
    StopKeepsServers(s);
    GivesUpMeans(e, id);
    if !Concerns(e, id) {
      assert Apply(s, e).servers[id] == s.servers[id];
    }
  }

  lemma OtherError(configs: map<ServerId, ServerConfig>, targets: seq<ServerId>, before: seq<Event>, e: Event, s: State, id: ServerId)
    requires Enabled(s, e) && !e.CommitOk? && !e.CommitErr?
    requires id in s.servers && id in Apply(s, e).servers && Configured(configs, before, id) && ServerOk(s, id)
    ensures Apply(s, e).servers[id].error == Otherwise(ErrorSaid(configs, targets, id)(before, e), s.servers[id].error)
  {
    hide LastWord, TagTools, Configured, StopHealthLoop, IsFor;
    StopKeepsServers(s);
    GivesUpMeans(e, id);
    if !Concerns(e, id) {
      assert Apply(s, e).servers[id] == s.servers[id];
    }
  }

  lemma OtherConnection(configs: map<ServerId, ServerConfig>, targets: seq<ServerId>, before: seq<Event>, e: Event, s: State, id: ServerId)
    requires Enabled(s, e) && !e.CommitOk? && !e.CommitErr?
    requires id in s.servers && id in Apply(s, e).servers && Configured(configs, before, id) && ServerOk(s, id)
    ensures Apply(s, e).servers[id].connection == Otherwise(ConnectionSaid(configs, targets, id)(before, e), s.servers[id].connection)
  {
    hide LastWord, TagTools, Configured, StopHealthLoop, IsFor;
    StopKeepsServers(s);
    GivesUpMeans(e, id);
    if !Concerns(e, id) {
      assert Apply(s, e).servers[id] == s.servers[id];
    }
  }

  lemma OtherTools(configs: map<ServerId, ServerConfig>, targets: seq<ServerId>, before: seq<Event>, e: Event, s: State, id: ServerId)
    requires Enabled(s, e) && !e.CommitOk? && !e.CommitErr?
    requires id in s.servers && id in Apply(s, e).servers && Configured(configs, before, id) && ServerOk(s, id)
    requires s.servers[id].connection == LastWord(before, ConnectionSaid(configs, targets, id), None)
    ensures Apply(s, e).servers[id].tools == Otherwise(ToolsSaid(configs, targets, id)(before, e), s.servers[id].tools)
  {
    hide LastWord, TagTools, Configured, StopHealthLoop, IsFor, ConnectionSaid;
    StopKeepsServers(s);
    GivesUpMeans(e, id);
    if !Concerns(e, id) {
      assert Apply(s, e).servers[id] == s.servers[id];
    }
  }

  lemma OtherConfig(configs: map<ServerId, ServerConfig>, targets: seq<ServerId>, before: seq<Event>, e: Event, s: State, id: ServerId)
    requires Enabled(s, e) && !e.CommitOk? && !e.CommitErr?
    requires id in s.servers && id in Apply(s, e).servers && Configured(configs, before, id) && ServerOk(s, id)
    ensures Some(Apply(s, e).servers[id].config) == Otherwise(ConfigSaid(configs, id)(before, e), Some(s.servers[id].config))
  {
    hide LastWord, TagTools, Configured, StopHealthLoop, IsFor;
    StopKeepsServers(s);
    GivesUpMeans(e, id);
    if !Concerns(e, id) {
      assert Apply(s, e).servers[id] == s.servers[id];
    }
  }

  predicate Concerns(e: Event, id: ServerId) {
    match e
    case AddServer(_) => false
    case CommitOk(_, _) => false
    case CommitErr(_, _) => false
    case _ => e.id == id
  }

  lemma StopKeepsServers(s: State)
    ensures forall id :: StopHealthLoop(s, id).servers == s.servers
  {
  }

  /** Main result: right after a disconnect or the first section of a restart, nothing of the server can be called or is listed. */
  lemma NothingLeftAfterDisconnect(configs: map<ServerId, ServerConfig>, es: seq<Event>, id: ServerId, order: seq<ServerId>)
    requires Run(Initial(configs), es).Some? && es != []
    requires es[|es| - 1] == DisconnectServer(id) || es[|es| - 1] == Restart(id)
    requires T.Enumerates(order, Run(Initial(configs), es).value.servers)
    ensures var s := Run(Initial(configs), es).value;
            && T.GetTransport(s.servers, id) == None && id !in s.health
            && (forall t | t in T.AllTools(s.servers, order) :: t.serverId != id)
            && (id in s.servers ==> s.servers[id].status == Disconnected && s.servers[id].tools == [] && s.servers[id].error == None)
  {
    hide Run;
    var s := Run(Initial(configs), es).value;
    if id in s.servers {
      HistoryDecides(configs, es, id, Targets(s));
    }
    LoopIsAsTold(configs, es, id);
    RunsKeepInvariant(configs, es);
    forall t | t in T.AllTools(s.servers, order) ensures t.serverId != id {
      T.AllToolsMembers(s.servers, order, t);
      var x :| x in order && t in T.ToolsOf(s.servers[x]);
      assert ServerOk(s, x);
    }
  }

  // ---- Health loops, attempts and the audit table ------------------------------------------------------------

  predicate StopsLoopOf(e: Event, id: ServerId) {
    e == RemoveServer(id) || e == DisconnectServer(id) || e == Restart(id)
  }

  ghost function Starts(es: seq<Event>): nat {
    Count(es, (e: Event) => e.StartHealthLoop?)
  }

  /** A start files the next task; a disconnect, restart or removal ends the loop. */
  ghost function LoopSaid(id: ServerId): (seq<Event>, Event) -> Option<Option<nat>> {
    (before: seq<Event>, e: Event) =>
      if e == StartHealthLoop(id) then Some(Some(Starts(before)))
      else if StopsLoopOf(e, id) then Some(None)
      else None
  }

  /** Main result: a server has a health loop exactly when it was started after the last call that stops it. */
  lemma {:induction false} LoopIsAsTold(configs: map<ServerId, ServerConfig>, es: seq<Event>, id: ServerId)
    requires Run(Initial(configs), es).Some?
    ensures var s := Run(Initial(configs), es).value;
            |s.tasks| == Starts(es) && LastWord(es, LoopSaid(id), None) == if id in s.health then Some(s.health[id]) else None
  {
    if es != [] {
      hide Run, LastWord, Apply, Enabled;
      var before, e := es[..|es| - 1], es[|es| - 1];
      RunStep(configs, es);
      LoopIsAsTold(configs, before, id);
      assert es == before + [e];
      CountAppend(before, e, (x: Event) => x.StartHealthLoop?);
      WordStep(es, LoopSaid(id), None);
      LoopStep(Run(Initial(configs), before).value, e, id);
    }
  }

  lemma LoopStep(s: State, e: Event, id: ServerId)
    requires Enabled(s, e)
    ensures var t := Apply(s, e);
            && |t.tasks| == |s.tasks| + (if e.StartHealthLoop? then 1 else 0)
            && (e == StartHealthLoop(id) ==> id in t.health && t.health[id] == |s.tasks|)
            && (StopsLoopOf(e, id) ==> id !in t.health)
            && (e != StartHealthLoop(id) && !StopsLoopOf(e, id) ==>
                  (id in t.health <==> id in s.health) && (id in s.health ==> t.health[id] == s.health[id]))
  {
    hide TagTools, CancelOwned;
  }

  lemma RunStep(configs: map<ServerId, ServerConfig>, es: seq<Event>)
    requires Run(Initial(configs), es).Some? && es != []
    ensures var r := Run(Initial(configs), es[..|es| - 1]);
            && r.Some? && Enabled(r.value, es[|es| - 1])
            && Run(Initial(configs), es).value == Apply(r.value, es[|es| - 1])
  {
  }

  ghost predicate CommitsOk(es: seq<Event>, k: nat) {
    exists n :: 0 <= n < |es| && es[n].CommitOk? && es[n].attempt == k
  }

  ghost predicate CommitsErr(es: seq<Event>, k: nat) {
    exists n :: 0 <= n < |es| && es[n].CommitErr? && es[n].attempt == k
  }

  /** An attempt's phase: committed, or cancelled when the task that owned it is gone. */
  ghost predicate PhaseIsTold(es: seq<Event>, s: State, k: nat)
    requires k < |s.attempts|
  {
    var a := s.attempts[k];
    && (a.phase == Succeeded <==> CommitsOk(es, k))
    && (a.phase == Failed <==> CommitsErr(es, k))
    && (a.owner.Some? ==> a.owner.value < |s.tasks|)
    && (a.phase == Cancelled ==> a.owner.Some? && !LiveTask(s, a.server, a.owner.value))
    && (a.phase == InFlight && a.owner.Some? ==> LiveTask(s, a.server, a.owner.value))
  }

  /** Main result: an attempt has succeeded or failed exactly when it committed so, and is cancelled exactly with its task. */
  lemma {:induction false} PhasesAreTold(configs: map<ServerId, ServerConfig>, es: seq<Event>)
    requires Run(Initial(configs), es).Some?
    ensures var s := Run(Initial(configs), es).value;
            && (forall k | 0 <= k < |s.attempts| :: PhaseIsTold(es, s, k))
            && (forall k: nat | CommitsOk(es, k) || CommitsErr(es, k) :: k < |s.attempts|)
  {
    if es != [] {
      hide Run, PhaseIsTold, Apply, Enabled;
      var before, e := es[..|es| - 1], es[|es| - 1];
      RunStep(configs, es);
      PhasesAreTold(configs, before);
      RunsKeepInvariant(configs, before);
      var s := Run(Initial(configs), before).value;
      assert es == before + [e];
      CommitsStep(before, e);
      CommitsExist(s, e);
      forall k | 0 <= k < |Apply(s, e).attempts| ensures PhaseIsTold(es, Apply(s, e), k) {
        PhaseStep(before, e, s, k);
      }
    }
  }

  lemma CommitsStep(before: seq<Event>, e: Event)
    ensures forall k :: CommitsOk(before + [e], k) <==> CommitsOk(before, k) || (e.CommitOk? && e.attempt == k)
    ensures forall k :: CommitsErr(before + [e], k) <==> CommitsErr(before, k) || (e.CommitErr? && e.attempt == k)
  {
    var es := before + [e];
    assert es[|before|] == e && forall n | 0 <= n < |before| :: es[n] == before[n];
  }

  lemma CommitsExist(s: State, e: Event)
    requires Enabled(s, e)
    ensures |s.attempts| <= |Apply(s, e).attempts|
    ensures (e.CommitOk? || e.CommitErr?) ==> e.attempt < |s.attempts|
  {
    hide TagTools;
  }

  lemma PhaseStep(before: seq<Event>, e: Event, s: State, k: nat)
    requires Enabled(s, e) && TasksOk(s) && k < |Apply(s, e).attempts|
    requires k < |s.attempts| ==> PhaseIsTold(before, s, k)
    requires k >= |s.attempts| ==> !CommitsOk(before, k) && !CommitsErr(before, k)
    ensures PhaseIsTold(before + [e], Apply(s, e), k)
  {
    hide CommitsOk, CommitsErr, PhaseIsTold, Apply, Enabled, TasksOk;
    CommitsStep(before, e);
    if StopsLoop(e) {
      StopPhaseStep(before, e, s, k);
    } else {
      OtherPhaseStep(before, e, s, k);
    }
  }

  lemma StopPhaseStep(before: seq<Event>, e: Event, s: State, k: nat)
    requires Enabled(s, e) && TasksOk(s) && StopsLoop(e) && k < |Apply(s, e).attempts|
    requires k < |s.attempts| ==> PhaseIsTold(before, s, k)
    requires CommitsOk(before + [e], k) <==> CommitsOk(before, k)
    requires CommitsErr(before + [e], k) <==> CommitsErr(before, k)
    ensures PhaseIsTold(before + [e], Apply(s, e), k)
  {
    hide CommitsOk, CommitsErr, StopHealthLoop;
    StopPhases(s, e.id, k);
    StopKeepsServers(s);
  }

  lemma OtherPhaseStep(before: seq<Event>, e: Event, s: State, k: nat)
    requires Enabled(s, e) && TasksOk(s) && !StopsLoop(e) && k < |Apply(s, e).attempts|
    requires if k < |s.attempts| then PhaseIsTold(before, s, k) else !CommitsOk(before, k) && !CommitsErr(before, k)
    requires CommitsOk(before + [e], k) <==> CommitsOk(before, k) || (e.CommitOk? && e.attempt == k)
    requires CommitsErr(before + [e], k) <==> CommitsErr(before, k) || (e.CommitErr? && e.attempt == k)
    ensures PhaseIsTold(before + [e], Apply(s, e), k)
  {
    hide CommitsOk, CommitsErr, StopHealthLoop, TagTools, WithError;
  }

  /** Aborting a loop cancels exactly the attempts in flight that its task owns. */
  lemma StopPhases(s: State, id: ServerId, k: nat)
    ensures var t := StopHealthLoop(s, id);
            && |t.attempts| == |s.attempts| && t.health == s.health - {id} && t.tasks == s.tasks
            && (k < |s.attempts| ==>
                  var a := s.attempts[k];
                  t.attempts[k] == if id in s.health && a.owner == Some(s.health[id]) && a.phase == InFlight
                                   then a.(phase := Cancelled) else a)
  {
  }

  /** A call that writes a row of this kind for id, prepares aside. */
  predicate Writes(e: Event, targets: seq<ServerId>, id: ServerId, kind: AuditKind) {
    match kind
    case ConnectAttempt => false
    case ConnectSucceeded => e.CommitOk? && IsFor(targets, e.attempt, id)
    case ConnectFailed => e.CommitErr? && IsFor(targets, e.attempt, id)
    case HealthFailed => e.HealthCheckFailed? && e.id == id
    case Disconnect => e == DisconnectServer(id) || e == Restart(id)
    case Removed => e == RemoveServer(id)
  }

  /** Main result: the audit table has one row per commit, failed ping, disconnect, restart and removal, known server or not. */
  lemma {:induction false} AuditIsTold(configs: map<ServerId, ServerConfig>, es: seq<Event>, targets: seq<ServerId>,
                                       id: ServerId, kind: AuditKind)
    requires Run(Initial(configs), es).Some? && Targets(Run(Initial(configs), es).value) <= targets && kind != ConnectAttempt
    ensures Rows(Run(Initial(configs), es).value.audit, id, kind) == Count(es, (e: Event) => Writes(e, targets, id, kind))
  {
    if es != [] {
      hide Run, Apply, Enabled, Rows;
      var before, e := es[..|es| - 1], es[|es| - 1];
      RunStep(configs, es);
      var s := Run(Initial(configs), before).value;
      TargetsGrow(s, e);
      AuditIsTold(configs, before, targets, id, kind);
      assert es == before + [e];
      CountAppend(before, e, (x: Event) => Writes(x, targets, id, kind));
      RowsStep(s, e, targets, id, kind);
    } else {
      NoRows(id, kind);
    }
  }

  lemma NoRows(id: ServerId, kind: AuditKind)
    ensures Rows([], id, kind) == 0
  {
  }

  lemma RowsStep(s: State, e: Event, targets: seq<ServerId>, id: ServerId, kind: AuditKind)
    requires Enabled(s, e) && Targets(s) <= targets && kind != ConnectAttempt
    ensures Rows(Apply(s, e).audit, id, kind) == Rows(s.audit, id, kind) + if Writes(e, targets, id, kind) then 1 else 0
  {
    hide Rows, TagTools, CancelOwned;
    forall row ensures Rows(s.audit + [row], id, kind) == Rows(s.audit, id, kind) + (if row == AuditRow(id, kind) then 1 else 0) {
      AppendRow(s.audit, row, id, kind);
    }
  }
}
