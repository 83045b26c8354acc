/**
 The event sink's per-conversation buffers (src-tauri/src/engine_sink.rs): tool activities
 accumulated over a turn and drained when it completes, and the queue of follow-up messages.
 */
module EngineSink {
  import opened Base

  type Conv = string

  /** A JSON value; only null and identity matter here. */
  datatype Json = Null | Value(text: string)

  /** The fields the sink reads, with None for a missing or ill-typed one. */
  datatype Activity = Activity(
    kind: Option<string>,
    toolCallId: Option<string>,
    toolName: Option<Json>,
    input: Option<Json>,
    result: Option<Json>,
    isError: Option<bool>,
    durationMs: Option<Json>)

  datatype Entry =
    | StartEntry(toolCallId: string, toolName: Json, input: Json)
    | ResultEntry(toolCallId: string, toolName: Json, input: Json, result: Json, status: string, isError: bool, durationMs: Json)

  datatype Followup = Followup(uuid: string, message: string)

  datatype Event =
    | ToolActivity(conv: Option<Conv>, activity: Option<Activity>)
    | Complete(conv: Option<Conv>, text: Option<string>, storeReady: bool, piEnabled: bool)
    | QueueFollowup(to: Conv, item: Followup)

  /** drained: the batches handed to persistence. dispatched: the follow-ups sent, oldest first. */
  datatype State = State(
    buffers: map<Conv, seq<Entry>>,
    queues: map<Conv, seq<Followup>>,
    drained: map<Conv, seq<seq<Entry>>>,
    dispatched: map<Conv, seq<Followup>>)

  const EmptyState := State(map[], map[], map[], map[])

  function At<T>(m: map<Conv, seq<T>>, c: Conv): seq<T> {
    if c in m then m[c] else []
  }

  function OrNull(j: Option<Json>): Json {
    match j case Some(v) => v case None => Null
  }

  function OrEmpty(s: Option<string>): string {
    match s case Some(v) => v case None => ""
  }

  // ---- Steps -----------------------------------------------------------------------------------------

  /** Input of the last entry with this call id: what a result copies from the buffer. */
  function BufferedInput(buf: seq<Entry>, id: string): Json {
    if buf == [] then Null
    else if buf[|buf| - 1].toolCallId == id then buf[|buf| - 1].input
    else BufferedInput(buf[..|buf| - 1], id)
  }

  predicate IsRecorded(a: Activity) {
    OrEmpty(a.toolCallId) != "" && OrEmpty(a.kind) in {"tool_start", "tool_result"}
  }

  function MakeEntry(a: Activity, resultInput: Json): Entry {
    var id := OrEmpty(a.toolCallId);
    if OrEmpty(a.kind) == "tool_start" then StartEntry(id, OrNull(a.toolName), OrNull(a.input))
    else ResultEntry(id, OrNull(a.toolName), resultInput, OrNull(a.result),
                     if a.isError == Some(true) then "failed" else "completed", a.isError == Some(true), OrNull(a.durationMs))
  }

  /** The buffer with one more entry. */
  function Recorded(buf: seq<Entry>, a: Activity): seq<Entry> {
    buf + [MakeEntry(a, BufferedInput(buf, OrEmpty(a.toolCallId)))]
  }

  function Accumulate(s: State, c: Conv, a: Activity): State {
    var id := OrEmpty(a.toolCallId);
    if id == "" then s
    else
      var buf := At(s.buffers, c);
      s.(buffers := s.buffers[c := if IsRecorded(a) then Recorded(buf, a) else buf])
  }

  /** persist_assistant drains only when it has a conversation, some text and a store to write to. */
  predicate Drains(e: Event, c: Conv) {
    e.Complete? && e.piEnabled && e.storeReady && e.conv == Some(c) && OrEmpty(e.text) != ""
  }

  function Drain(s: State, c: Conv): State {
    var batch := At(s.buffers, c);
    s.(buffers := s.buffers - {c},
       drained := if batch == [] then s.drained else s.drained[c := At(s.drained, c) + [batch]])
  }

  function Dispatch(s: State, c: Conv): State {
    if c !in s.queues || s.queues[c] == [] then s.(queues := s.queues - {c})
    else
      var q := s.queues[c];
      s.(queues := if |q| == 1 then s.queues - {c} else s.queues[c := q[1..]],
         dispatched := s.dispatched[c := At(s.dispatched, c) + [q[0]]])
  }

  function Apply(s: State, e: Event): State {
    match e
    case ToolActivity(conv, activity) =>
      if conv.Some? && activity.Some? then Accumulate(s, conv.value, activity.value) else s
    case Complete(conv, text, storeReady, piEnabled) =>
      if !piEnabled || conv.None? then s
      else Dispatch(if Drains(e, conv.value) then Drain(s, conv.value) else s, conv.value)
    case QueueFollowup(c, item) => s.(queues := s.queues[c := At(s.queues, c) + [item]])
  }

  function Run(es: seq<Event>): State {
    if es == [] then EmptyState else Apply(Run(es[..|es| - 1]), es[|es| - 1])
  }

  // ---- The stream, read declaratively -------------------------------------------------------------------

  predicate IsActivityOf(e: Event, c: Conv) {
    e.ToolActivity? && e.conv == Some(c) && e.activity.Some? && IsRecorded(e.activity.value)
  }

  /** Input of the most recent start with this call id since the conversation was last drained. */
  function LastStartInput(es: seq<Event>, c: Conv, id: string): Json {
    if es == [] || Drains(es[|es| - 1], c) then Null
    else
      var e := es[|es| - 1];
      if IsActivityOf(e, c) && e.activity.value.kind == Some("tool_start") && e.activity.value.toolCallId == Some(id)
      then OrNull(e.activity.value.input)
      else LastStartInput(es[..|es| - 1], c, id)
  }

  /** The entry that e, after before, adds to the conversation's stream, if any. */
  function NewEntries(before: seq<Event>, e: Event, c: Conv): seq<Entry> {
    if IsActivityOf(e, c)
    then [MakeEntry(e.activity.value, LastStartInput(before, c, OrEmpty(e.activity.value.toolCallId)))]
    else []
  }

  /** One entry per recorded activity of the conversation, in stream order. */
  function Stream(es: seq<Event>, c: Conv): seq<Entry> {
    if es == [] then []
    else Stream(es[..|es| - 1], c) + NewEntries(es[..|es| - 1], es[|es| - 1], c)
  }

  /** The part of the stream after the last drain. */
  function SinceDrain(es: seq<Event>, c: Conv): seq<Entry> {
    if es == [] || Drains(es[|es| - 1], c) then []
    else SinceDrain(es[..|es| - 1], c) + NewEntries(es[..|es| - 1], es[|es| - 1], c)
  }

  function Queued(es: seq<Event>, c: Conv): seq<Followup> {
    if es == [] then []
    else
      var e := es[|es| - 1];
      Queued(es[..|es| - 1], c) + (if e.QueueFollowup? && e.to == c then [e.item] else [])
  }

  // ---- Conservation ------------------------------------------------------------------------------------

  lemma BufferedInputAppend(buf: seq<Entry>, entry: Entry, id: string)
    ensures BufferedInput(buf + [entry], id) == if entry.toolCallId == id then entry.input else BufferedInput(buf, id)
  {
    assert (buf + [entry])[..|buf|] == buf;
  }

  lemma StepBuffers(s: State, e: Event, c: Conv)
    ensures var t := Apply(s, e);
            At(t.buffers, c) == (if Drains(e, c) then []
                                 else if IsActivityOf(e, c)
                                 then Recorded(At(s.buffers, c), e.activity.value)
                                 else At(s.buffers, c))
    ensures At(Apply(s, e).drained, c)
         == if Drains(e, c) && At(s.buffers, c) != [] then At(s.drained, c) + [At(s.buffers, c)] else At(s.drained, c)
  {
  }

  /** What a result copies from the buffer is the input of the most recent start since the last drain. */
  lemma {:induction false} BufferKnowsLastStart(es: seq<Event>, c: Conv, id: string)
    requires id != ""
    ensures BufferedInput(At(Run(es).buffers, c), id) == LastStartInput(es, c, id)
  {
    if es != [] {
      var before, e := es[..|es| - 1], es[|es| - 1];
      BufferKnowsLastStart(before, c, id);
      StepBuffers(Run(before), e, c);
      if IsActivityOf(e, c) && !Drains(e, c) {
        var a := e.activity.value;
        var buf := At(Run(before).buffers, c);
        BufferedInputAppend(buf, MakeEntry(a, BufferedInput(buf, OrEmpty(a.toolCallId))), id);
      }
    }
  }

  lemma {:induction false} BufferIsSinceDrain(es: seq<Event>, c: Conv)
    ensures At(Run(es).buffers, c) == SinceDrain(es, c)
  {
    if es != [] {
      var before, e := es[..|es| - 1], es[|es| - 1];
      BufferIsSinceDrain(before, c);
      StepBuffers(Run(before), e, c);
      if IsActivityOf(e, c) {
        BufferKnowsLastStart(before, c, OrEmpty(e.activity.value.toolCallId));
      }
    }
  }

  /**
   Main result: for every conversation and every event stream, the drained batches followed by
   the current buffer are the whole stream of entries; nothing is lost, repeated or reordered.
   */
  lemma {:induction false} ActivitiesAreConserved(es: seq<Event>, c: Conv)
    ensures Flatten(At(Run(es).drained, c)) + At(Run(es).buffers, c) == Stream(es, c)
  {
    if es != [] {
      var before, e := es[..|es| - 1], es[|es| - 1];
      var s := Run(before);
      ActivitiesAreConserved(before, c);
      StepBuffers(s, e, c);
      if Drains(e, c) {
        FlattenAppend(At(s.drained, c), At(s.buffers, c));
      } else if IsActivityOf(e, c) {
        BufferKnowsLastStart(before, c, OrEmpty(e.activity.value.toolCallId));
      }
    }
  }

  lemma {:induction false} DispatchedMoves(s: State, c: Conv, x: Conv)
    ensures At(Dispatch(s, c).dispatched, x) + At(Dispatch(s, c).queues, x) == At(s.dispatched, x) + At(s.queues, x)
    ensures |At(s.dispatched, x)| <= |At(Dispatch(s, c).dispatched, x)| <= |At(s.dispatched, x)| + 1
  {
    if c in s.queues && s.queues[c] != [] {
      var q := s.queues[c];
      assert q == [q[0]] + q[1..];
    }
  }

  /** Main result: follow-ups sent, then those still queued, are everything queued, in order. */
  lemma {:induction false} FollowupsAreConserved(es: seq<Event>, c: Conv)
    ensures At(Run(es).dispatched, c) + At(Run(es).queues, c) == Queued(es, c)
  {
    if es != [] {
      var before, e := es[..|es| - 1], es[|es| - 1];
      var s := Run(before);
      FollowupsAreConserved(before, c);
      match e {
        case ToolActivity(_, _) =>
        case QueueFollowup(to, item) =>
          assert At(s.dispatched, c) + (At(s.queues, c) + [item]) == (At(s.dispatched, c) + At(s.queues, c)) + [item];
        case Complete(conv, _, _, _) =>
          if conv.Some? {
            DispatchedMoves(s, conv.value, c);
            DispatchedMoves(Drain(s, conv.value), conv.value, c);
          }
      }
    }
  }

  /** Main result: a completed turn with something to persist leaves nothing buffered, and sends one follow-up if any waits. */
  lemma CompletionDrainsAndSends(es: seq<Event>, c: Conv, text: string)
    requires text != ""
    ensures var s, t := Run(es), Run(es + [Complete(Some(c), Some(text), true, true)]);
            && At(t.buffers, c) == [] && Flatten(At(t.drained, c)) == Stream(es, c)
            && (if At(s.queues, c) == [] then At(t.dispatched, c) == At(s.dispatched, c) && At(t.queues, c) == []
                else At(t.dispatched, c) == At(s.dispatched, c) + [At(s.queues, c)[0]] && At(t.queues, c) == At(s.queues, c)[1..])
  {
    var e := Complete(Some(c), Some(text), true, true);
    assert (es + [e])[..|es|] == es;
    ActivitiesAreConserved(es + [e], c);
    StepBuffers(Run(es), e, c);
    hide Flatten, Stream;
    assert Stream(es + [e], c) == Stream(es, c) by {
      assert Drains(e, c);
      StreamOfOther(es, e, c);
    }
  }

  lemma StreamOfOther(es: seq<Event>, e: Event, c: Conv)
    requires !IsActivityOf(e, c)
    ensures Stream(es + [e], c) == Stream(es, c)
  {
    assert (es + [e])[..|es|] == es;
  }

  /** No empty queue stays in the map, so a conversation listed there always has something to send. */
  lemma {:induction false} NoEmptyQueues(es: seq<Event>)
    ensures forall c | c in Run(es).queues :: Run(es).queues[c] != []
  {
    if es != [] {
      NoEmptyQueues(es[..|es| - 1]);
    }
  }

  // ---- The sink ------------------------------------------------------------------------------------------

  /** j is the field's value, or null when the field is missing. */
  ghost predicate Stands(j: Json, field: Option<Json>) {
    if field.Some? then j == field.value else j == Null
  }

  /** The activity is of this kind and has this call id, which is not empty. */
  ghost predicate Reports(a: Activity, kind: string, id: string) {
    a.kind == Some(kind) && a.toolCallId == Some(id) && id != ""
  }

  /** input is that of the last entry with this call id, null if there is none. */
  ghost predicate IsLastInput(buf: seq<Entry>, id: string, input: Json) {
    || (exists i | 0 <= i < |buf| ::
          buf[i].toolCallId == id && input == buf[i].input && forall j | i < j < |buf| :: buf[j].toolCallId != id)
    || (input == Null && forall e | e in buf :: e.toolCallId != id)
  }

  /** From before to after, the buffer has exactly the entry the activity calls for, if it calls for one. */
  ghost predicate Accumulates(before: seq<Entry>, after: seq<Entry>, a: Activity) {
    && (forall id | Reports(a, "tool_start", id) ::
          && |after| == |before| + 1 && before <= after
          && var e := after[|before|];
             e.StartEntry? && e.toolCallId == id && Stands(e.toolName, a.toolName) && Stands(e.input, a.input))
    && (forall id | Reports(a, "tool_result", id) ::
          && |after| == |before| + 1 && before <= after
          && var e := after[|before|];
             && e.ResultEntry? && e.toolCallId == id && Stands(e.toolName, a.toolName) && IsLastInput(before, id, e.input)
             && Stands(e.result, a.result) && Stands(e.durationMs, a.durationMs)
             && (e.isError <==> a.isError == Some(true)) && e.status == if e.isError then "failed" else "completed")
    && (!(exists id :: Reports(a, "tool_start", id) || Reports(a, "tool_result", id)) ==> after == before)
  }

  ghost predicate OthersKept<T>(before: map<Conv, seq<T>>, after: map<Conv, seq<T>>, c: Conv) {
    forall x | x != c :: (x in after <==> x in before) && (x in before ==> after[x] == before[x])
  }

  lemma {:induction false} BufferedInputIsLast(buf: seq<Entry>, id: string)
    ensures IsLastInput(buf, id, BufferedInput(buf, id))
  {
    if buf != [] && buf[|buf| - 1].toolCallId != id {
      var init := buf[..|buf| - 1];
      BufferedInputIsLast(init, id);
      var input := BufferedInput(init, id);
      if i :| 0 <= i < |init| && init[i].toolCallId == id && input == init[i].input
              && forall j | i < j < |init| :: init[j].toolCallId != id {
        assert buf[i] == init[i];
      } else {
        assert buf == init + [buf[|buf| - 1]];
      }
    }
  }

  /** What a recorded activity adds to the buffer. */
  lemma RecordedAccumulates(buf: seq<Entry>, a: Activity)
    ensures Accumulates(buf, if IsRecorded(a) then Recorded(buf, a) else buf, a)
  {
    BufferedInputIsLast(buf, OrEmpty(a.toolCallId));
    hide IsLastInput, BufferedInput;
    if IsRecorded(a) {
      assert Reports(a, a.kind.value, a.toolCallId.value);
    }
  }

  class TauriEventSink {
    var toolActivities: map<Conv, seq<Entry>>
    var pendingFollowups: map<Conv, seq<Followup>>
    ghost var drained: map<Conv, seq<seq<Entry>>>
    ghost var dispatched: map<Conv, seq<Followup>>

    ghost function Snapshot(): State
      reads this
    {
      State(toolActivities, pendingFollowups, drained, dispatched)
    }

    constructor ()
      ensures Snapshot() == EmptyState
    {
      toolActivities, pendingFollowups, drained, dispatched := map[], map[], map[], map[];
    }

    method AccumulateToolActivity(conv: Option<Conv>, activity: Option<Activity>)
      modifies this`toolActivities
      ensures Snapshot() == Apply(old(Snapshot()), ToolActivity(conv, activity))
      ensures conv.None? || activity.None? ==> toolActivities == old(toolActivities)
      ensures conv.Some? && activity.Some? ==>
                && OthersKept(old(toolActivities), toolActivities, conv.value)
                && Accumulates(At(old(toolActivities), conv.value), At(toolActivities, conv.value), activity.value)
    {
      hide Accumulates, BufferedInput, IsLastInput;
      if conv.Some? && activity.Some? {
        RecordedAccumulates(At(toolActivities, conv.value), activity.value);
      }
      if conv.None? || activity.None? {
        return;
      }
      var c, a := conv.value, activity.value;
      var kind, id := OrEmpty(a.kind), OrEmpty(a.toolCallId);
      if id == "" {
        return;
      }
      var buf := At(toolActivities, c);
      toolActivities := toolActivities[c := buf];
      if kind == "tool_start" {
        buf := buf + [StartEntry(id, OrNull(a.toolName), OrNull(a.input))];
      } else if kind == "tool_result" {
        var input := FindInput(buf, id);
        var isError := a.isError == Some(true);
        buf := buf + [ResultEntry(id, OrNull(a.toolName), input, OrNull(a.result),
                                  if isError then "failed" else "completed", isError, OrNull(a.durationMs))];
      } else {
        return;
      }
      toolActivities := toolActivities[c := buf];
    }

    /** `iter().rev().find(…)` over the buffer. */
    static method FindInput(buf: seq<Entry>, id: string) returns (input: Json)
      ensures input == BufferedInput(buf, id) && IsLastInput(buf, id, input)
    {
      BufferedInputIsLast(buf, id);
      var i := |buf|;
      assert buf[..i] == buf;
      while i > 0
        invariant 0 <= i <= |buf| && BufferedInput(buf, id) == BufferedInput(buf[..i], id)
      {
        assert buf[..i][..i - 1] == buf[..i - 1];
        i := i - 1;
        if buf[i].toolCallId == id {
          return buf[i].input;
        }
      }
      input := Null;
    }

    /** The batch persist_assistant writes with the message, None when there is nothing to write. */
    method PersistAssistant(conv: Option<Conv>, text: Option<string>, storeReady: bool) returns (batch: Option<seq<Entry>>)
      modifies this`toolActivities, this`drained
      ensures var drains := conv.Some? && Drains(Complete(conv, text, storeReady, true), conv.value);
              && Snapshot() == (if drains then Drain(old(Snapshot()), conv.value) else old(Snapshot()))
              && batch == (if drains && At(old(toolActivities), conv.value) != []
                           then Some(At(old(toolActivities), conv.value)) else None)
      ensures if conv.Some? && text.Some? && text.value != "" && storeReady
              then && conv.value !in toolActivities && OthersKept(old(toolActivities), toolActivities, conv.value)
                   && (if batch.Some? then batch.value != [] && batch.value == At(old(toolActivities), conv.value)
                       else At(old(toolActivities), conv.value) == [])
                   && OthersKept(old(drained), drained, conv.value)
                   && At(drained, conv.value) == At(old(drained), conv.value) + (if batch.Some? then [batch.value] else [])
              else batch == None && toolActivities == old(toolActivities) && drained == old(drained)
    {
      batch := None;
      if conv.None? || text.None? || text.value == "" || !storeReady {
        return;
      }
      var c := conv.value;
      if c in toolActivities && toolActivities[c] != [] {
        batch := Some(toolActivities[c]);
        drained := drained[c := At(drained, c) + [toolActivities[c]]];
      }
      toolActivities := toolActivities - {c};
    }

    method QueuePiFollowup(c: Conv, item: Followup)
      modifies this`pendingFollowups
      ensures Snapshot() == Apply(old(Snapshot()), QueueFollowup(c, item))
      ensures At(pendingFollowups, c) == At(old(pendingFollowups), c) + [item] && c in pendingFollowups
      ensures OthersKept(old(pendingFollowups), pendingFollowups, c)
    {
      pendingFollowups := pendingFollowups[c := At(pendingFollowups, c) + [item]];
    }

    method DispatchPiFollowup(c: Conv) returns (next: Option<Followup>)
      modifies this`pendingFollowups, this`dispatched
      ensures Snapshot() == Dispatch(old(Snapshot()), c)
      ensures next == if At(old(pendingFollowups), c) == [] then None else Some(At(old(pendingFollowups), c)[0])
      ensures next.Some? ==> At(old(pendingFollowups), c) == [next.value] + At(pendingFollowups, c)
      ensures next.None? ==> At(pendingFollowups, c) == []
      ensures c in pendingFollowups <==> At(pendingFollowups, c) != []
      ensures OthersKept(old(pendingFollowups), pendingFollowups, c) && OthersKept(old(dispatched), dispatched, c)
      ensures At(dispatched, c) == At(old(dispatched), c) + (if next.Some? then [next.value] else [])
    {
      next := None;
      if c in pendingFollowups {
        var q := pendingFollowups[c];
        if q != [] {
          next := Some(q[0]);
          q := q[1..];
          pendingFollowups := pendingFollowups[c := q];
          dispatched := dispatched[c := At(dispatched, c) + [next.value]];
        }
        if q == [] {
          pendingFollowups := pendingFollowups - {c};
        }
      }
      assert pendingFollowups == Dispatch(old(Snapshot()), c).queues;
    }

    /** `emit` on stream completion: persist first, then send one follow-up. */
    method EmitComplete(conv: Option<Conv>, text: Option<string>, storeReady: bool, piEnabled: bool)
      returns (batch: Option<seq<Entry>>, next: Option<Followup>)
      modifies this
      ensures Snapshot() == Apply(old(Snapshot()), Complete(conv, text, storeReady, piEnabled))
      ensures conv.None? || !piEnabled ==> batch == None && next == None && Snapshot() == old(Snapshot())
      ensures conv.Some? && piEnabled ==>
                var c := conv.value;
                && OthersKept(old(toolActivities), toolActivities, c) && OthersKept(old(pendingFollowups), pendingFollowups, c)
                && OthersKept(old(drained), drained, c) && OthersKept(old(dispatched), dispatched, c)
                && (if text.Some? && text.value != "" && storeReady
                    then && At(toolActivities, c) == []
                         && batch == (if At(old(toolActivities), c) == [] then None else Some(At(old(toolActivities), c)))
                    else batch == None && At(toolActivities, c) == At(old(toolActivities), c))
                && At(drained, c) == At(old(drained), c) + (if batch.Some? then [batch.value] else [])
                && (next.None? <==> At(old(pendingFollowups), c) == [])
                && At(old(pendingFollowups), c) == (if next.Some? then [next.value] else []) + At(pendingFollowups, c)
                && At(dispatched, c) == At(old(dispatched), c) + (if next.Some? then [next.value] else [])
    {
      batch, next := None, None;
      if piEnabled {
        batch := PersistAssistant(conv, text, storeReady);
        if conv.Some? {
          next := DispatchPiFollowup(conv.value);
        }
      }
    }
  }
}
