/**
 The stdio transport's request/response matching (src-tauri/src/mcp.rs) as a state machine:
 senders register a one-shot channel under their request id, the reader hands each response to
 the channel filed under its id, and timeouts, write failures, cancellation and shutdown interleave.
 JSON-RPC 2.0, sections 4, 4.1 and 5, names the frame kinds.
 */
module StdioProtocol {
  import opened Base

  /** A line from the server: not JSON or not a response, a frame with `method`, or a response. */
  datatype Frame =
    | Unreadable
    | Method(name: string)
    | Response(id: Option<nat>, body: string)

  /**
   The receiving end of a call's one-shot channel; for an abandoned call, where what was sent to
   nobody would be. Frames are named by their position in the input.
   */
  datatype Slot = Empty | Delivered(frame: nat) | SenderDropped

  datatype Failure = WriteFailed | Closed | TimedOut

  /**
   Writing: registered, request not yet written. Waiting: written, awaiting the channel.
   Failing: an error is decided, the table entry is not yet removed. Abandoned: the future was dropped.
   */
  datatype Phase =
    | Writing
    | Waiting
    | Failing(failure: Failure)
    | Answered(frame: nat)
    | Failed(failure: Failure)
    | Abandoned

  /** One send with an id; `since` is how many frames the reader had handled when it registered. */
  datatype Call = Call(id: nat, phase: Phase, slot: Slot, since: nat)

  datatype State = State(
    pending: map<nat, nat>,
    calls: seq<Call>,
    frames: seq<Frame>,
    readerAlive: bool)

  datatype Event =
    | Begin(id: nat)
    | Written(call: nat)
    | WriteFails(call: nat)
    | Receive(frame: Frame)
    | Resolve(call: nat)
    | Timeout(call: nat)
    | Cleanup(call: nat)
    | Cancel(call: nat)
    | StopReader
    | ClearPending

  predicate Returned(p: Phase) {
    p.Answered? || p.Failed?
  }

  predicate Open(p: Phase) {
    p.Writing? || p.Waiting? || p.Failing?
  }

  const EmptyState := State(map[], [], [], true)

  // ---- Steps -----------------------------------------------------------------------------------------

  function SetPhase(s: State, c: nat, p: Phase): State
    requires c < |s.calls|
  {
    s.(calls := s.calls[c := s.calls[c].(phase := p)])
  }

  function SetSlot(s: State, c: nat, slot: Slot): State
    requires c < |s.calls|
  {
    s.(calls := s.calls[c := s.calls[c].(slot := slot)])
  }

  /** The table refers to existing calls. */
  predicate TableOk(s: State) {
    forall id | id in s.pending :: s.pending[id] < |s.calls|
  }

  /** `map.remove(&id)` with the sender dropped: its receiver, if still listening, sees the channel close. */
  function DropSender(s: State, id: nat): State
    requires TableOk(s)
  {
    if id in s.pending
    then SetSlot(s, s.pending[id], SenderDropped).(pending := s.pending - {id})
    else s
  }

  predicate Enabled(s: State, e: Event) {
    match e
    case Written(c) => c < |s.calls| && s.calls[c].phase.Writing?
    case WriteFails(c) => c < |s.calls| && s.calls[c].phase.Writing?
    case Receive(_) => s.readerAlive
    case Resolve(c) => c < |s.calls| && s.calls[c].phase.Waiting? && !s.calls[c].slot.Empty?
    case Timeout(c) => c < |s.calls| && s.calls[c].phase.Waiting? && s.calls[c].slot.Empty?
    case Cleanup(c) => c < |s.calls| && s.calls[c].phase.Failing?
    case Cancel(c) => c < |s.calls| && Open(s.calls[c].phase)
    case _ => true
  }

  function Apply(s: State, e: Event): State
    requires TableOk(s) && Enabled(s, e)
  {
    match e
    case Begin(id) =>
      var t := DropSender(s, id);
      t.(pending := t.pending[id := |t.calls|], calls := t.calls + [Call(id, Writing, Empty, |t.frames|)])
    case Written(c) => SetPhase(s, c, Waiting)
    case WriteFails(c) => SetPhase(s, c, Failing(WriteFailed))
    case Receive(f) =>
      var t := s.(frames := s.frames + [f]);
      if f.Response? && f.id.Some? && f.id.value in s.pending
      then SetSlot(t, s.pending[f.id.value], Delivered(|s.frames|)).(pending := s.pending - {f.id.value})
      else t
    case Resolve(c) =>
      match s.calls[c].slot {
        case Delivered(k) => SetPhase(s, c, Answered(k))
        case _ => SetPhase(s, c, Failing(Closed))
      }
    case Timeout(c) => SetPhase(s, c, Failing(TimedOut))
    case Cleanup(c) => SetPhase(DropSender(s, s.calls[c].id), c, Failed(s.calls[c].phase.failure))
    case Cancel(c) => SetPhase(s, c, Abandoned)
    case StopReader => s.(readerAlive := false)
    case ClearPending =>
      s.(pending := map[],
         calls := seq(|s.calls|, c requires 0 <= c < |s.calls| =>
           if s.calls[c].id in s.pending && s.pending[s.calls[c].id] == c
           then s.calls[c].(slot := SenderDropped) else s.calls[c]))
  }

  function Run(es: seq<Event>): (r: Option<State>)
    ensures r.Some? ==> TableOk(r.value)
  {
    if es == [] then Some(EmptyState)
    else match Run(es[..|es| - 1])
      case None => None
      case Some(s) => if Enabled(s, es[|es| - 1]) then Some(Apply(s, es[|es| - 1])) else None
  }

  // ---- The invariant ---------------------------------------------------------------------------------

  /** No frame in [from, to) is a response with this id. */
  ghost predicate NoneAnswer(frames: seq<Frame>, from: nat, to: nat, id: nat)
    requires from <= to <= |frames|
  {
    forall k | from <= k < to :: frames[k].Response? ==> frames[k].id != Some(id)
  }

  /** Frame k is the first response with this id the reader handled since `since`. */
  ghost predicate FirstAnswer(frames: seq<Frame>, since: nat, k: nat, id: nat) {
    && since <= k < |frames|
    && frames[k].Response? && frames[k].id == Some(id)
    && NoneAnswer(frames, since, k, id)
  }

  /** The call's sender sits in the table. */
  predicate Pending(s: State, c: nat)
    requires c < |s.calls|
  {
    s.calls[c].id in s.pending && s.pending[s.calls[c].id] == c
  }

  ghost predicate CallOk(s: State, c: nat)
    requires c < |s.calls|
  {
    var call := s.calls[c];
    && call.since <= |s.frames|
    // A sender is in the table, has been used, or has been dropped: exactly one of the three.
    && (Pending(s, c) <==> call.slot.Empty?)
    && (call.slot.Empty? ==> NoneAnswer(s.frames, call.since, |s.frames|, call.id))
    && (call.slot.Delivered? ==> FirstAnswer(s.frames, call.since, call.slot.frame, call.id))
    // Returned calls have let go of the table.
    && (call.phase.Answered? ==> call.slot == Delivered(call.phase.frame))
    && (call.phase.Failed? ==> !call.slot.Empty?)
  }

  ghost predicate Invariant(s: State) {
    && (forall id | id in s.pending :: s.pending[id] < |s.calls| && s.calls[s.pending[id]].id == id)
    && (forall c | 0 <= c < |s.calls| :: CallOk(s, c))
  }

  lemma DropKeepsInvariant(s: State, id: nat)
    requires Invariant(s)
    ensures Invariant(DropSender(s, id))
    ensures DropSender(s, id).frames == s.frames && |DropSender(s, id).calls| == |s.calls|
    ensures forall c | 0 <= c < |s.calls| ::
              DropSender(s, id).calls[c] == if s.calls[c].id == id && Pending(s, c)
                                            then s.calls[c].(slot := SenderDropped) else s.calls[c]
    ensures id !in DropSender(s, id).pending
  {
    var t := DropSender(s, id);
    forall c | 0 <= c < |t.calls| ensures CallOk(t, c) {
      assert CallOk(s, c);
    }
  }

  lemma ReceiveKeepsInvariant(s: State, f: Frame)
    requires Invariant(s) && s.readerAlive
    ensures Invariant(Apply(s, Receive(f)))
  {
    var t := Apply(s, Receive(f));
    forall c | 0 <= c < |t.calls| ensures CallOk(t, c) {
      assert CallOk(s, c);
      assert t.frames[..|s.frames|] == s.frames;
    }
  }

  lemma StepKeepsInvariant(s: State, e: Event)
    requires Invariant(s) && Enabled(s, e)
    ensures Invariant(Apply(s, e))
  {
    hide CallOk, FirstAnswer, NoneAnswer;
    match e {
      case Begin(id) => BeginKeepsInvariant(s, id);
      case Receive(f) => ReceiveKeepsInvariant(s, f);
      case Cleanup(c) => CleanupKeepsInvariant(s, c);
      case ClearPending => ClearKeepsInvariant(s);
      case StopReader => StopKeepsInvariant(s);
      case Written(c) => SetPhaseKeepsInvariant(s, c, Waiting);
      case WriteFails(c) => SetPhaseKeepsInvariant(s, c, Failing(WriteFailed));
      case Resolve(c) =>
        SetPhaseKeepsInvariant(s, c, if s.calls[c].slot.Delivered? then Answered(s.calls[c].slot.frame) else Failing(Closed));
      case Timeout(c) => SetPhaseKeepsInvariant(s, c, Failing(TimedOut));
      case Cancel(c) => SetPhaseKeepsInvariant(s, c, Abandoned);
    }
  }

  lemma BeginKeepsInvariant(s: State, id: nat)
    requires Invariant(s)
    ensures Invariant(Apply(s, Begin(id)))
  {
    DropKeepsInvariant(s, id);
    var t, u := Apply(s, Begin(id)), DropSender(s, id);
    forall c | 0 <= c < |t.calls| ensures CallOk(t, c) {
      if c < |u.calls| { assert CallOk(u, c); }
    }
  }

  lemma CleanupKeepsInvariant(s: State, k: nat)
    requires Invariant(s) && Enabled(s, Cleanup(k))
    ensures Invariant(Apply(s, Cleanup(k)))
  {
    DropKeepsInvariant(s, s.calls[k].id);
    var t, u := Apply(s, Cleanup(k)), DropSender(s, s.calls[k].id);
    assert CallOk(s, k);
    forall c | 0 <= c < |t.calls| ensures CallOk(t, c) { assert CallOk(u, c); }
  }

  lemma StopKeepsInvariant(s: State)
    requires Invariant(s)
    ensures Invariant(Apply(s, StopReader))
  {
    var t := Apply(s, StopReader);
    forall c | 0 <= c < |t.calls| ensures CallOk(t, c) { assert CallOk(s, c); }
  }

  lemma SetPhaseKeepsInvariant(s: State, k: nat, p: Phase)
    requires Invariant(s) && k < |s.calls| && !p.Failed?
    requires p.Answered? ==> s.calls[k].slot == Delivered(p.frame)
    ensures Invariant(SetPhase(s, k, p))
  {
    var t := SetPhase(s, k, p);
    forall c | 0 <= c < |t.calls| ensures CallOk(t, c) { assert CallOk(s, c); }
  }

  lemma ClearKeepsInvariant(s: State)
    requires Invariant(s)
    ensures Invariant(Apply(s, ClearPending))
  {
    var t := Apply(s, ClearPending);
    forall c | 0 <= c < |t.calls| ensures CallOk(t, c) { assert CallOk(s, c); }
  }

  lemma {:induction false} RunsKeepInvariant(es: seq<Event>)
    requires Run(es).Some?
    ensures Invariant(Run(es).value)
  {
    if es != [] {
      RunsKeepInvariant(es[..|es| - 1]);
      StepKeepsInvariant(Run(es[..|es| - 1]).value, es[|es| - 1]);
    }
  }

  // ---- What callers see ---------------------------------------------------------------------------------

  /**
   Main result: the answer a call returns is the first response bearing its id that the reader
   handled since the call registered, and no frame answers two calls.
   */
  lemma AnswersAreTheirOwn(es: seq<Event>, c: nat)
    requires Run(es).Some? && c < |Run(es).value.calls| && Run(es).value.calls[c].phase.Answered?
    ensures var s := Run(es).value;
            FirstAnswer(s.frames, s.calls[c].since, s.calls[c].phase.frame, s.calls[c].id)
  {
    RunsKeepInvariant(es);
    assert CallOk(Run(es).value, c);
  }

  ghost predicate DeliveriesDistinct(s: State) {
    forall c, d | 0 <= c < d < |s.calls| && s.calls[c].slot.Delivered? && s.calls[d].slot.Delivered? ::
      s.calls[c].slot.frame != s.calls[d].slot.frame
  }

  lemma {:induction false} NoFrameAnswersTwice(es: seq<Event>)
    requires Run(es).Some?
    ensures DeliveriesDistinct(Run(es).value)
  {
    hide Apply, Invariant, DeliveriesDistinct;
    if es != [] {
      NoFrameAnswersTwice(es[..|es| - 1]);
      RunsKeepInvariant(es[..|es| - 1]);
      StepKeepsDistinct(Run(es[..|es| - 1]).value, es[|es| - 1]);
    } else {
      NothingDelivered();
    }
  }

  lemma NothingDelivered()
    ensures DeliveriesDistinct(EmptyState)
  {
  }

  lemma StepKeepsDistinct(s: State, e: Event)
    requires Invariant(s) && DeliveriesDistinct(s) && Enabled(s, e)
    ensures DeliveriesDistinct(Apply(s, e))
  {
    hide FirstAnswer, NoneAnswer;
    forall c | 0 <= c < |s.calls| ensures s.calls[c].slot.Delivered? ==> s.calls[c].slot.frame < |s.frames| {
      DeliveredIsPast(s, c);
    }
    if e.Begin? { DropKeepsInvariant(s, e.id); }
    if e.Cleanup? { DropKeepsInvariant(s, s.calls[e.call].id); }
  }

  lemma DeliveredIsPast(s: State, c: nat)
    requires Invariant(s) && c < |s.calls|
    ensures s.calls[c].slot.Delivered? ==> s.calls[c].slot.frame < |s.frames|
  {
    assert CallOk(s, c);
  }

  /** Main result: every call not yet returned is in the table, holds its response, or has lost its sender. */
  lemma NobodyWaitsForNothing(es: seq<Event>, c: nat)
    requires Run(es).Some? && c < |Run(es).value.calls|
    ensures var s := Run(es).value;
            Pending(s, c) <==> !(s.calls[c].slot.Delivered? || s.calls[c].slot.SenderDropped?)
  {
    RunsKeepInvariant(es);
    assert CallOk(Run(es).value, c);
  }

  /** Main result: a sender in the table belongs to a call that has not returned; only dropping a future leaks one. */
  lemma ReturnedCallsLeaveTheTable(es: seq<Event>, id: nat)
    requires Run(es).Some? && id in Run(es).value.pending
    ensures var s := Run(es).value;
            var call := s.calls[s.pending[id]];
            call.id == id && (Open(call.phase) || call.phase.Abandoned?)
  {
    RunsKeepInvariant(es);
    var s := Run(es).value;
    assert CallOk(s, s.pending[id]);
  }

  /** No two sends of the run use the same id, as McpConnection's counter guarantees. */
  ghost predicate DistinctIds(s: State) {
    forall c, d | 0 <= c < d < |s.calls| :: s.calls[c].id != s.calls[d].id
  }

  lemma ReturnedIdIsGone(es: seq<Event>, c: nat)
    requires Run(es).Some? && c < |Run(es).value.calls|
    requires DistinctIds(Run(es).value) && Returned(Run(es).value.calls[c].phase)
    ensures Run(es).value.calls[c].id !in Run(es).value.pending
  {
    RunsKeepInvariant(es);
    assert CallOk(Run(es).value, c);
  }

  /** A dropped future leaves its entry behind until a response, a reuse of the id, or shutdown. */
  lemma CancelLeaks(s: State, c: nat)
    requires Invariant(s) && Enabled(s, Cancel(c)) && s.calls[c].slot.Empty?
    ensures s.calls[c].id in Apply(s, Cancel(c)).pending && Apply(s, Cancel(c)).calls[c].phase.Abandoned?
  {
    assert CallOk(s, c);
  }

  /** Frames with `method`, unreadable ones, responses without an id or with an unknown id: only the log grows. */
  lemma StrayFramesChangeNothing(s: State, f: Frame)
    requires Invariant(s) && s.readerAlive
    ensures Apply(s, Receive(f)) == s.(frames := s.frames + [f])
       <==> !(f.Response? && f.id.Some? && f.id.value in s.pending)
  {
    if f.Response? && f.id.Some? && f.id.value in s.pending {
      assert f.id.value !in Apply(s, Receive(f)).pending;
    }
  }

  /** Late duplicates are stray: once a call has its response, another with the same id is not for it. */
  lemma LateDuplicatesChangeNothing(es: seq<Event>, c: nat, body: string)
    requires Run(es).Some? && c < |Run(es).value.calls|
    requires DistinctIds(Run(es).value) && Run(es).value.calls[c].slot.Delivered? && Run(es).value.readerAlive
    ensures var s := Run(es).value;
            var f := Response(Some(s.calls[c].id), body);
            Apply(s, Receive(f)) == s.(frames := s.frames + [f])
  {
    RunsKeepInvariant(es);
    var s := Run(es).value;
    assert CallOk(s, c);
    StrayFramesChangeNothing(s, Response(Some(s.calls[c].id), body));
  }

  /** A call that has returned keeps its result for the rest of the run: at most one answer per request. */
  lemma ReturnsAreFinal(s: State, e: Event, c: nat)
    requires Invariant(s) && Enabled(s, e) && c < |s.calls| && Returned(s.calls[c].phase)
    ensures c < |Apply(s, e).calls| && Apply(s, e).calls[c].phase == s.calls[c].phase && Apply(s, e).calls[c].id == s.calls[c].id
  {
    if e.Begin? { DropKeepsInvariant(s, e.id); }
    if e.Cleanup? { DropKeepsInvariant(s, s.calls[e.call].id); }
  }

  // ---- Closed channels come from shutdown ---------------------------------------------------------------------

  /** A dropped sender is that of a failed call, and no call sees a closed channel. */
  ghost predicate OnlyFailedDropped(s: State) {
    forall c | 0 <= c < |s.calls| :: CallNotClosed(s.calls[c])
  }

  ghost predicate CallNotClosed(call: Call) {
    && (call.slot.SenderDropped? ==> call.phase.Failed?)
    && call.phase != Failing(Closed) && call.phase != Failed(Closed)
  }

  lemma StepDropsNobodyElse(s: State, e: Event)
    requires Invariant(s) && OnlyFailedDropped(s) && Enabled(s, e) && !e.ClearPending?
    requires DistinctIds(Apply(s, e))
    ensures DistinctIds(s) && OnlyFailedDropped(Apply(s, e))
  {
    var t := Apply(s, e);
    if e.Begin? { DropKeepsInvariant(s, e.id); }
    if e.Cleanup? { DropKeepsInvariant(s, s.calls[e.call].id); }
    assert |s.calls| <= |t.calls| && forall c | 0 <= c < |s.calls| :: t.calls[c].id == s.calls[c].id;
    forall c | 0 <= c < |t.calls| ensures CallNotClosed(t.calls[c]) {
      if c < |s.calls| {
        assert CallNotClosed(s.calls[c]) && CallOk(s, c);
        if e.Begin? { assert t.calls[|s.calls|].id == e.id; }
      }
    }
  }

  /** Main result: with distinct ids, no call ends as closed unless shutdown cleared the table. */
  lemma {:induction false} ClosedMeansShutdown(es: seq<Event>)
    requires Run(es).Some? && DistinctIds(Run(es).value) && ClearPending !in es
    ensures OnlyFailedDropped(Run(es).value)
  {
    if es != [] {
      var before := es[..|es| - 1];
      RunsKeepInvariant(before);
      IdsStayDistinct(Run(before).value, es[|es| - 1]);
      ClosedMeansShutdown(before);
      StepDropsNobodyElse(Run(before).value, es[|es| - 1]);
    }
  }

  lemma IdsStayDistinct(s: State, e: Event)
    requires Invariant(s) && Enabled(s, e) && DistinctIds(Apply(s, e))
    ensures DistinctIds(s)
  {
    var t := Apply(s, e);
    if e.Begin? { DropKeepsInvariant(s, e.id); }
    if e.Cleanup? { DropKeepsInvariant(s, s.calls[e.call].id); }
    assert |s.calls| <= |t.calls| && forall c | 0 <= c < |s.calls| :: t.calls[c].id == s.calls[c].id;
  }
}
