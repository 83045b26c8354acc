/**
 What becomes of each send of the stdio transport (src-tauri/src/mcp.rs), read off the events of a
 run rather than off its states.
 */
module StdioHistory {
  import opened Base
  import opened StdioProtocol

  // ---- What was sent and received ----------------------------------------------------------------------

  /** The ids of the sends, in the order they registered. */
  function Begun(es: seq<Event>): seq<nat> {
    if es == [] then []
    else Begun(es[..|es| - 1]) + (match es[|es| - 1] case Begin(id) => [id] case _ => [])
  }

  /** The frames the reader handled, in order. */
  function Received(es: seq<Event>): seq<Frame> {
    if es == [] then []
    else Received(es[..|es| - 1]) + (match es[|es| - 1] case Receive(f) => [f] case _ => [])
  }

  /** The event ends the wait of whoever is filed under id, without answering it. */
  predicate Unfiles(e: Event, ids: seq<nat>, id: nat) {
    || e == ClearPending
    || e == Begin(id)
    || (e.Cleanup? && e.call < |ids| && ids[e.call] == id)
  }

  predicate Answers(e: Event, id: nat) {
    e.Receive? && e.frame.Response? && e.frame.id == Some(id)
  }

  /** What the first event after c registered that concerns its id did to its channel. */
  function SlotByHistory(es: seq<Event>, c: nat): Slot {
    if es == [] then Empty
    else
      var before, e := es[..|es| - 1], es[|es| - 1];
      if c >= |Begun(before)| || SlotByHistory(before, c) != Empty then SlotByHistory(before, c)
      else if Answers(e, Begun(before)[c]) then Delivered(|Received(before)|)
      else if Unfiles(e, Begun(before), Begun(before)[c]) then SenderDropped
      else Empty
  }

  lemma HistoryStep(es: seq<Event>, e: Event)
    ensures Begun(es + [e]) == Begun(es) + (match e case Begin(id) => [id] case _ => [])
    ensures Received(es + [e]) == Received(es) + (match e case Receive(f) => [f] case _ => [])
    ensures forall c: nat :: SlotByHistory(es + [e], c)
              == if c >= |Begun(es)| || SlotByHistory(es, c) != Empty then SlotByHistory(es, c)
                 else if Answers(e, Begun(es)[c]) then Delivered(|Received(es)|)
                 else if Unfiles(e, Begun(es), Begun(es)[c]) then SenderDropped
                 else Empty
  {
    assert (es + [e])[..|es|] == es;
  }

  // ---- How a send ends -----------------------------------------------------------------------------------

  predicate FailsWith(p: Phase, f: Failure) {
    p == Failing(f) || p == Failed(f)
  }

  /** Each phase of call c, from the events that name it. */
  ghost predicate PhaseIsTold(es: seq<Event>, c: nat, call: Call) {
    var p := call.phase;
    // Each way of ending the write, and each way of ending the wait, excludes the other.
    && !(Written(c) in es && WriteFails(c) in es) && !(Resolve(c) in es && Timeout(c) in es)
    && (Resolve(c) in es || Timeout(c) in es ==> Written(c) in es)
    // Where the call stands.
    && (p.Writing? <==> Written(c) !in es && WriteFails(c) !in es && Cancel(c) !in es)
    && (p.Waiting? <==> Written(c) in es && Resolve(c) !in es && Timeout(c) !in es && Cancel(c) !in es)
    && (p.Abandoned? <==> Cancel(c) in es)
    && (p.Failed? <==> Cleanup(c) in es)
    && (FailsWith(p, WriteFailed) <==> WriteFails(c) in es && Cancel(c) !in es)
    && (FailsWith(p, TimedOut) <==> Timeout(c) in es && Cancel(c) !in es)
    && (FailsWith(p, Closed) <==> Resolve(c) in es && call.slot == SenderDropped && Cancel(c) !in es)
    && (p.Answered? <==> Resolve(c) in es && call.slot.Delivered?)
    && (p.Answered? ==> call.slot == Delivered(p.frame))
    && (Resolve(c) in es ==> call.slot != Empty)
    && !(p.Answered? && Cancel(c) in es)
  }

  /** The events name only calls that have begun. */
  ghost predicate NamesBegun(es: seq<Event>, n: nat) {
    forall c: nat | Written(c) in es || WriteFails(c) in es || Resolve(c) in es || Timeout(c) in es
                 || Cleanup(c) in es || Cancel(c) in es :: c < n
  }

  ghost predicate IsTold(es: seq<Event>, s: State) {
    && s.frames == Received(es) && |s.calls| == |Begun(es)| && (s.readerAlive <==> StopReader !in es)
    && NamesBegun(es, |s.calls|)
    && (forall c | 0 <= c < |s.calls| ::
          s.calls[c].id == Begun(es)[c] && s.calls[c].slot == SlotByHistory(es, c) && PhaseIsTold(es, c, s.calls[c]))
    && (forall c: nat | c >= |s.calls| :: SlotByHistory(es, c) == Empty)
  }

  /**
   Main result: after every run the events alone decide, call by call, its id, what its channel
   holds and where it stands: waiting only if written, failing as it was made to fail and not
   otherwise, answered only by the frame delivered.
   */
  lemma {:induction false} RunsAreTold(es: seq<Event>)
    requires Run(es).Some?
    ensures IsTold(es, Run(es).value)
  {
    if es == [] {
    } else {
      hide Run, IsTold, Apply, Enabled;
      var before, e := es[..|es| - 1], es[|es| - 1];
      RunStep(es);
      RunsAreTold(before);
      RunsKeepInvariant(before);
      StepIsTold(before, e, Run(before).value);
      assert es == before + [e];
    }
  }

  lemma RunStep(es: seq<Event>)
    requires Run(es).Some? && es != []
    ensures Run(es[..|es| - 1]).Some? && Enabled(Run(es[..|es| - 1]).value, es[|es| - 1])
    ensures Run(es).value == Apply(Run(es[..|es| - 1]).value, es[|es| - 1])
  {
  }

  lemma StepIsTold(before: seq<Event>, e: Event, s: State)
    requires Invariant(s) && Enabled(s, e) && IsTold(before, s)
    ensures IsTold(before + [e], Apply(s, e))
  {
    var es, t := before + [e], Apply(s, e);
    hide Run, PhaseIsTold, SlotByHistory, Begun, Received, Apply, Enabled, NamesBegun;
    HistoryStep(before, e);
    CallsStep(s, e);
    NamesStep(before, e, s);
    ReaderStep(before, e, s);
    forall c | 0 <= c < |t.calls|
      ensures t.calls[c].id == Begun(es)[c] && t.calls[c].slot == SlotByHistory(es, c) && PhaseIsTold(es, c, t.calls[c])
    {
      if c < |s.calls| {
        SlotStep(before, e, s, c);
        PhaseStep(before, e, s, c);
      } else {
        NewCall(before, e, s, c);
      }
    }
  }

  /** Only a begin adds a call; ids never change. */
  lemma CallsStep(s: State, e: Event)
    requires Invariant(s) && Enabled(s, e)
    ensures var t := Apply(s, e);
            && |t.calls| == |s.calls| + (if e.Begin? then 1 else 0)
            && (forall c | 0 <= c < |s.calls| :: t.calls[c].id == s.calls[c].id)
            && (e.Begin? ==> t.calls[|s.calls|].id == e.id && t.calls[|s.calls|].slot == Empty && t.calls[|s.calls|].phase == Writing)
            && t.frames == s.frames + (match e case Receive(f) => [f] case _ => [])
  {
    if e.Begin? { DropKeepsInvariant(s, e.id); }
    if e.Cleanup? { DropKeepsInvariant(s, s.calls[e.call].id); }
  }

  lemma NamesStep(before: seq<Event>, e: Event, s: State)
    requires TableOk(s) && Enabled(s, e) && NamesBegun(before, |s.calls|) && |Apply(s, e).calls| >= |s.calls|
    ensures NamesBegun(before + [e], |Apply(s, e).calls|)
  {
    hide Apply;
  }

  lemma ReaderStep(before: seq<Event>, e: Event, s: State)
    requires TableOk(s) && Enabled(s, e) && (s.readerAlive <==> StopReader !in before)
    ensures Apply(s, e).readerAlive <==> StopReader !in before + [e]
  {
  }

  lemma NewCall(before: seq<Event>, e: Event, s: State, c: nat)
    requires Invariant(s) && Enabled(s, e) && IsTold(before, s) && |s.calls| <= c < |Apply(s, e).calls|
    ensures var es, call := before + [e], Apply(s, e).calls[c];
            c < |Begun(es)| && call.id == Begun(es)[c] && call.slot == SlotByHistory(es, c) && PhaseIsTold(es, c, call)
  {
    CallsStep(s, e);
    HistoryStep(before, e);
    hide Apply, SlotByHistory, Begun, Received;
    assert forall x: Event :: x in before + [e] <==> x in before || x == e;
  }

  lemma SlotStep(before: seq<Event>, e: Event, s: State, c: nat)
    requires Invariant(s) && Enabled(s, e) && IsTold(before, s) && c < |s.calls| && c < |Apply(s, e).calls|
    ensures Apply(s, e).calls[c].slot == SlotByHistory(before + [e], c)
  {
    hide SlotByHistory, Begun, Received, PhaseIsTold, NamesBegun, NoneAnswer, FirstAnswer;
    HistoryStep(before, e);
    assert CallOk(s, c);
    if e.Begin? { DropKeepsInvariant(s, e.id); }
    if e.Cleanup? { DropKeepsInvariant(s, s.calls[e.call].id); }
  }

  lemma PhaseStep(before: seq<Event>, e: Event, s: State, c: nat)
    requires Invariant(s) && Enabled(s, e) && c < |s.calls| && PhaseIsTold(before, c, s.calls[c]) && c < |Apply(s, e).calls|
    ensures PhaseIsTold(before + [e], c, Apply(s, e).calls[c])
  {
    assert TableOk(s);
    hide Apply, Invariant, PhaseIsTold, ChangesAs;
    PhaseChange(s, e, c);
    OneMoreEvent(before, e);
    ToldOnwards(before, e, before + [e], c, s.calls[c], Apply(s, e).calls[c]);
  }

  lemma OneMoreEvent(before: seq<Event>, e: Event)
    ensures forall x: Event :: x in before + [e] <==> x in before || x == e
  {
  }

  /** The call changed as the event says, and the event fits the phase the call was in. */
  ghost predicate ChangesAs(e: Event, c: nat, p: Call, call: Call) {
    && (p.slot != Empty ==> call.slot == p.slot)
    && (e == Written(c) ==> p.phase.Writing? && call.phase == Waiting)
    && (e == WriteFails(c) ==> p.phase.Writing? && call.phase == Failing(WriteFailed))
    && (e == Timeout(c) ==> p.phase.Waiting? && call.phase == Failing(TimedOut))
    && (e == Cancel(c) ==> Open(p.phase) && call.phase == Abandoned)
    && (e == Resolve(c) ==> p.phase.Waiting? && p.slot != Empty && call.slot == p.slot)
    && (e == Resolve(c) ==> call.phase == if p.slot.Delivered? then Answered(p.slot.frame) else Failing(Closed))
    && (e == Cleanup(c) ==> p.phase.Failing? && call.phase == Failed(p.phase.failure))
    && (!Names(e, c) ==> call.phase == p.phase)
  }

  lemma ToldOnwards(before: seq<Event>, e: Event, es: seq<Event>, c: nat, p: Call, call: Call)
    requires PhaseIsTold(before, c, p) && ChangesAs(e, c, p, call)
    requires forall x: Event :: x in es <==> x in before || x == e
    ensures PhaseIsTold(es, c, call)
  {
  }

  /** The phase changes only by an event that names the call; the channel, once used or dropped, stays so. */
  lemma PhaseChange(s: State, e: Event, c: nat)
    requires Invariant(s) && Enabled(s, e) && c < |s.calls|
    ensures c < |Apply(s, e).calls|
    ensures ChangesAs(e, c, s.calls[c], Apply(s, e).calls[c])
  {
    assert CallOk(s, c);
    hide NoneAnswer, FirstAnswer;
    if e.Begin? { DropKeepsInvariant(s, e.id); }
    if e.Cleanup? { DropKeepsInvariant(s, s.calls[e.call].id); }
  }

  predicate Names(e: Event, c: nat) {
    e in {Written(c), WriteFails(c), Resolve(c), Timeout(c), Cleanup(c), Cancel(c)}
  }

  // ---- Corollaries ---------------------------------------------------------------------------------------

  /** Main result: a failed write is final; the call never waits, and its id leaves the table with the error. */
  lemma FailedWriteIsFinal(es: seq<Event>, c: nat)
    requires Run(es).Some? && c < |Run(es).value.calls| && WriteFails(c) in es
    ensures var call := Run(es).value.calls[c];
            && (FailsWith(call.phase, WriteFailed) || call.phase.Abandoned?)
            && (call.phase.Failed? ==> !Pending(Run(es).value, c))
  {
    hide Run;
    RunsAreTold(es);
    RunsKeepInvariant(es);
    assert CallOk(Run(es).value, c);
    assert PhaseIsTold(es, c, Run(es).value.calls[c]);
  }

  /** Main result: a call returns an answer exactly when it resolves with a response received while it was filed. */
  lemma AnsweredExactly(es: seq<Event>, c: nat, k: nat)
    requires Run(es).Some? && c < |Run(es).value.calls|
    ensures Run(es).value.calls[c].phase == Answered(k) <==> Resolve(c) in es && SlotByHistory(es, c) == Delivered(k)
  {
    hide Run;
    RunsAreTold(es);
    assert PhaseIsTold(es, c, Run(es).value.calls[c]);
  }
}
