/**
 StdioTransport (src-tauri/src/mcp.rs): the sections of `send`, of the stdout reader and of
 `shutdown` that touch the pending table. Each method refines one event of StdioProtocol.
 */
module StdioTransport {
  import opened Base
  import P = StdioProtocol

  /** From before to after, only call changes, and it becomes this. */
  ghost predicate OnlyCall(before: seq<P.Call>, after: seq<P.Call>, call: nat, becomes: P.Call) {
    && call < |before| == |after| && after[call] == becomes
    && forall c | 0 <= c < |before| && c != call :: after[c] == before[c]
  }

  /** The sender filed under id, if any, is dropped; no other call changes. */
  ghost predicate SenderGone(pending: map<nat, nat>, before: seq<P.Call>, after: seq<P.Call>, id: nat) {
    && |before| <= |after|
    && forall c | 0 <= c < |before| ::
         var b := before[c];
         after[c] == if id in pending && pending[id] == c then P.Call(b.id, b.phase, P.SenderDropped, b.since) else b
  }

  class StdioTransport {
    var pending: map<nat, nat>
    var calls: seq<P.Call>
    ghost var frames: seq<P.Frame>
    var handled: nat
    var readerAlive: bool

    ghost function Snapshot(): P.State
      reads this
    {
      P.State(pending, calls, frames, readerAlive)
    }

    ghost predicate Valid()
      reads this
    {
      P.Invariant(Snapshot()) && handled == |frames|
    }

    constructor ()
      ensures Valid() && Snapshot() == P.EmptyState
    {
      pending, calls, frames, handled, readerAlive := map[], [], [], 0, true;
    }

    /** `map.insert(id, tx)`: a sender already filed under the id is dropped. */
    method Register(id: nat) returns (call: nat)
      requires Valid()
      modifies this
      ensures Valid() && Snapshot() == P.Apply(old(Snapshot()), P.Begin(id))
      ensures call == |old(calls)| && pending == old(pending)[id := call] && |calls| == call + 1
      ensures calls[call] == P.Call(id, P.Writing, P.Empty, old(handled)) && SenderGone(old(pending), old(calls), calls, id)
      ensures frames == old(frames) && readerAlive == old(readerAlive)
    {
      P.StepKeepsInvariant(Snapshot(), P.Begin(id));
      ghost var after := P.Apply(Snapshot(), P.Begin(id));
      if id in pending {
        calls := calls[pending[id] := calls[pending[id]].(slot := P.SenderDropped)];
      }
      call := |calls|;
      calls := calls + [P.Call(id, P.Writing, P.Empty, handled)];
      pending := pending[id := call];
      assert pending == after.pending;
    }

    /** The write section; on failure the error is decided but the entry is still in the table. */
    method FinishWrite(call: nat, ok: bool)
      requires Valid() && P.Enabled(Snapshot(), P.Written(call))
      modifies this`calls
      ensures Valid()
      ensures Snapshot() == P.Apply(old(Snapshot()), if ok then P.Written(call) else P.WriteFails(call))
      ensures var b := old(calls)[call];
              OnlyCall(old(calls), calls, call, P.Call(b.id, if ok then P.Waiting else P.Failing(P.WriteFailed), b.slot, b.since))
    {
      P.StepKeepsInvariant(Snapshot(), if ok then P.Written(call) else P.WriteFails(call));
      calls := calls[call := calls[call].(phase := if ok then P.Waiting else P.Failing(P.WriteFailed))];
    }

    /** One line read from the server's stdout. */
    method HandleFrame(f: P.Frame) returns (delivered: bool)
      requires Valid() && readerAlive
      modifies this
      ensures Valid() && Snapshot() == P.Apply(old(Snapshot()), P.Receive(f))
      ensures delivered <==> f.Response? && f.id.Some? && f.id.value in old(pending)
      ensures frames == old(frames) + [f] && readerAlive
      ensures !delivered ==> pending == old(pending) && calls == old(calls)
      ensures delivered ==> && pending == old(pending) - {f.id.value}
                            && var c := old(pending)[f.id.value];
                               && c < |old(calls)|
                               && var b := old(calls)[c];
                                  OnlyCall(old(calls), calls, c, P.Call(b.id, b.phase, P.Delivered(|old(frames)|), b.since))
    {
      P.StepKeepsInvariant(Snapshot(), P.Receive(f));
      frames := frames + [f];
      handled := handled + 1;
      delivered := false;
      if f.Response? && f.id.Some? {
        var id := f.id.value;
        if id in pending {
          calls := calls[pending[id] := calls[pending[id]].(slot := P.Delivered(handled - 1))];
          pending := pending - {id};
          delivered := true;
        }
      }
    }

    /** The await on the channel: Some answer, None when the sender is gone. */
    method Await(call: nat) returns (frame: Option<nat>)
      requires Valid() && P.Enabled(Snapshot(), P.Resolve(call))
      modifies this`calls
      ensures Valid() && Snapshot() == P.Apply(old(Snapshot()), P.Resolve(call))
      ensures frame.Some? ==> P.FirstAnswer(frames, calls[call].since, frame.value, calls[call].id)
      ensures frame == match old(calls)[call].slot { case Delivered(k) => Some(k) case _ => None }
      ensures var b := old(calls)[call];
              OnlyCall(old(calls), calls, call,
                       P.Call(b.id, if frame.Some? then P.Answered(frame.value) else P.Failing(P.Closed), b.slot, b.since))
    {
      P.StepKeepsInvariant(Snapshot(), P.Resolve(call));
      assert P.CallOk(Snapshot(), call);
      if calls[call].slot.Delivered? {
        frame := Some(calls[call].slot.frame);
        calls := calls[call := calls[call].(phase := P.Answered(frame.value))];
      } else {
        frame := None;
        calls := calls[call := calls[call].(phase := P.Failing(P.Closed))];
      }
    }

    method Expire(call: nat)
      requires Valid() && P.Enabled(Snapshot(), P.Timeout(call))
      modifies this`calls
      ensures Valid() && Snapshot() == P.Apply(old(Snapshot()), P.Timeout(call))
      ensures var b := old(calls)[call];
              OnlyCall(old(calls), calls, call, P.Call(b.id, P.Failing(P.TimedOut), b.slot, b.since))
    {
      P.StepKeepsInvariant(Snapshot(), P.Timeout(call));
      calls := calls[call := calls[call].(phase := P.Failing(P.TimedOut))];
    }

    /** `map.remove(&id)` on each of the three error paths, and the error they return. */
    method RemoveAndFail(call: nat) returns (failure: P.Failure)
      requires Valid() && P.Enabled(Snapshot(), P.Cleanup(call))
      modifies this
      ensures Valid() && Snapshot() == P.Apply(old(Snapshot()), P.Cleanup(call))
      ensures calls[call].phase == P.Failed(failure) && calls[call].id !in pending
      ensures old(calls)[call].phase == P.Failing(failure)
      ensures var b := old(calls)[call];
              && pending == old(pending) - {b.id} && calls[call].id == b.id && frames == old(frames)
              && SenderGone(old(pending), old(calls), calls[call := calls[call].(phase := b.phase)], b.id)
    {
      P.StepKeepsInvariant(Snapshot(), P.Cleanup(call));
      var id := calls[call].id;
      if id in pending {
        calls := calls[pending[id] := calls[pending[id]].(slot := P.SenderDropped)];
        pending := pending - {id};
      }
      failure := calls[call].phase.failure;
      calls := calls[call := calls[call].(phase := P.Failed(failure))];
    }

    method Cancel(call: nat)
      requires Valid() && P.Enabled(Snapshot(), P.Cancel(call))
      modifies this`calls
      ensures Valid() && Snapshot() == P.Apply(old(Snapshot()), P.Cancel(call))
      ensures var b := old(calls)[call];
              OnlyCall(old(calls), calls, call, P.Call(b.id, P.Abandoned, b.slot, b.since))
    {
      P.StepKeepsInvariant(Snapshot(), P.Cancel(call));
      calls := calls[call := calls[call].(phase := P.Abandoned)];
    }

    /** First half of shutdown: the reader task is aborted. */
    method AbortReader()
      requires Valid()
      modifies this`readerAlive
      ensures Valid() && Snapshot() == P.Apply(old(Snapshot()), P.StopReader) && !readerAlive
    {
      P.StepKeepsInvariant(Snapshot(), P.StopReader);
      readerAlive := false;
    }

    /** Second half of shutdown: `pending.clear()` drops every sender at once. */
    method ClearPending()
      requires Valid()
      modifies this
      ensures Valid() && Snapshot() == P.Apply(old(Snapshot()), P.ClearPending)
      ensures pending == map[] && frames == old(frames) && |calls| == |old(calls)|
      ensures forall c | 0 <= c < |calls| ::
                var b := old(calls)[c];
                calls[c] == P.Call(b.id, b.phase, if b.slot == P.Empty then P.SenderDropped else b.slot, b.since)
    {
      P.StepKeepsInvariant(Snapshot(), P.ClearPending);
      var table, before := pending, calls;
      calls := seq(|before|, c requires 0 <= c < |before| =>
        if before[c].id in table && table[before[c].id] == c then before[c].(slot := P.SenderDropped) else before[c]);
      assert calls == P.Apply(old(Snapshot()), P.ClearPending).calls;
      pending := map[];
      forall c | 0 <= c < |calls| ensures before[c].id in table && table[before[c].id] == c <==> before[c].slot.Empty? {
        assert P.CallOk(old(Snapshot()), c);
      }
    }
  }
}
