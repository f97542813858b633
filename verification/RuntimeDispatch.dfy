/** One dispatched turn: the job, its event forwarder and the dispatcher share the bus. */
module RuntimeDispatch {
  import opened Prelude
  import opened AgentEvents

  datatype RuntimeEvent =
    | DeltaProduced(text: string)
    | ToolStarted(toolName: string, callId: string)
    | ToolCompleted(toolName: string, callId: string, output: string)
    | ToolFailed(toolName: string, callId: string, error: string)
    | ApprovalNeeded(id: string)
    | ToolCallback
    | TurnCompleted(fullText: string)
    | TurnFailed(error: string)

  // `forward_runtime_event`: a tool callback is not forwarded.
  function Forward(sid: SessionId, e: RuntimeEvent): seq<AgentEvent> {
    match e
    case DeltaProduced(text) => [TextDelta(sid, text)]
    case ToolStarted(toolName, callId) => [ToolCallStart(sid, toolName, callId)]
    case ToolCompleted(_, callId, output) => [ToolCallResult(sid, callId, output)]
    case ToolFailed(toolName, callId, error) => [ToolCallFailed(sid, toolName, callId, error)]
    case ApprovalNeeded(id) => [ApprovalRequest(sid, id)]
    case ToolCallback => []
    case TurnCompleted(fullText) => [TurnComplete(sid, fullText, None)]
    case TurnFailed(error) => [Error(sid, error)]
  }

  // A turn: the events its backend emits and what the conductor returns for it.
  datatype Turn = Turn(sid: SessionId, emitted: seq<RuntimeEvent>, result: Result<string, string>)

  datatype Phase = Executing | Draining | Deciding | ReportingError | CompletingError | Settled

  datatype Dispatch = Dispatch(forwarded: nat, seen: bool, phase: Phase, bus: seq<AgentEvent>)

  // Atomic steps.  The forwarder shares the job's thread; the dispatcher's two sends after
  // a failure come from another thread, while the forwarder may still be running.
  datatype Move =
    | ForwardNext
    | ConductorReturns
    | DrainEnds(timedOut: bool)
    | Decide
    | SendError
    | SendEmptyComplete

  function Begin(turn: Turn): Dispatch {
    Dispatch(0, false, Executing, [Thinking(turn.sid)])
  }

  // A move that is not enabled changes nothing.
  function Apply(d: Dispatch, turn: Turn, m: Move): Dispatch {
    match m
    case ForwardNext =>
      if d.forwarded < |turn.emitted| then
        var e := turn.emitted[d.forwarded];
        d.(forwarded := d.forwarded + 1, seen := d.seen || e.TurnCompleted?, bus := d.bus + Forward(turn.sid, e))
      else d
    case ConductorReturns =>
      if d.phase.Executing? then d.(phase := if turn.result.Ok? then Draining else ReportingError) else d
    case DrainEnds(timedOut) =>
      if d.phase.Draining? && (timedOut || d.forwarded == |turn.emitted|) then d.(phase := Deciding) else d
    case Decide =>
      if !d.phase.Deciding? then d
      else if Synthesises(turn, d) then
        d.(phase := Settled, bus := d.bus + [TurnComplete(turn.sid, turn.result.value, None)])
      else d.(phase := Settled)
    case SendError =>
      if d.phase.ReportingError? && turn.result.Err? then
        d.(phase := CompletingError, bus := d.bus + [Error(turn.sid, turn.result.error)])
      else d
    case SendEmptyComplete =>
      if d.phase.CompletingError? then
        d.(phase := Settled, bus := d.bus + [TurnComplete(turn.sid, "", None)])
      else d
  }

  // The decision to synthesise a completion.
  predicate Synthesises(turn: Turn, d: Dispatch) {
    d.phase.Deciding? && turn.result.Ok? && !d.seen && turn.result.value != ""
  }

  function Run(turn: Turn, moves: seq<Move>): Dispatch {
    if moves == [] then Begin(turn)
    else Apply(Run(turn, moves[..|moves| - 1]), turn, moves[|moves| - 1])
  }

  // Every thread has finished.
  predicate Quiet(turn: Turn, d: Dispatch) {
    d.phase.Settled? && d.forwarded == |turn.emitted|
  }

  predicate EmitsTerminal(events: seq<RuntimeEvent>) {
    exists i :: 0 <= i < |events| && (events[i].TurnCompleted? || events[i].TurnFailed?)
  }

  predicate HasTerminal(sid: SessionId, bus: seq<AgentEvent>) {
    exists i :: 0 <= i < |bus| && Terminal(sid, bus[i])
  }

  predicate HasComplete(bus: seq<AgentEvent>) {
    exists i :: 0 <= i < |bus| && bus[i].TurnComplete?
  }

  predicate ErrorThenComplete(turn: Turn, bus: seq<AgentEvent>)
    requires turn.result.Err?
  {
    exists i, j ::
      && 0 <= i < j < |bus|
      && bus[i] == Error(turn.sid, turn.result.error)
      && bus[j] == TurnComplete(turn.sid, "", None)
  }

  // The first terminal event, if any, is the dispatcher's own error.
  predicate ErrorComesFirst(turn: Turn, bus: seq<AgentEvent>)
    requires turn.result.Err?
  {
    exists i :: 0 <= i < |bus| && bus[i] == Error(turn.sid, turn.result.error) && !HasTerminal(turn.sid, bus[..i])
  }

  function Completions(bus: seq<AgentEvent>): nat {
    if bus == [] then 0 else Completions(bus[..|bus| - 1]) + (if bus[|bus| - 1].TurnComplete? then 1 else 0)
  }

  function Completed(events: seq<RuntimeEvent>): nat {
    if events == [] then 0
    else Completed(events[..|events| - 1]) + (if events[|events| - 1].TurnCompleted? then 1 else 0)
  }

  lemma HasTerminalAppend(sid: SessionId, bus: seq<AgentEvent>, more: seq<AgentEvent>)
    ensures HasTerminal(sid, bus + more) <==> HasTerminal(sid, bus) || HasTerminal(sid, more)
  {
    if HasTerminal(sid, bus) {
      var i :| 0 <= i < |bus| && Terminal(sid, bus[i]);
      assert Terminal(sid, (bus + more)[i]);
    }
    if HasTerminal(sid, more) {
      var i :| 0 <= i < |more| && Terminal(sid, more[i]);
      assert Terminal(sid, (bus + more)[|bus| + i]);
    }
  }

  lemma HasCompleteAppend(bus: seq<AgentEvent>, more: seq<AgentEvent>)
    ensures HasComplete(bus + more) <==> HasComplete(bus) || HasComplete(more)
  {
    if HasComplete(bus) {
      var i :| 0 <= i < |bus| && bus[i].TurnComplete?;
      assert (bus + more)[i].TurnComplete?;
    }
    if HasComplete(more) {
      var i :| 0 <= i < |more| && more[i].TurnComplete?;
      assert (bus + more)[|bus| + i].TurnComplete?;
    }
  }

  lemma EmitsTerminalNext(events: seq<RuntimeEvent>, k: nat)
    requires k < |events|
    ensures EmitsTerminal(events[..k + 1]) <==>
        EmitsTerminal(events[..k]) || events[k].TurnCompleted? || events[k].TurnFailed?
    ensures Completed(events[..k + 1]) == Completed(events[..k]) + (if events[k].TurnCompleted? then 1 else 0)
  {
    var longer := events[..k + 1];
    assert longer[..k] == events[..k];
    if EmitsTerminal(events[..k]) {
      var i :| 0 <= i < k && (events[..k][i].TurnCompleted? || events[..k][i].TurnFailed?);
      assert longer[i] == events[i];
    }
    if events[k].TurnCompleted? || events[k].TurnFailed? {
      assert longer[k] == events[k];
    }
  }

  // What holds at every point of every interleaving.
  predicate Sound(turn: Turn, d: Dispatch) {
    && d.forwarded <= |turn.emitted|
    && (forall i :: 0 <= i < |d.bus| ==> d.bus[i].sessionId == turn.sid)
    && d.seen == (Completed(turn.emitted[..d.forwarded]) > 0)
    && (EmitsTerminal(turn.emitted[..d.forwarded]) ==> HasTerminal(turn.sid, d.bus))
    && (d.seen ==> HasComplete(d.bus))
    && (if turn.result.Ok? then SoundSuccess(turn, d) else SoundFailure(turn, d))
  }

  predicate SoundSuccess(turn: Turn, d: Dispatch)
    requires turn.result.Ok? && d.forwarded <= |turn.emitted|
  {
    && (d.phase.Executing? || d.phase.Draining? || d.phase.Deciding? || d.phase.Settled?)
    && (d.phase.Settled? && turn.result.value != "" ==> HasComplete(d.bus))
    && (HasTerminal(turn.sid, d.bus) ==>
          || EmitsTerminal(turn.emitted[..d.forwarded])
          || (d.phase.Settled? && turn.result.value != ""))
    && (!d.phase.Settled? ==> Completions(d.bus) == Completed(turn.emitted[..d.forwarded]))
  }

  predicate SoundFailure(turn: Turn, d: Dispatch)
    requires turn.result.Err? && d.forwarded <= |turn.emitted|
  {
    && (d.phase.Executing? || d.phase.ReportingError? || d.phase.CompletingError? || d.phase.Settled?)
    && (d.phase.CompletingError? ==> Error(turn.sid, turn.result.error) in d.bus)
    && (d.phase.Settled? ==> ErrorThenComplete(turn, d.bus))
    && (!EmitsTerminal(turn.emitted[..d.forwarded]) ==>
          if d.phase.Executing? || d.phase.ReportingError? then !HasTerminal(turn.sid, d.bus)
          else ErrorComesFirst(turn, d.bus))
  }

  lemma ErrorFactsAppend(turn: Turn, bus: seq<AgentEvent>, more: seq<AgentEvent>)
    requires turn.result.Err?
    ensures ErrorThenComplete(turn, bus) ==> ErrorThenComplete(turn, bus + more)
    ensures ErrorComesFirst(turn, bus) ==> ErrorComesFirst(turn, bus + more)
  {
    var longer := bus + more;
    if ErrorThenComplete(turn, bus) {
      var i, j :|
        && 0 <= i < j < |bus|
        && bus[i] == Error(turn.sid, turn.result.error)
        && bus[j] == TurnComplete(turn.sid, "", None);
      assert longer[i] == bus[i] && longer[j] == bus[j];
    }
    if ErrorComesFirst(turn, bus) {
      var i :| 0 <= i < |bus| && bus[i] == Error(turn.sid, turn.result.error) && !HasTerminal(turn.sid, bus[..i]);
      assert longer[i] == bus[i] && longer[..i] == bus[..i];
    }
  }

  lemma ForwardEffect(turn: Turn, d: Dispatch)
    requires d.forwarded < |turn.emitted|
    ensures var e := turn.emitted[d.forwarded];
            var t := Apply(d, turn, ForwardNext);
            && (EmitsTerminal(turn.emitted[..t.forwarded]) <==>
                  EmitsTerminal(turn.emitted[..d.forwarded]) || e.TurnCompleted? || e.TurnFailed?)
            && (HasTerminal(turn.sid, t.bus) <==> HasTerminal(turn.sid, d.bus) || e.TurnCompleted? || e.TurnFailed?)
            && (HasComplete(t.bus) <==> HasComplete(d.bus) || e.TurnCompleted?)
            && Completed(turn.emitted[..t.forwarded]) ==
                 Completed(turn.emitted[..d.forwarded]) + (if e.TurnCompleted? then 1 else 0)
            && Completions(t.bus) == Completions(d.bus) + (if e.TurnCompleted? then 1 else 0)
  {
    hide EmitsTerminal, Completed, HasTerminal, HasComplete, Completions;
    var e := turn.emitted[d.forwarded];
    EmitsTerminalNext(turn.emitted, d.forwarded);
    if e.ToolCallback? {
      assert d.bus + Forward(turn.sid, e) == d.bus;
    } else {
      PushEffect(turn.sid, d.bus, Forward(turn.sid, e)[0]);
    }
  }

  // One more event on the bus.
  lemma PushEffect(sid: SessionId, bus: seq<AgentEvent>, e: AgentEvent)
    ensures HasTerminal(sid, bus + [e]) <==> HasTerminal(sid, bus) || Terminal(sid, e)
    ensures HasComplete(bus + [e]) <==> HasComplete(bus) || e.TurnComplete?
    ensures Completions(bus + [e]) == Completions(bus) + (if e.TurnComplete? then 1 else 0)
  {
    HasTerminalAppend(sid, bus, [e]);
    HasCompleteAppend(bus, [e]);
    assert [e][0] == e;
    assert (bus + [e])[..|bus|] == bus;
  }

  lemma ForwardNextKeepsSound(turn: Turn, d: Dispatch)
    requires Sound(turn, d) && d.forwarded < |turn.emitted|
    ensures Sound(turn, Apply(d, turn, ForwardNext))
  {
    var t, more := Apply(d, turn, ForwardNext), Forward(turn.sid, turn.emitted[d.forwarded]);
    assert t.bus == d.bus + more && t.phase == d.phase;
    assert forall i :: 0 <= i < |more| ==> more[i].sessionId == turn.sid;
    ForwardEffect(turn, d);
    hide EmitsTerminal, HasTerminal, HasComplete, Completed, Completions, Forward;
    if turn.result.Err? {
      ErrorFactsAppend(turn, d.bus, more);
      hide ErrorThenComplete, ErrorComesFirst;
      assert SoundFailure(turn, t);
    } else {
      assert SoundSuccess(turn, t);
    }
    hide SoundFailure, SoundSuccess;
  }

  lemma SendKeepsSound(turn: Turn, d: Dispatch, m: Move)
    requires Sound(turn, d) && !m.ForwardNext?
    ensures Sound(turn, Apply(d, turn, m))
  {
    hide EmitsTerminal, Completed, HasTerminal, HasComplete, Completions, ErrorThenComplete, ErrorComesFirst;
    if turn.result.Ok? {
      if m.Decide? && Synthesises(turn, d) {
        PushEffect(turn.sid, d.bus, TurnComplete(turn.sid, turn.result.value, None));
      }
    } else if m.SendError? && d.phase.ReportingError? {
      ErrorEffect(turn, d.bus);
    } else if m.SendEmptyComplete? && d.phase.CompletingError? {
      EmptyCompleteEffect(turn, d.bus);
    }
  }

  lemma ErrorEffect(turn: Turn, bus: seq<AgentEvent>)
    requires turn.result.Err?
    ensures var e := Error(turn.sid, turn.result.error);
            && e in bus + [e]
            && HasTerminal(turn.sid, bus + [e])
            && HasComplete(bus + [e]) == HasComplete(bus)
            && (!HasTerminal(turn.sid, bus) ==> ErrorComesFirst(turn, bus + [e]))
  {
    var e := Error(turn.sid, turn.result.error);
    PushEffect(turn.sid, bus, e);
    assert (bus + [e])[..|bus|] == bus && (bus + [e])[|bus|] == e;
  }

  lemma EmptyCompleteEffect(turn: Turn, bus: seq<AgentEvent>)
    requires turn.result.Err? && Error(turn.sid, turn.result.error) in bus
    ensures var e := TurnComplete(turn.sid, "", None);
            && ErrorThenComplete(turn, bus + [e])
            && HasTerminal(turn.sid, bus + [e])
            && HasComplete(bus + [e])
            && (ErrorComesFirst(turn, bus) ==> ErrorComesFirst(turn, bus + [e]))
  {
    var e := TurnComplete(turn.sid, "", None);
    PushEffect(turn.sid, bus, e);
    ErrorFactsAppend(turn, bus, [e]);
    var i :| 0 <= i < |bus| && bus[i] == Error(turn.sid, turn.result.error);
    assert (bus + [e])[i] == bus[i] && (bus + [e])[|bus|] == e;
  }

  lemma {:induction false} AlwaysSound(turn: Turn, moves: seq<Move>)
    ensures Sound(turn, Run(turn, moves))
  {
    if moves == [] {
      assert turn.emitted[..0] == [];
      assert Begin(turn).bus[..0] == [];
    } else {
      var d := Run(turn, moves[..|moves| - 1]);
      var m := moves[|moves| - 1];
      AlwaysSound(turn, moves[..|moves| - 1]);
      if m.ForwardNext? && d.forwarded < |turn.emitted| {
        ForwardNextKeepsSound(turn, d);
      } else if !m.ForwardNext? {
        SendKeepsSound(turn, d, m);
      }
    }
  }

  // A failed dispatch always reports itself: Error, then an empty TurnComplete.
  lemma FailureIsReported(turn: Turn, moves: seq<Move>)
    requires turn.result.Err? && Run(turn, moves).phase.Settled?
    ensures ErrorThenComplete(turn, Run(turn, moves).bus)
  {
    AlwaysSound(turn, moves);
  }

  // A settled turn has put a terminal event on the bus exactly when it failed, returned
  // text, or its backend emitted a terminal event itself.
  lemma TerminalIff(turn: Turn, moves: seq<Move>)
    requires Quiet(turn, Run(turn, moves))
    ensures HasTerminal(turn.sid, Run(turn, moves).bus) <==>
              turn.result.Err? || turn.result.value != "" || EmitsTerminal(turn.emitted)
    ensures turn.result.Ok? && turn.result.value != "" ==> HasComplete(Run(turn, moves).bus)
  {
    AlwaysSound(turn, moves);
    var bus := Run(turn, moves).bus;
    assert turn.emitted[..|turn.emitted|] == turn.emitted;
    if turn.result.Err? {
      var i :| 0 <= i < |bus| && bus[i] == Error(turn.sid, turn.result.error);
      assert Terminal(turn.sid, bus[i]);
    } else if turn.result.value != "" {
      var i :| 0 <= i < |bus| && bus[i].TurnComplete?;
      assert Terminal(turn.sid, bus[i]);
    }
  }

  // The dispatcher sent its error before any terminal event of the backend was forwarded.
  predicate ErrorSentFirst(turn: Turn, moves: seq<Move>) {
    && moves != []
    && var before := moves[..|moves| - 1];
       var d := Run(turn, before);
       || ErrorSentFirst(turn, before)
       || (moves[|moves| - 1].SendError? && d.phase.ReportingError? && d.forwarded <= |turn.emitted|
           && !EmitsTerminal(turn.emitted[..d.forwarded]))
  }

  // Then it comes first on the bus, whatever is forwarded after it.
  lemma {:induction false} ErrorStaysFirst(turn: Turn, moves: seq<Move>)
    requires turn.result.Err? && ErrorSentFirst(turn, moves)
    ensures ErrorComesFirst(turn, Run(turn, moves).bus)
  {
    hide Sound, EmitsTerminal, HasTerminal;
    var before, m := moves[..|moves| - 1], moves[|moves| - 1];
    var d := Run(turn, before);
    OnlyAppends(d, turn, m);
    var more := Run(turn, moves).bus[|d.bus|..];
    assert Run(turn, moves).bus == d.bus + more;
    if ErrorSentFirst(turn, before) {
      ErrorStaysFirst(turn, before);
      ErrorFactsAppend(turn, d.bus, more);
    } else {
      AlwaysSound(turn, before);
      NothingTerminalYet(turn, d);
      assert Run(turn, moves).bus[..|d.bus|] == d.bus;
      assert Run(turn, moves).bus[|d.bus|] == Error(turn.sid, turn.result.error);
    }
  }

  lemma OnlyAppends(d: Dispatch, turn: Turn, m: Move)
    ensures d.bus <= Apply(d, turn, m).bus
  {
  }

  lemma NothingTerminalYet(turn: Turn, d: Dispatch)
    requires Sound(turn, d) && turn.result.Err? && d.phase.ReportingError?
    requires d.forwarded <= |turn.emitted| && !EmitsTerminal(turn.emitted[..d.forwarded])
    ensures !HasTerminal(turn.sid, d.bus)
  {
  }

  // A failed turn whose backend emits no terminal event is such a turn.
  lemma {:induction false} SilentFailureIsFirst(turn: Turn, moves: seq<Move>)
    requires turn.result.Err? && !EmitsTerminal(turn.emitted)
    ensures var phase := Run(turn, moves).phase;
            phase.CompletingError? || phase.Settled? ==> ErrorSentFirst(turn, moves)
  {
    hide EmitsTerminal;
    if moves != [] {
      var before := moves[..|moves| - 1];
      SilentFailureIsFirst(turn, before);
      AlwaysSound(turn, before);
      NoTerminalInPrefix(turn.emitted, Run(turn, before).forwarded);
    }
  }

  lemma NoTerminalInPrefix(events: seq<RuntimeEvent>, k: nat)
    requires !EmitsTerminal(events)
    ensures k <= |events| ==> !EmitsTerminal(events[..k])
  {
  }

  // The drain ends by itself.
  predicate NeverTimesOut(moves: seq<Move>) {
    DrainEnds(true) !in moves
  }

  // While the drain ends by itself, a completion is synthesised only when the backend
  // gave none: the bus carries each completion once.
  lemma {:induction false} CompletionsAreNotDoubled(turn: Turn, moves: seq<Move>)
    requires turn.result.Ok?
    requires NeverTimesOut(moves)
    requires Quiet(turn, Run(turn, moves))
    ensures Completions(Run(turn, moves).bus) ==
              if Completed(turn.emitted) == 0 && turn.result.value != "" then 1 else Completed(turn.emitted)
  {
    DrainedBeforeDeciding(turn, moves);
    assert turn.emitted[..|turn.emitted|] == turn.emitted;
  }

  lemma {:induction false} DrainedBeforeDeciding(turn: Turn, moves: seq<Move>)
    requires turn.result.Ok?
    requires NeverTimesOut(moves)
    ensures var d := Run(turn, moves);
            && (d.phase.Deciding? || d.phase.Settled? ==> d.forwarded == |turn.emitted|)
            && (d.phase.Settled? ==>
                  Completions(d.bus) ==
                    (if Completed(turn.emitted) == 0 && turn.result.value != "" then 1 else Completed(turn.emitted)))
  {
    hide HasTerminal, HasComplete, EmitsTerminal, Completions, Completed;
    if moves != [] {
      var d := Run(turn, moves[..|moves| - 1]);
      DrainedBeforeDeciding(turn, moves[..|moves| - 1]);
      AlwaysSound(turn, moves[..|moves| - 1]);
      assert moves[|moves| - 1] != DrainEnds(true);
      assert turn.emitted[..|turn.emitted|] == turn.emitted;
      if d.phase.Deciding? && Synthesises(turn, d) {
        PushEffect(turn.sid, d.bus, TurnComplete(turn.sid, turn.result.value, None));
      }
    }
  }

  predicate Synthesised(turn: Turn, moves: seq<Move>) {
    exists n :: 0 <= n < |moves| && moves[n].Decide? && Synthesises(turn, Run(turn, moves[..n]))
  }

  lemma SynthesisedNext(turn: Turn, moves: seq<Move>)
    requires moves != []
    ensures var n := |moves| - 1;
            Synthesised(turn, moves) <==>
            Synthesised(turn, moves[..n]) || (moves[n].Decide? && Synthesises(turn, Run(turn, moves[..n])))
  {
    hide Run, Synthesises;
    var n := |moves| - 1;
    if Synthesised(turn, moves[..n]) {
      var k :| 0 <= k < n && moves[..n][k].Decide? && Synthesises(turn, Run(turn, moves[..n][..k]));
      assert moves[..n][..k] == moves[..k];
    }
    if Synthesised(turn, moves) {
      var k :| 0 <= k < |moves| && moves[k].Decide? && Synthesises(turn, Run(turn, moves[..k]));
      assert k < n ==> moves[..n][..k] == moves[..k] && moves[..n][k].Decide?;
    }
  }

  // At every point of every run the bus carries each forwarded completion once, and one
  // more from the moment one was synthesised.
  lemma {:induction false} CompletionsExactly(turn: Turn, moves: seq<Move>)
    requires turn.result.Ok?
    ensures var d := Run(turn, moves);
            && d.forwarded <= |turn.emitted|
            && (Synthesised(turn, moves) ==> d.phase.Settled?)
            && Completions(d.bus) ==
                Completed(turn.emitted[..d.forwarded]) + (if Synthesised(turn, moves) then 1 else 0)
  {
    hide Synthesised, Completed, Completions, Sound, Apply;
    if moves == [] {
      NothingCompleted(turn);
    } else {
      var n := |moves| - 1;
      CompletionsExactly(turn, moves[..n]);
      AlwaysSound(turn, moves[..n]);
      SynthesisedNext(turn, moves);
      CompletionsStep(turn, Run(turn, moves[..n]), moves[n]);
    }
  }

  lemma NothingCompleted(turn: Turn)
    ensures !Synthesised(turn, []) && Completions(Begin(turn).bus) == Completed(turn.emitted[..0]) == 0
  {
    assert Begin(turn).bus[..0] == [];
  }

  lemma CompletionsStep(turn: Turn, d: Dispatch, m: Move)
    requires Sound(turn, d) && turn.result.Ok?
    ensures var t := Apply(d, turn, m);
            && t.forwarded <= |turn.emitted|
            && (d.phase.Settled? || (m.Decide? && Synthesises(turn, d)) ==> t.phase.Settled?)
            && Completions(t.bus) - Completed(turn.emitted[..t.forwarded]) ==
                 Completions(d.bus) - Completed(turn.emitted[..d.forwarded])
                   + (if m.Decide? && Synthesises(turn, d) then 1 else 0)
  {
    hide Completed, Completions, EmitsTerminal, HasTerminal, HasComplete, ErrorThenComplete, ErrorComesFirst;
    if m.ForwardNext? && d.forwarded < |turn.emitted| {
      ForwardEffect(turn, d);
    } else if m.Decide? && Synthesises(turn, d) {
      PushEffect(turn.sid, d.bus, TurnComplete(turn.sid, turn.result.value, None));
    }
  }

  // A settled turn's completion is doubled exactly when its job decided to synthesise one
  // although the backend's own was still to be forwarded.
  lemma DoubledIff(turn: Turn, moves: seq<Move>)
    requires turn.result.Ok? && Quiet(turn, Run(turn, moves))
    ensures var due := if Completed(turn.emitted) == 0 then 1 else Completed(turn.emitted);
            Completions(Run(turn, moves).bus) > due <==>
            Synthesised(turn, moves) && Completed(turn.emitted) > 0
  {
    CompletionsExactly(turn, moves);
    assert turn.emitted[..|turn.emitted|] == turn.emitted;
  }

  // The drain can time out before a completion that is already on its way.
  lemma LateCompletionIsDoubled(sid: SessionId, text: string) returns (turn: Turn, moves: seq<Move>)
    requires text != ""
    ensures turn == Turn(sid, [TurnCompleted(text)], Ok(text)) && Quiet(turn, Run(turn, moves))
    ensures Run(turn, moves).bus == [Thinking(sid), TurnComplete(sid, text, None), TurnComplete(sid, text, None)]
  {
    turn := Turn(sid, [TurnCompleted(text)], Ok(text));
    RunNext(turn, [], ConductorReturns);
    var s1 := [] + [ConductorReturns];
    RunNext(turn, s1, DrainEnds(true));
    var s2 := s1 + [DrainEnds(true)];
    RunNext(turn, s2, Decide);
    var s3 := s2 + [Decide];
    RunNext(turn, s3, ForwardNext);
    moves := s3 + [ForwardNext];
  }

  function ForwardAll(sid: SessionId, events: seq<RuntimeEvent>): seq<AgentEvent> {
    if events == [] then [] else ForwardAll(sid, events[..|events| - 1]) + Forward(sid, events[|events| - 1])
  }

  lemma ForwardAllNext(turn: Turn, i: nat)
    requires i < |turn.emitted|
    ensures var before, upto := turn.emitted[..i], turn.emitted[..i + 1];
            && [Thinking(turn.sid)] + ForwardAll(turn.sid, upto) ==
                 [Thinking(turn.sid)] + ForwardAll(turn.sid, before) + Forward(turn.sid, turn.emitted[i])
            && Completed(upto) == Completed(before) + (if turn.emitted[i].TurnCompleted? then 1 else 0)
  {
    assert turn.emitted[..i + 1][..i] == turn.emitted[..i];
  }

  // What follows the backend's own events.
  function Closing(turn: Turn): seq<AgentEvent> {
    match turn.result
    case Err(error) => [Error(turn.sid, error), TurnComplete(turn.sid, "", None)]
    case Ok(text) => if Completed(turn.emitted) == 0 && text != "" then [TurnComplete(turn.sid, text, None)] else []
  }

  // What an observer of the bus can tell apart, other than text.
  datatype Note =
    | Began(tool: string, callId: string)
    | Ended(callId: string, output: string)
    | Broke(tool: string, callId: string, error: string)
    | Asked(approvalId: string)
    | Done(fullText: string)
    | Failed(error: string)

  function NotesOf(bus: seq<AgentEvent>): seq<Note> {
    if bus == [] then []
    else
      var before := NotesOf(bus[..|bus| - 1]);
      match bus[|bus| - 1]
      case ToolCallStart(_, tool, callId) => before + [Began(tool, callId)]
      case ToolCallResult(_, callId, output) => before + [Ended(callId, output)]
      case ToolCallFailed(_, tool, callId, error) => before + [Broke(tool, callId, error)]
      case ApprovalRequest(_, approvalId) => before + [Asked(approvalId)]
      case TurnComplete(_, fullText, _) => before + [Done(fullText)]
      case Error(_, message) => before + [Failed(message)]
      case _ => before
  }

  function EmittedNotes(events: seq<RuntimeEvent>): seq<Note> {
    if events == [] then []
    else
      var before := EmittedNotes(events[..|events| - 1]);
      match events[|events| - 1]
      case ToolStarted(tool, callId) => before + [Began(tool, callId)]
      case ToolCompleted(_, callId, output) => before + [Ended(callId, output)]
      case ToolFailed(tool, callId, error) => before + [Broke(tool, callId, error)]
      case ApprovalNeeded(approvalId) => before + [Asked(approvalId)]
      case TurnCompleted(fullText) => before + [Done(fullText)]
      case TurnFailed(error) => before + [Failed(error)]
      case _ => before
  }

  lemma NotesPush(bus: seq<AgentEvent>, more: seq<AgentEvent>)
    requires |more| <= 1
    ensures NotesOf(bus + more) == NotesOf(bus) + NotesOf(more)
  {
    if more == [] {
      assert bus + more == bus;
    } else {
      assert (bus + more)[..|bus|] == bus && more[..0] == [];
      assert (bus + more)[|bus|] == more[0];
    }
  }

  lemma ForwardedNote(sid: SessionId, e: RuntimeEvent)
    ensures |Forward(sid, e)| <= 1
    ensures EmittedNotes([e]) == NotesOf(Forward(sid, e))
  {
    assert [e][..0] == [];
    if Forward(sid, e) != [] {
      assert Forward(sid, e)[..0] == [];
    }
  }

  lemma {:induction false} EmittedNotesPush(events: seq<RuntimeEvent>, e: RuntimeEvent)
    ensures EmittedNotes(events + [e]) == EmittedNotes(events) + EmittedNotes([e])
  {
    assert (events + [e])[..|events|] == events && [e][..0] == [];
  }

  // Forwarding keeps every event with its own name, id and payload, and drops only callbacks.
  lemma {:induction false} ForwardKeepsNotes(sid: SessionId, events: seq<RuntimeEvent>)
    ensures NotesOf(ForwardAll(sid, events)) == EmittedNotes(events)
  {
    hide NotesOf, EmittedNotes, Forward;
    if events == [] {
      NoNotes();
    } else {
      var init, e := events[..|events| - 1], events[|events| - 1];
      ForwardKeepsNotes(sid, init);
      ForwardedNote(sid, e);
      NotesPush(ForwardAll(sid, init), Forward(sid, e));
      EmittedNotesPush(init, e);
      assert events == init + [e];
    }
  }

  lemma NoNotes()
    ensures NotesOf([]) == [] && EmittedNotes([]) == []
  {
  }

  lemma RunNext(turn: Turn, moves: seq<Move>, m: Move)
    ensures Run(turn, moves + [m]) == Apply(Run(turn, moves), turn, m)
  {
    assert (moves + [m])[..|moves|] == moves;
  }

  // The job when its forwarder drains in time; `moves` is the interleaving it amounts to.
  method DispatchInOrder(turn: Turn) returns (bus: seq<AgentEvent>, ghost moves: seq<Move>)
    ensures Quiet(turn, Run(turn, moves)) && Run(turn, moves).bus == bus
    ensures bus == [Thinking(turn.sid)] + ForwardAll(turn.sid, turn.emitted) + Closing(turn)
  {
    bus, moves := [Thinking(turn.sid)], [];
    var seen := false;
    assert Run(turn, moves) == Begin(turn);
    hide Run, Closing, Forward;
    for i := 0 to |turn.emitted|
      invariant Run(turn, moves) == Dispatch(i, seen, Executing, bus)
      invariant seen == (Completed(turn.emitted[..i]) > 0)
      invariant bus == [Thinking(turn.sid)] + ForwardAll(turn.sid, turn.emitted[..i])
    {
      var e := turn.emitted[i];
      ForwardAllNext(turn, i);
      RunNext(turn, moves, ForwardNext);
      bus, moves := bus + Forward(turn.sid, e), moves + [ForwardNext];
      seen := seen || e.TurnCompleted?;
    }
    assert turn.emitted[..|turn.emitted|] == turn.emitted;
    moves := Settling(turn, moves);
    match turn.result {
      case Ok(text) =>
        if !seen && text != "" {
          bus := bus + [TurnComplete(turn.sid, text, None)];
        }
      case Err(error) =>
        bus := bus + [Error(turn.sid, error), TurnComplete(turn.sid, "", None)];
    }
  }

  // Once the forwarder is done the rest of the job is fixed.
  lemma Settling(turn: Turn, moves: seq<Move>) returns (all: seq<Move>)
    requires var d := Run(turn, moves);
             d.phase.Executing? && d.forwarded == |turn.emitted| && d.seen == (Completed(turn.emitted) > 0)
    ensures Quiet(turn, Run(turn, all)) && Run(turn, all).bus == Run(turn, moves).bus + Closing(turn)
  {
    hide Run;
    RunNext(turn, moves, ConductorReturns);
    all := moves + [ConductorReturns];
    if turn.result.Ok? {
      RunNext(turn, all, DrainEnds(false));
      all := all + [DrainEnds(false)];
      RunNext(turn, all, Decide);
      all := all + [Decide];
    } else {
      RunNext(turn, all, SendError);
      all := all + [SendError];
      RunNext(turn, all, SendEmptyComplete);
      all := all + [SendEmptyComplete];
    }
  }
}

/** The dispatcher's bus as a stream sees it: every turn's delivery comes to an end. */
module TerminalDelivery {
  import opened Prelude
  import opened AgentEvents
  import opened StreamDelivery
  import RuntimeDispatch

  // The session's own events, in the order received.
  function OwnEvents(arms: seq<Arm>, target: SessionId): seq<AgentEvent> {
    if arms == [] then []
    else
      var before := OwnEvents(arms[..|arms| - 1], target);
      match arms[|arms| - 1]
      case Recv(e) => if e.sessionId == target then before + [e] else before
      case _ => before
  }

  // The control channel stays open and silent, and the bus neither lags nor closes.
  predicate Undisturbed(arms: seq<Arm>) {
    forall i :: 0 <= i < |arms| ==> arms[i].Recv? || arms[i].Tick?
  }

  lemma {:induction false} OpenIffNoTerminal(arms: seq<Arm>, target: SessionId)
    requires Undisturbed(arms)
    ensures Open(arms, target) <==> !RuntimeDispatch.HasTerminal(target, OwnEvents(arms, target))
  {
    if arms != [] {
      var n := |arms| - 1;
      var before := OwnEvents(arms[..n], target);
      OpenIffNoTerminal(arms[..n], target);
      OpenNext(arms, target);
      if arms[n].Recv? {
        RuntimeDispatch.HasTerminalAppend(target, before, [arms[n].event]);
        assert [arms[n].event][0] == arms[n].event;
      }
    }
  }

  lemma {:induction false} OwnEventsPrefix(arms: seq<Arm>, i: nat, target: SessionId)
    requires i <= |arms|
    ensures OwnEvents(arms[..i], target) <= OwnEvents(arms, target)
  {
    if i == |arms| {
      assert arms[..i] == arms;
    } else {
      assert arms[..|arms| - 1][..i] == arms[..i];
      OwnEventsPrefix(arms[..|arms| - 1], i, target);
    }
  }

  // The arm that ends an undisturbed stream received the bus's first terminal event.
  lemma EndingArm(arms: seq<Arm>, target: SessionId) returns (i: nat, k: nat)
    requires Undisturbed(arms) && RuntimeDispatch.HasTerminal(target, OwnEvents(arms, target))
    ensures EndsFirst(arms, i, target) && arms[i].Recv?
    ensures var bus := OwnEvents(arms, target);
            k < |bus| && arms[i].event == bus[k] && !RuntimeDispatch.HasTerminal(target, bus[..k])
  {
    OpenIffNoTerminal(arms, target);
    i := FirstEnd(arms, target);
    OpenIffNoTerminal(arms[..i], target);
    k := |OwnEvents(arms[..i], target)|;
    assert arms[..i + 1][..i] == arms[..i];
    OwnEventsPrefix(arms, i + 1, target);
    var upto := OwnEvents(arms[..i + 1], target);
    assert upto == OwnEvents(arms[..i], target) + [arms[i].event];
    assert OwnEvents(arms, target)[..k] == OwnEvents(arms[..i], target);
  }

  // End to end: for every interleaving inside the dispatch and every interleaving with
  // other sessions and the timer, the stream of a settled turn stops exactly when the
  // turn failed, returned text, or its backend emitted a terminal event.
  lemma {:induction false} StreamStopsIff(
    turn: RuntimeDispatch.Turn, moves: seq<RuntimeDispatch.Move>,
    arms: seq<Arm>, labels: Labels, placeholder: Option<string>)
    requires RuntimeDispatch.Quiet(turn, RuntimeDispatch.Run(turn, moves))
    requires Undisturbed(arms) && OwnEvents(arms, turn.sid) == RuntimeDispatch.Run(turn, moves).bus
    ensures Run(arms, turn.sid, labels, placeholder).stopped <==>
              turn.result.Err? || turn.result.value != "" || RuntimeDispatch.EmitsTerminal(turn.emitted)
  {
    RuntimeDispatch.TerminalIff(turn, moves);
    OpenIffNoTerminal(arms, turn.sid);
    StopsIff(arms, turn.sid, labels, placeholder);
  }

  // A turn that fails before any terminal event of its own is forwarded delivers one final
  // message, the error, after whatever segments its text had been cut into.
  lemma {:induction false} FailedTurnDeliversTheError(
    turn: RuntimeDispatch.Turn, moves: seq<RuntimeDispatch.Move>,
    arms: seq<Arm>, labels: Labels, placeholder: Option<string>)
    requires turn.result.Err? && RuntimeDispatch.ErrorSentFirst(turn, moves)
    requires Undisturbed(arms) && OwnEvents(arms, turn.sid) == RuntimeDispatch.Run(turn, moves).bus
    ensures exists i: nat :: EndsFirst(arms, i, turn.sid) &&
              Messages(Run(arms, turn.sid, labels, placeholder).calls) ==
                ClosedBlocks(arms[..i], turn.sid) + [FinalMessage("❌ 错误: " + turn.result.error)]
  {
    var bus := RuntimeDispatch.Run(turn, moves).bus;
    RuntimeDispatch.ErrorStaysFirst(turn, moves);
    var j :| 0 <= j < |bus| && bus[j] == Error(turn.sid, turn.result.error) &&
        !RuntimeDispatch.HasTerminal(turn.sid, bus[..j]);
    assert Terminal(turn.sid, bus[j]);
    var i, k := EndingArm(arms, turn.sid);
    assert Terminal(turn.sid, bus[k]);
    FirstTerminalIsUnique(turn.sid, bus, j, k);
    DeliversWhatIsOwed(arms, i, turn.sid, labels, placeholder);
  }

  lemma TerminalBefore(sid: SessionId, bus: seq<AgentEvent>, j: nat, k: nat)
    requires j < |bus| && k <= |bus| && Terminal(sid, bus[j])
    ensures j < k ==> RuntimeDispatch.HasTerminal(sid, bus[..k])
  {
    if j < k {
      assert bus[..k][j] == bus[j];
    }
  }

  lemma FirstTerminalIsUnique(sid: SessionId, bus: seq<AgentEvent>, j: nat, k: nat)
    requires j < |bus| && Terminal(sid, bus[j]) && !RuntimeDispatch.HasTerminal(sid, bus[..j])
    requires k < |bus| && Terminal(sid, bus[k]) && !RuntimeDispatch.HasTerminal(sid, bus[..k])
    ensures j == k
  {
    TerminalBefore(sid, bus, j, k);
    TerminalBefore(sid, bus, k, j);
  }
}
