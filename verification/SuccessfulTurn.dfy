/** A successful turn: what its bus carries and where its text is cut off. */
module SuccessfulTurn {
  import opened Prelude
  import opened AgentEvents
  import opened RuntimeDispatch

  predicate IsTerminal(e: RuntimeEvent) {
    e.TurnCompleted? || e.TurnFailed?
  }

  // How many events come before the first terminal one.
  function BeforeTerminal(events: seq<RuntimeEvent>): nat {
    if events == [] || IsTerminal(events[0]) then 0 else 1 + BeforeTerminal(events[1..])
  }

  lemma {:induction false} BeforeTerminalSpec(events: seq<RuntimeEvent>)
    ensures var n := BeforeTerminal(events);
            && n <= |events|
            && !EmitsTerminal(events[..n])
            && (n < |events| ==> IsTerminal(events[n]))
  {
    if events != [] && !IsTerminal(events[0]) {
      BeforeTerminalSpec(events[1..]);
      var n := BeforeTerminal(events[1..]);
      assert events[..1 + n] == [events[0]] + events[1..][..n];
      var opening := events[..1 + n];
      forall i | 0 <= i < |opening| ensures !IsTerminal(opening[i]) {
        if i > 0 {
          assert events[1..][..n][i - 1] == events[i];
        }
      }
    }
  }

  // How many events had been forwarded when a completion was synthesised.
  function SynthesisedAfter(turn: Turn, moves: seq<Move>): Option<nat> {
    if moves == [] then None
    else
      var before := moves[..|moves| - 1];
      var d := Run(turn, before);
      if SynthesisedAfter(turn, before).Some? then SynthesisedAfter(turn, before)
      else if moves[|moves| - 1].Decide? && Synthesises(turn, d) then Some(d.forwarded)
      else None
  }

  // How many of the backend's events precede the bus's first terminal event.
  function Cutoff(turn: Turn, moves: seq<Move>): nat {
    match SynthesisedAfter(turn, moves)
    case None => BeforeTerminal(turn.emitted)
    case Some(j) => if j <= |turn.emitted| then BeforeTerminal(turn.emitted[..j]) else 0
  }

  lemma {:induction false} ForwardAllAppend(sid: SessionId, a: seq<RuntimeEvent>, b: seq<RuntimeEvent>)
    ensures ForwardAll(sid, a + b) == ForwardAll(sid, a) + ForwardAll(sid, b)
  {
    hide Forward;
    if b == [] {
      assert a + b == a;
    } else {
      ForwardAllAppend(sid, a, b[..|b| - 1]);
      assert (a + b)[..|a + b| - 1] == a + b[..|b| - 1];
    }
  }

  // The bus of a successful turn: its forwarded events in order, and a synthesised
  // completion where it was synthesised.
  function SuccessBus(turn: Turn, synthesised: Option<nat>, forwarded: nat): seq<AgentEvent>
    requires forwarded <= |turn.emitted| && turn.result.Ok?
    requires synthesised.Some? ==> synthesised.value <= forwarded
  {
    match synthesised
    case None => [Thinking(turn.sid)] + ForwardAll(turn.sid, turn.emitted[..forwarded])
    case Some(j) =>
      [Thinking(turn.sid)] + ForwardAll(turn.sid, turn.emitted[..j]) + [TurnComplete(turn.sid, turn.result.value, None)]
      + ForwardAll(turn.sid, turn.emitted[j..forwarded])
  }

  lemma SuccessBusNext(turn: Turn, synthesised: Option<nat>, f: nat)
    requires f < |turn.emitted| && turn.result.Ok?
    requires synthesised.Some? ==> synthesised.value <= f
    ensures SuccessBus(turn, synthesised, f + 1) ==
            SuccessBus(turn, synthesised, f) + Forward(turn.sid, turn.emitted[f])
  {
    var from := if synthesised.Some? then synthesised.value else 0;
    assert turn.emitted[from..f + 1] == turn.emitted[from..f] + [turn.emitted[f]];
    assert turn.emitted[0..f + 1] == turn.emitted[..f + 1] && turn.emitted[0..f] == turn.emitted[..f];
    ForwardAllAppend(turn.sid, turn.emitted[from..f], [turn.emitted[f]]);
    ForwardAllOne(turn.sid, turn.emitted[f]);
    hide ForwardAll, Forward;
  }

  lemma ForwardAllOne(sid: SessionId, e: RuntimeEvent)
    ensures ForwardAll(sid, [e]) == Forward(sid, e)
  {
    assert [e][..0] == [];
    assert ForwardAll(sid, []) + Forward(sid, e) == Forward(sid, e);
  }

  lemma SuccessBusSynthesised(turn: Turn, f: nat)
    requires f <= |turn.emitted| && turn.result.Ok?
    ensures SuccessBus(turn, Some(f), f) ==
            SuccessBus(turn, None, f) + [TurnComplete(turn.sid, turn.result.value, None)]
  {
    assert turn.emitted[f..f] == [];
  }

  lemma {:induction false} SuccessBusIs(turn: Turn, moves: seq<Move>)
    requires turn.result.Ok?
    ensures var d, j := Run(turn, moves), SynthesisedAfter(turn, moves);
            && d.forwarded <= |turn.emitted|
            && (j.Some? ==> j.value <= d.forwarded && d.phase.Settled?)
            && (d.phase.ReportingError? || d.phase.CompletingError? ==> false)
            && d.bus == SuccessBus(turn, j, d.forwarded)
  {
    hide SuccessBus, Forward;
    if moves == [] {
      EmptySuccessBus(turn);
    } else {
      var before, m := moves[..|moves| - 1], moves[|moves| - 1];
      var d, j := Run(turn, before), SynthesisedAfter(turn, before);
      SuccessBusIs(turn, before);
      if m.ForwardNext? && d.forwarded < |turn.emitted| {
        SuccessBusNext(turn, j, d.forwarded);
      } else if m.Decide? && Synthesises(turn, d) {
        SuccessBusSynthesised(turn, d.forwarded);
      }
    }
  }

  lemma EmptySuccessBus(turn: Turn)
    requires turn.result.Ok?
    ensures SuccessBus(turn, None, 0) == Begin(turn).bus
  {
    assert turn.emitted[..0] == [];
    assert [Thinking(turn.sid)] + [] == [Thinking(turn.sid)];
  }

  lemma {:induction false} ForwardKeepsTerminals(sid: SessionId, events: seq<RuntimeEvent>)
    ensures HasTerminal(sid, ForwardAll(sid, events)) <==> EmitsTerminal(events)
  {
    if events != [] {
      var n := |events| - 1;
      ForwardKeepsTerminals(sid, events[..n]);
      assert events[..n + 1] == events;
      EmitsTerminalNext(events, n);
      HasTerminalAppend(sid, ForwardAll(sid, events[..n]), Forward(sid, events[n]));
      ForwardedTerminal(sid, events[n]);
    }
  }

  lemma ForwardedTerminal(sid: SessionId, e: RuntimeEvent)
    ensures HasTerminal(sid, Forward(sid, e)) <==> IsTerminal(e)
    ensures IsTerminal(e) ==> |Forward(sid, e)| == 1 && Terminal(sid, Forward(sid, e)[0])
  {
    if IsTerminal(e) {
      assert Terminal(sid, Forward(sid, e)[0]);
    }
  }

  lemma OpeningIsQuiet(sid: SessionId, events: seq<RuntimeEvent>)
    requires !EmitsTerminal(events)
    ensures !HasTerminal(sid, [Thinking(sid)] + ForwardAll(sid, events))
  {
    ForwardKeepsTerminals(sid, events);
    HasTerminalAppend(sid, [Thinking(sid)], ForwardAll(sid, events));
  }

  // What precedes a successful turn's first terminal event on the bus.
  lemma {:induction false} FirstTerminalOnBus(turn: Turn, moves: seq<Move>)
    requires turn.result.Ok? && Quiet(turn, Run(turn, moves)) && HasTerminal(turn.sid, Run(turn, moves).bus)
    ensures Cutoff(turn, moves) <= |turn.emitted|
    ensures var bus := Run(turn, moves).bus;
            var opening := [Thinking(turn.sid)] + ForwardAll(turn.sid, turn.emitted[..Cutoff(turn, moves)]);
            && |opening| < |bus| && bus[..|opening|] == opening
            && Terminal(turn.sid, bus[|opening|]) && !HasTerminal(turn.sid, opening)
            && (SynthesisedAfter(turn, moves).None? && Cutoff(turn, moves) < |turn.emitted| ==>
                  Forward(turn.sid, turn.emitted[Cutoff(turn, moves)]) == [bus[|opening|]])
  {
    hide ForwardAll, HasTerminal, Terminal, Run, BeforeTerminal;
    SuccessBusIs(turn, moves);
    var sid, j, bus := turn.sid, SynthesisedAfter(turn, moves), Run(turn, moves).bus;
    var upto := if j.Some? then turn.emitted[..j.value] else turn.emitted;
    var c := Cutoff(turn, moves);
    BeforeTerminalSpec(upto);
    assert turn.emitted[..|turn.emitted|] == turn.emitted;
    assert upto[..c] == turn.emitted[..c];
    OpeningIsQuiet(sid, upto[..c]);
    var all := [Thinking(sid)] + ForwardAll(sid, upto);
    StartsWithForwarded(turn, j, |turn.emitted|);
    assert all <= bus;
    if c < |upto| {
      CutInside(sid, upto, c);
      SamePrefix(all, bus, |[Thinking(sid)] + ForwardAll(sid, upto[..c])|);
    } else {
      assert upto[..c] == upto;
      CompletionIsTerminal(sid, turn.result.value);
    }
  }

  // A bus opens with what was forwarded before a synthesised completion, which follows.
  lemma StartsWithForwarded(turn: Turn, j: Option<nat>, f: nat)
    requires f <= |turn.emitted| && turn.result.Ok? && (j.Some? ==> j.value <= f)
    ensures var upto := if j.Some? then turn.emitted[..j.value] else turn.emitted[..f];
            var all := [Thinking(turn.sid)] + ForwardAll(turn.sid, upto);
            var bus := SuccessBus(turn, j, f);
            && all <= bus
            && (j.None? ==> bus == all)
            && (j.Some? ==> |all| < |bus| && bus[..|all|] == all
                            && bus[|all|] == TurnComplete(turn.sid, turn.result.value, None))
  {
    hide ForwardAll;
  }

  lemma SamePrefix(a: seq<AgentEvent>, b: seq<AgentEvent>, n: nat)
    requires a <= b && n < |a|
    ensures n < |b| && b[..n] == a[..n] && b[n] == a[n]
  {
  }

  lemma CompletionIsTerminal(sid: SessionId, text: string)
    ensures Terminal(sid, TurnComplete(sid, text, None))
  {
  }

  lemma {:induction false} CutInside(sid: SessionId, events: seq<RuntimeEvent>, c: nat)
    requires c < |events| && IsTerminal(events[c])
    ensures var opening := [Thinking(sid)] + ForwardAll(sid, events[..c]);
            var all := [Thinking(sid)] + ForwardAll(sid, events);
            && |opening| < |all| && all[..|opening|] == opening && Terminal(sid, all[|opening|])
            && Forward(sid, events[c]) == [all[|opening|]]
  {
    hide ForwardAll, Forward, Terminal;
    assert events == events[..c] + ([events[c]] + events[c + 1..]);
    ForwardAllAppend(sid, events[..c], [events[c]] + events[c + 1..]);
    ForwardAllAppend(sid, [events[c]], events[c + 1..]);
    ForwardAllOne(sid, events[c]);
    ForwardedTerminal(sid, events[c]);
    PrefixThenOne(
      [Thinking(sid)], ForwardAll(sid, events[..c]), Forward(sid, events[c]), ForwardAll(sid, events[c + 1..]));
  }

  lemma PrefixThenOne(t: seq<AgentEvent>, a: seq<AgentEvent>, b: seq<AgentEvent>, rest: seq<AgentEvent>)
    requires |b| == 1
    ensures |t + a| < |t + (a + (b + rest))|
    ensures (t + (a + (b + rest)))[..|t + a|] == t + a && (t + (a + (b + rest)))[|t + a|] == b[0]
  {
    assert t + (a + (b + rest)) == (t + a) + (b + rest);
  }

  // A drain that times out can put the synthesised completion before text that is still to
  // be forwarded.
  lemma {:induction false} LateTextIsCutOff(sid: SessionId, a: string, b: string) returns (turn: Turn, moves: seq<Move>)
    requires a != "" && b != ""
    ensures turn == Turn(sid, [DeltaProduced(a), ToolStarted("t", "1"), DeltaProduced(b)], Ok(a + b))
    ensures Quiet(turn, Run(turn, moves))
    ensures Run(turn, moves).bus ==
            [Thinking(sid), TextDelta(sid, a), ToolCallStart(sid, "t", "1"),
             TurnComplete(sid, a + b, None), TextDelta(sid, b)]
  {
    turn := Turn(sid, [DeltaProduced(a), ToolStarted("t", "1"), DeltaProduced(b)], Ok(a + b));
    hide Run;
    var s2 := TwoForwarded(turn, a, b);
    RunNext(turn, s2, ConductorReturns);
    var s3 := s2 + [ConductorReturns];
    RunNext(turn, s3, DrainEnds(true));
    var s4 := s3 + [DrainEnds(true)];
    RunNext(turn, s4, Decide);
    var s5 := s4 + [Decide];
    var bus := [Thinking(sid), TextDelta(sid, a), ToolCallStart(sid, "t", "1"), TurnComplete(sid, a + b, None)];
    assert Run(turn, s5) == Dispatch(2, false, Settled, bus);
    RunNext(turn, s5, ForwardNext);
    moves := s5 + [ForwardNext];
  }

  lemma TwoForwarded(turn: Turn, a: string, b: string) returns (moves: seq<Move>)
    requires turn.emitted == [DeltaProduced(a), ToolStarted("t", "1"), DeltaProduced(b)]
    ensures Run(turn, moves) ==
            Dispatch(2, false, Executing,
                     [Thinking(turn.sid), TextDelta(turn.sid, a), ToolCallStart(turn.sid, "t", "1")])
  {
    assert Run(turn, []) == Begin(turn);
    hide Run;
    RunNext(turn, [], ForwardNext);
    var s1 := [] + [ForwardNext];
    assert Run(turn, s1) == Dispatch(1, false, Executing, [Thinking(turn.sid), TextDelta(turn.sid, a)]);
    RunNext(turn, s1, ForwardNext);
    moves := s1 + [ForwardNext];
  }

  // The text a backend emits.
  function EmittedText(events: seq<RuntimeEvent>): string {
    if events == [] then ""
    else
      EmittedText(events[..|events| - 1])
      + if events[|events| - 1].DeltaProduced? then events[|events| - 1].text else ""
  }

  lemma {:induction false} EmittedTextAppend(a: seq<RuntimeEvent>, b: seq<RuntimeEvent>)
    ensures EmittedText(a + b) == EmittedText(a) + EmittedText(b)
  {
    if b == [] {
      assert a + b == a;
    } else {
      EmittedTextAppend(a, b[..|b| - 1]);
      assert (a + b)[..|a + b| - 1] == a + b[..|b| - 1];
    }
  }

  // While the drain ends by itself, nothing is cut off but what the backend emits after a
  // terminal event of its own.
  lemma {:induction false} DrainedCutoff(turn: Turn, moves: seq<Move>)
    requires turn.result.Ok?
    requires NeverTimesOut(moves)
    ensures SynthesisedAfter(turn, moves).Some? ==> SynthesisedAfter(turn, moves).value == |turn.emitted|
    ensures Cutoff(turn, moves) == BeforeTerminal(turn.emitted)
  {
    hide BeforeTerminal, Run;
    assert turn.emitted[..|turn.emitted|] == turn.emitted;
    if moves != [] {
      var before := moves[..|moves| - 1];
      DrainedCutoff(turn, before);
      DrainedBeforeDeciding(turn, before);
    }
  }
}

/** What a stream delivers of a successful turn's text. */
module DeliveredText {
  import opened Prelude
  import opened AgentEvents
  import opened StreamDelivery
  import opened TerminalDelivery
  import RuntimeDispatch
  import SuccessfulTurn

  // The text of a sequence of events.
  function BusText(bus: seq<AgentEvent>): string {
    if bus == [] then ""
    else BusText(bus[..|bus| - 1]) + if bus[|bus| - 1].TextDelta? then bus[|bus| - 1].delta else ""
  }

  lemma {:induction false} BusTextAppend(a: seq<AgentEvent>, b: seq<AgentEvent>)
    ensures BusText(a + b) == BusText(a) + BusText(b)
  {
    if b == [] {
      assert a + b == a;
    } else {
      BusTextAppend(a, b[..|b| - 1]);
      assert (a + b)[..|a + b| - 1] == a + b[..|b| - 1];
    }
  }

  lemma BusTextOne(e: AgentEvent)
    ensures BusText([e]) == if e.TextDelta? then e.delta else ""
  {
    assert [e][..0] == [];
  }

  lemma {:induction false} ForwardKeepsText(sid: SessionId, events: seq<RuntimeDispatch.RuntimeEvent>)
    ensures BusText(RuntimeDispatch.ForwardAll(sid, events)) == SuccessfulTurn.EmittedText(events)
  {
    hide RuntimeDispatch.Forward, BusText;
    if events == [] {
      NoText();
    } else {
      var n := |events| - 1;
      ForwardKeepsText(sid, events[..n]);
      BusTextAppend(RuntimeDispatch.ForwardAll(sid, events[..n]), RuntimeDispatch.Forward(sid, events[n]));
      ForwardedText(sid, events[n]);
    }
  }

  lemma NoText()
    ensures BusText([]) == ""
  {
  }

  lemma ForwardedText(sid: SessionId, e: RuntimeDispatch.RuntimeEvent)
    ensures BusText(RuntimeDispatch.Forward(sid, e)) == if e.DeltaProduced? then e.text else ""
  {
    var more := RuntimeDispatch.Forward(sid, e);
    if more != [] {
      assert more == [more[0]];
      BusTextOne(more[0]);
    }
  }

  // A stream's deltas are those of its own events.
  lemma {:induction false} OwnTextIsDeltaText(arms: seq<Arm>, target: SessionId)
    ensures DeltaText(arms, target) == BusText(OwnEvents(arms, target))
  {
    if arms != [] {
      var n := |arms| - 1;
      OwnTextIsDeltaText(arms[..n], target);
      var before := OwnEvents(arms[..n], target);
      if arms[n].Recv? {
        assert (before + [arms[n].event])[..|before|] == before;
      }
    }
  }

  // The events received before the arm that ends the stream are those before the bus's
  // first terminal event.
  lemma {:induction false} EndsAtFirstTerminal(
    arms: seq<Arm>, target: SessionId, opening: seq<AgentEvent>) returns (i: nat)
    requires Undisturbed(arms)
    requires var bus := OwnEvents(arms, target);
             && |opening| < |bus| && bus[..|opening|] == opening
             && Terminal(target, bus[|opening|]) && !RuntimeDispatch.HasTerminal(target, opening)
    ensures EndsFirst(arms, i, target) && arms[i].Recv?
    ensures arms[i].event == OwnEvents(arms, target)[|opening|]
    ensures OwnEvents(arms[..i], target) == opening
  {
    var bus, k := OwnEvents(arms, target), |opening|;
    assert RuntimeDispatch.HasTerminal(target, bus);
    OpenIffNoTerminal(arms, target);
    i := FirstEnd(arms, target);
    OpenIffNoTerminal(arms[..i], target);
    assert arms[..i + 1][..i] == arms[..i];
    OwnEventsPrefix(arms, i + 1, target);
    var before := OwnEvents(arms[..i], target);
    assert OwnEvents(arms[..i + 1], target) == before + [arms[i].event];
    assert bus[|before|] == arms[i].event && bus[..|before|] == before;
    FirstTerminalIsUnique(target, bus, |before|, k);
  }

  lemma {:induction false} OpeningText(sid: SessionId, events: seq<RuntimeDispatch.RuntimeEvent>)
    ensures BusText([Thinking(sid)] + RuntimeDispatch.ForwardAll(sid, events)) == SuccessfulTurn.EmittedText(events)
  {
    hide BusText, RuntimeDispatch.ForwardAll;
    BusTextAppend([Thinking(sid)], RuntimeDispatch.ForwardAll(sid, events));
    BusTextOne(Thinking(sid));
    ForwardKeepsText(sid, events);
  }

  // A prefix holds all the text exactly when the rest holds none.
  lemma {:induction false} TextSplit(events: seq<RuntimeDispatch.RuntimeEvent>, c: nat)
    requires c <= |events|
    ensures SuccessfulTurn.EmittedText(events[..c]) == SuccessfulTurn.EmittedText(events) <==>
            SuccessfulTurn.EmittedText(events[c..]) == ""
  {
    assert events == events[..c] + events[c..];
    SuccessfulTurn.EmittedTextAppend(events[..c], events[c..]);
  }

  // What a stream of a successful turn has received.
  predicate Streams(turn: RuntimeDispatch.Turn, moves: seq<RuntimeDispatch.Move>, arms: seq<Arm>) {
    && turn.result.Ok?
    && RuntimeDispatch.Quiet(turn, RuntimeDispatch.Run(turn, moves))
    && Undisturbed(arms)
    && OwnEvents(arms, turn.sid) == RuntimeDispatch.Run(turn, moves).bus
  }

  lemma {:induction false} EndsAtCutoff(
    turn: RuntimeDispatch.Turn, moves: seq<RuntimeDispatch.Move>, arms: seq<Arm>, i: nat)
    requires Streams(turn, moves, arms) && EndsFirst(arms, i, turn.sid)
    ensures arms[i].Recv? && SuccessfulTurn.Cutoff(turn, moves) <= |turn.emitted|
    ensures OwnEvents(arms[..i], turn.sid) ==
            [Thinking(turn.sid)]
            + RuntimeDispatch.ForwardAll(turn.sid, turn.emitted[..SuccessfulTurn.Cutoff(turn, moves)])
    ensures SuccessfulTurn.SynthesisedAfter(turn, moves).None? ==>
            SuccessfulTurn.Cutoff(turn, moves) < |turn.emitted| ==>
            RuntimeDispatch.Forward(turn.sid, turn.emitted[SuccessfulTurn.Cutoff(turn, moves)]) == [arms[i].event]
  {
    hide SuccessfulTurn.Cutoff, RuntimeDispatch.ForwardAll, RuntimeDispatch.HasTerminal,
         RuntimeDispatch.Run, RuntimeDispatch.Forward,
         Terminal, Undisturbed, Ends;
    OpenIffNoTerminal(arms, turn.sid);
    EndedIsNotOpen(arms, i, turn.sid);
    SuccessfulTurn.FirstTerminalOnBus(turn, moves);
    var opening :=
      [Thinking(turn.sid)] + RuntimeDispatch.ForwardAll(turn.sid, turn.emitted[..SuccessfulTurn.Cutoff(turn, moves)]);
    var e := EndsAtFirstTerminal(arms, turn.sid, opening);
    FirstEndIsUnique(arms, e, i, turn.sid);
  }

  lemma EndedIsNotOpen(arms: seq<Arm>, i: nat, target: SessionId)
    requires EndsFirst(arms, i, target)
    ensures !Open(arms, target)
  {
  }

  lemma FirstEndIsUnique(arms: seq<Arm>, i: nat, k: nat, target: SessionId)
    requires EndsFirst(arms, i, target) && EndsFirst(arms, k, target)
    ensures i == k
  {
    EarlierEnd(arms, i, k, target);
    EarlierEnd(arms, k, i, target);
  }

  lemma EarlierEnd(arms: seq<Arm>, i: nat, k: nat, target: SessionId)
    requires i < |arms| && k <= |arms| && Ends(arms, i, target)
    ensures i < k ==> !Open(arms[..k], target)
  {
    if i < k {
      assert arms[..k][..i] == arms[..i];
      assert Ends(arms[..k], i, target);
    }
  }

  // A successful turn's stream delivers the messages owed at the arm that ends it, and the
  // text it has received by then is the backend's text up to the cutoff.
  lemma {:induction false} SuccessfulTurnDelivers(
    turn: RuntimeDispatch.Turn, moves: seq<RuntimeDispatch.Move>,
    arms: seq<Arm>, i: nat, labels: Labels, placeholder: Option<string>)
    requires Streams(turn, moves, arms) && EndsFirst(arms, i, turn.sid)
    ensures Messages(Run(arms, turn.sid, labels, placeholder).calls) == Owed(arms[..i], arms[i], turn.sid)
    ensures SuccessfulTurn.Cutoff(turn, moves) <= |turn.emitted|
    ensures DeltaText(arms[..i], turn.sid) ==
            SuccessfulTurn.EmittedText(turn.emitted[..SuccessfulTurn.Cutoff(turn, moves)])
  {
    hide SuccessfulTurn.Cutoff, SuccessfulTurn.EmittedText, RuntimeDispatch.ForwardAll,
         RuntimeDispatch.Run, Run, Owed, BusText, Streams, Messages;
    EndsAtCutoff(turn, moves, arms, i);
    DeliversWhatIsOwed(arms, i, turn.sid, labels, placeholder);
    OwnTextIsDeltaText(arms[..i], turn.sid);
    OpeningText(turn.sid, turn.emitted[..SuccessfulTurn.Cutoff(turn, moves)]);
  }

  // When its text was cut into segments and it completes, a successful turn delivers all
  // the backend's text if and only if none is emitted after the cutoff.
  lemma {:induction false} AllTextIsDeliveredIff(
    turn: RuntimeDispatch.Turn, moves: seq<RuntimeDispatch.Move>,
    arms: seq<Arm>, i: nat, labels: Labels, placeholder: Option<string>)
    requires Streams(turn, moves, arms) && EndsFirst(arms, i, turn.sid)
    requires arms[i].Recv? && arms[i].event.TurnComplete? && ClosedBlocks(arms[..i], turn.sid) != []
    ensures SuccessfulTurn.Cutoff(turn, moves) <= |turn.emitted|
    ensures Texts(Messages(Run(arms, turn.sid, labels, placeholder).calls)) ==
            SuccessfulTurn.EmittedText(turn.emitted) <==>
            SuccessfulTurn.EmittedText(turn.emitted[SuccessfulTurn.Cutoff(turn, moves)..]) == ""
  {
    hide SuccessfulTurn.Cutoff, SuccessfulTurn.EmittedText, RuntimeDispatch.Run, Run, Streams, Messages, Texts;
    SuccessfulTurnDelivers(turn, moves, arms, i, labels, placeholder);
    CompletedTurnConservesText(arms, i, turn.sid, labels, placeholder);
    TextSplit(turn.emitted, SuccessfulTurn.Cutoff(turn, moves));
  }

  // With a drain that ends by itself, the cutoff is the backend's first terminal event.
  lemma {:induction false} DrainedTurnDeliversAllText(
    turn: RuntimeDispatch.Turn, moves: seq<RuntimeDispatch.Move>,
    arms: seq<Arm>, i: nat, labels: Labels, placeholder: Option<string>)
    requires Streams(turn, moves, arms) && EndsFirst(arms, i, turn.sid)
    requires RuntimeDispatch.NeverTimesOut(moves)
    requires arms[i].Recv? && arms[i].event.TurnComplete? && ClosedBlocks(arms[..i], turn.sid) != []
    ensures SuccessfulTurn.BeforeTerminal(turn.emitted) <= |turn.emitted|
    ensures Texts(Messages(Run(arms, turn.sid, labels, placeholder).calls)) ==
            SuccessfulTurn.EmittedText(turn.emitted) <==>
            SuccessfulTurn.EmittedText(turn.emitted[SuccessfulTurn.BeforeTerminal(turn.emitted)..]) == ""
  {
    hide SuccessfulTurn.EmittedText, RuntimeDispatch.Run, Run, Streams, Messages, Texts;
    StreamsASuccess(turn, moves, arms);
    SuccessfulTurn.DrainedCutoff(turn, moves);
    AllTextIsDeliveredIff(turn, moves, arms, i, labels, placeholder);
  }

  // A turn whose own backend reports a failure first delivers that failure, whatever the
  // conductor returned, if no completion was synthesised.
  lemma {:induction false} BackendErrorIsDelivered(
    turn: RuntimeDispatch.Turn, moves: seq<RuntimeDispatch.Move>,
    arms: seq<Arm>, i: nat, labels: Labels, placeholder: Option<string>, error: string)
    requires Streams(turn, moves, arms) && EndsFirst(arms, i, turn.sid)
    requires SuccessfulTurn.SynthesisedAfter(turn, moves).None?
    requires SuccessfulTurn.Cutoff(turn, moves) < |turn.emitted|
    requires turn.emitted[SuccessfulTurn.Cutoff(turn, moves)] == RuntimeDispatch.TurnFailed(error)
    ensures Messages(Run(arms, turn.sid, labels, placeholder).calls) ==
            ClosedBlocks(arms[..i], turn.sid) + [FinalMessage("❌ 错误: " + error)]
  {
    hide SuccessfulTurn.Cutoff, SuccessfulTurn.SynthesisedAfter, RuntimeDispatch.Run, Run, Streams, Messages;
    EndsAtCutoff(turn, moves, arms, i);
    DeliversWhatIsOwed(arms, i, turn.sid, labels, placeholder);
    assert [arms[i].event][0] == Error(turn.sid, error);
  }

  lemma StreamsASuccess(turn: RuntimeDispatch.Turn, moves: seq<RuntimeDispatch.Move>, arms: seq<Arm>)
    requires Streams(turn, moves, arms)
    ensures turn.result.Ok?
  {
  }
}
