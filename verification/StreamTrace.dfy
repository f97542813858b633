/** The shape of the calls a stream makes on its sink, over every run. */
module StreamTrace {
  import opened Prelude
  import opened AgentEvents
  import opened StreamDelivery

  predicate HasSegment(calls: seq<SinkCall>) {
    exists i :: 0 <= i < |calls| && calls[i].Segment?
  }

  // The label on show: the last progress call, unless a segment came after it.
  function CurrentLabel(calls: seq<SinkCall>): Option<string> {
    if calls == [] then None
    else
      match calls[|calls| - 1]
      case Progress(caption, _) => Some(caption)
      case Segment(_) => None
      case _ => CurrentLabel(calls[..|calls| - 1])
  }

  // What may be sent as call number `i`, given those before it.
  predicate WellPlaced(calls: seq<SinkCall>, i: nat, initial: Option<string>)
    requires i < |calls|
  {
    var before := calls[..i];
    var holder := if HasSegment(before) then None else initial;
    match calls[i]
    case Delta(text, placeholder) => text != "" && placeholder == holder
    case Segment(text) => text != ""
    case Progress(caption, placeholder) => placeholder == holder && CurrentLabel(before) != Some(caption)
    case SendFinal(_, placeholder) => placeholder == holder && i == |calls| - 1
  }

  predicate WellShaped(calls: seq<SinkCall>, initial: Option<string>) {
    forall i: nat :: i < |calls| ==> WellPlaced(calls, i, initial)
  }

  // The stream's bookkeeping, read off the calls made so far.
  predicate Tracks(s: Stream, initial: Option<string>) {
    && WellShaped(s.calls, initial)
    && s.flushed == HasSegment(s.calls)
    && s.placeholder == (if HasSegment(s.calls) then None else initial)
    && s.lastProgress == CurrentLabel(s.calls)
    && (!s.stopped ==> forall i :: 0 <= i < |s.calls| ==> !s.calls[i].SendFinal?)
  }

  lemma EarlierCallStays(calls: seq<SinkCall>, c: SinkCall, initial: Option<string>, i: nat)
    requires i < |calls| && WellPlaced(calls, i, initial) && !calls[i].SendFinal?
    ensures WellPlaced(calls + [c], i, initial)
  {
    assert (calls + [c])[..i] == calls[..i];
  }

  lemma CallTracks(calls: seq<SinkCall>, c: SinkCall, initial: Option<string>)
    requires WellShaped(calls, initial)
    requires forall i :: 0 <= i < |calls| ==> !calls[i].SendFinal?
    requires WellPlaced(calls + [c], |calls|, initial)
    ensures WellShaped(calls + [c], initial)
    ensures HasSegment(calls + [c]) == (HasSegment(calls) || c.Segment?)
    ensures CurrentLabel(calls + [c]) ==
              (if c.Progress? then Some(c.caption) else if c.Segment? then None else CurrentLabel(calls))
  {
    var longer := calls + [c];
    assert longer[..|calls|] == calls;
    forall i: nat | i < |calls| ensures WellPlaced(longer, i, initial) {
      EarlierCallStays(calls, c, initial, i);
    }
    if HasSegment(calls) {
      var i :| 0 <= i < |calls| && calls[i].Segment?;
      assert longer[i].Segment?;
    }
    if c.Segment? {
      assert longer[|calls|].Segment?;
    }
  }

  // A call that is well placed after those made so far.
  lemma PlacedTracks(s: Stream, c: SinkCall, initial: Option<string>)
    requires Tracks(s, initial) && !s.stopped
    requires WellPlaced(s.calls + [c], |s.calls|, initial)
    ensures WellShaped(Call(s, c).calls, initial)
    ensures HasSegment(Call(s, c).calls) == (HasSegment(s.calls) || c.Segment?)
    ensures CurrentLabel(Call(s, c).calls) ==
              (if c.Progress? then Some(c.caption) else if c.Segment? then None else CurrentLabel(s.calls))
    ensures !c.SendFinal? ==> forall i :: 0 <= i < |Call(s, c).calls| ==> !Call(s, c).calls[i].SendFinal?
  {
    hide HasSegment, CurrentLabel, WellShaped, WellPlaced;
    CallTracks(s.calls, c, initial);
  }

  lemma FlushTracks(s: Stream, initial: Option<string>)
    requires Tracks(s, initial) && !s.stopped
    ensures Tracks(Flush(s), initial) && !Flush(s).stopped
  {
    hide HasSegment, CurrentLabel, WellShaped;
    if s.accumulated != "" {
      assert (s.calls + [Segment(s.accumulated)])[..|s.calls|] == s.calls;
      PlacedTracks(s, Segment(s.accumulated), initial);
    }
  }

  lemma AnnounceTracks(s: Stream, progress: Option<string>, initial: Option<string>)
    requires Tracks(s, initial) && !s.stopped
    ensures Tracks(Announce(s, progress), initial)
  {
    hide HasSegment, CurrentLabel, WellShaped;
    if progress.Some? && s.lastProgress != progress {
      var c := Progress(progress.value, s.placeholder);
      assert (s.calls + [c])[..|s.calls|] == s.calls;
      PlacedTracks(s, c, initial);
    }
  }

  lemma DeltaTracks(s: Stream, initial: Option<string>)
    requires Tracks(s, initial) && !s.stopped && s.accumulated != ""
    ensures Tracks(Call(s, Delta(s.accumulated, s.placeholder)), initial)
  {
    hide HasSegment, CurrentLabel, WellShaped;
    var c := Delta(s.accumulated, s.placeholder);
    assert (s.calls + [c])[..|s.calls|] == s.calls;
    PlacedTracks(s, c, initial);
  }

  lemma FinalTracks(s: Stream, text: string, pendingFinal: Option<string>, initial: Option<string>)
    requires Tracks(s, initial) && !s.stopped
    ensures Tracks(Call(s, SendFinal(text, s.placeholder)).(pendingFinal := pendingFinal, stopped := true), initial)
  {
    hide HasSegment, CurrentLabel, WellShaped;
    var c := SendFinal(text, s.placeholder);
    assert (s.calls + [c])[..|s.calls|] == s.calls;
    PlacedTracks(s, c, initial);
  }

  lemma StepTracks(s: Stream, target: SessionId, labels: Labels, arm: Arm, initial: Option<string>)
    requires Tracks(s, initial)
    ensures Tracks(Step(s, target, labels, arm), initial)
  {
    hide HasSegment, CurrentLabel, WellShaped, Flush, Announce;
    if !s.stopped {
      match arm
      case Recv(event) =>
        if event.ToolCallStart? || event.ToolCallResult? || event.ToolCallFailed? {
          ToolTracks(s, target, labels, event, initial);
        } else if event.TurnComplete? {
          FinalTracks(s, if s.flushed then s.accumulated else event.fullText, s.pendingFinal, initial);
        } else if event.Error? {
          FinalTracks(s, ERROR_PREFIX + event.message, s.pendingFinal, initial);
        }
      case RecvErr =>
        if s.pendingFinal.Some? {
          FinalTracks(s, s.pendingFinal.value, None, initial);
        }
      case Tick =>
        if s.accumulated != "" {
          DeltaTracks(s, initial);
        }
      case Control(_) =>
    }
  }

  lemma ToolTracks(s: Stream, target: SessionId, labels: Labels, event: AgentEvent, initial: Option<string>)
    requires Tracks(s, initial) && !s.stopped
    requires event.ToolCallStart? || event.ToolCallResult? || event.ToolCallFailed?
    ensures Tracks(Step(s, target, labels, Recv(event)), initial)
  {
    hide HasSegment, CurrentLabel, WellShaped, Flush, Announce;
    match event
    case ToolCallStart(_, toolName, callId) =>
      FlushTracks(s, initial);
      var f := Flush(s);
      AnnounceTracks(f.(activeTools := f.activeTools[callId := toolName]), labels.onStart(toolName), initial);
    case ToolCallResult(_, callId, _) =>
      var toolName := if callId in s.activeTools then Some(s.activeTools[callId]) else None;
      AnnounceTracks(s.(activeTools := s.activeTools - {callId}), labels.onResult(toolName), initial);
    case ToolCallFailed(_, toolName, callId, _) =>
      AnnounceTracks(s.(activeTools := s.activeTools - {callId}), labels.onFailure(toolName), initial);
  }

  // Over every run: nonempty segments and previews, the placeholder only before the first
  // segment, no label shown twice in a row, at most one final and nothing after it.
  lemma {:induction false} RunIsWellShaped(
    arms: seq<Arm>, target: SessionId, labels: Labels, initial: Option<string>)
    ensures Tracks(Run(arms, target, labels, initial), initial)
  {
    if arms != [] {
      RunIsWellShaped(arms[..|arms| - 1], target, labels, initial);
      StepTracks(Run(arms[..|arms| - 1], target, labels, initial), target, labels, arms[|arms| - 1], initial);
    }
  }

  lemma {:induction false} AtMostOneFinal(
    arms: seq<Arm>, target: SessionId, labels: Labels, initial: Option<string>, i: nat)
    requires i < |Run(arms, target, labels, initial).calls|
    requires Run(arms, target, labels, initial).calls[i].SendFinal?
    ensures i == |Run(arms, target, labels, initial).calls| - 1
    ensures Run(arms, target, labels, initial).stopped
  {
    RunIsWellShaped(arms, target, labels, initial);
    assert WellPlaced(Run(arms, target, labels, initial).calls, i, initial);
  }

  lemma {:induction false} LabelStays(calls: seq<SinkCall>, i: nat, j: nat)
    requires i < j <= |calls| && calls[i].Progress?
    requires forall k :: i < k < j ==> !calls[k].Progress? && !calls[k].Segment?
    ensures CurrentLabel(calls[..j]) == Some(calls[i].caption)
  {
    if j == i + 1 {
      assert calls[..j][j - 1] == calls[i];
    } else {
      LabelStays(calls, i, j - 1);
      assert calls[..j][..j - 1] == calls[..j - 1];
    }
  }

  // Two successive progress calls repeat a label only across a segment.
  lemma RepeatedLabelNeedsSegment(
    arms: seq<Arm>, target: SessionId, labels: Labels, initial: Option<string>, i: nat, j: nat)
    requires var calls := Run(arms, target, labels, initial).calls;
             && i < j < |calls| && calls[i].Progress? && calls[j].Progress?
             && calls[i].caption == calls[j].caption
             && forall k :: i < k < j ==> !calls[k].Progress?
    ensures exists k :: i < k < j && Run(arms, target, labels, initial).calls[k].Segment?
  {
    var calls := Run(arms, target, labels, initial).calls;
    RunIsWellShaped(arms, target, labels, initial);
    assert WellPlaced(calls, j, initial);
    if forall k :: i < k < j ==> !calls[k].Segment? {
      LabelStays(calls, i, j);
    }
  }

  // --------------------------------------------------------------- previews

  predicate PreviewsShow(calls: seq<SinkCall>, text: string) {
    forall i :: 0 <= i < |calls| && calls[i].Delta? ==> Texts(Messages(calls[..i])) + calls[i].text <= text
  }

  // A preview never shows text the session has not produced: with the segments before it,
  // it is a prefix of the session's text.
  lemma {:induction false} PreviewsAreHonest(
    arms: seq<Arm>, target: SessionId, labels: Labels, placeholder: Option<string>)
    ensures PreviewsShow(Run(arms, target, labels, placeholder).calls, DeltaText(arms, target))
  {
    if arms != [] {
      var n := |arms| - 1;
      var s := Run(arms[..n], target, labels, placeholder);
      var t := Step(s, target, labels, arms[n]);
      PreviewsAreHonest(arms[..n], target, labels, placeholder);
      StopsIff(arms[..n], target, labels, placeholder);
      StepExtends(s, target, labels, arms[n]);
      assert DeltaText(arms[..n], target) <= DeltaText(arms, target);
      forall i | 0 <= i < |t.calls| && t.calls[i].Delta?
        ensures Texts(Messages(t.calls[..i])) + t.calls[i].text <= DeltaText(arms, target) {
        if i < |s.calls| {
          assert t.calls[..i] == s.calls[..i];
        } else {
          TextConserved(arms[..n], target, labels, placeholder);
          assert t.calls[..i] == s.calls;
        }
      }
    }
  }

  // A step only appends, and a preview it appends is the whole buffer.
  lemma StepExtends(s: Stream, target: SessionId, labels: Labels, arm: Arm)
    ensures var t := Step(s, target, labels, arm);
            && s.calls <= t.calls
            && (s.stopped ==> t.calls == s.calls)
            && forall i :: |s.calls| <= i < |t.calls| && t.calls[i].Delta? ==>
                i == |s.calls| && t.calls[i].text == s.accumulated
  {
    if !s.stopped && arm.Recv? && arm.event.ToolCallStart? {
      assert s.calls <= Flush(s).calls;
    }
  }

  // -------------------------------------------------------------- isolation

  // The arms without the other sessions' events.
  function Own(arms: seq<Arm>, target: SessionId): seq<Arm> {
    if arms == [] then []
    else
      var last := arms[|arms| - 1];
      var before := Own(arms[..|arms| - 1], target);
      if last.Recv? && last.event.sessionId != target then before else before + [last]
  }

  lemma {:induction false} OtherSessionsAreInvisible(
    arms: seq<Arm>, target: SessionId, labels: Labels, placeholder: Option<string>)
    ensures Run(Own(arms, target), target, labels, placeholder) == Run(arms, target, labels, placeholder)
  {
    if arms != [] {
      var prefix := arms[..|arms| - 1];
      OtherSessionsAreInvisible(prefix, target, labels, placeholder);
      var own := Own(prefix, target);
      assert (own + [arms[|arms| - 1]])[..|own|] == own;
    }
  }

  // Two schedules that agree on this session's events, the timer and the control channel
  // make the same calls, whatever else is on the bus.
  lemma SessionIsolation(
    arms: seq<Arm>, arms': seq<Arm>, target: SessionId, labels: Labels, placeholder: Option<string>)
    requires Own(arms, target) == Own(arms', target)
    ensures Run(arms, target, labels, placeholder).calls == Run(arms', target, labels, placeholder).calls
  {
    OtherSessionsAreInvisible(arms, target, labels, placeholder);
    OtherSessionsAreInvisible(arms', target, labels, placeholder);
  }

  // ------------------------------------------------------------ active tools

  // The tool most recently started under `callId` and not yet finished.
  function RunningTool(arms: seq<Arm>, target: SessionId, callId: string): Option<string> {
    if arms == [] then None
    else
      var before := RunningTool(arms[..|arms| - 1], target, callId);
      match arms[|arms| - 1]
      case Recv(ToolCallStart(sid, toolName, id)) => if sid == target && id == callId then Some(toolName) else before
      case Recv(ToolCallResult(sid, id, _)) => if sid == target && id == callId then None else before
      case Recv(ToolCallFailed(sid, _, id, _)) => if sid == target && id == callId then None else before
      case _ => before
  }

  lemma StepTools(s: Stream, target: SessionId, labels: Labels, arm: Arm)
    requires !s.stopped
    ensures Step(s, target, labels, arm).activeTools ==
              match arm
              case Recv(ToolCallStart(sid, toolName, id)) =>
                if sid == target then s.activeTools[id := toolName] else s.activeTools
              case Recv(ToolCallResult(sid, id, _)) => if sid == target then s.activeTools - {id} else s.activeTools
              case Recv(ToolCallFailed(sid, _, id, _)) => if sid == target then s.activeTools - {id} else s.activeTools
              case _ => s.activeTools
  {
  }

  // A tool's result is labelled with the name its call was started under.
  lemma {:induction false} ToolNamesAreRemembered(
    arms: seq<Arm>, target: SessionId, labels: Labels, placeholder: Option<string>, callId: string)
    requires Open(arms, target)
    ensures var tools := Run(arms, target, labels, placeholder).activeTools;
            RunningTool(arms, target, callId) == if callId in tools then Some(tools[callId]) else None
  {
    hide Step, Open, Ends;
    if arms != [] {
      var n := |arms| - 1;
      OpenPrefix(arms, n, target);
      ToolNamesAreRemembered(arms[..n], target, labels, placeholder, callId);
      StopsIff(arms[..n], target, labels, placeholder);
      StepTools(Run(arms[..n], target, labels, placeholder), target, labels, arms[n]);
    }
  }

  // --------------------------------------------------------- the whole trace

  // The label the last arm asks for.
  function WantedLabel(arms: seq<Arm>, target: SessionId, labels: Labels): Option<string>
    requires arms != []
  {
    match arms[|arms| - 1]
    case Recv(ToolCallStart(sid, toolName, _)) => if sid == target then labels.onStart(toolName) else None
    case Recv(ToolCallResult(sid, id, _)) =>
      if sid == target then labels.onResult(RunningTool(arms[..|arms| - 1], target, id)) else None
    case Recv(ToolCallFailed(sid, toolName, _, _)) => if sid == target then labels.onFailure(toolName) else None
    case _ => None
  }

  predicate Cuts(arms: seq<Arm>, target: SessionId)
    requires arms != []
  {
    && arms[|arms| - 1].Recv?
    && arms[|arms| - 1].event.ToolCallStart?
    && arms[|arms| - 1].event.sessionId == target
    && OpenBlock(arms[..|arms| - 1], target) != ""
  }

  function Holder(calls: seq<SinkCall>, initial: Option<string>): Option<string> {
    if HasSegment(calls) then None else initial
  }

  // What the last arm adds to the calls made before it: a preview at a tick; a segment at a
  // tool start; and a label whenever the one asked for is not on show.
  function Added(
    calls: seq<SinkCall>, arms: seq<Arm>, target: SessionId, labels: Labels, initial: Option<string>): seq<SinkCall>
    requires arms != []
  {
    var block := OpenBlock(arms[..|arms| - 1], target);
    if arms[|arms| - 1].Tick? then
      if block != "" then [Delta(block, Holder(calls, initial))] else []
    else
      var cut := if Cuts(arms, target) then [Segment(block)] else [];
      cut + LabelCall(calls + cut, WantedLabel(arms, target, labels), initial)
  }

  function LabelCall(calls: seq<SinkCall>, wanted: Option<string>, initial: Option<string>): seq<SinkCall> {
    if wanted.Some? && CurrentLabel(calls) != wanted then [Progress(wanted.value, Holder(calls, initial))] else []
  }

  // The whole trace of an open stream is determined by the arms: each adds exactly the calls
  // it asks for.
  lemma {:induction false} TraceIsWhatTheArmsAskFor(
    arms: seq<Arm>, target: SessionId, labels: Labels, initial: Option<string>)
    requires arms != [] && Open(arms, target)
    ensures var before := Run(arms[..|arms| - 1], target, labels, initial).calls;
            Run(arms, target, labels, initial).calls == before + Added(before, arms, target, labels, initial)
  {
    var n := |arms| - 1;
    OpenPrefix(arms, n, target);
    assert !Ends(arms, n, target);
    WhileOpen(arms[..n], target, labels, initial);
    RunIsWellShaped(arms[..n], target, labels, initial);
    if arms[n].Recv? && arms[n].event.ToolCallResult? {
      ToolNamesAreRemembered(arms[..n], target, labels, initial, arms[n].event.callId);
    }
    StepAdds(Run(arms[..n], target, labels, initial), arms, target, labels, initial);
  }

  lemma StepAdds(s: Stream, arms: seq<Arm>, target: SessionId, labels: Labels, initial: Option<string>)
    requires arms != [] && !Ends(arms, |arms| - 1, target) && !s.stopped
    requires s.accumulated == OpenBlock(arms[..|arms| - 1], target)
    requires s.placeholder == Holder(s.calls, initial) && s.lastProgress == CurrentLabel(s.calls)
    requires var arm := arms[|arms| - 1];
             arm.Recv? && arm.event.ToolCallResult? ==>
               var id := arm.event.callId;
               RunningTool(arms[..|arms| - 1], target, id) ==
                   if id in s.activeTools then Some(s.activeTools[id]) else None
    ensures Step(s, target, labels, arms[|arms| - 1]).calls == s.calls + Added(s.calls, arms, target, labels, initial)
  {
    hide RunningTool, OpenBlock, Holder, CurrentLabel, Announce, LabelCall, Flush;
    match arms[|arms| - 1]
    case Recv(ToolCallStart(sid, toolName, callId)) =>
      StartAdds(s, toolName, callId, labels, initial);
      NothingAdded(s.calls, initial);
    case Recv(ToolCallResult(_, callId, _)) =>
      var toolName := if callId in s.activeTools then Some(s.activeTools[callId]) else None;
      LabelAdds(s, s.activeTools - {callId}, labels.onResult(toolName), initial);
      NothingAdded(s.calls, initial);
    case Recv(ToolCallFailed(_, toolName, callId, _)) =>
      LabelAdds(s, s.activeTools - {callId}, labels.onFailure(toolName), initial);
      NothingAdded(s.calls, initial);
    case _ =>
      NothingAdded(s.calls, initial);
  }

  lemma NothingAdded(calls: seq<SinkCall>, initial: Option<string>)
    ensures calls + ([] + LabelCall(calls + [], None, initial)) == calls
  {
  }

  lemma StartAdds(s: Stream, toolName: string, callId: string, labels: Labels, initial: Option<string>)
    requires s.placeholder == Holder(s.calls, initial) && s.lastProgress == CurrentLabel(s.calls)
    ensures var f, wanted := Flush(s), labels.onStart(toolName);
            var cut := if s.accumulated != "" then [Segment(s.accumulated)] else [];
            Announce(f.(activeTools := f.activeTools[callId := toolName]), wanted).calls ==
              s.calls + (cut + LabelCall(s.calls + cut, wanted, initial))
  {
    SegmentResets(s.calls, s.accumulated);
    hide HasSegment, CurrentLabel;
    assert s.calls + [] == s.calls;
    var f := Flush(s);
    assert Announce(f.(activeTools := f.activeTools[callId := toolName]), labels.onStart(toolName)).calls ==
           f.calls + LabelCall(f.calls, labels.onStart(toolName), initial);
  }

  lemma LabelAdds(s: Stream, tools: map<string, string>, wanted: Option<string>, initial: Option<string>)
    requires s.placeholder == Holder(s.calls, initial) && s.lastProgress == CurrentLabel(s.calls)
    ensures Announce(s.(activeTools := tools), wanted).calls ==
        s.calls + ([] + LabelCall(s.calls + [], wanted, initial))
  {
    hide Holder, CurrentLabel;
    assert s.calls + [] == s.calls;
  }

  lemma SegmentResets(calls: seq<SinkCall>, text: string)
    ensures HasSegment(calls + [Segment(text)]) && CurrentLabel(calls + [Segment(text)]) == None
  {
    assert (calls + [Segment(text)])[|calls|].Segment?;
  }
}
