/** The events a turn puts on the broadcast bus. */
module AgentEvents {
  import opened Prelude

  // A session's UUID; only equality matters.
  type SessionId = nat

  datatype AgentEvent =
    | TextDelta(sessionId: SessionId, delta: string)
    | ApprovalRequest(sessionId: SessionId, approvalId: string)
    | ToolCallStart(sessionId: SessionId, toolName: string, callId: string)
    | ToolCallResult(sessionId: SessionId, callId: string, output: string)
    | ToolCallFailed(sessionId: SessionId, toolName: string, callId: string, error: string)
    | Thinking(sessionId: SessionId)
    | TurnComplete(sessionId: SessionId, fullText: string, sender: Option<string>)
    | Error(sessionId: SessionId, message: string)

  // What makes a stream for `target` stop.
  predicate Terminal(target: SessionId, e: AgentEvent) {
    e.sessionId == target && (e.TurnComplete? || e.Error?)
  }
}

/** `throttled_stream`: turning one session's events into messages on a channel. */
module StreamDelivery {
  import opened Prelude
  import opened AgentEvents

  datatype StreamControl = Stop | Final(text: string)

  // How the control receiver resolves.
  datatype Signal = Sent(control: StreamControl) | Dropped

  // One resolved arm of the `select!`: the control channel, the bus, or the timer.
  datatype Arm = Control(signal: Signal) | Recv(event: AgentEvent) | RecvErr | Tick

  datatype SinkCall =
    | Delta(text: string, placeholder: Option<string>)
    | Progress(caption: string, placeholder: Option<string>)
    | Segment(text: string)
    | SendFinal(text: string, placeholder: Option<string>)

  // The channel's choice of compact labels for tool activity.
  datatype Labels = Labels(
    onStart: string -> Option<string>,
    onResult: Option<string> -> Option<string>,
    onFailure: string -> Option<string>)

  datatype Stream = Stream(
    accumulated: string,
    placeholder: Option<string>,
    activeTools: map<string, string>,
    lastProgress: Option<string>,
    flushed: bool,
    pendingFinal: Option<string>,
    stopped: bool,
    calls: seq<SinkCall>)

  const ERROR_PREFIX := "❌ 错误: "

  function Start(placeholder: Option<string>): Stream {
    Stream("", placeholder, map[], None, false, None, false, [])
  }

  function Call(s: Stream, c: SinkCall): Stream {
    s.(calls := s.calls + [c])
  }

  function Announce(s: Stream, progress: Option<string>): Stream {
    if progress.Some? && s.lastProgress != progress then
      Call(s, Progress(progress.value, s.placeholder)).(lastProgress := progress)
    else s
  }

  function Flush(s: Stream): Stream {
    if s.accumulated == "" then s
    else
      Call(s, Segment(s.accumulated)).(
        accumulated := "", placeholder := None, lastProgress := None, flushed := true)
  }

  function OnEvent(s: Stream, target: SessionId, labels: Labels, e: AgentEvent): Stream {
    if e.sessionId != target then s
    else
      match e
      case TextDelta(_, delta) => s.(accumulated := s.accumulated + delta)
      case ToolCallStart(_, toolName, callId) =>
        var f := Flush(s);
        Announce(f.(activeTools := f.activeTools[callId := toolName]), labels.onStart(toolName))
      case ToolCallResult(_, callId, _) =>
        var toolName := if callId in s.activeTools then Some(s.activeTools[callId]) else None;
        Announce(s.(activeTools := s.activeTools - {callId}), labels.onResult(toolName))
      case ToolCallFailed(_, toolName, callId, _) =>
        Announce(s.(activeTools := s.activeTools - {callId}), labels.onFailure(toolName))
      case TurnComplete(_, fullText, _) =>
        var t :=
          if !s.flushed then Call(s, SendFinal(fullText, s.placeholder))
          else if s.accumulated != "" then Call(s, SendFinal(s.accumulated, s.placeholder))
          else s;
        t.(stopped := true)
      case Error(_, message) =>
        Call(s, SendFinal(ERROR_PREFIX + message, s.placeholder)).(stopped := true)
      case ApprovalRequest(_, _) => s
      case Thinking(_) => s
  }

  function Step(s: Stream, target: SessionId, labels: Labels, arm: Arm): Stream {
    if s.stopped then s
    else
      match arm
      case Control(signal) =>
        if s.pendingFinal.Some? then s // the arm's guard disables it
        else if signal.Sent? && signal.control.Final? then s.(pendingFinal := Some(signal.control.text))
        else s.(stopped := true)
      case Recv(event) => OnEvent(s, target, labels, event)
      case RecvErr =>
        if s.pendingFinal.Some? then
          Call(s, SendFinal(s.pendingFinal.value, s.placeholder)).(pendingFinal := None, stopped := true)
        else s.(stopped := true)
      case Tick =>
        if s.accumulated != "" then Call(s, Delta(s.accumulated, s.placeholder)) else s
  }

  function Run(arms: seq<Arm>, target: SessionId, labels: Labels, placeholder: Option<string>): Stream {
    if arms == [] then Start(placeholder)
    else Step(Run(arms[..|arms| - 1], target, labels, placeholder), target, labels, arms[|arms| - 1])
  }

  // ------------------------------------------------------------- the loop

  class Sink {
    const labels: Labels
    var calls: seq<SinkCall>

    constructor (labels: Labels)
      ensures this.labels == labels && calls == []
    {
      this.labels := labels;
      calls := [];
    }

    method Record(c: SinkCall)
      modifies this
      ensures calls == old(calls) + [c]
    {
      calls := calls + [c];
    }
  }

  // The loop's variables, and one method for each arm of its `select!`.
  class StreamLoop {
    const target: SessionId
    const sink: Sink
    var accumulated: string
    var currentPlaceholder: Option<string>
    var activeTools: map<string, string>
    var lastProgress: Option<string>
    var hasFlushedSegment: bool
    var pendingControlFinal: Option<string>
    var stopped: bool
    ghost const base: seq<SinkCall>  // the sink's calls before the loop
    ghost var made: seq<SinkCall>    // and since

    ghost function View(): Stream
      reads this
    {
      Stream(accumulated, currentPlaceholder, activeTools, lastProgress,
             hasFlushedSegment, pendingControlFinal, stopped, made)
    }

    ghost predicate Valid()
      reads this, sink
    {
      sink.calls == base + made
    }

    constructor (target: SessionId, sink: Sink, placeholderId: Option<string>)
      ensures Valid() && View() == Start(placeholderId)
      ensures this.target == target && this.sink == sink && base == sink.calls
    {
      this.target, this.sink := target, sink;
      accumulated, currentPlaceholder, activeTools := "", placeholderId, map[];
      lastProgress, hasFlushedSegment, pendingControlFinal, stopped := None, false, None, false;
      base, made := sink.calls, [];
    }

    method Send(c: SinkCall)
      requires Valid()
      modifies this`made, sink
      ensures Valid() && View() == Call(old(View()), c)
    {
      sink.Record(c);
      made := made + [c];
    }

    method FlushSegment()
      requires Valid()
      modifies this, sink
      ensures Valid() && View() == Flush(old(View()))
    {
      if accumulated != "" {
        Send(Segment(accumulated));
        accumulated := "";
        currentPlaceholder := None;
        lastProgress := None;
        hasFlushedSegment := true;
      }
    }

    method ShowProgress(progress: Option<string>)
      requires Valid()
      modifies this, sink
      ensures Valid() && View() == Announce(old(View()), progress)
    {
      if progress.Some? && lastProgress != progress {
        Send(Progress(progress.value, currentPlaceholder));
        lastProgress := progress;
      }
    }

    method OnControl(signal: Signal)
      requires Valid() && !stopped
      modifies this
      ensures Valid() && View() == Step(old(View()), target, sink.labels, Control(signal))
    {
      if pendingControlFinal.None? {
        match signal {
          case Sent(Final(text)) => pendingControlFinal := Some(text);
          case Sent(Stop) => stopped := true;
          case Dropped => stopped := true;
        }
      }
    }

    method OnRecvErr()
      requires Valid() && !stopped
      modifies this, sink
      ensures Valid() && View() == Step(old(View()), target, sink.labels, RecvErr)
    {
      if pendingControlFinal.Some? {
        Send(SendFinal(pendingControlFinal.value, currentPlaceholder));
        pendingControlFinal := None;
      }
      stopped := true;
    }

    method OnTick()
      requires Valid() && !stopped
      modifies this, sink
      ensures Valid() && View() == Step(old(View()), target, sink.labels, Tick)
    {
      if accumulated != "" {
        Send(Delta(accumulated, currentPlaceholder));
      }
    }

    method OnTool(event: AgentEvent)
      requires Valid() && !stopped && event.sessionId == target
      requires event.ToolCallStart? || event.ToolCallResult? || event.ToolCallFailed?
      modifies this, sink
      ensures Valid() && View() == Step(old(View()), target, sink.labels, Recv(event))
    {
      match event {
        case ToolCallStart(_, toolName, callId) =>
          FlushSegment();
          activeTools := activeTools[callId := toolName];
          ShowProgress(sink.labels.onStart(toolName));
        case ToolCallResult(_, callId, _) =>
          var toolName := if callId in activeTools then Some(activeTools[callId]) else None;
          activeTools := activeTools - {callId};
          ShowProgress(sink.labels.onResult(toolName));
        case ToolCallFailed(_, toolName, callId, _) =>
          activeTools := activeTools - {callId};
          ShowProgress(sink.labels.onFailure(toolName));
      }
    }

    method OnRecv(event: AgentEvent)
      requires Valid() && !stopped
      modifies this, sink
      ensures Valid() && View() == Step(old(View()), target, sink.labels, Recv(event))
    {
      if event.sessionId != target {
        return;
      }
      match event {
        case TextDelta(_, delta) =>
          accumulated := accumulated + delta;
        case TurnComplete(_, fullText, _) =>
          if hasFlushedSegment {
            if accumulated != "" {
              Send(SendFinal(accumulated, currentPlaceholder));
            }
          } else {
            Send(SendFinal(fullText, currentPlaceholder));
          }
          stopped := true;
        case Error(_, message) =>
          Send(SendFinal(ERROR_PREFIX + message, currentPlaceholder));
          stopped := true;
        case ApprovalRequest(_, _) =>
        case Thinking(_) =>
        case _ =>
          OnTool(event);
      }
    }
  }

  // The loop of `throttled_stream`, one resolved arm an iteration.  It ends by breaking
  // (`stopped`) or by running out of arms; `pending` is text not yet sent as a message.
  method ThrottledStream(arms: seq<Arm>, target: SessionId, sink: Sink, placeholderId: Option<string>)
    returns (stopped: bool, pending: string)
    modifies sink
    ensures var end := Run(arms, target, sink.labels, placeholderId);
            && sink.calls == old(sink.calls) + end.calls
            && stopped == end.stopped
            && pending == end.accumulated
  {
    hide Step;
    var state := new StreamLoop(target, sink, placeholderId);
    var i := 0;
    while i < |arms| && !state.stopped
      invariant 0 <= i <= |arms| && fresh(state)
      invariant state.target == target && state.sink == sink && state.base == old(sink.calls)
      invariant state.Valid() && state.View() == Run(arms[..i], target, sink.labels, placeholderId)
    {
      match arms[i] {
        case Control(signal) => state.OnControl(signal);
        case Recv(event) => state.OnRecv(event);
        case RecvErr => state.OnRecvErr();
        case Tick => state.OnTick();
      }
      i := i + 1;
      assert arms[..i][..i - 1] == arms[..i - 1];
    }
    StoppedForever(arms, i, target, sink.labels, placeholderId);
    assert arms[..|arms|] == arms;
    stopped, pending := state.stopped, state.accumulated;
  }

  // Nothing after the stopping arm has any effect.
  lemma {:induction false} StoppedForever(
    arms: seq<Arm>, i: nat, target: SessionId, labels: Labels, placeholder: Option<string>)
    requires i <= |arms|
    ensures Run(arms[..i], target, labels, placeholder).stopped ==>
              Run(arms, target, labels, placeholder) == Run(arms[..i], target, labels, placeholder)
  {
    if i == |arms| {
      assert arms[..i] == arms;
    } else {
      var shorter := arms[..|arms| - 1];
      assert shorter[..i] == arms[..i];
      StoppedForever(shorter, i, target, labels, placeholder);
    }
  }

  // ---------------------------------------------------- what is delivered

  // Which of the stream's calls are messages of their own, and in which role.
  datatype Message = SegmentMessage(text: string) | FinalMessage(text: string)

  function AsMessages(c: SinkCall): seq<Message> {
    match c
    case Segment(text) => [SegmentMessage(text)]
    case SendFinal(text, _) => [FinalMessage(text)]
    case Delta(_, _) => []
    case Progress(_, _) => []
  }

  function Messages(calls: seq<SinkCall>): seq<Message> {
    if calls == [] then [] else Messages(calls[..|calls| - 1]) + AsMessages(calls[|calls| - 1])
  }

  lemma MessagesCall(s: Stream, c: SinkCall)
    ensures Messages(Call(s, c).calls) == Messages(s.calls) + AsMessages(c)
  {
    assert (s.calls + [c])[..|s.calls|] == s.calls;
  }

  // Progress labels are not messages and touch nothing but the last label.
  lemma AnnounceMessages(s: Stream, progress: Option<string>)
    ensures var t := Announce(s, progress);
            Messages(t.calls) == Messages(s.calls) && t == s.(calls := t.calls, lastProgress := t.lastProgress)
  {
    if progress.Some? {
      MessagesCall(s, Progress(progress.value, s.placeholder));
    }
  }

  function Texts(ms: seq<Message>): string {
    if ms == [] then "" else Texts(ms[..|ms| - 1]) + ms[|ms| - 1].text
  }

  // The session's text, read straight off the arms.
  function DeltaText(arms: seq<Arm>, target: SessionId): string {
    if arms == [] then ""
    else
      var before := DeltaText(arms[..|arms| - 1], target);
      match arms[|arms| - 1]
      case Recv(TextDelta(sid, delta)) => if sid == target then before + delta else before
      case _ => before
  }

  // The session's text since its last tool call, and the nonempty stretches before it:
  // the text cut at every tool start.
  function OpenBlock(arms: seq<Arm>, target: SessionId): string {
    if arms == [] then ""
    else
      var before := OpenBlock(arms[..|arms| - 1], target);
      match arms[|arms| - 1]
      case Recv(TextDelta(sid, delta)) => if sid == target then before + delta else before
      case Recv(ToolCallStart(sid, _, _)) => if sid == target then "" else before
      case _ => before
  }

  function ClosedBlocks(arms: seq<Arm>, target: SessionId): seq<Message> {
    if arms == [] then []
    else
      var prefix := arms[..|arms| - 1];
      var before := ClosedBlocks(prefix, target);
      match arms[|arms| - 1]
      case Recv(ToolCallStart(sid, _, _)) =>
        if sid == target && OpenBlock(prefix, target) != "" then
          before + [SegmentMessage(OpenBlock(prefix, target))]
        else before
      case _ => before
  }

  // The caller's queued final reply, if one has arrived.
  function QueuedFinal(arms: seq<Arm>): Option<string> {
    if arms == [] then None
    else
      var before := QueuedFinal(arms[..|arms| - 1]);
      match arms[|arms| - 1]
      case Control(Sent(Final(text))) => if before.None? then Some(text) else before
      case _ => before
  }

  // Whether the arm at `i` ends the stream, judged from the arms alone.
  predicate Ends(arms: seq<Arm>, i: nat, target: SessionId)
    requires i < |arms|
  {
    match arms[i]
    case Control(Sent(Final(_))) => false
    case Control(_) => QueuedFinal(arms[..i]).None?
    case Recv(event) => Terminal(target, event)
    case RecvErr => true
    case Tick => false
  }

  predicate Open(arms: seq<Arm>, target: SessionId) {
    forall i: nat :: i < |arms| ==> !Ends(arms, i, target)
  }

  // Everything up to the arm at `i`, when that is the first to end the stream.
  predicate EndsFirst(arms: seq<Arm>, i: nat, target: SessionId) {
    i < |arms| && Open(arms[..i], target) && Ends(arms, i, target)
  }

  // The messages owed when the stream ends at arm `end` having consumed `before`.
  function Owed(before: seq<Arm>, end: Arm, target: SessionId): seq<Message> {
    var closed := ClosedBlocks(before, target);
    var tail := OpenBlock(before, target);
    match end
    case Recv(TurnComplete(_, fullText, _)) =>
      if closed == [] then [FinalMessage(fullText)]
      else if tail != "" then closed + [FinalMessage(tail)]
      else closed
    case Recv(Error(_, message)) => closed + [FinalMessage(ERROR_PREFIX + message)]
    case RecvErr =>
      if QueuedFinal(before).Some? then closed + [FinalMessage(QueuedFinal(before).value)] else closed
    case _ => closed
  }

  lemma OpenPrefix(arms: seq<Arm>, i: nat, target: SessionId)
    requires i <= |arms| && Open(arms, target)
    ensures Open(arms[..i], target)
  {
    forall j: nat | j < i ensures !Ends(arms[..i], j, target) {
      assert arms[..i][..j] == arms[..j];
      assert !Ends(arms, j, target);
    }
  }

  lemma OpenNext(arms: seq<Arm>, target: SessionId)
    requires arms != []
    ensures Open(arms, target) <==> Open(arms[..|arms| - 1], target) && !Ends(arms, |arms| - 1, target)
  {
    var n := |arms| - 1;
    forall i: nat | i < n ensures Ends(arms, i, target) == Ends(arms[..n], i, target) {
      assert arms[..n][..i] == arms[..i];
    }
  }

  // What the arms say about an open stream's state.
  predicate Agrees(s: Stream, arms: seq<Arm>, target: SessionId) {
    && !s.stopped
    && s.accumulated == OpenBlock(arms, target)
    && Messages(s.calls) == ClosedBlocks(arms, target)
    && s.flushed == (ClosedBlocks(arms, target) != [])
    && s.pendingFinal == QueuedFinal(arms)
  }

  lemma StepAgrees(s: Stream, arms: seq<Arm>, target: SessionId, labels: Labels)
    requires arms != []
    requires Agrees(s, arms[..|arms| - 1], target) && !Ends(arms, |arms| - 1, target)
    ensures Agrees(Step(s, target, labels, arms[|arms| - 1]), arms, target)
  {
    hide Messages;
    match arms[|arms| - 1]
    case Recv(ToolCallStart(_, toolName, callId)) =>
      var f := Flush(s);
      MessagesCall(s, Segment(s.accumulated));
      AnnounceMessages(f.(activeTools := f.activeTools[callId := toolName]), labels.onStart(toolName));
    case Recv(ToolCallResult(_, callId, _)) =>
      var toolName := if callId in s.activeTools then Some(s.activeTools[callId]) else None;
      AnnounceMessages(s.(activeTools := s.activeTools - {callId}), labels.onResult(toolName));
    case Recv(ToolCallFailed(_, toolName, callId, _)) =>
      AnnounceMessages(s.(activeTools := s.activeTools - {callId}), labels.onFailure(toolName));
    case Tick =>
      MessagesCall(s, Delta(s.accumulated, s.placeholder));
    case _ =>
  }

  // While nothing has ended the stream, its state is what the arms say it is.
  lemma {:induction false} WhileOpen(
    arms: seq<Arm>, target: SessionId, labels: Labels, placeholder: Option<string>)
    requires Open(arms, target)
    ensures Agrees(Run(arms, target, labels, placeholder), arms, target)
  {
    if arms != [] {
      var n := |arms| - 1;
      OpenPrefix(arms, n, target);
      WhileOpen(arms[..n], target, labels, placeholder);
      assert !Ends(arms, n, target);
      StepAgrees(Run(arms[..n], target, labels, placeholder), arms, target, labels);
    }
  }

  // The ending arm pays what is owed.
  lemma LastStepPays(s: Stream, arms: seq<Arm>, target: SessionId, labels: Labels)
    requires arms != []
    requires Agrees(s, arms[..|arms| - 1], target) && Ends(arms, |arms| - 1, target)
    ensures var t := Step(s, target, labels, arms[|arms| - 1]);
            && t.stopped
            && t.accumulated == s.accumulated
            && Messages(t.calls) == Owed(arms[..|arms| - 1], arms[|arms| - 1], target)
  {
    hide Messages, OpenBlock, ClosedBlocks, QueuedFinal;
    match arms[|arms| - 1]
    case Recv(TurnComplete(_, fullText, _)) =>
      MessagesCall(s, SendFinal(if s.flushed then s.accumulated else fullText, s.placeholder));
    case Recv(Error(_, message)) =>
      MessagesCall(s, SendFinal(ERROR_PREFIX + message, s.placeholder));
    case RecvErr =>
      if s.pendingFinal.Some? {
        MessagesCall(s, SendFinal(s.pendingFinal.value, s.placeholder));
      }
    case _ =>
  }

  // The main delivery theorem: the messages sent are exactly those owed.
  lemma DeliversWhatIsOwed(
    arms: seq<Arm>, i: nat, target: SessionId, labels: Labels, placeholder: Option<string>)
    requires EndsFirst(arms, i, target)
    ensures var end := Run(arms, target, labels, placeholder);
            && end.stopped
            && Messages(end.calls) == Owed(arms[..i], arms[i], target)
            && end.accumulated == OpenBlock(arms[..i], target)
  {
    var upto := arms[..i + 1];
    assert upto[..i] == arms[..i] && upto[i] == arms[i];
    WhileOpen(arms[..i], target, labels, placeholder);
    LastStepPays(Run(arms[..i], target, labels, placeholder), upto, target, labels);
    StoppedForever(arms, i + 1, target, labels, placeholder);
  }

  // The stream stops exactly when some arm ends it.
  lemma {:induction false} StopsIff(
    arms: seq<Arm>, target: SessionId, labels: Labels, placeholder: Option<string>)
    ensures Run(arms, target, labels, placeholder).stopped <==> !Open(arms, target)
    ensures !Open(arms, target) ==> exists i: nat :: EndsFirst(arms, i, target)
  {
    if Open(arms, target) {
      WhileOpen(arms, target, labels, placeholder);
    } else {
      var i := FirstEnd(arms, target);
      DeliversWhatIsOwed(arms, i, target, labels, placeholder);
    }
  }

  lemma {:induction false} FirstEnd(arms: seq<Arm>, target: SessionId) returns (i: nat)
    requires !Open(arms, target)
    ensures EndsFirst(arms, i, target)
  {
    i := |arms| - 1;
    if !Open(arms[..i], target) {
      i := FirstEnd(arms[..i], target);
      assert arms[..|arms| - 1][..i] == arms[..i];
    } else {
      forall j: nat | j < i ensures Ends(arms, j, target) == Ends(arms[..i], j, target) {
        assert arms[..i][..j] == arms[..j];
      }
    }
  }

  // No text is lost or repeated: closed blocks and the open one are the session's text.
  lemma {:induction false} BlocksAreTheText(arms: seq<Arm>, target: SessionId)
    ensures Texts(ClosedBlocks(arms, target)) + OpenBlock(arms, target) == DeltaText(arms, target)
  {
    if arms != [] {
      var prefix := arms[..|arms| - 1];
      BlocksAreTheText(prefix, target);
      var closed := ClosedBlocks(prefix, target);
      assert (closed + [SegmentMessage(OpenBlock(prefix, target))])[..|closed|] == closed;
    }
  }

  // A turn that completes after a segment delivers its text exactly once; without one,
  // the backend's full text is the only message.
  lemma CompletedTurnConservesText(
    arms: seq<Arm>, i: nat, target: SessionId, labels: Labels, placeholder: Option<string>)
    requires EndsFirst(arms, i, target) && arms[i].Recv? && arms[i].event.TurnComplete?
    ensures var sent := Messages(Run(arms, target, labels, placeholder).calls);
            if ClosedBlocks(arms[..i], target) == [] then sent == [FinalMessage(arms[i].event.fullText)]
            else Texts(sent) == DeltaText(arms[..i], target)
  {
    DeliversWhatIsOwed(arms, i, target, labels, placeholder);
    BlocksAreTheText(arms[..i], target);
    var closed := ClosedBlocks(arms[..i], target);
    assert forall m: Message :: (closed + [m])[..|closed|] == closed;
  }

  // At every moment of every run, segments and buffer together are the text consumed.
  lemma TextConserved(arms: seq<Arm>, target: SessionId, labels: Labels, placeholder: Option<string>)
    requires Open(arms, target)
    ensures var s := Run(arms, target, labels, placeholder);
            Texts(Messages(s.calls)) + s.accumulated == DeltaText(arms, target)
  {
    WhileOpen(arms, target, labels, placeholder);
    BlocksAreTheText(arms, target);
  }
}
