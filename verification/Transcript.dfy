/** Conversation history printed as lines, with old tool results pruned. */
module Transcript {
  import opened Prelude
  import opened Text

  datatype ToolCall = ToolCall(id: Option<string>, name: string, inputJson: string, output: Option<string>)

  datatype HistoryMessage = HistoryMessage(
    role: string, content: string, sender: Option<string>, toolCalls: seq<ToolCall>)

  datatype PruningMode = Off | RequestLocal

  datatype PruningPolicy = PruningPolicy(
    keepLastAssistants: nat, minPrunableChars: nat, headChars: nat, tailChars: nat)

  datatype Semantics = Semantics(pruning: PruningMode, policy: PruningPolicy)

  const DEFAULT_POLICY := PruningPolicy(3, 4000, 800, 800)

  predicate IsAssistant(role: string) {
    EqIgnoreAsciiCase(role, "assistant")
  }

  // -------------------------------------------------------------- soft trim

  function Take(s: string, n: nat): string {
    if n <= |s| then s[..n] else s
  }

  function Reversed(s: string): (r: string)
    ensures |r| == |s| && forall i :: 0 <= i < |s| ==> r[i] == s[|s| - 1 - i]
  {
    seq(|s|, i requires 0 <= i < |s| => s[|s| - 1 - i])
  }

  predicate TooShortToTrim(output: string, policy: PruningPolicy) {
    |output| < policy.minPrunableChars || |output| <= policy.headChars + policy.tailChars + 32
  }

  function SoftTrim(output: string, policy: PruningPolicy): string {
    if TooShortToTrim(output, policy) then output
    else
      var head := Take(output, policy.headChars);
      var tail := Reversed(Take(Reversed(output), policy.tailChars));
      var omitted := |output| - (policy.headChars + policy.tailChars);
      head + "\n...[tool result pruned; omitted " + Decimal(omitted) + " chars]...\n" + tail
  }

  lemma {:induction false} DecimalIsShort(n: nat)
    ensures n < 10 ==> |Decimal(n)| == 1
    ensures 10 <= n < 100 ==> |Decimal(n)| == 2
    ensures 10 <= n ==> |Decimal(n)| < n
    ensures 47 <= n ==> 44 + |Decimal(n)| < n
  {
    if 10 <= n {
      DecimalIsShort(n / 10);
    }
  }

  // A trimmed result keeps the exact ends of the output and reports exactly what it omits.
  lemma SoftTrimKeepsEnds(output: string, policy: PruningPolicy)
    requires |output| >= policy.minPrunableChars && |output| > policy.headChars + policy.tailChars + 32
    ensures var r := SoftTrim(output, policy);
            var omitted := |output| - policy.headChars - policy.tailChars;
            && r == output[..policy.headChars] + "\n...[tool result pruned; omitted " + Decimal(omitted)
                      + " chars]...\n" + output[|output| - policy.tailChars..]
            && DecimalValue(Decimal(omitted)) == omitted
            && |r| == policy.headChars + policy.tailChars + 44 + |Decimal(omitted)|
  {
    var omitted := |output| - (policy.headChars + policy.tailChars);
    DecimalRoundTrip(omitted);
    var tail := Reversed(Take(Reversed(output), policy.tailChars));
    assert tail == output[|output| - policy.tailChars..];
    assert |"\n...[tool result pruned; omitted "| == 33 && |" chars]...\n"| == 11;
  }

  // Trimming can lengthen a result: it shortens one exactly when at least 47 characters go.
  lemma SoftTrimShortensIff(output: string, policy: PruningPolicy)
    ensures |SoftTrim(output, policy)| < |output| <==>
              |output| >= policy.minPrunableChars && |output| - policy.headChars - policy.tailChars >= 47
    ensures |output| < policy.minPrunableChars || |output| <= policy.headChars + policy.tailChars + 32 ==>
              SoftTrim(output, policy) == output
  {
    if |output| >= policy.minPrunableChars && |output| > policy.headChars + policy.tailChars + 32 {
      SoftTrimKeepsEnds(output, policy);
      DecimalIsShort(|output| - policy.headChars - policy.tailChars);
    }
  }

  // By default, results from 4000 characters on are cut to 800 at each end.
  lemma DefaultPolicyShortens(output: string)
    ensures if |output| < 4000 then SoftTrim(output, DEFAULT_POLICY) == output
            else && |SoftTrim(output, DEFAULT_POLICY)| == 1644 + |Decimal(|output| - 1600)| < |output|
                 && output[..800] <= SoftTrim(output, DEFAULT_POLICY)
    ensures DEFAULT_POLICY.keepLastAssistants == 3
  {
    SoftTrimShortensIff(output, DEFAULT_POLICY);
    if |output| >= 4000 {
      SoftTrimKeepsEnds(output, DEFAULT_POLICY);
    }
  }

  // A 33-character surplus is trimmed into something longer than the original.
  lemma SoftTrimCanLengthen() returns (output: string, policy: PruningPolicy)
    ensures |SoftTrim(output, policy)| > |output|
  {
    output, policy := seq(33, _ => 'x'), PruningPolicy(0, 0, 0, 0);
    SoftTrimKeepsEnds(output, policy);
    DecimalIsShort(33);
  }

  // --------------------------------------------------------------- rendering

  function Display(m: HistoryMessage): string {
    if m.sender.Some? && m.sender.value != "" then "[" + m.sender.value + "]: " + m.content else m.content
  }

  function TextLine(m: HistoryMessage): string {
    "[" + m.role + "]: " + Display(m)
  }

  function CallSuffix(call: ToolCall): string {
    if call.id.Some? then "#" + call.id.value else ""
  }

  predicate HasOutput(call: ToolCall) {
    call.output.Some? && !Blank(call.output.value)
  }

  function ResultLine(call: ToolCall, shown: string): string {
    "[tool_result:" + (call.name + CallSuffix(call) + "]: " + shown)
  }

  function CallLine(call: ToolCall): string {
    "[tool_call:" + (call.name + CallSuffix(call) + "]: " + call.inputJson)
  }

  function ToolLines(call: ToolCall, prune: bool, policy: PruningPolicy): seq<string> {
    [CallLine(call)] +
    if HasOutput(call) then
      [ResultLine(call, if prune then SoftTrim(call.output.value, policy) else call.output.value)]
    else []
  }

  function AllToolLines(calls: seq<ToolCall>, prune: bool, policy: PruningPolicy): seq<string> {
    if calls == [] then []
    else AllToolLines(calls[..|calls| - 1], prune, policy) + ToolLines(calls[|calls| - 1], prune, policy)
  }

  // A blank message of anyone but the assistant is dropped, tool calls included.
  predicate Skipped(m: HistoryMessage) {
    Blank(m.content) && !IsAssistant(m.role)
  }

  function TextLines(m: HistoryMessage): seq<string> {
    if Skipped(m) || Blank(Display(m)) then [] else [TextLine(m)]
  }

  function MessageLines(m: HistoryMessage, prune: bool, policy: PruningPolicy): seq<string> {
    if Skipped(m) then [] else TextLines(m) + AllToolLines(m.toolCalls, prune, policy)
  }

  function Assistants(history: seq<HistoryMessage>): nat {
    if history == [] then 0
    else
      Assistants(history[..|history| - 1])
      + if EqIgnoreAsciiCase(history[|history| - 1].role, "assistant") then 1 else 0
  }

  // The rule for pruning, stated without counters: an assistant turn with at least
  // `keepLastAssistants` assistant turns after it.
  predicate Eligible(history: seq<HistoryMessage>, i: nat, semantics: Semantics)
    requires i < |history|
  {
    && semantics.pruning.RequestLocal?
    && EqIgnoreAsciiCase(history[i].role, "assistant")
    && Assistants(history[i + 1..]) >= semantics.policy.keepLastAssistants
  }

  function Rendered(history: seq<HistoryMessage>, semantics: Semantics, n: nat): seq<string>
    requires n <= |history|
  {
    if n == 0 then []
    else
      Rendered(history, semantics, n - 1) +
      MessageLines(history[n - 1], Eligible(history, n - 1, semantics), semantics.policy)
  }

  lemma {:induction false} AssistantsSplit(a: seq<HistoryMessage>, b: seq<HistoryMessage>)
    ensures Assistants(a + b) == Assistants(a) + Assistants(b)
  {
    if b == [] {
      assert a + b == a;
    } else {
      assert (a + b)[..|a + b| - 1] == a + b[..|b| - 1];
      AssistantsSplit(a, b[..|b| - 1]);
    }
  }

  // Counting seen turns against the cutoff is counting the turns still to come.
  lemma {:induction false} CutoffIsEligibility(history: seq<HistoryMessage>, i: nat, keep: nat)
    requires i < |history| && EqIgnoreAsciiCase(history[i].role, "assistant")
    ensures var count := Assistants(history);
            Assistants(history[..i]) < (if count >= keep then count - keep else 0) <==>
                Assistants(history[i + 1..]) >= keep
  {
    assert history == history[..i] + ([history[i]] + history[i + 1..]);
    AssistantsSplit(history[..i], [history[i]] + history[i + 1..]);
    AssistantsSplit([history[i]], history[i + 1..]);
    assert [history[i]][..0] == [];
  }

  method RenderToolCalls(calls: seq<ToolCall>, prune: bool, policy: PruningPolicy) returns (lines: seq<string>)
    ensures lines == AllToolLines(calls, prune, policy)
  {
    lines := [];
    for k := 0 to |calls|
      invariant lines == AllToolLines(calls[..k], prune, policy)
    {
      var call := calls[k];
      assert calls[..k + 1][..k] == calls[..k];
      var head := call.name + CallSuffix(call) + "]: ";
      lines := lines + ["[tool_call:" + (head + call.inputJson)];
      if call.output.Some? && !Blank(call.output.value) {
        var rendered := if prune then SoftTrim(call.output.value, policy) else call.output.value;
        lines := lines + ["[tool_result:" + (head + rendered)];
      }
    }
    assert calls[..|calls|] == calls;
  }

  method RenderMessage(m: HistoryMessage, prune: bool, policy: PruningPolicy) returns (lines: seq<string>)
    ensures lines == MessageLines(m, prune, policy)
  {
    lines := [];
    if Blank(m.content) && !IsAssistant(m.role) {
      return;
    }
    if !Blank(Display(m)) {
      lines := lines + [TextLine(m)];
    }
    var toolLines := RenderToolCalls(m.toolCalls, prune, policy);
    lines := lines + toolLines;
  }

  // The loop of `render_history_lines`: its running count against a cutoff prunes exactly
  // the eligible messages.
  method RenderHistoryLines(history: seq<HistoryMessage>, semantics: Semantics) returns (lines: seq<string>)
    ensures lines == Rendered(history, semantics, |history|)
  {
    hide MessageLines, EqIgnoreAsciiCase;
    lines := [];
    var assistantCount := Assistants(history);
    var keep := semantics.policy.keepLastAssistants;
    var cutoff := if assistantCount >= keep then assistantCount - keep else 0;
    var assistantSeen := 0;
    for i := 0 to |history|
      invariant assistantSeen == Assistants(history[..i])
      invariant lines == Rendered(history, semantics, i)
    {
      var assistant := IsAssistant(history[i].role);
      var prune := assistant && semantics.pruning.RequestLocal? && assistantSeen < cutoff;
      if assistant {
        CutoffIsEligibility(history, i, keep);
        assistantSeen := assistantSeen + 1;
      }
      AssistantsNext(history, i);
      assert prune == Eligible(history, i, semantics);
      var messageLines := RenderMessage(history[i], prune, semantics.policy);
      lines := lines + messageLines;
    }
  }

  lemma AssistantsNext(history: seq<HistoryMessage>, i: nat)
    requires i < |history|
    ensures Assistants(history[..i + 1]) ==
            Assistants(history[..i]) + if EqIgnoreAsciiCase(history[i].role, "assistant") then 1 else 0
  {
    assert history[..i + 1][..i] == history[..i];
  }

  // ------------------------------------------------- what pruning can change

  // What a printed line is: a message's own text, one of its tool calls, or that call's
  // result.
  datatype Place =
    | TextOf(message: nat)
    | CallOf(message: nat, call: nat)
    | ResultOf(message: nat, call: nat)

  predicate Shows(call: ToolCall) {
    call.output.Some? && !Blank(call.output.value)
  }

  predicate InHistory(history: seq<HistoryMessage>, p: Place) {
    && p.message < |history|
    && (!p.TextOf? ==> p.call < |history[p.message].toolCalls|)
    && (p.ResultOf? ==> Shows(history[p.message].toolCalls[p.call]))
  }

  // The line printed at a place, in full.
  function LineAt(history: seq<HistoryMessage>, semantics: Semantics, p: Place): string
    requires InHistory(history, p)
  {
    var m := history[p.message];
    match p
    case TextOf(_) =>
      "[" + m.role + "]: "
      + (if m.sender.Some? && m.sender.value != "" then "[" + m.sender.value + "]: " else "")
      + m.content
    case CallOf(_, k) =>
      var call := m.toolCalls[k];
      "[tool_call:" + call.name + (if call.id.Some? then "#" + call.id.value else "") + "]: " + call.inputJson
    case ResultOf(i, k) =>
      var call := m.toolCalls[k];
      "[tool_result:" + call.name + (if call.id.Some? then "#" + call.id.value else "") + "]: "
      + if Eligible(history, i, semantics) then SoftTrim(call.output.value, semantics.policy) else call.output.value
  }

  function CallPlaces(i: nat, calls: seq<ToolCall>): seq<Place> {
    if calls == [] then []
    else
      var k := |calls| - 1;
      CallPlaces(i, calls[..k]) + [CallOf(i, k)] + if Shows(calls[k]) then [ResultOf(i, k)] else []
  }

  // A blank message prints nothing, unless it is the assistant's, which still prints its tool
  // calls; a named sender is always printed.
  function MessagePlaces(i: nat, m: HistoryMessage): seq<Place> {
    if Blank(m.content) && !EqIgnoreAsciiCase(m.role, "assistant") then []
    else
      (if Blank(m.content) && (m.sender.None? || m.sender.value == "") then [] else [TextOf(i)])
      + CallPlaces(i, m.toolCalls)
  }

  // Where the lines of the first `n` messages stand, whatever the pruning.
  function Places(history: seq<HistoryMessage>, n: nat): seq<Place>
    requires n <= |history|
  {
    if n == 0 then [] else Places(history, n - 1) + MessagePlaces(n - 1, history[n - 1])
  }

  predicate PrintedAt(history: seq<HistoryMessage>, semantics: Semantics, lines: seq<string>, places: seq<Place>) {
    && |lines| == |places|
    && forall l :: 0 <= l < |lines| ==>
         InHistory(history, places[l]) && lines[l] == LineAt(history, semantics, places[l])
  }

  lemma PrintedAppend(
    history: seq<HistoryMessage>, semantics: Semantics, a: seq<string>, p: seq<Place>, b: seq<string>, q: seq<Place>)
    requires PrintedAt(history, semantics, a, p) && PrintedAt(history, semantics, b, q)
    ensures PrintedAt(history, semantics, a + b, p + q)
  {
    hide LineAt, InHistory;
  }

  lemma TextLineInFull(m: HistoryMessage)
    ensures TextLine(m) ==
            "[" + m.role + "]: "
            + (if m.sender.Some? && m.sender.value != "" then "[" + m.sender.value + "]: " else "")
            + m.content
    ensures Blank(Display(m)) <==> Blank(m.content) && (m.sender.None? || m.sender.value == "")
  {
    if m.sender.Some? && m.sender.value != "" {
      assert Display(m)[0] == '[';
      var head := "[" + m.role + "]: ";
      assert head + Display(m) == head + ("[" + m.sender.value + "]: ") + m.content;
    } else {
      assert "[" + m.role + "]: " + "" + m.content == "[" + m.role + "]: " + m.content;
    }
  }

  lemma ToolLinesInFull(call: ToolCall, shown: string)
    ensures CallLine(call) ==
            "[tool_call:" + call.name + (if call.id.Some? then "#" + call.id.value else "") + "]: " + call.inputJson
    ensures ResultLine(call, shown) ==
            "[tool_result:" + call.name + (if call.id.Some? then "#" + call.id.value else "") + "]: " + shown
  {
    Regroup("[tool_call:", call.name, CallSuffix(call), "]: ", call.inputJson);
    Regroup("[tool_result:", call.name, CallSuffix(call), "]: ", shown);
  }

  lemma Regroup(a: string, b: string, c: string, d: string, e: string)
    ensures a + (b + c + d + e) == a + b + c + d + e
  {
  }

  lemma {:induction false} CallsPrinted(history: seq<HistoryMessage>, semantics: Semantics, i: nat, n: nat)
    requires i < |history| && n <= |history[i].toolCalls|
    ensures var calls := history[i].toolCalls[..n];
            PrintedAt(history, semantics,
              AllToolLines(calls, Eligible(history, i, semantics), semantics.policy), CallPlaces(i, calls))
  {
    if n > 0 {
      hide Eligible, SoftTrim, Shows, PrintedAt;
      var calls, call := history[i].toolCalls[..n], history[i].toolCalls[n - 1];
      var prune := Eligible(history, i, semantics);
      assert calls[..n - 1] == history[i].toolCalls[..n - 1];
      CallsPrinted(history, semantics, i, n - 1);
      CallPrinted(history, semantics, i, n - 1);
      var places := [CallOf(i, n - 1)] + if Shows(call) then [ResultOf(i, n - 1)] else [];
      PrintedAppend(history, semantics,
                    AllToolLines(calls[..n - 1], prune, semantics.policy), CallPlaces(i, calls[..n - 1]),
                    ToolLines(call, prune, semantics.policy), places);
      assert CallPlaces(i, calls) == CallPlaces(i, calls[..n - 1]) + places;
    }
  }

  lemma CallPrinted(history: seq<HistoryMessage>, semantics: Semantics, i: nat, k: nat)
    requires i < |history| && k < |history[i].toolCalls|
    ensures var call := history[i].toolCalls[k];
            PrintedAt(history, semantics, ToolLines(call, Eligible(history, i, semantics), semantics.policy),
                      [CallOf(i, k)] + if Shows(call) then [ResultOf(i, k)] else [])
  {
    hide Eligible, SoftTrim, CallLine, ResultLine;
    var call := history[i].toolCalls[k];
    ToolLinesInFull(call, "");
    if Shows(call) {
      var output := call.output.value;
      ToolLinesInFull(call, if Eligible(history, i, semantics) then SoftTrim(output, semantics.policy) else output);
    }
  }

  // Every printed line is the line of its place; only the places of results look at the
  // pruning.
  lemma {:induction false} RenderedByPlace(history: seq<HistoryMessage>, semantics: Semantics, n: nat)
    requires n <= |history|
    ensures PrintedAt(history, semantics, Rendered(history, semantics, n), Places(history, n))
  {
    hide Eligible, MessageLines, MessagePlaces, PrintedAt;
    if n == 0 {
      NothingPrinted(history, semantics);
    } else {
      RenderedByPlace(history, semantics, n - 1);
      MessagePrinted(history, semantics, n - 1);
      PrintedAppend(history, semantics, Rendered(history, semantics, n - 1), Places(history, n - 1),
                    MessageLines(history[n - 1], Eligible(history, n - 1, semantics), semantics.policy),
                    MessagePlaces(n - 1, history[n - 1]));
    }
  }

  lemma NothingPrinted(history: seq<HistoryMessage>, semantics: Semantics)
    ensures PrintedAt(history, semantics, [], [])
  {
  }

  lemma MessagePrinted(history: seq<HistoryMessage>, semantics: Semantics, i: nat)
    requires i < |history|
    ensures PrintedAt(history, semantics, MessageLines(history[i], Eligible(history, i, semantics), semantics.policy),
                      MessagePlaces(i, history[i]))
  {
    var m := history[i];
    assert m.toolCalls[..|m.toolCalls|] == m.toolCalls;
    CallsPrinted(history, semantics, i, |m.toolCalls|);
    TextLineInFull(m);
    hide Display, TextLine, CallPlaces, AllToolLines, Eligible;
    if !(Blank(m.content) && !EqIgnoreAsciiCase(m.role, "assistant")) {
      var texts: seq<Place> := if Blank(m.content) && (m.sender.None? || m.sender.value == "") then [] else [TextOf(i)];
      assert PrintedAt(history, semantics, TextLines(m), texts);
      PrintedAppend(history, semantics, TextLines(m), texts,
                    AllToolLines(m.toolCalls, Eligible(history, i, semantics), semantics.policy),
                    CallPlaces(i, m.toolCalls));
    }
  }

  // Pruning neither adds, drops nor moves a line, and a line it changes is the result of a
  // tool call of an eligible message, trimmed.
  lemma PruningChangesOnlyResults(history: seq<HistoryMessage>, semantics: Semantics, n: nat)
    requires n <= |history|
    ensures var on, off := Rendered(history, semantics, n), Rendered(history, semantics.(pruning := Off), n);
            var places := Places(history, n);
            && |on| == |off| == |places|
            && forall l :: 0 <= l < |places| && on[l] != off[l] ==>
                 && places[l].ResultOf? && InHistory(history, places[l])
                 && Eligible(history, places[l].message, semantics)
                 && var call := history[places[l].message].toolCalls[places[l].call];
                    var suffix := if call.id.Some? then "#" + call.id.value else "";
                    var head := "[tool_result:" + call.name + suffix + "]: ";
                    && on[l] == head + SoftTrim(call.output.value, semantics.policy)
                    && off[l] == head + call.output.value
  {
    var off := semantics.(pruning := Off);
    RenderedByPlace(history, semantics, n);
    RenderedByPlace(history, off, n);
    hide Rendered, Places, SoftTrim, Assistants;
  }
}

/** The Rust-native agent's two ways to read a conversation: structured, or from lines. */
module LegacyHistory {
  import opened Prelude
  import opened Text
  import opened Transcript

  datatype Role = User | Assistant

  // Tool arguments stay JSON text.
  datatype Message =
    | Said(role: Role, text: string)
    | ToolUse(id: string, explicitId: bool, name: string, arguments: string)
    | ToolOutput(id: string, explicitId: bool, output: string)

  function RoleOf(role: string): Option<Role> {
    var r := ToAsciiLower(Trim(role));
    if r == "user" then Some(User) else if r == "assistant" then Some(Assistant) else None
  }

  function MessageOf(role: string, content: string): Option<Message> {
    if Trim(content) == "" || RoleOf(role).None? then None
    else Some(Said(RoleOf(role).value, Trim(content)))
  }

  const SEPARATOR := "]: "

  function ParseLine(line: string): Option<Message> {
    var trimmed := Trim(line);
    if !("[" <= trimmed) then None
    else
      match SplitOnce(trimmed[1..], SEPARATOR)
      case None => None
      case Some((role, content)) => MessageOf(role, content)
  }

  function Compact(os: seq<Option<Message>>): seq<Message> {
    if os == [] then []
    else Compact(os[..|os| - 1]) + (if os[|os| - 1].Some? then [os[|os| - 1].value] else [])
  }

  function FromLines(lines: seq<string>): seq<Message> {
    Compact(seq(|lines|, i requires 0 <= i < |lines| => ParseLine(lines[i])))
  }

  function CallId(call: ToolCall, msgIdx: nat, callIdx: nat): string {
    if call.id.Some? then call.id.value
    else "clawbro-tool-" + Decimal(msgIdx) + "-" + Decimal(callIdx)
  }

  function FromToolCall(msgIdx: nat, callIdx: nat, call: ToolCall): seq<Message> {
    var id := CallId(call, msgIdx, callIdx);
    [ToolUse(id, call.id.Some?, call.name, call.inputJson)] +
    if HasOutput(call) then [ToolOutput(id, call.id.Some?, call.output.value)] else []
  }

  function FromToolCalls(msgIdx: nat, calls: seq<ToolCall>): seq<Message> {
    if calls == [] then []
    else FromToolCalls(msgIdx, calls[..|calls| - 1]) + FromToolCall(msgIdx, |calls| - 1, calls[|calls| - 1])
  }

  function FromMessage(msgIdx: nat, m: HistoryMessage): seq<Message> {
    (if MessageOf(m.role, m.content).Some? then [MessageOf(m.role, m.content).value] else []) +
    if IsAssistant(m.role) then FromToolCalls(msgIdx, m.toolCalls) else []
  }

  function FromHistory(history: seq<HistoryMessage>): seq<Message> {
    if history == [] then []
    else FromHistory(history[..|history| - 1]) + FromMessage(|history| - 1, history[|history| - 1])
  }

  method MessagesFromRuntimeHistory(msgIdx: nat, m: HistoryMessage) returns (messages: seq<Message>)
    ensures messages == FromMessage(msgIdx, m)
  {
    hide MessageOf, FromToolCall, IsAssistant;
    messages := [];
    var base := MessageOf(m.role, m.content);
    if base.Some? {
      messages := messages + [base.value];
    }
    if !IsAssistant(m.role) {
      return;
    }
    ghost var said := messages;
    for k := 0 to |m.toolCalls|
      invariant messages == said + FromToolCalls(msgIdx, m.toolCalls[..k])
    {
      assert m.toolCalls[..k + 1][..k] == m.toolCalls[..k];
      messages := messages + FromToolCall(msgIdx, k, m.toolCalls[k]);
    }
    assert m.toolCalls[..|m.toolCalls|] == m.toolCalls;
  }

  // Generated tool-call ids are distinct for distinct positions.
  lemma GeneratedIdsAreDistinct(call: ToolCall, m: nat, c: nat, call': ToolCall, m': nat, c': nat)
    requires call.id.None? && call'.id.None?
    requires CallId(call, m, c) == CallId(call', m', c')
    ensures m == m' && c == c'
  {
    var prefix := "clawbro-tool-";
    assert CallId(call, m, c)[|prefix|..] == Decimal(m) + "-" + Decimal(c);
    assert CallId(call', m', c')[|prefix|..] == Decimal(m') + "-" + Decimal(c');
    SplitJoinedChar(Decimal(m), '-', Decimal(c));
    SplitJoinedChar(Decimal(m'), '-', Decimal(c'));
    DecimalRoundTrip(m);
    DecimalRoundTrip(m');
    DecimalRoundTrip(c);
    DecimalRoundTrip(c');
  }

  // --------------------------------------------------------------- agreement

  function SaidOnly(ms: seq<Message>): seq<Message> {
    if ms == [] then []
    else SaidOnly(ms[..|ms| - 1]) + (if ms[|ms| - 1].Said? then [ms[|ms| - 1]] else [])
  }

  // What the line reader makes of a message's text line.
  function Shown(m: HistoryMessage): Option<Message> {
    if TextLines(m) == [] then None else ParseLine(TextLine(m))
  }

  // When the line reader sees a message as the structured reader does.
  predicate Faithful(m: HistoryMessage) {
    match SplitOnce(m.role, SEPARATOR)
    case Some((before, _)) => Blank(m.content) || !Speaks(before)
    case None =>
      || !Speaks(m.role)
      || m.sender.None?
      || m.sender.value == ""
      || (Blank(m.content) && !EqIgnoreAsciiCase(m.role, "assistant"))
  }

  // The roles that are read at all, whatever their case and outer blanks.
  predicate Speaks(role: string) {
    EqIgnoreAsciiCase(Trim(role), "user") || EqIgnoreAsciiCase(Trim(role), "assistant")
  }

  lemma RoleIsRead(role: string)
    ensures RoleOf(role) == Some(User) <==> EqIgnoreAsciiCase(Trim(role), "user")
    ensures RoleOf(role) == Some(Assistant) <==> EqIgnoreAsciiCase(Trim(role), "assistant")
  {
    assert ToAsciiLower("user") == "user" && ToAsciiLower("assistant") == "assistant";
    assert "user"[0] != "assistant"[0];
  }

  // A line's role decides who said its content: a user, the assistant, or nobody.
  lemma LineIsReadAs(role: string, content: string)
    requires content != "" && Tight(content) && !Contains(role, "]: ")
    ensures EqIgnoreAsciiCase(Trim(role), "user") ==>
              ParseLine("[" + role + "]: " + content) == Some(Said(User, content))
    ensures EqIgnoreAsciiCase(Trim(role), "assistant") ==>
              ParseLine("[" + role + "]: " + content) == Some(Said(Assistant, content))
    ensures !EqIgnoreAsciiCase(Trim(role), "user") && !EqIgnoreAsciiCase(Trim(role), "assistant") ==>
              ParseLine("[" + role + "]: " + content) == None
  {
    var m := HistoryMessage(role, content, None, []);
    TrimTight(content);
    TrimEmptyIffBlank(content);
    SplitOnceSpec(role, SEPARATOR);
    TextLineParses(m);
    RoleIsRead(role);
  }

  // The same for a structured message that is not blank, whose text comes first.
  lemma StructuredIsReadAs(msgIdx: nat, m: HistoryMessage)
    requires !Blank(m.content)
    ensures EqIgnoreAsciiCase(Trim(m.role), "user") ==> FromMessage(msgIdx, m) == [Said(User, Trim(m.content))]
    ensures EqIgnoreAsciiCase(Trim(m.role), "assistant") ==>
              FromMessage(msgIdx, m) ==
              [Said(Assistant, Trim(m.content))]
              + if EqIgnoreAsciiCase(m.role, "assistant") then FromToolCalls(msgIdx, m.toolCalls) else []
    ensures !EqIgnoreAsciiCase(Trim(m.role), "user") && !EqIgnoreAsciiCase(Trim(m.role), "assistant") ==>
              FromMessage(msgIdx, m) == []
  {
    TrimEmptyIffBlank(m.content);
    RoleIsRead(m.role);
    AssistantIsTight(m.role);
    assert ToAsciiLower("user") == "user" && ToAsciiLower("assistant") == "assistant";
    hide Trim, FromToolCalls;
    assert "user"[0] != "assistant"[0];
  }

  // A blank message says nothing, but an assistant's still calls its tools.
  lemma BlankSaysNothing(msgIdx: nat, m: HistoryMessage)
    requires Blank(m.content)
    ensures FromMessage(msgIdx, m) ==
            if EqIgnoreAsciiCase(m.role, "assistant") then FromToolCalls(msgIdx, m.toolCalls) else []
  {
    TrimEmptyIffBlank(m.content);
  }

  // A role that reads "assistant" as it stands has no outer blanks.
  lemma AssistantIsTight(role: string)
    ensures EqIgnoreAsciiCase(role, "assistant") ==> Trim(role) == role
  {
    if EqIgnoreAsciiCase(role, "assistant") {
      assert |role| == |ToAsciiLower(role)| == |ToAsciiLower("assistant")| == 9;
      assert AsciiLower(role[0]) == ToAsciiLower(role)[0] == ToAsciiLower("assistant")[0] == 'a';
      assert AsciiLower(role[8]) == ToAsciiLower(role)[8] == ToAsciiLower("assistant")[8] == 't';
      TrimTight(role);
    }
  }

  // Each message of a history is read at its own position.
  lemma HistoryBecomes(history: seq<HistoryMessage>, m: HistoryMessage)
    ensures FromHistory([]) == [] && FromHistory(history + [m]) == FromHistory(history) + FromMessage(|history|, m)
  {
    hide FromMessage;
    assert (history + [m])[..|history|] == history;
  }

  // What a message's tool calls become, one after another: the call under its own id or one
  // made from its position, and its output if any shows.
  lemma ToolCallsBecome(msgIdx: nat, calls: seq<ToolCall>, call: ToolCall)
    ensures FromToolCalls(msgIdx, []) == []
    ensures var id := if call.id.Some? then call.id.value
                      else "clawbro-tool-" + Decimal(msgIdx) + "-" + Decimal(|calls|);
            FromToolCalls(msgIdx, calls + [call]) ==
            FromToolCalls(msgIdx, calls)
            + [ToolUse(id, call.id.Some?, call.name, call.inputJson)]
            + if call.output.Some? && !Blank(call.output.value)
              then [ToolOutput(id, call.id.Some?, call.output.value)] else []
  {
    assert (calls + [call])[..|calls|] == calls;
  }

  lemma SeparatorIsBorderless()
    ensures Borderless(SEPARATOR)
  {
    assert SEPARATOR[1..] == ": " && SEPARATOR[2..] == " ";
    assert SEPARATOR[..2] == "]:" && SEPARATOR[..1] == "]";
  }

  // Trimming a line cannot reach into a prefix that ends in a visible character.
  lemma TrimKeepsPrefix(p: string, rest: string)
    requires p != "" && !IsWhitespace(p[0]) && !IsWhitespace(p[|p| - 1])
    ensures p <= Trim(p + rest) && Trim(p + rest) == TrimEnd(p + rest)
  {
    var s := p + rest;
    assert TrimStart(s) == s;
    var r := TrimEnd(s);
    var b := TrimEndSpec(s);
    assert forall k :: |r| <= k < |s| ==> s[k] == b[k - |r|];
    assert s[|p| - 1] == p[|p| - 1];
    assert |p| <= |r|;
    assert r == s[..|r|];
  }

  lemma ToolLineIsIgnored(line: string)
    requires "[tool_call:" <= line || "[tool_result:" <= line
    ensures ParseLine(line).None?
  {
    hide Trim, SplitOnce, RoleOf, Contains;
    StartsLikeATool(line);
    TrimKeepsPrefix("[t", line[2..]);
    var rest := Trim(line)[1..];
    assert rest[0] == 't';
    SplitOnceSpec(rest, SEPARATOR);
    if SplitOnce(rest, SEPARATOR).Some? {
      var (role, content) := SplitOnce(rest, SEPARATOR).value;
      assert rest == role + SEPARATOR + content;
      NoSuchRole(role);
    }
  }

  lemma StartsLikeATool(line: string)
    requires "[tool_call:" <= line || "[tool_result:" <= line
    ensures |line| >= 2 && line == "[t" + line[2..]
  {
    assert line[0] == '[' && line[1] == 't';
  }

  // Neither role starts with a `t`.
  lemma NoSuchRole(role: string)
    requires role != "" && role[0] == 't'
    ensures RoleOf(role).None?
  {
    assert role == "t" + role[1..];
    TrimKeepsPrefix("t", role[1..]);
    assert ToAsciiLower(Trim(role))[0] == 't';
  }

  lemma TrimOfTrimEnd(s: string)
    ensures Trim(TrimEnd(s)) == Trim(s)
  {
    var e := TrimEnd(s);
    var c := TrimEndSpec(s);
    var a, b := TrimCore(e);
    assert e + c == a + Trim(e) + (b + c);
    TrimIs(a, Trim(e), b + c);
  }

  lemma TextLineTrims(m: HistoryMessage)
    requires !Blank(Display(m))
    ensures Trim(TextLine(m)) == "[" + (m.role + SEPARATOR + TrimEnd(Display(m)))
  {
    var d := Display(m);
    var core := TrimEnd(d);
    var b := TrimEndSpec(d);
    var trimmed := "[" + (m.role + SEPARATOR + core);
    hide Trim, TrimEnd;
    assert "" + trimmed + b == TextLine(m) by {
      assert m.role + SEPARATOR + d == m.role + SEPARATOR + core + b;
    }
    assert core != "";
    assert trimmed[|trimmed| - 1] == core[|core| - 1] && trimmed[0] == '[';
    TrimIs("", trimmed, b);
  }

  // The text line splits at the first separator, wherever the role's own text puts it.
  lemma TextLineParses(m: HistoryMessage)
    requires !Blank(Display(m))
    ensures ParseLine(TextLine(m)) ==
              match SplitOnce(m.role, SEPARATOR)
              case None => MessageOf(m.role, Display(m))
              case Some((before, after)) => MessageOf(before, after + SEPARATOR + TrimEnd(Display(m)))
  {
    var core := TrimEnd(Display(m));
    TextLineTrims(m);
    assert Trim(TextLine(m))[1..] == m.role + SEPARATOR + core;
    RestParses(m.role, core);
    TrimOfTrimEnd(Display(m));
  }

  lemma RestParses(role: string, core: string)
    ensures SplitOnce(role + SEPARATOR + core, SEPARATOR) ==
              match SplitOnce(role, SEPARATOR)
              case None => Some((role, core))
              case Some((before, after)) => Some((before, after + SEPARATOR + core))
  {
    SeparatorIsBorderless();
    SplitOnceSpec(role, SEPARATOR);
    hide SplitOnce, Contains, Borderless;
    match SplitOnce(role, SEPARATOR)
    case None =>
      SplitJoined(role, SEPARATOR, core);
    case Some((before, after)) =>
      SplitJoined(before, SEPARATOR, after + SEPARATOR + core);
      assert role + SEPARATOR + core == before + SEPARATOR + (after + SEPARATOR + core);
  }

  lemma ShownIffFaithful(m: HistoryMessage)
    ensures Shown(m) == MessageOf(m.role, m.content) <==> Faithful(m)
    ensures MessageOf(m.role, m.content).Some? ==> Shown(m).Some?
  {
    TrimEmptyIffBlank(m.content);
    TrimEmptyIffBlank(Display(m));
    SplitOnceSpec(m.role, SEPARATOR);
    RoleIsRead(m.role);
    if !Blank(Display(m)) {
      TextLineParses(m);
    }
    match SplitOnce(m.role, SEPARATOR)
    case Some((before, after)) =>
      RoleIsRead(before);
      RoleWithSeparator(m.role, before, after);
      SeparatorIsVisible(after, TrimEnd(Display(m)));
      if m.sender.Some? && m.sender.value != "" {
        DisplayIsVisible(m);
      }
    case None =>
      if m.sender.Some? && m.sender.value != "" {
        DisplayIsVisible(m);
      }
  }

  // A role with the separator inside it is neither the user's nor the assistant's.
  lemma RoleWithSeparator(role: string, before: string, after: string)
    requires role == before + SEPARATOR + after
    ensures RoleOf(role).None? && !IsAssistant(role)
  {
    var i := |before|;
    assert role[i] == ']';
    TrimKeepsChar(role, i);
    NotARole(Trim(role));
    NotARole(role);
  }

  lemma TrimKeepsChar(s: string, i: nat)
    requires i < |s| && !IsWhitespace(s[i])
    ensures s[i] in Trim(s)
  {
    var a, b := TrimCore(s);
    hide Trim, Tight;
    assert s[i] == (a + Trim(s) + b)[i];
    assert |a| <= i < |a| + |Trim(s)|;
    assert s[i] == Trim(s)[i - |a|];
  }

  lemma NotARole(s: string)
    requires ']' in s
    ensures ToAsciiLower(s) != "user" && ToAsciiLower(s) != ToAsciiLower("assistant") && ToAsciiLower(s) != "assistant"
  {
    var i :| 0 <= i < |s| && s[i] == ']';
    assert ToAsciiLower(s)[i] == ']';
    assert ']' !in "user" && ']' !in "assistant";
    assert forall k :: 0 <= k < 9 ==> ToAsciiLower("assistant")[k] != ']';
  }

  lemma SeparatorIsVisible(a: string, b: string)
    ensures Trim(a + SEPARATOR + b) != ""
  {
    TrimEmptyIffBlank(a + SEPARATOR + b);
    assert (a + SEPARATOR + b)[|a|] == ']';
  }

  // Text after a visible prefix trims to something longer than it would alone.
  lemma PrefixLengthens(prefix: string, content: string)
    requires prefix != "" && !IsWhitespace(prefix[0])
    ensures !Blank(prefix + (" " + content))
    ensures |Trim(prefix + (" " + content))| > |Trim(content)|
  {
    var s := prefix + (" " + content);
    assert s[0] == prefix[0];
    var a, b := TrimCore(content);
    var t := Trim(content);
    hide Trim, Tight, Blank, IsWhitespace;
    TrimEmptyIffBlank(s);
    if t == "" {
      TrimKeepsMiddle(s, 0, 0);
    } else {
      VisibleLast(t);
      var j := |prefix| + |a| + |t|;
      assert s[j] == content[|a| + |t| - 1] == t[|t| - 1];
      TrimKeepsMiddle(s, 0, j);
    }
  }

  lemma VisibleLast(t: string)
    requires t != "" && Tight(t)
    ensures !IsWhitespace(t[|t| - 1])
  {
  }

  // A sender's prefix is visible and always shows: it makes the text a different one.
  lemma DisplayIsVisible(m: HistoryMessage)
    requires m.sender.Some? && m.sender.value != ""
    ensures !Blank(Display(m)) && Trim(Display(m)) != Trim(m.content)
  {
    hide Trim, Blank;
    var prefix := "[" + m.sender.value + "]:";
    assert Display(m) == prefix + (" " + m.content);
    PrefixLengthens(prefix, m.content);
  }

  function AllShown(history: seq<HistoryMessage>): (os: seq<Option<Message>>)
    ensures |os| == |history|
  {
    seq(|history|, i requires 0 <= i < |history| => Shown(history[i]))
  }

  function AllSaid(history: seq<HistoryMessage>): (os: seq<Option<Message>>)
    ensures |os| == |history|
  {
    seq(|history|, i requires 0 <= i < |history| => MessageOf(history[i].role, history[i].content))
  }

  lemma {:induction false} FromLinesAppend(a: seq<string>, b: seq<string>)
    ensures FromLines(a + b) == FromLines(a) + FromLines(b)
  {
    hide ParseLine, Compact, FromLines;
    if b == [] {
      assert a + b == a;
      NoLines(b);
    } else {
      var n := |b| - 1;
      FromLinesAppend(a, b[..n]);
      FromLinesLast(b);
      FromLinesLast(a + b);
      assert (a + b)[..|a + b| - 1] == a + b[..n];
    }
  }

  lemma NoLines(lines: seq<string>)
    ensures lines == [] ==> FromLines(lines) == []
  {
  }

  lemma FromLinesLast(lines: seq<string>)
    requires lines != []
    ensures var p := ParseLine(lines[|lines| - 1]);
            FromLines(lines) == FromLines(lines[..|lines| - 1]) + (if p.Some? then [p.value] else [])
  {
    var n := |lines| - 1;
    var parsed := seq(|lines|, i requires 0 <= i < |lines| => ParseLine(lines[i]));
    assert parsed[..n] == seq(n, i requires 0 <= i < n => ParseLine(lines[..n][i]));
  }

  lemma {:induction false} ToolLinesAreIgnored(calls: seq<ToolCall>, prune: bool, policy: PruningPolicy)
    ensures FromLines(AllToolLines(calls, prune, policy)) == []
  {
    if calls != [] {
      var n := |calls| - 1;
      ToolLinesAreIgnored(calls[..n], prune, policy);
      var lines := ToolLines(calls[n], prune, policy);
      FromLinesAppend(AllToolLines(calls[..n], prune, policy), lines);
      ToolLineIsIgnored(lines[0]);
      FromLinesLast(lines);
      if |lines| == 2 {
        ToolLineIsIgnored(lines[1]);
        FromLinesLast(lines[..1]);
      }
    }
  }

  lemma MessageLinesShow(m: HistoryMessage, prune: bool, policy: PruningPolicy)
    ensures FromLines(MessageLines(m, prune, policy)) == if Shown(m).Some? then [Shown(m).value] else []
  {
    if !Skipped(m) {
      FromLinesAppend(TextLines(m), AllToolLines(m.toolCalls, prune, policy));
      ToolLinesAreIgnored(m.toolCalls, prune, policy);
      if TextLines(m) != [] {
        FromLinesLast(TextLines(m));
      }
    }
  }

  // Reading back the printed lines gives each message as shown, under every pruning policy.
  lemma {:induction false} LinesReadBack(history: seq<HistoryMessage>, semantics: Semantics, n: nat)
    requires n <= |history|
    ensures FromLines(Rendered(history, semantics, n)) == Compact(AllShown(history[..n]))
  {
    if n > 0 {
      LinesReadBack(history, semantics, n - 1);
      var prune := Eligible(history, n - 1, semantics);
      FromLinesAppend(Rendered(history, semantics, n - 1), MessageLines(history[n - 1], prune, semantics.policy));
      MessageLinesShow(history[n - 1], prune, semantics.policy);
      assert AllShown(history[..n])[..n - 1] == AllShown(history[..n - 1]);
    }
  }

  lemma {:induction false} SaidOnlyAppend(a: seq<Message>, b: seq<Message>)
    ensures SaidOnly(a + b) == SaidOnly(a) + SaidOnly(b)
  {
    if b == [] {
      assert a + b == a;
    } else {
      assert (a + b)[..|a + b| - 1] == a + b[..|b| - 1];
      SaidOnlyAppend(a, b[..|b| - 1]);
    }
  }

  lemma {:induction false} NothingSaid(ms: seq<Message>)
    requires forall i :: 0 <= i < |ms| ==> !ms[i].Said?
    ensures SaidOnly(ms) == []
  {
    if ms != [] {
      NothingSaid(ms[..|ms| - 1]);
    }
  }

  lemma {:induction false} ToolMessagesAreNotSaid(msgIdx: nat, calls: seq<ToolCall>)
    ensures forall i :: 0 <= i < |FromToolCalls(msgIdx, calls)| ==> !FromToolCalls(msgIdx, calls)[i].Said?
    ensures SaidOnly(FromToolCalls(msgIdx, calls)) == []
  {
    if calls != [] {
      ToolMessagesAreNotSaid(msgIdx, calls[..|calls| - 1]);
    }
    NothingSaid(FromToolCalls(msgIdx, calls));
  }

  lemma MessageSays(msgIdx: nat, m: HistoryMessage)
    ensures SaidOnly(FromMessage(msgIdx, m)) ==
            if MessageOf(m.role, m.content).Some? then [MessageOf(m.role, m.content).value] else []
  {
    var said := if MessageOf(m.role, m.content).Some? then [MessageOf(m.role, m.content).value] else [];
    assert said != [] ==> said[0].Said? && said[..0] == [];
    hide MessageOf, FromToolCalls, IsAssistant;
    ToolMessagesAreNotSaid(msgIdx, m.toolCalls);
    var tools := if IsAssistant(m.role) then FromToolCalls(msgIdx, m.toolCalls) else [];
    SaidOnlyAppend(said, tools);
    assert SaidOnly(said) == said;
  }

  lemma {:induction false} StructuredSays(history: seq<HistoryMessage>)
    ensures SaidOnly(FromHistory(history)) == Compact(AllSaid(history))
  {
    if history != [] {
      var n := |history| - 1;
      StructuredSays(history[..n]);
      assert AllSaid(history)[..n] == AllSaid(history[..n]);
      MessageSays(n, history[n]);
      hide MessageOf, FromMessage, SaidOnly;
      SaidOnlyAppend(FromHistory(history[..n]), FromMessage(n, history[n]));
    }
  }

  lemma {:induction false} CompactDominates(a: seq<Option<Message>>, b: seq<Option<Message>>)
    requires |a| == |b| && forall i :: 0 <= i < |a| ==> (b[i].Some? ==> a[i].Some?)
    ensures |Compact(a)| >= |Compact(b)|
    ensures Compact(a) == Compact(b) ==> a == b
  {
    if a != [] {
      var n := |a| - 1;
      CompactDominates(a[..n], b[..n]);
      assert a == a[..n] + [a[n]] && b == b[..n] + [b[n]];
      if Compact(a) == Compact(b) && a[n].Some? == b[n].Some? {
        var x, y := Compact(a[..n]), Compact(b[..n]);
        assert |x| == |y|;
        assert Compact(a)[..|x|] == x && Compact(b)[..|x|] == y;
        assert a[n].Some? ==> Compact(a)[|x|] == a[n].value && Compact(b)[|x|] == b[n].value;
      }
    }
  }

  // The two readers agree on what was said exactly when every message is faithful.
  lemma AgreementIff(history: seq<HistoryMessage>, semantics: Semantics)
    ensures FromLines(Rendered(history, semantics, |history|)) == SaidOnly(FromHistory(history)) <==>
              (forall i :: 0 <= i < |history| ==> Faithful(history[i]))
  {
    LinesReadBack(history, semantics, |history|);
    StructuredSays(history);
    assert history[..|history|] == history;
    var shown, said := AllShown(history), AllSaid(history);
    forall i | 0 <= i < |history|
      ensures (shown[i] == said[i] <==> Faithful(history[i])) && (said[i].Some? ==> shown[i].Some?) {
      ShownIffFaithful(history[i]);
    }
    CompactDominates(shown, said);
    if forall i :: 0 <= i < |history| ==> Faithful(history[i]) {
      assert shown == said;
    }
  }

  // In particular for plain histories: no sender, no separator inside a role.
  lemma PlainHistoriesAgree(history: seq<HistoryMessage>, semantics: Semantics)
    requires forall i :: 0 <= i < |history| ==>
               !Contains(history[i].role, SEPARATOR) && (history[i].sender.None? || history[i].sender.value == "")
    ensures FromLines(Rendered(history, semantics, |history|)) == SaidOnly(FromHistory(history))
  {
    forall i | 0 <= i < |history| ensures Faithful(history[i]) {
      SplitOnceSpec(history[i].role, SEPARATOR);
    }
    AgreementIff(history, semantics);
  }

  // A named sender is read back as part of the text.
  lemma SenderIsReadAsText() returns (m: HistoryMessage)
    ensures MessageOf(m.role, m.content) == Some(Said(User, "hi"))
    ensures FromLines(Rendered([m], Semantics(Off, DEFAULT_POLICY), 1)) != SaidOnly(FromHistory([m]))
  {
    hide FromLines, Rendered, SaidOnly, FromHistory, Trim, IsWhitespace;
    m := HistoryMessage("user", "hi", Some("bob"), []);
    PlainUser();
    assert !Faithful(m);
    AgreementIff([m], Semantics(Off, DEFAULT_POLICY));
    assert [m][0] == m;
  }

  lemma PlainUser()
    ensures RoleOf("user") == Some(User) && Trim("hi") == "hi" && SplitOnce("user", SEPARATOR) == None
    ensures Speaks("user")
    ensures !Blank("hi") && !Blank("user")
  {
    TrimTight("user");
    TrimTight("hi");
    assert ToAsciiLower("user") == "user";
    SplitOnceSpec("user", SEPARATOR);
    forall i | 0 <= i <= 4 ensures !OccursAt(SEPARATOR, "user", i) {
      assert i < 4 ==> "user"[i..][0] == "user"[i];
    }
    assert !IsWhitespace("hi"[0]) && !IsWhitespace("user"[0]);
  }
}
