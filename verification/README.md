# clawBro gateway: a verified model

clawBro is a chat gateway: it takes messages from chat channels, runs them through agent
backends, and delivers what the agents say back to the channel as it is produced. This
project models the parts of the gateway that decide *what is delivered, to whom, and how
often*, and proves what those parts are for. `dafny verify dfyconfig.toml` checks all of it.

| file | what it models |
|---|---|
| `StreamDelivery.dfy` | the streaming loop that turns one session's events into channel messages: what is owed, and that exactly that is sent |
| `StreamTrace.dfy` | the shape of every trace of that loop: one final, placeholders, labels, previews, isolation between sessions |
| `RuntimeDispatch.dfy` | a dispatched turn (job, event forwarder, dispatcher) as interleaved moves on the bus, and, with the loop above, that every turn's delivery ends |
| `SuccessfulTurn.dfy` | a successful turn's bus, and how much of its text is delivered (`DeliveredText`) |
| `Transcript.dfy` | the history printer with pruning, and the two history readers of the Rust-native agent (`LegacyHistory`), with exactly when they agree |
| `SessionKeyCodec.dfy` | session keys as text, as storage keys and as session-id names |
| `Relay.dfy` | `[RELAY: @agent …]` extraction and sequential rewriting, against one positional substitution |
| `ApprovalBroker.dfy` | register, resolve, time-out, clear and drop as atomic steps, in every interleaving |
| `TurnSerialization.dfy` | the per-conversation semaphore, the message logs and the loaded history, in every interleaving |
| `Dedup.dfy` | deduplication over time (`Dedup`), and mention extraction, target collection and fan-out ids (`Fanout`) |
| `DedupConcurrency.dfy` | the same table when calls overlap: every purge visit and every entry an atomic step |
| `MentionPropagation.dfy` | the bot-mention trigger, its bounded queue and the redispatch task: propagation is bounded and drains |
| `Bindings.dfy` | routing rules against one lexicographic maximum, and the roster check at registration |
| `ProviderName.dfy` | the provider-name sanitizer against "split, lowercase, join" |
| `Text.dfy` | the parts of Rust's `str` the above rely on: trim, find, split, replace, decimals |

Code that changes state is imperative here too: the streaming loop, the renderers, the relay
scanner, the sanitizer and the fan-out are methods with loops; the approval broker, the
session registry, the stream loop, the deduplication tables, the mention trigger, the binding registry and the
output sink are classes. Each such method is tied to a specification function, and the
properties are proved about that function. Concurrency is modelled by atomic steps: a run is
any sequence of steps, a step that is not enabled changes nothing, and every theorem about a
run is about every interleaving.

Some expectations one may have of the code are false. Each is refuted by a lemma, next to the
condition under which the code does meet it:

- Pruning a tool result can lengthen it (`SoftTrimCanLengthen`); it shortens one exactly when
  it is trimmed and at least 47 characters are omitted (`SoftTrimShortensIff`).
- A named sender is printed into the line and read back as part of the text
  (`SenderIsReadAsText`); the two readers agree exactly on histories all of whose messages are
  `Faithful` (`AgreementIff`).
- A `resolve` can report success and the waiter still deny (`SuccessfulResolveCanBeLost`): an
  allowance is returned exactly when the decision reached a waiter still waiting
  (`ApprovalFailsClosed`).
- A request can be denied although it neither timed out nor was resolved with a denial
  (`LateClearDeniesNewcomer`). A returned denial has exactly four possible causes
  (`DenialIff`); another waiter's clear is one exactly when the entry under its id is no
  longer its own (`ClearCancelsOtherIff`), and a request with an id of its own that does not
  time out returns what its `resolve` decided (`LoneRequestGetsItsDecision`).
- Storage keys are injective on conversations, but the unescaped names session ids are derived
  from are not (`SessionNamesCollide`; a conversation has a name of its own exactly under the
  condition of `NameIsUniqueIff`), and two such conversations can interleave in one log
  (`CollidingNamesInterleave`): logs are serialized exactly when no two conversations collide
  (`SerializesIff`).
- A completion can be delivered to the bus twice (`LateCompletionIsDoubled`), exactly when the
  job decides to synthesise one while the backend's own is still on its way (`DoubledIff`).
- Fan-out ids of two targets can collide (`OtherIdsCollide`), exactly when the targets agree
  after sanitizing (`IdsEqualIff`).
- Asking `@codex2` also asks a bot named `codex`: whatever asks one bot asks another exactly when
  the mention of the first holds the mention of the second (`NamesInterfereIff`).
- A specialist's reply that quotes another marker is itself rewritten
  (`QuotedMarkerIsRewritten`). For every text and all replies, each stage of the rewriting is
  positional exactly when no marker about to be replaced occurs stray in the text rewritten so
  far (`ProcessIsPositionalIff`).
- When calls overlap, an id can be accepted twice with readings of the clock less than the
  time-to-live apart (`StaleReadingIsAccepted`): exactly when another call's purge took the
  entry that was still young for the later one (`StampsTooCloseIff`). An acceptance's
  time-to-live counts from the time its call had read (`NoEarlyRepeat`), so after a stale
  acceptance the id can be accepted again at once (`AcceptedTwiceAtOnce`).
- Text that a backend emits can be missing from what a successful turn delivers
  (`LateTextIsCutOff`): when the text was cut into segments, it is all delivered exactly when
  none is emitted after the cutoff (`AllTextIsDeliveredIff`), which for a drain that ends by
  itself is the backend's first terminal event (`DrainedTurnDeliversAllText`).

## Model

| member | source | states |
|---|---|---|
| `StreamDelivery.ThrottledStream` | crates/clawbro-agent/src/output_sink.rs:63-205 | the loop, over any sequence of resolved `select!` arms, makes exactly the sink calls of the step-by-step specification and stops when it does |
| `StreamDelivery.StreamLoop.OnRecv` | crates/clawbro-agent/src/output_sink.rs:97-195 | receiving an event updates the loop's variables and calls the sink exactly as the specification's step; another session's event changes nothing |
| `StreamDelivery.DeliversWhatIsOwed` | crates/clawbro-agent/src/output_sink.rs:85-204 | when an arm first ends the stream, the messages sent are exactly those owed: one segment per nonempty stretch of text cut at a tool start, in order, then the final its ending calls for (full text, remaining text, error text or queued control text) |
| `StreamDelivery.StopsIff` | crates/clawbro-agent/src/output_sink.rs:89-96 | the stream stops exactly when an arm ends it: a stop or dropped control with no final queued, the session's own completion or error, or a closed bus |
| `StreamDelivery.StoppedForever` | crates/clawbro-agent/src/output_sink.rs:85-204 | nothing after the stopping arm has any effect |
| `StreamDelivery.TextConserved` | crates/clawbro-agent/src/output_sink.rs:99-128 | at every moment before the end, the segments sent followed by the buffer are the session's text deltas, none lost or repeated |
| `StreamDelivery.CompletedTurnConservesText` | crates/clawbro-agent/src/output_sink.rs:158-178 | a turn that completes after a segment delivers its delta text exactly once; one without segments delivers the backend's full text as its only message |
| `StreamDelivery.BlocksAreTheText` | crates/clawbro-agent/src/output_sink.rs:105-128 | cutting at tool starts partitions the session's text |
| `StreamTrace.RunIsWellShaped` | crates/clawbro-agent/src/output_sink.rs:70-204 | over every run: segments and previews are nonempty, the initial placeholder is carried until the first segment and none after it, no label is shown twice in a row, a final is the last call; and the loop's variables are what the trace says |
| `StreamTrace.AtMostOneFinal` | crates/clawbro-agent/src/output_sink.rs:158-195 | a final is the last call of its run, after which the loop has stopped |
| `StreamTrace.RepeatedLabelNeedsSegment` | crates/clawbro-agent/src/output_sink.rs:122-156 | two successive progress calls show the same label only with a segment between them |
| `StreamTrace.PreviewsAreHonest` | crates/clawbro-agent/src/output_sink.rs:197-202 | each preview, appended to the segments before it, is a prefix of the session's text |
| `StreamTrace.TraceIsWhatTheArmsAskFor` | crates/clawbro-agent/src/output_sink.rs:97-202 | the whole trace of an open stream is determined by its arms: a tick with text adds a preview, a tool start after text adds a segment, and a tool event adds its label, with the placeholder due, exactly when that label is not on show |
| `StreamTrace.OtherSessionsAreInvisible` | crates/clawbro-agent/src/output_sink.rs:97-188 | deleting every other session's events from a schedule leaves the whole state and trace unchanged |
| `StreamTrace.SessionIsolation` | crates/clawbro-agent/src/output_sink.rs:97-202 | two schedules that differ only in other sessions' events give the same trace |
| `StreamTrace.ToolNamesAreRemembered` | crates/clawbro-agent/src/output_sink.rs:121-150 | while the stream is open, a call id is known exactly by the name of its most recent unfinished start |
| `RuntimeDispatch.AlwaysSound` | crates/clawbro-agent/src/runtime_dispatch.rs:219-345 | in every interleaving of forwarder, job and dispatcher: the completion flag, the bus and the phase agree, and the bus carries only this session's events |
| `RuntimeDispatch.FailureIsReported` | crates/clawbro-agent/src/runtime_dispatch.rs:87-106 | a failed dispatch has put its Error and, after it, an empty TurnComplete on the bus |
| `RuntimeDispatch.ErrorStaysFirst` | crates/clawbro-agent/src/runtime_dispatch.rs:87-98 | an error sent before any terminal event of the backend was forwarded is the bus's first terminal event for good |
| `RuntimeDispatch.SilentFailureIsFirst` | crates/clawbro-agent/src/runtime_dispatch.rs:87-98 | a failed turn whose backend emits no terminal event is always such a turn |
| `RuntimeDispatch.TerminalIff` | crates/clawbro-agent/src/runtime_dispatch.rs:81-107 | a settled turn has put a terminal event on the bus exactly when it failed, returned text, or its backend emitted one |
| `RuntimeDispatch.CompletionsExactly` | crates/clawbro-agent/src/runtime_dispatch.rs:325-339 | at every point the bus carries each forwarded completion once, plus one from the moment a completion is synthesised |
| `RuntimeDispatch.CompletionsAreNotDoubled` | crates/clawbro-agent/src/runtime_dispatch.rs:294-339 | if the drain never times out, a completion is synthesised only when the backend gave none |
| `RuntimeDispatch.DoubledIff` | crates/clawbro-agent/src/runtime_dispatch.rs:294-339 | a completion is surplus exactly when one was synthesised and the backend emitted one too |
| `RuntimeDispatch.LateCompletionIsDoubled` | crates/clawbro-agent/src/runtime_dispatch.rs:302-339 | a run in which the drain times out before the backend's completion and the bus carries it twice |
| `RuntimeDispatch.DispatchInOrder` | crates/clawbro-agent/src/runtime_dispatch.rs:81-107 | the uninterrupted job puts on the bus: thinking, every forwarded event in order, then the synthesised completion or the error pair; and that is one of the interleavings |
| `RuntimeDispatch.ForwardKeepsNotes` | crates/clawbro-agent/src/runtime_dispatch.rs:493-576 | forwarding keeps every tool, approval, completion and failure event, in order, with its own name, id and payload, and drops only tool callbacks |
| `SuccessfulTurn.SuccessBusIs` | crates/clawbro-agent/src/runtime_dispatch.rs:219-339 | at every point of every interleaving a successful turn's bus is its forwarded events in order, with the synthesised completion at the one place where it was decided |
| `SuccessfulTurn.FirstTerminalOnBus` | crates/clawbro-agent/src/runtime_dispatch.rs:325-339 | a successful turn's first terminal event follows exactly the backend's events before the cutoff |
| `SuccessfulTurn.LateTextIsCutOff` | crates/clawbro-agent/src/runtime_dispatch.rs:302-339 | a run in which the drain times out and text is forwarded only after the synthesised completion |
| `TerminalDelivery.EndingArm` | crates/clawbro-agent/src/output_sink.rs:158-186 | an undisturbed stream ends at the bus's first terminal event of its session |
| `TerminalDelivery.StreamStopsIff` | crates/clawbro-agent/src/runtime_dispatch.rs:325-339 | end to end: for every interleaving of the dispatch and of the loop, the stream of a settled turn stops exactly when the turn failed, returned text, or its backend emitted a terminal event |
| `TerminalDelivery.FailedTurnDeliversTheError` | crates/clawbro-agent/src/runtime_dispatch.rs:81-107 | end to end: a failed turn whose error was sent before any terminal event of the backend was forwarded delivers exactly one final, the error text, after its segments, whatever the backend emits later |
| `DeliveredText.SuccessfulTurnDelivers` | crates/clawbro-agent/src/runtime_dispatch.rs:294-339 | end to end: the stream of a successful turn delivers what is owed at the arm that ends it, and the text it has received by then is exactly the backend's text up to the cutoff |
| `DeliveredText.AllTextIsDeliveredIff` | crates/clawbro-agent/src/output_sink.rs:158-178 | end to end: a successful turn that completes after a segment delivers all the backend's text if and only if no text is emitted after the cutoff |
| `DeliveredText.DrainedTurnDeliversAllText` | crates/clawbro-agent/src/runtime_dispatch.rs:294-339 | the same with the backend's own first terminal event as the cutoff, if the drain never times out |
| `DeliveredText.BackendErrorIsDelivered` | crates/clawbro-agent/src/output_sink.rs:179-186 | a turn whose backend reports a failure before any completion delivers exactly that failure's text as its final, whatever the conductor returns |
| `Transcript.RenderHistoryLines` | crates/clawbro-runtime/src/contract.rs:186-259 | the loop with its running count and cutoff prints every message in order and prunes exactly the eligible ones |
| `Transcript.RenderToolCalls` | crates/clawbro-runtime/src/contract.rs:226-256 | a message's tool calls become a call line each, and a result line when there is visible output |
| `Transcript.CutoffIsEligibility` | crates/clawbro-runtime/src/contract.rs:191-219 | being below the cutoff is having at least `keep_last_assistants` assistant turns after it |
| `Transcript.RenderedByPlace` | crates/clawbro-runtime/src/contract.rs:199-257 | every printed line, in full, is the text, the tool call or the tool result of a known message and call, at a position that does not depend on the pruning; a blank message prints nothing unless it is the assistant's or has a named sender |
| `Transcript.PruningChangesOnlyResults` | crates/clawbro-runtime/src/contract.rs:226-256 | pruning adds, drops and moves no line; a line it changes is the result of a tool call of an eligible message, with its output trimmed |
| `Transcript.SoftTrimKeepsEnds` | crates/clawbro-runtime/src/contract.rs:261-283 | an output long enough is its exact head and tail without overlap around a notice that names exactly the number of characters omitted, so its length is head + tail + 44 + digits |
| `Transcript.SoftTrimShortensIff` | crates/clawbro-runtime/src/contract.rs:261-283 | a result gets shorter exactly when it is trimmed and at least 47 characters are omitted |
| `Transcript.DefaultPolicyShortens` | crates/clawbro-agent-sdk/src/bridge.rs:83-92 | by default a result under 4000 characters is left alone and a longer one is cut to 1644 characters and the digits, which is always shorter |
| `Transcript.SoftTrimCanLengthen` | crates/clawbro-runtime/src/contract.rs:268-282 | a result and a policy for which trimming lengthens |
| `LegacyHistory.AgreementIff` | crates/clawbro-agent-sdk/src/runtime_bridge.rs:68-182 | for every history and pruning policy, reading the printed lines gives exactly the structured history's user and assistant texts if and only if every message is faithful: no role hides an earlier readable role before `]: `, and no named sender of a readable role |
| `LegacyHistory.PlainHistoriesAgree` | crates/clawbro-agent-sdk/src/runtime_bridge.rs:158-182 | in particular the readers agree when senders are absent or empty and no role contains `]: ` |
| `LegacyHistory.ShownIffFaithful` | crates/clawbro-agent-sdk/src/runtime_bridge.rs:165-182 | one message is read from its line as it is read structurally exactly when it is faithful; what is read structurally is never dropped |
| `LegacyHistory.LinesReadBack` | crates/clawbro-agent-sdk/src/runtime_bridge.rs:158-170 | under every pruning policy the printed lines read back as the messages' text lines, all tool lines being ignored |
| `LegacyHistory.ToolLineIsIgnored` | crates/clawbro-agent-sdk/src/runtime_bridge.rs:165-170 | no tool-call or tool-result line, whatever the tool prints, is read as a message |
| `LegacyHistory.TextLineParses` | crates/clawbro-agent-sdk/src/runtime_bridge.rs:165-170 | a text line is split at the first `]: `, inside the role if the role has one |
| `LegacyHistory.StructuredSays` | crates/clawbro-agent-sdk/src/runtime_bridge.rs:68-91 | the texts of the structured history are its messages' own, in order |
| `LegacyHistory.MessagesFromRuntimeHistory` | crates/clawbro-agent-sdk/src/runtime_bridge.rs:76-91 | a message becomes its text, then, for an assistant, each tool call with its output |
| `LegacyHistory.LineIsReadAs` | crates/clawbro-agent-sdk/src/runtime_bridge.rs:165-182 | a line with a separator-free role is read as the user's or the assistant's exactly as its role says, whatever its case and outer blanks, and as nobody's for any other role |
| `LegacyHistory.StructuredIsReadAs` | crates/clawbro-agent-sdk/src/runtime_bridge.rs:76-91 | a structured message is read as the user's or the assistant's by the same rule, trimmed, followed by the tool calls of an assistant's; any other role gives nothing |
| `LegacyHistory.BlankSaysNothing` | crates/clawbro-agent-sdk/src/runtime_bridge.rs:76-91 | a blank message says nothing, but an assistant's still calls its tools |
| `LegacyHistory.ToolCallsBecome` | crates/clawbro-agent-sdk/src/runtime_bridge.rs:93-151 | each tool call becomes a call with its name and arguments under its own id, or one made from its position, then its output under the same id if any shows |
| `LegacyHistory.HistoryBecomes` | crates/clawbro-agent-sdk/src/runtime_bridge.rs:68-74 | the messages of a history are read in order, each at its own position |
| `LegacyHistory.GeneratedIdsAreDistinct` | crates/clawbro-agent-sdk/src/runtime_bridge.rs:99-102 | ids generated for calls without one are equal only for the same message and call position |
| `LegacyHistory.SenderIsReadAsText` | crates/clawbro-runtime/src/contract.rs:205-211 | a message whose named sender makes the two readers disagree |
| `SessionKeyCodec.StorageKeyIsIdentity` | crates/clawbro-protocol/src/session_key_codec.rs:76-91 | two keys share a storage key exactly when channel and scope are equal and, unless the scope is a group's, the trimmed nonblank instances agree |
| `SessionKeyCodec.IdentityIsConversation` | crates/clawbro-protocol/src/session_key_codec.rs:27-36 | two keys have one normalized identity exactly under the same condition: a group is one conversation whatever the instance |
| `SessionKeyCodec.PlainStorageKey` | crates/clawbro-protocol/src/session_key_codec.rs:76-91 | how a storage key reads when nothing in it needs escaping |
| `SessionKeyCodec.PassesAreOneEscape` | crates/clawbro-protocol/src/session_key_codec.rs:38-43 | the three sequential replacements are one substitution per character |
| `SessionKeyCodec.EscapeComponentSpec` | crates/clawbro-protocol/src/session_key_codec.rs:38-43 | escaping is injective and its output holds neither `#` nor `=` |
| `SessionKeyCodec.UnescapeEscape` | crates/clawbro-protocol/src/session_key_codec.rs:38-43 | escaping has a left inverse |
| `SessionKeyCodec.NormalizeIdentityIdempotent` | crates/clawbro-protocol/src/session_key_codec.rs:27-36 | normalizing a conversation identity twice is normalizing it once |
| `SessionKeyCodec.TextRoundTripIff` | crates/clawbro-protocol/src/session_key_codec.rs:45-74 | the text form of a key reads back as the trimmed key exactly when channel and scope are not blank, the channel has no `:` or `@` and the instance no `:` |
| `SessionKeyCodec.ParsedTextRoundTrips` | crates/clawbro-protocol/src/session_key_codec.rs:54-74 | whatever text parses, rendering and parsing its key again gives the same key |
| `SessionKeyCodec.ParsedIsReadable` | crates/clawbro-protocol/src/session_key_codec.rs:54-74 | every parsed key is trimmed and readable |
| `SessionKeyCodec.ParseFailsIff` | crates/clawbro-protocol/src/session_key_codec.rs:54-74 | exactly which texts are refused for want of a separator, for a blank scope and for a blank channel |
| `SessionKeyCodec.TeamClientRecoversConversationIff` | crates/clawbro-rust-agent/src/team.rs:29-32 | the agent's team client recovers the conversation of the session reference the host rendered exactly when the key is readable and its channel and scope are trimmed |
| `SessionKeyCodec.SessionNameIsIdentity` | crates/clawbro-session/src/key.rs:7-15 | among plain keys, session-id names are equal exactly for the same conversation |
| `SessionKeyCodec.NameIsUniqueIff` | crates/clawbro-session/src/key.rs:7-15 | no other conversation has a conversation's session-id name if and only if it has no instance, no `:` in channel or scope, and no `@` in the channel that could start an instance |
| `SessionKeyCodec.SessionNamesCollide` | crates/clawbro-session/src/key.rs:10-13 | every conversation with a channel instance shares its session-id name with another conversation, though their storage keys differ |
| `Relay.ExtractRelayMarkers` | crates/clawbro-agent/src/relay.rs:47-83 | the scanning loop finds the markers of the recursive specification |
| `Relay.ExtractFromChunks` | crates/clawbro-agent/src/relay.rs:47-83 | from any text made of inert gaps and well-formed markers, exactly the dispatchable markers are extracted, in order |
| `Relay.MarkerRoundTrip` | crates/clawbro-agent/src/relay.rs:55-74 | a written marker is read back with its own agent and instruction |
| `Relay.WrittenMarkerIsWellFormed` | crates/clawbro-agent/src/relay.rs:52-56 | a marker written without inner brackets is well formed |
| `Relay.Process` | crates/clawbro-agent/src/relay.rs:103-136 | every marker's own agent is asked to do its own instruction, once and in order, and the marker's text is replaced everywhere by the reply or the fallback notice, one marker after another |
| `Relay.WrittenReplyIsDispatched` | crates/clawbro-agent/src/relay.rs:103-136 | from a reply that mixes written markers with other text, exactly the written agents are asked for exactly the written instructions, in order |
| `Relay.OneMarkerIsAnswered` | crates/clawbro-agent/src/relay.rs:110-132 | a marker between other text is replaced by exactly the reply, the no-reply notice or the error notice its dispatch comes back with |
| `Relay.RelayIsPositional` | crates/clawbro-agent/src/relay.rs:103-136 | with inert replies the sequential global replacements are one simultaneous positional substitution, equal markers sharing the first one's reply, and nothing is left to extract |
| `Relay.NoOpeningSurvives` | crates/clawbro-agent/src/relay.rs:103-136 | if moreover every marker can be dispatched, no `[RELAY:` remains |
| `Relay.UnbracketedIsInert` | crates/clawbro-agent/src/relay.rs:116-118 | a reply without an opening bracket is inert |
| `Relay.NoReplyIsInertIff` | crates/clawbro-agent/src/relay.rs:119-123 | the no-reply notice is inert exactly when the agent's name does not itself open a marker |
| `Relay.ScannedIsTheText` | crates/clawbro-agent/src/relay.rs:52-79 | every text is the gaps and markers the scanner cuts it into, and the dispatchable ones are those extracted |
| `Relay.ReplaceIsSubstituteIff` | crates/clawbro-agent/src/relay.rs:116-118 | in any text, replacing a marker's text everywhere is substituting that marker if and only if the replacement is the marker itself or its text occurs nowhere else |
| `Relay.ProcessIsPositionalIff` | crates/clawbro-agent/src/relay.rs:103-136 | for every text and all replies: every stage of the rewriting equals positional rewriting if and only if, at each stage, the marker to be replaced does not occur stray in the text so far or is replaced by itself |
| `Relay.QuotedMarkerIsRewritten` | crates/clawbro-agent/src/relay.rs:110-118 | for any two different well-formed markers: their concatenation extracts as these two, and a first reply that quotes the second makes sequential and positional rewriting differ |
| `ApprovalBroker.AlwaysSound` | crates/clawbro-runtime/src/approval.rs:49-117 | in every interleaving: each pending entry is the sender of a waiter of that id, each waiter's sender is where it is said to be, and channels agree with the history of resolutions |
| `ApprovalBroker.ApprovalFailsClosed` | crates/clawbro-runtime/src/approval.rs:91-117 | a returned waiter was allowed exactly when a resolve that took its own sender delivered that decision while it was still waiting |
| `ApprovalBroker.DenialIff` | crates/clawbro-runtime/src/approval.rs:49-117 | over every run a returned waiter was denied if and only if it timed out, a resolve took its own sender with a denial, a later register of its id displaced it, or another waiter's clear took its entry |
| `ApprovalBroker.LoneRequestGetsItsDecision` | crates/clawbro-runtime/src/approval.rs:63-117 | a request whose id no other request shares and that never times out returns what its own resolve decided |
| `ApprovalBroker.ClearCancelsOtherIff` | crates/clawbro-runtime/src/approval.rs:78-80 | in every reachable state, a timed-out waiter's clear touches another request if and only if the entry under its id is not its own |
| `ApprovalBroker.NoWaiterIsOrphaned` | crates/clawbro-runtime/src/approval.rs:49-80 | every unfinished waiter has a ready channel, or its sender is pending under its id or in the hands of an operation in progress |
| `ApprovalBroker.ResolutionsNeverExceedRegistrations` | crates/clawbro-runtime/src/approval.rs:63-68 | successful resolves never outnumber registrations |
| `ApprovalBroker.SuccessfulResolveCanBeLost` | crates/clawbro-runtime/src/approval.rs:110-116 | a run in which resolve reports success and the waiter returns a denial |
| `ApprovalBroker.LateClearDeniesNewcomer` | crates/clawbro-runtime/src/approval.rs:78-80 | a run in which a timed-out waiter's clear cancels a newer request of the same id, neither resolved nor timed out |
| `ApprovalBroker.SharedBroker.Register` | crates/clawbro-runtime/src/approval.rs:49-61 | the earlier request of the same id is denied, the new one is pending, no other waiter changes |
| `ApprovalBroker.SharedBroker.Resolve` | crates/clawbro-runtime/src/approval.rs:63-68 | true exactly when a request of that id is pending and still listened to; the decision goes to that request's waiter |
| `ApprovalBroker.SharedBroker.Wait` | crates/clawbro-runtime/src/approval.rs:91-117 | returns the decision its channel holds, and otherwise clears its id and denies |
| `TurnSerialization.AlwaysExclusive` | crates/clawbro-agent/src/registry.rs:818-831 | in every interleaving, permits in use and turns past the semaphore correspond one to one |
| `TurnSerialization.OneTurnAtATime` | crates/clawbro-agent/src/registry.rs:818-831 | at most one turn of a conversation is past the semaphore, a group being one conversation whatever the instance |
| `TurnSerialization.BusyIffInFlight` | crates/clawbro-agent/src/registry.rs:542-547 | a key reads as busy exactly when a turn of the same conversation is past the semaphore |
| `TurnSerialization.LogIsBlocksInOrder` | crates/clawbro-agent/src/registry.rs:918-937 | in every interleaving over keys whose session names tell their conversations apart, each session's log is its turns' blocks (a user message, then at most one reply) in order of admission, and each turn was given the newest entries, at most fifty, of the blocks before its own |
| `TurnSerialization.SerializesIff` | crates/clawbro-agent/src/registry.rs:818-937 | for any family of keys: every run over them keeps every log in blocks, in order of admission, if and only if no two of their conversations share a session name |
| `TurnSerialization.PlainKeysSerialize` | crates/clawbro-session/src/key.rs:7-15 | in particular for keys whose channel has no `:` or `@` and whose instance no `:` |
| `TurnSerialization.CollidingNamesInterleave` | crates/clawbro-session/src/key.rs:10-14 | for any two conversations whose session names collide, a run whose shared log splits a turn's two entries |
| `TurnSerialization.SessionRegistry.TryAcquire` | crates/clawbro-agent/src/registry.rs:822-831 | a turn is admitted exactly when its conversation is idle |
| `TurnSerialization.SessionRegistry.LoadHistory` | crates/clawbro-session/src/storage.rs:148-168 | a turn is given the newest entries of its session's log, fifty if there are so many |
| `TurnSerialization.SessionRegistry.StoreUser` | crates/clawbro-agent/src/registry.rs:926-937 | the user message is appended to the session's own log |
| `TurnSerialization.SessionRegistry.StoreAssistant` | crates/clawbro-agent/src/post_turn.rs:110-127 | the reply is appended to the session's own log |
| `TurnSerialization.SessionRegistry.HandleTurn` | crates/clawbro-agent/src/registry.rs:793-937 | a whole turn in place is the composition of its atomic steps; it has a history exactly if its conversation was idle |
| `TurnSerialization.HandledTurnEffect` | crates/clawbro-agent/src/registry.rs:818-937 | an uninterrupted turn appends its user message and reply to its own session's log, leaves every other log alone, and gives its permit back |
| `Dedup.DedupStore.CheckAndInsert` | crates/clawbro-agent/src/dedup.rs:24-37 | a message is new exactly when no entry of its id is younger than the time-to-live; the table is the purged one with the new entry |
| `Dedup.LarkGate.ShouldAcceptMessage` | crates/clawbro-channels/src/lark.rs:157-168 | counting whole seconds is the same rule with a time-to-live of 600 seconds |
| `Dedup.AcceptedIff` | crates/clawbro-agent/src/dedup.rs:24-37 | over every run with a monotonic clock, a delivery is accepted exactly when none of the same id was accepted within the time-to-live before it |
| `Dedup.TableIsAccepted` | crates/clawbro-agent/src/dedup.rs:27-36 | every table entry is an accepted delivery |
| `Dedup.AliveIsInTable` | crates/clawbro-agent/src/dedup.rs:27-36 | every accepted delivery still alive is in the table |
| `DedupConcurrency.AlwaysSound` | crates/clawbro-agent/src/dedup.rs:24-37 | in every interleaving of purge visits and entries: every entry was accepted, every acceptance is still in the table or over, every rejection has a cause |
| `DedupConcurrency.NoEarlyRepeat` | crates/clawbro-agent/src/dedup.rs:24-37 | in every interleaving, when an id enters the table again the clock has passed each earlier acceptance's own reading by the time-to-live |
| `DedupConcurrency.StampsTooCloseIff` | crates/clawbro-agent/src/dedup.rs:25-36 | over every run: an acceptance has an earlier one of its id within the time-to-live, by the times the two calls read, if and only if another call's purge took an entry of that id that was still young for it |
| `DedupConcurrency.AcceptedThoughYoungIff` | crates/clawbro-agent/src/dedup.rs:25-36 | the same for a call at the moment it is about to be accepted |
| `DedupConcurrency.AcceptedTwiceAtOnce` | crates/clawbro-agent/src/dedup.rs:25-36 | a run in which an id is accepted twice at one value of the clock, the first time with a stale reading |
| `DedupConcurrency.RejectedForCause` | crates/clawbro-agent/src/dedup.rs:28-36 | in every interleaving a rejected call meets an acceptance of its id within the time-to-live or one that entered during the call |
| `DedupConcurrency.RejectedIff` | crates/clawbro-agent/src/dedup.rs:27-36 | a call that no purge overtook, and past whose purge no call with a reading older by the time-to-live entered, is rejected if and only if an acceptance of its id is young by its own reading |
| `DedupConcurrency.RejectedThoughOldSlipped` | crates/clawbro-agent/src/dedup.rs:27-36 | a call rejected with no young acceptance of its id always had such an older call enter after its purge |
| `DedupConcurrency.StaleReadingIsAccepted` | crates/clawbro-agent/src/dedup.rs:25-30 | a run in which a call's stale clock reading is accepted within the time-to-live of an earlier one |
| `Fanout.ExtractAgentMentions` | crates/clawbro-channels/src/mention_parsing.rs:3-22 | the mentions of a text are its trimmed `@` tokens, each once, in order of first occurrence |
| `Fanout.WordsSplit` | crates/clawbro-channels/src/mention_parsing.rs:6-9 | the words of a text are those on either side of any blank |
| `Fanout.VisibleIsWord` | crates/clawbro-channels/src/mention_parsing.rs:6-9 | a text without blanks is one word |
| `Fanout.MentionsIff` | crates/clawbro-channels/src/mention_parsing.rs:7-20 | a mention is an `@` word, trimmed, with something left after the `@` |
| `Fanout.TrimMentionSpec` | crates/clawbro-channels/src/mention_parsing.rs:10-12 | trimming a mention removes exactly what follows its last letter, digit, dash or underscore |
| `Fanout.FirstOccurrencesSpec` | crates/clawbro-channels/src/mention_parsing.rs:18-20 | "each once, in order of first occurrence": distinct, same elements, ordered by first position |
| `Fanout.MapPlatformMentions` | crates/clawbro-channels/src/lark.rs:511-527 | platform mentions become the known bots' instances, each once |
| `Fanout.CollectTargets` | crates/clawbro-channels/src/lark.rs:842-853 | the targets are platform mentions, then text mentions, each once |
| `Fanout.FindTargets` | crates/clawbro-channels/src/lark.rs:842-856 | all mentioned targets, or in a group the mentioned bot itself when there are none |
| `Fanout.FanOut` | crates/clawbro-channels/src/lark.rs:858-890 | one message per target, for that target, under its fan-out id, handled as the instance the target names if some bot is known to be it and as the receiving one otherwise; or the bare message when there is no target |
| `Fanout.KnownInstanceIsAddressed` | crates/clawbro-channels/src/lark.rs:529-542 | in particular the message for `@v` is handled as `v` if some bot is known to be that instance |
| `Fanout.TargetsIff` | crates/clawbro-channels/src/lark.rs:842-856 | a message is for whom its platform mentions, in a group, or its text name, and for the mentioned bot itself in a group when it names nobody |
| `Fanout.TextTargetsIff` | crates/clawbro-channels/src/lark.rs:494-509 | a mention in the text is for the instance of the bot it names or else for itself, and a platform's stand-in is for nobody |
| `Fanout.MentionNameOf` | crates/clawbro-channels/src/lark.rs:477-479 | a bot's name reads the same with and without `@` |
| `Fanout.FannedOutIdsAreDistinct` | crates/clawbro-channels/src/lark.rs:874-890 | the messages of one event all strip back to the event's id and, for plain targets, carry distinct ids |
| `Fanout.StripRecoversBase` | crates/clawbro-channels/src/lark.rs:322-325 | stripping at `#` recovers the platform's message id |
| `Fanout.IdsEqualIff` | crates/clawbro-channels/src/mention_parsing.rs:24-42 | with or without a target, fan-out ids are equal exactly when bases and sanitized targets are |
| `Fanout.StableTargetSpec` | crates/clawbro-channels/src/mention_parsing.rs:27-38 | a target counts without outer blanks and leading `@`s, each character that is not a letter, digit, dash or underscore as an underscore |
| `Fanout.PlainIdsAreInjective` | crates/clawbro-channels/src/mention_parsing.rs:24-42 | over targets `@[A-Za-z0-9_-]+` fan-out ids are injective in base and target |
| `Fanout.OtherIdsCollide` | crates/clawbro-channels/src/mention_parsing.rs:27-38 | two targets with one fan-out id |
| `Fanout.HandledOncePerTarget` | crates/clawbro-agent/src/dedup.rs:24-37 | fan-out and deduplication together, for any targets: a target of a message is handled exactly when no target that sanitizes alike was already handled for that message within the time-to-live |
| `MentionPropagation.FirstVisibleLineSpec` | crates/clawbro-channels/src/mention_trigger.rs:76-81 | the instruction is the text after leading blanks up to the end of its line, trimmed; it is empty exactly when all is blank |
| `MentionPropagation.InstructionIff` | crates/clawbro-channels/src/mention_trigger.rs:70-85 | a bot is asked exactly when visible text follows the first mention of its name, and what it is asked is the first visible line after that mention |
| `MentionPropagation.NamesInterfereIff` | crates/clawbro-channels/src/mention_trigger.rs:70-85 | every output that asks one bot also asks another if and only if the one's `@name` contains the other's, as when the other's name is a prefix |
| `MentionPropagation.MentionWithinAsks` | crates/clawbro-channels/src/mention_trigger.rs:70-71 | for any output, asking a bot also asks every bot whose mention its mention contains |
| `MentionPropagation.TriggeredIff` | crates/clawbro-channels/src/mention_trigger.rs:64-104 | a message is triggered exactly for a registered bot that is asked and is not the sender; it hands over what is asked, from the sender, in the same scope, marked as a bot mention |
| `MentionPropagation.TriggeredInOrder` | crates/clawbro-channels/src/mention_trigger.rs:60-104 | the triggered messages come in roster order |
| `MentionPropagation.TurnSends` | crates/clawbro-agent/src/post_turn.rs:50-58 | a human or scheduled turn of anyone but a lead sends exactly the triggered messages if they fit; every other turn sends nothing |
| `MentionPropagation.MentionTrigger.ScanAndDispatch` | crates/clawbro-channels/src/mention_trigger.rs:41-104 | the scan offers the triggered messages to the bounded queue in roster order, and none for an automated source |
| `MentionPropagation.OfferAllKeepsWhatFits` | crates/clawbro-channels/src/mention_trigger.rs:96-101 | a full queue drops messages from the end and never reorders |
| `MentionPropagation.FullChannelDrops` | crates/clawbro-channels/src/mention_trigger.rs:96-101 | scanning into the bounded queue is one of the gateway's steps, with those messages dropped that did not fit |
| `MentionPropagation.RedispatchAddsNothing` | crates/clawbro-agent/src/post_turn.rs:205-210 | the turn of a bot-triggered message triggers no further message |
| `MentionPropagation.PropagationIsBounded` | crates/clawbro-agent/src/post_turn.rs:50-58 | over every run: what was sent is what was handled, in order, then what is in progress, then the queue; it is at most one message per bot and human or scheduled non-lead turn; none targets its sender |
| `MentionPropagation.QueueDrains` | crates/clawbro-server/src/gateway_process.rs:610-640 | every redispatch step uses up one unit of work and only scanning turns add any; as long as work is left, a step is enabled |
| `Bindings.ResolutionIsMaximum` | crates/clawbro-agent/src/bindings.rs:68-113 | the seven reverse scans find exactly the matching rule with the greatest (class, position), and none exactly when nothing matches |
| `Bindings.RuleApplies` | crates/clawbro-agent/src/bindings.rs:115-201 | when each of the seven kinds of rule applies to a message, down to the text of its scope |
| `Bindings.PrecedenceOfKinds` | crates/clawbro-agent/src/bindings.rs:68-113 | a matching rule can only lose to one of a kind at least as specific: thread, scope, peer, team, instance, channel, default |
| `Bindings.ResolutionIsFold` | crates/clawbro-agent/src/bindings.rs:68-113 | a rule added last wins exactly when it matches and its class is at least the current winner's |
| `Bindings.BindingRegistry.RegisterBinding` | crates/clawbro-agent/src/registry.rs:634-646 | a rule is appended exactly when no roster is configured or the roster knows its agent |
| `Bindings.RegisteredAreAdmitted` | crates/clawbro-agent/src/registry.rs:634-646 | every registered rule names an agent the roster knows |
| `Bindings.WinnerAlwaysHasAgent` | crates/clawbro-agent/src/routing.rs:167-185 | with a roster, whatever rules were offered, an agent is found exactly when an admitted rule matches, and it is the winning rule's agent |
| `Bindings.FindByName` | crates/clawbro-agent/src/roster.rs:54-59 | an agent is found by name in any case, exactly if the roster has one |
| `ProviderName.SanitizeProviderName` | crates/clawbro-runtime/src/codex_local_config.rs:177-192 | the loop computes the sanitized name |
| `ProviderName.SanitizeIsJoinedRuns` | crates/clawbro-runtime/src/codex_local_config.rs:177-192 | the name is the input's alphanumeric runs, lowercased and joined with `_`, or `provider` if there are none |
| `ProviderName.RunsSplit` | crates/clawbro-runtime/src/codex_local_config.rs:179-185 | the runs are those of splitting at every non-alphanumeric character |
| `ProviderName.RunsOfWord` | crates/clawbro-runtime/src/codex_local_config.rs:180-181 | an alphanumeric word is one run, lowercased |
| `ProviderName.SanitizeIsCanonical` | crates/clawbro-runtime/src/codex_local_config.rs:186-191 | the name is nonempty, over `[a-z0-9_]`, with no leading, trailing or doubled `_` |
| `ProviderName.FixedPointIff` | crates/clawbro-runtime/src/codex_local_config.rs:177-192 | the sanitizer leaves a name alone exactly when it is such a name |
| `ProviderName.SanitizeIdempotent` | crates/clawbro-runtime/src/codex_local_config.rs:177-192 | sanitizing twice is sanitizing once |
| `ProviderName.RunsConserveAlnums` | crates/clawbro-runtime/src/codex_local_config.rs:179-185 | no letter or digit is lost, added or reordered |

## Left out

- HTTP, WebSocket and protobuf plumbing, token caches, retries, QR login and the per-channel payload codecs: I/O over libraries.
- LLM engines, the ACP agent, tool registration and the stdio bridge: thin wrappers over code that is not part of this model.
- Team orchestration, the scheduler, the memory store and file formats of session storage: a session's log is an append-only sequence of entries per session name.
- Slash commands, `/reset` and `/clear`: they bypass the semaphore and replace logs, so the serialization theorems are about runs without them.
- The rest of turn routing (explicit mentions, defaults, lead selection), delivery fallback, allowlists, trigger policies and prompt text: each is settled by reading one branch.
- The timer's restart after every event and the `biased` order of the `select!`: a schedule is any sequence of resolved arms, which includes every sequence those choices allow.
- Broadcast lag: a lagged receiver resolves as the same error arm as a closed bus, which is how the loop treats it; the end-to-end delivery theorems assume that arm does not occur.
- The overflow of `head_chars + tail_chars + 32` at the machine word: counts are unbounded here.
- Tool arguments keep their JSON text; parsing them is a library's work.
- Unicode lowercasing and the Unicode alphanumeric property are parameters, characters are code points, and white space is the White_Space property.
- A session id stands for the name it is hashed from; hash collisions are not modelled.
- Identifiers, timestamps and delivery details of triggered and fanned-out messages that no decision depends on.
- RelayIsPositional: inert replies are sufficient for the final text to be positional; the exact condition is `ProcessIsPositionalIff`, stage by stage. The final text alone may also come out positional when two disturbances undo each other.
- SessionNameIsIdentity: for plain keys only, since `SessionNamesCollide` refutes it for others; which conversations share no name at all is `NameIsUniqueIff`.
- CheckAndInsert: one call without interruption; overlapping calls are the steps of `DedupConcurrency`, where a purge visits entries one at a time.
- HandleTurn: a turn of a busy conversation returns queued instead of waiting for the permit; waiting is the `Acquire` step that comes later in an interleaving.
- A job that fails after it has put a completion on the bus, through the fingerprint of its backend specification (crates/clawbro-agent/src/runtime_dispatch.rs:342): there the completion precedes the error, while here a failed turn synthesises nothing.
- RuntimeDispatch: the job's, forwarder's and dispatcher's threads are interleaved moves on a value, not an object updated in place; worker selection and the construction of the request are left out.
