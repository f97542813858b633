/** Turns of the session registry: one at a time per conversation, in every interleaving. */
module TurnSerialization {
  import opened Prelude
  import opened SessionKeyCodec

  // A line of a session's message log, by the turn that wrote it.
  datatype Entry = UserSaid(turn: nat) | AssistantSaid(turn: nat)

  // Where a turn is in `handle_with_context_internal`.
  datatype Phase = Queued | Admitted | HistoryLoaded | UserStored | AssistantStored | Finished

  datatype Turn = Turn(
    key: SessionKey,
    phase: Phase,
    slot: nat,              // its place in the order of admission
    history: Option<seq<Entry>>,
    asked: bool,
    answered: bool)

  // The semaphore map is keyed by conversation, the message logs by session name.
  datatype Registry = Registry(
    turns: seq<Turn>,
    permits: map<SessionKey, nat>,
    logs: map<string, seq<Entry>>,
    order: seq<nat>)

  const EMPTY := Registry([], map[], map[], [])

  const HISTORY_LIMIT := 50

  datatype Step =
    | Arrive(key: SessionKey)
    | Acquire(t: nat)
    | LoadHistory(t: nat)
    | StoreUser(t: nat)
    | StoreAssistant(t: nat)
    | Finish(t: nat)           // return, fail or be cancelled, at any point

  predicate InFlight(turn: Turn) {
    !turn.phase.Queued? && !turn.phase.Finished?
  }

  function Conversation(turn: Turn): SessionKey {
    NormalizeIdentity(turn.key)
  }

  function Log(r: Registry, name: string): seq<Entry> {
    if name in r.logs then r.logs[name] else []
  }

  function LastEntries(log: seq<Entry>, limit: nat): seq<Entry> {
    if |log| <= limit then log else log[|log| - limit..]
  }

  // At most the fifty newest entries.
  predicate IsLastFifty(history: seq<Entry>, log: seq<Entry>) {
    && |history| == (if |log| < 50 then |log| else 50)
    && history == log[|log| - |history|..]
  }

  lemma LastFifty(log: seq<Entry>)
    ensures IsLastFifty(LastEntries(log, HISTORY_LIMIT), log)
  {
  }

  function WithTurn(r: Registry, t: nat, turn: Turn): Registry
    requires t < |r.turns|
  {
    r.(turns := r.turns[t := turn])
  }

  function Appended(r: Registry, name: string, e: Entry): Registry {
    r.(logs := r.logs[name := Log(r, name) + [e]])
  }

  // A step that is not enabled changes nothing.
  function Apply(r: Registry, step: Step): Registry {
    match step
    case Arrive(key) => r.(turns := r.turns + [Turn(key, Queued, 0, None, false, false)])
    case Acquire(t) =>
      if t < |r.turns| && r.turns[t].phase.Queued? && Conversation(r.turns[t]) !in r.permits then
        WithTurn(r, t, r.turns[t].(phase := Admitted, slot := |r.order|)).(
          permits := r.permits[Conversation(r.turns[t]) := t], order := r.order + [t])
      else r
    case LoadHistory(t) =>
      if t < |r.turns| && r.turns[t].phase.Admitted? then
        WithTurn(r, t, r.turns[t].(phase := HistoryLoaded,
          history := Some(LastEntries(Log(r, SessionName(r.turns[t].key)), HISTORY_LIMIT))))
      else r
    case StoreUser(t) =>
      if t < |r.turns| && r.turns[t].phase.HistoryLoaded? then
        Appended(WithTurn(r, t, r.turns[t].(phase := UserStored, asked := true)), SessionName(r.turns[t].key),
            UserSaid(t))
      else r
    case StoreAssistant(t) =>
      if t < |r.turns| && r.turns[t].phase.UserStored? then
        Appended(WithTurn(r, t, r.turns[t].(phase := AssistantStored, answered := true)), SessionName(r.turns[t].key),
            AssistantSaid(t))
      else r
    case Finish(t) =>
      if t < |r.turns| && !r.turns[t].phase.Finished? then
        var done := WithTurn(r, t, r.turns[t].(phase := Finished));
        if InFlight(r.turns[t]) then done.(permits := r.permits - {Conversation(r.turns[t])}) else done
      else r
  }

  function Run(steps: seq<Step>): Registry {
    if steps == [] then EMPTY else Apply(Run(steps[..|steps| - 1]), steps[|steps| - 1])
  }

  // ------------------------------------------------------- the log's blocks

  // What a turn contributes: its user message, then possibly its reply.
  function Block(turns: seq<Turn>, t: nat): seq<Entry>
    requires t < |turns|
  {
    (if turns[t].asked then [UserSaid(t)] else []) + (if turns[t].answered then [AssistantSaid(t)] else [])
  }

  predicate InRange(turns: seq<Turn>, order: seq<nat>) {
    forall i :: 0 <= i < |order| ==> order[i] < |turns|
  }

  // The blocks of a session's turns, in order of admission.
  function Blocks(turns: seq<Turn>, order: seq<nat>, name: string): seq<Entry>
    requires InRange(turns, order)
  {
    if order == [] then []
    else
      var t := order[|order| - 1];
      Blocks(turns, order[..|order| - 1], name) + (if SessionName(turns[t].key) == name then Block(turns, t) else [])
  }

  lemma {:induction false} BlocksFrame(turns: seq<Turn>, turns': seq<Turn>, order: seq<nat>, name: string)
    requires InRange(turns, order) && InRange(turns', order)
    requires forall i :: 0 <= i < |order| ==>
               && turns'[order[i]].key == turns[order[i]].key
               && (SessionName(turns[order[i]].key) == name ==> Block(turns', order[i]) == Block(turns, order[i]))
    ensures Blocks(turns', order, name) == Blocks(turns, order, name)
  {
    hide SessionName, Block;
    if order != [] {
      BlocksFrame(turns, turns', order[..|order| - 1], name);
    }
  }

  // Extending a session's last block extends its blocks.
  lemma {:induction false} LastBlockGrows(
    turns: seq<Turn>, turns': seq<Turn>, order: seq<nat>, p: nat, name: string, e: Entry)
    requires InRange(turns, order) && InRange(turns', order) && p < |order|
    requires forall i :: 0 <= i < |order| ==> turns'[order[i]].key == turns[order[i]].key
    requires forall i :: 0 <= i < |order| && i != p ==> Block(turns', order[i]) == Block(turns, order[i])
    requires SessionName(turns[order[p]].key) == name && Block(turns', order[p]) == Block(turns, order[p]) + [e]
    requires forall i :: p < i < |order| ==> SessionName(turns[order[i]].key) != name
    ensures Blocks(turns', order, name) == Blocks(turns, order, name) + [e]
  {
    hide SessionName, Block;
    var n := |order| - 1;
    if n == p {
      BlocksFrame(turns, turns', order[..n], name);
    } else {
      LastBlockGrows(turns, turns', order[..n], p, name, e);
    }
  }

  lemma {:induction false} NoLaterBlocks(turns: seq<Turn>, order: seq<nat>, p: nat, name: string)
    requires InRange(turns, order) && p <= |order|
    requires forall i :: p <= i < |order| ==> SessionName(turns[order[i]].key) != name || Block(turns, order[i]) == []
    ensures Blocks(turns, order, name) == Blocks(turns, order[..p], name)
  {
    hide SessionName, Block;
    if p == |order| {
      assert order[..p] == order;
    } else {
      var n := |order| - 1;
      NoLaterBlocks(turns, order[..n], p, name);
      assert order[..n][..p] == order[..p];
    }
  }

  // The turns admitted before turn `t`.
  function Before(r: Registry, t: nat): seq<nat>
    requires t < |r.turns|
  {
    if r.turns[t].slot <= |r.order| then r.order[..r.turns[t].slot] else r.order
  }

  // The blocks of turn `t`'s session that were admitted before its own.
  function Earlier(r: Registry, t: nat): seq<Entry>
    requires t < |r.turns| && InRange(r.turns, r.order)
  {
    Blocks(r.turns, Before(r, t), SessionName(r.turns[t].key))
  }

  // ------------------------------------------------------------- invariant

  predicate HoldsPermit(r: Registry, t: nat)
    requires t < |r.turns|
  {
    var turn := r.turns[t];
    InFlight(turn) ==> Conversation(turn) in r.permits && r.permits[Conversation(turn)] == t
  }

  predicate PermitAgrees(r: Registry, c: SessionKey) {
    c in r.permits ==>
      && r.permits[c] < |r.turns|
      && InFlight(r.turns[r.permits[c]])
      && Conversation(r.turns[r.permits[c]]) == c
  }

  // Permits and turns in flight match one to one.
  ghost predicate Exclusive(r: Registry) {
    && (forall c {:trigger PermitAgrees(r, c)} :: PermitAgrees(r, c))
    && (forall t: nat {:trigger HoldsPermit(r, t)} :: t < |r.turns| ==> HoldsPermit(r, t))
  }

  // What a turn has loaded is the last entries of the blocks admitted before it.
  predicate TurnAgrees(r: Registry, t: nat)
    requires t < |r.turns| && InRange(r.turns, r.order)
  {
    var turn := r.turns[t];
    && (InFlight(turn) || turn.asked || turn.history.Some? ==> turn.slot < |r.order| && r.order[turn.slot] == t)
    && (turn.history.Some? ==> !turn.phase.Queued? && !turn.phase.Admitted?
                                 && turn.history.value == LastEntries(Earlier(r, t), HISTORY_LIMIT))
    && (turn.answered ==> turn.asked)
    && (turn.asked ==> turn.phase.UserStored? || turn.phase.AssistantStored? || turn.phase.Finished?)
    && (turn.phase.UserStored? ==> turn.asked && !turn.answered)
  }

  // A turn in flight is the last of its conversation to have been admitted.
  predicate SlotAgrees(r: Registry, i: nat)
    requires i < |r.order| && InRange(r.turns, r.order)
  {
    var t := r.order[i];
    && r.turns[t].slot == i
    && !r.turns[t].phase.Queued?
    && (InFlight(r.turns[t]) ==>
          forall j :: i < j < |r.order| ==> Conversation(r.turns[r.order[j]]) != Conversation(r.turns[t]))
  }

  ghost predicate TurnsAgree(r: Registry)
    requires InRange(r.turns, r.order)
  {
    forall t: nat {:trigger TurnAgrees(r, t)} :: t < |r.turns| ==> TurnAgrees(r, t)
  }

  ghost predicate SlotsAgree(r: Registry)
    requires InRange(r.turns, r.order)
  {
    forall i: nat {:trigger SlotAgrees(r, i)} :: i < |r.order| ==> SlotAgrees(r, i)
  }

  ghost predicate LogsAgree(r: Registry)
    requires InRange(r.turns, r.order)
  {
    forall name {:trigger Log(r, name)} :: Log(r, name) == Blocks(r.turns, r.order, name)
  }

  // The turns' session names tell their conversations apart.
  predicate NamesDecide(r: Registry) {
    forall t, u ::
      0 <= t < |r.turns| && 0 <= u < |r.turns| && SessionName(r.turns[t].key) == SessionName(r.turns[u].key) ==>
      Conversation(r.turns[t]) == Conversation(r.turns[u])
  }

  ghost predicate Sound(r: Registry) {
    && InRange(r.turns, r.order)
    && TurnsAgree(r) && SlotsAgree(r) && LogsAgree(r)
  }

  // -------------------------------------------------- each step keeps it

  lemma ApplyKeepsExclusive(r: Registry, step: Step)
    requires Exclusive(r)
    ensures Exclusive(Apply(r, step))
  {
    hide NormalizeIdentity, SessionName;
    var r' := Apply(r, step);
    if !step.Arrive? && step.t < |r.turns| {
      assert HoldsPermit(r, step.t) && PermitAgrees(r, Conversation(r.turns[step.t]));
    }
    forall c ensures PermitAgrees(r', c) {
      assert PermitAgrees(r, c);
    }
    forall t: nat | t < |r'.turns| ensures HoldsPermit(r', t) {
      assert t < |r.turns| ==> HoldsPermit(r, t) && PermitAgrees(r, Conversation(r.turns[t]));
    }
  }

  lemma {:induction false} AlwaysExclusive(steps: seq<Step>)
    ensures Exclusive(Run(steps))
  {
    if steps != [] {
      AlwaysExclusive(steps[..|steps| - 1]);
      ApplyKeepsExclusive(Run(steps[..|steps| - 1]), steps[|steps| - 1]);
    }
  }

  lemma ArriveKeepsSound(r: Registry, step: Step)
    requires Sound(r) && step.Arrive?
    ensures Sound(Apply(r, step))
  {
    var r' := Apply(r, step);
    forall p: nat, name | p <= |r.order|
      ensures Blocks(r'.turns, r.order[..p], name) == Blocks(r.turns, r.order[..p], name) {
      BlocksFrame(r.turns, r'.turns, r.order[..p], name);
    }
    assert r.order[..|r.order|] == r.order;
    forall t: nat | t < |r'.turns| ensures TurnAgrees(r', t) {
      assert t < |r.turns| ==> TurnAgrees(r, t);
    }
    forall i: nat | i < |r'.order| ensures SlotAgrees(r', i) {
      assert SlotAgrees(r, i);
    }
    forall name ensures Log(r', name) == Blocks(r'.turns, r'.order, name) {
      assert Log(r, name) == Blocks(r.turns, r.order, name);
    }
  }

  lemma NamesFollowConversations(r: Registry, t: nat, u: nat)
    requires NamesDecide(r) && t < |r.turns| && u < |r.turns|
    ensures SessionName(r.turns[t].key) == SessionName(r.turns[u].key) <==>
        Conversation(r.turns[t]) == Conversation(r.turns[u])
  {
  }

  // Nothing a turn in flight writes falls before another turn's admission.
  lemma EarlierBlocksStay(r: Registry, t: nat, turn': Turn, u: nat)
    requires Sound(r) && NamesDecide(r) && t < |r.turns| && u < |r.turns|
    requires InFlight(r.turns[t]) && turn'.key == r.turns[t].key
    requires r.turns[u].history.Some? || u == t
    ensures Blocks(r.turns[t := turn'], Before(r, u), SessionName(r.turns[u].key)) == Earlier(r, u)
  {
    hide SessionName, Block, NormalizeIdentity, LogsAgree, Blocks;
    assert TurnAgrees(r, u) && TurnAgrees(r, t);
    var before, turns' := Before(r, u), r.turns[t := turn'];
    var slot := r.turns[t].slot;
    assert SlotAgrees(r, slot);
    NamesFollowConversations(r, t, u);
    forall i | 0 <= i < |before|
      ensures turns'[before[i]].key == r.turns[before[i]].key
      ensures SessionName(r.turns[before[i]].key) == SessionName(r.turns[u].key) ==>
          Block(turns', before[i]) == Block(r.turns, before[i]) {
      assert SlotAgrees(r, i);
      if before[i] == t {
        assert i == slot < r.turns[u].slot && r.order[r.turns[u].slot] == u;
      } else {
        BlockOfOther(r.turns, t, turn', before[i]);
      }
    }
    BlocksFrame(r.turns, turns', before, SessionName(r.turns[u].key));
  }

  lemma BlockOfOther(turns: seq<Turn>, t: nat, turn': Turn, u: nat)
    requires t < |turns| && u < |turns| && u != t
    ensures Block(turns[t := turn'], u) == Block(turns, u)
  {
  }

  // Reading the log when admitted reads the blocks of the turns admitted before.
  lemma LogAtAdmission(r: Registry, t: nat)
    requires Sound(r) && NamesDecide(r) && t < |r.turns| && r.turns[t].phase.Admitted?
    ensures Log(r, SessionName(r.turns[t].key)) == Earlier(r, t)
  {
    hide SessionName, NormalizeIdentity;
    assert TurnAgrees(r, t);
    var slot, name := r.turns[t].slot, SessionName(r.turns[t].key);
    assert SlotAgrees(r, slot);
    forall i | slot <= i < |r.order|
      ensures SessionName(r.turns[r.order[i]].key) != name || Block(r.turns, r.order[i]) == [] {
      NamesFollowConversations(r, t, r.order[i]);
    }
    NoLaterBlocks(r.turns, r.order, slot, name);
    assert Log(r, name) == Blocks(r.turns, r.order, name);
  }

  // Writing to the log extends the writer's block.
  lemma LogAfterWrite(r: Registry, t: nat, turn': Turn, e: Entry, name: string)
    requires Sound(r) && NamesDecide(r) && t < |r.turns| && InFlight(r.turns[t]) && turn'.key == r.turns[t].key
    requires Block(r.turns[t := turn'], t) == Block(r.turns, t) + [e]
    ensures Blocks(r.turns[t := turn'], r.order, name) ==
              Blocks(r.turns, r.order, name) + (if name == SessionName(r.turns[t].key) then [e] else [])
  {
    hide SessionName, Block, NormalizeIdentity, LogsAgree, Blocks;
    assert TurnAgrees(r, t);
    var slot := r.turns[t].slot;
    assert SlotAgrees(r, slot);
    forall i | 0 <= i < |r.order| && i != slot
      ensures r.order[i] != t && Block(r.turns[t := turn'], r.order[i]) == Block(r.turns, r.order[i]) {
      assert SlotAgrees(r, i);
      BlockOfOther(r.turns, t, turn', r.order[i]);
    }
    if name == SessionName(r.turns[t].key) {
      forall i | slot < i < |r.order| ensures SessionName(r.turns[r.order[i]].key) != name {
        NamesFollowConversations(r, t, r.order[i]);
      }
      LastBlockGrows(r.turns, r.turns[t := turn'], r.order, slot, name, e);
    } else {
      BlocksFrame(r.turns, r.turns[t := turn'], r.order, name);
    }
  }

  // A step of a turn in flight that keeps its permit.
  predicate IsTurnStep(r: Registry, step: Step, t: nat) {
    && t < |r.turns| && InFlight(r.turns[t])
    && (step == LoadHistory(t) || step == StoreUser(t) || step == StoreAssistant(t))
  }

  lemma TurnStepKeepsSound(r: Registry, step: Step, t: nat)
    requires Sound(r) && NamesDecide(r) && IsTurnStep(r, step, t)
    ensures Sound(Apply(r, step))
  {
    hide SessionName, NormalizeIdentity, NamesDecide, Blocks, LastEntries, TurnAgrees, Log;
    var r' := Apply(r, step);
    if r' == r {
      return;
    }
    forall u: nat | u < |r'.turns| ensures TurnAgrees(r', u) {
      TurnStepKeepsTurn(r, step, t, u);
    }
    forall i: nat | i < |r'.order| ensures SlotAgrees(r', i) {
      assert SlotAgrees(r, i);
    }
    forall name ensures Log(r', name) == Blocks(r'.turns, r'.order, name) {
      TurnStepKeepsLog(r, step, t, name);
    }
  }

  lemma TurnStepKeepsTurn(r: Registry, step: Step, t: nat, u: nat)
    requires Sound(r) && NamesDecide(r) && IsTurnStep(r, step, t) && u < |r.turns|
    ensures TurnAgrees(Apply(r, step), u)
  {
    hide SessionName, NormalizeIdentity, NamesDecide, Blocks, LastEntries, LogsAgree, SlotsAgree;
    var r' := Apply(r, step);
    assert TurnAgrees(r, u);
    if r' != r {
      if step.LoadHistory? {
        LogAtAdmission(r, t);
      }
      if u == t || r.turns[u].history.Some? {
        EarlierBlocksStay(r, t, r'.turns[t], u);
      }
    }
  }

  lemma TurnStepKeepsLog(r: Registry, step: Step, t: nat, name: string)
    requires Sound(r) && NamesDecide(r) && IsTurnStep(r, step, t)
    ensures var r' := Apply(r, step); Log(r', name) == Blocks(r'.turns, r'.order, name)
  {
    hide SessionName, NormalizeIdentity, NamesDecide, Blocks, LastEntries, SlotsAgree;
    var r' := Apply(r, step);
    assert Log(r, name) == Blocks(r.turns, r.order, name);
    assert TurnAgrees(r, t);
    if r' != r {
      if step.LoadHistory? {
        BlocksFrame(r.turns, r'.turns, r.order, name);
      } else {
        LogAfterWrite(r, t, r'.turns[t], if step.StoreUser? then UserSaid(t) else AssistantSaid(t), name);
      }
    }
  }

  // Turns that change only their phase and slot leave every session's blocks alone.
  lemma SameBlocks(turns: seq<Turn>, turns': seq<Turn>, order: seq<nat>, name: string)
    requires InRange(turns, order) && |turns| == |turns'|
    requires forall t :: 0 <= t < |turns| ==>
               && turns'[t].key == turns[t].key
               && turns'[t].asked == turns[t].asked
               && turns'[t].answered == turns[t].answered
    ensures Blocks(turns', order, name) == Blocks(turns, order, name)
  {
    BlocksFrame(turns, turns', order, name);
  }

  lemma BlocksNext(turns: seq<Turn>, order: seq<nat>, t: nat, name: string)
    requires InRange(turns, order) && t < |turns| && Block(turns, t) == []
    ensures Blocks(turns, order + [t], name) == Blocks(turns, order, name)
  {
    assert (order + [t])[..|order|] == order;
  }

  lemma AcquireKeepsSound(r: Registry, step: Step)
    requires Sound(r) && Exclusive(r) && step.Acquire?
    ensures Sound(Apply(r, step))
  {
    hide SessionName, NormalizeIdentity, Blocks, LastEntries;
    var r' := Apply(r, step);
    if r' == r {
      return;
    }
    var t := step.t;
    assert TurnAgrees(r, t);
    forall u: nat | u < |r'.turns| ensures TurnAgrees(r', u) {
      assert TurnAgrees(r, u);
      if r.turns[u].history.Some? {
        assert Before(r', u) == Before(r, u);
        SameBlocks(r.turns, r'.turns, Before(r, u), SessionName(r.turns[u].key));
      }
    }
    forall i: nat | i < |r'.order| ensures SlotAgrees(r', i) {
      if i < |r.order| {
        assert SlotAgrees(r, i) && HoldsPermit(r, r.order[i]);
      }
    }
    forall name ensures Log(r', name) == Blocks(r'.turns, r'.order, name) {
      assert Log(r, name) == Blocks(r.turns, r.order, name);
      SameBlocks(r.turns, r'.turns, r.order, name);
      BlocksNext(r'.turns, r.order, t, name);
    }
  }

  lemma FinishKeepsSound(r: Registry, step: Step)
    requires Sound(r) && step.Finish?
    ensures Sound(Apply(r, step))
  {
    hide Block, SessionName, NormalizeIdentity, Blocks, LastEntries, TurnAgrees;
    var r' := Apply(r, step);
    if r' == r {
      return;
    }
    forall u: nat | u < |r'.turns| ensures TurnAgrees(r', u) {
      FinishKeepsTurn(r, step, u);
    }
    forall i: nat | i < |r'.order| ensures SlotAgrees(r', i) {
      assert SlotAgrees(r, i);
    }
    forall name ensures Log(r', name) == Blocks(r'.turns, r'.order, name) {
      assert Log(r, name) == Blocks(r.turns, r.order, name);
      SameBlocks(r.turns, r'.turns, r.order, name);
    }
  }

  lemma FinishKeepsTurn(r: Registry, step: Step, u: nat)
    requires Sound(r) && step.Finish? && u < |r.turns|
    ensures TurnAgrees(Apply(r, step), u)
  {
    hide Block, SessionName, NormalizeIdentity, Blocks, LastEntries, LogsAgree, SlotsAgree;
    var r' := Apply(r, step);
    assert TurnAgrees(r, u);
    SameBlocks(r.turns, r'.turns, Before(r, u), SessionName(r.turns[u].key));
  }

  // The keys with which turns arrive.
  ghost predicate ArrivalsIn(steps: seq<Step>, keys: iset<SessionKey>) {
    forall i :: 0 <= i < |steps| && steps[i].Arrive? ==> steps[i].key in keys
  }

  // No two conversations among `keys` share a session name.
  ghost predicate Unambiguous(keys: iset<SessionKey>) {
    forall a, b :: a in keys && b in keys && SessionName(a) == SessionName(b) ==>
        NormalizeIdentity(a) == NormalizeIdentity(b)
  }

  ghost predicate TurnsIn(r: Registry, keys: iset<SessionKey>) {
    forall t :: 0 <= t < |r.turns| ==> r.turns[t].key in keys
  }

  lemma {:induction false} TurnsArrived(steps: seq<Step>, keys: iset<SessionKey>)
    requires ArrivalsIn(steps, keys)
    ensures TurnsIn(Run(steps), keys)
  {
    hide SessionName, NormalizeIdentity;
    if steps != [] {
      TurnsArrived(steps[..|steps| - 1], keys);
    }
  }

  lemma ArrivedNamesDecide(r: Registry, keys: iset<SessionKey>)
    requires Unambiguous(keys) && TurnsIn(r, keys)
    ensures NamesDecide(r)
  {
    hide SessionName, NormalizeIdentity;
  }

  lemma {:induction false} AlwaysSound(steps: seq<Step>, keys: iset<SessionKey>)
    requires ArrivalsIn(steps, keys) && Unambiguous(keys)
    ensures Sound(Run(steps))
  {
    hide Sound, Blocks, SessionName, NormalizeIdentity, LastEntries, Unambiguous, NamesDecide;
    if steps == [] {
      EmptyIsSound();
    } else {
      var before, step := steps[..|steps| - 1], steps[|steps| - 1];
      var r := Run(before);
      AlwaysSound(before, keys);
      AlwaysExclusive(before);
      TurnsArrived(before, keys);
      ArrivedNamesDecide(r, keys);
      match step
      case Arrive(_) => ArriveKeepsSound(r, step);
      case Acquire(_) => AcquireKeepsSound(r, step);
      case Finish(_) => FinishKeepsSound(r, step);
      case LoadHistory(t) => if t < |r.turns| && InFlight(r.turns[t]) { TurnStepKeepsSound(r, step, t); }
      case StoreUser(t) => if t < |r.turns| && InFlight(r.turns[t]) { TurnStepKeepsSound(r, step, t); }
      case StoreAssistant(t) => if t < |r.turns| && InFlight(r.turns[t]) { TurnStepKeepsSound(r, step, t); }
    }
  }

  lemma EmptyIsSound()
    ensures Sound(EMPTY)
  {
  }

  // ------------------------------------------------------------- properties

  // At most one turn of a conversation is past the semaphore.
  lemma {:induction false} OneTurnAtATime(steps: seq<Step>, t: nat, u: nat)
    requires t < |Run(steps).turns| && u < |Run(steps).turns|
    requires InFlight(Run(steps).turns[t]) && InFlight(Run(steps).turns[u])
    requires SameConversation(Run(steps).turns[t].key, Run(steps).turns[u].key)
    ensures t == u
  {
    AlwaysExclusive(steps);
    IdentityIsConversation(Run(steps).turns[t].key, Run(steps).turns[u].key);
    hide SameConversation, NormalizeIdentity;
    assert HoldsPermit(Run(steps), t) && HoldsPermit(Run(steps), u);
  }

  // `is_session_busy`: a conversation's semaphore has no permit left.
  predicate IsBusy(r: Registry, key: SessionKey) {
    NormalizeIdentity(key) in r.permits
  }

  // A key's conversation is busy exactly when a turn of it is past the semaphore.
  lemma BusyIffInFlight(steps: seq<Step>, key: SessionKey)
    ensures IsBusy(Run(steps), key) <==>
              exists t: nat :: t < |Run(steps).turns| && InFlight(Run(steps).turns[t])
                            && SameConversation(Run(steps).turns[t].key, key)
  {
    var r := Run(steps);
    AlwaysExclusive(steps);
    hide NormalizeIdentity, SameConversation;
    assert PermitAgrees(r, NormalizeIdentity(key));
    forall t: nat | t < |r.turns|
      ensures SameConversation(r.turns[t].key, key) <==> Conversation(r.turns[t]) == NormalizeIdentity(key) {
      IdentityIsConversation(r.turns[t].key, key);
    }
    if exists t: nat :: t < |r.turns| && InFlight(r.turns[t]) && SameConversation(r.turns[t].key, key) {
      var t: nat :| t < |r.turns| && InFlight(r.turns[t]) && SameConversation(r.turns[t].key, key);
      assert HoldsPermit(r, t);
    }
  }

  // Each session's log is its turns' blocks, a user message and then at most one reply, in
  // order of admission; and each turn was given the last fifty entries of the blocks before
  // its own.
  lemma LogIsBlocksInOrder(steps: seq<Step>, keys: iset<SessionKey>, name: string)
    requires ArrivalsIn(steps, keys) && Unambiguous(keys)
    ensures var r := Run(steps);
            && InRange(r.turns, r.order)
            && Log(r, name) == Blocks(r.turns, r.order, name)
            && forall t: nat :: t < |r.turns| && r.turns[t].history.Some? ==>
                 && r.turns[t].slot < |r.order| && r.order[r.turns[t].slot] == t
                 && IsLastFifty(r.turns[t].history.value, Earlier(r, t))
  {
    AlwaysSound(steps, keys);
    var r := Run(steps);
    assert Log(r, name) == Blocks(r.turns, r.order, name);
    forall t: nat | t < |r.turns| && r.turns[t].history.Some?
      ensures r.turns[t].slot < |r.order| && r.order[r.turns[t].slot] == t
      ensures IsLastFifty(r.turns[t].history.value, Earlier(r, t)) {
      assert TurnAgrees(r, t);
      LastFifty(Earlier(r, t));
    }
  }

  lemma RunNext(steps: seq<Step>, step: Step)
    ensures Run(steps + [step]) == Apply(Run(steps), step)
  {
    assert (steps + [step])[..|steps|] == steps;
  }

  lemma BothAdmitted(a: SessionKey, b: SessionKey) returns (steps: seq<Step>)
    requires NormalizeIdentity(a) != NormalizeIdentity(b)
    ensures Run(steps) == Registry(
        [Turn(a, Admitted, 0, None, false, false), Turn(b, Admitted, 1, None, false, false)],
        map[NormalizeIdentity(a) := 0, NormalizeIdentity(b) := 1], map[], [0, 1])
    ensures steps == [Arrive(a), Arrive(b), Acquire(0), Acquire(1)]
  {
    hide NormalizeIdentity, SessionName;
    RunNext([], Arrive(a));
    var s1 := [] + [Arrive(a)];
    RunNext(s1, Arrive(b));
    var s2 := s1 + [Arrive(b)];
    RunNext(s2, Acquire(0));
    var s3 := s2 + [Acquire(0)];
    RunNext(s3, Acquire(1));
    steps := s3 + [Acquire(1)];
  }

  lemma BothStored(a: SessionKey, b: SessionKey) returns (steps: seq<Step>)
    requires SessionName(a) == SessionName(b) && NormalizeIdentity(a) != NormalizeIdentity(b)
    ensures Run(steps) == Registry(
        [Turn(a, AssistantStored, 0, Some([]), true, true), Turn(b, UserStored, 1, Some([]), true, false)],
        map[NormalizeIdentity(a) := 0, NormalizeIdentity(b) := 1],
        map[SessionName(a) := [UserSaid(0), UserSaid(1), AssistantSaid(0)]], [0, 1])
    ensures steps == [Arrive(a), Arrive(b), Acquire(0), Acquire(1),
                      LoadHistory(0), LoadHistory(1), StoreUser(0), StoreUser(1), StoreAssistant(0)]
  {
    hide NormalizeIdentity, SessionName, Run;
    var s4 := BothAdmitted(a, b);
    RunNext(s4, LoadHistory(0));
    var s5 := s4 + [LoadHistory(0)];
    RunNext(s5, LoadHistory(1));
    var s6 := s5 + [LoadHistory(1)];
    RunNext(s6, StoreUser(0));
    var s7 := s6 + [StoreUser(0)];
    RunNext(s7, StoreUser(1));
    var s8 := s7 + [StoreUser(1)];
    RunNext(s8, StoreAssistant(0));
    steps := s8 + [StoreAssistant(0)];
    assert Run(s7).logs.Keys == {SessionName(a)} && Run(s7).logs[SessionName(a)] == [UserSaid(0)];
    assert Run(s8).logs[SessionName(a)] == [UserSaid(0), UserSaid(1)];
    assert Run(steps).logs[SessionName(a)] == [UserSaid(0), UserSaid(1), AssistantSaid(0)];
    assert Run(steps).logs == map[SessionName(a) := [UserSaid(0), UserSaid(1), AssistantSaid(0)]];
    assert Run(steps).turns ==
           [Turn(a, AssistantStored, 0, Some([]), true, true), Turn(b, UserStored, 1, Some([]), true, false)];
  }

  // Two conversations whose session names collide hold different permits and write to one
  // log, so a turn's two entries can be split by another's.
  lemma CollidingNamesInterleave(a: SessionKey, b: SessionKey) returns (steps: seq<Step>)
    requires SessionName(a) == SessionName(b) && NormalizeIdentity(a) != NormalizeIdentity(b)
    ensures ArrivalsIn(steps, iset{a, b})
    ensures var r := Run(steps);
            && Log(r, SessionName(a)) == [UserSaid(0), UserSaid(1), AssistantSaid(0)]
            && InRange(r.turns, r.order)
            && Blocks(r.turns, r.order, SessionName(a)) == [UserSaid(0), AssistantSaid(0), UserSaid(1)]
  {
    hide NormalizeIdentity, SessionName, Blocks, Run;
    steps := BothStored(a, b);
    var turns := [Turn(a, AssistantStored, 0, Some([]), true, true), Turn(b, UserStored, 1, Some([]), true, false)];
    BlocksOfTwo(turns, SessionName(a));
    BlocksOfCollision(turns);
  }

  lemma BlocksOfCollision(turns: seq<Turn>)
    requires |turns| == 2 && turns[0].asked && turns[0].answered && turns[1].asked && !turns[1].answered
    ensures Block(turns, 0) + Block(turns, 1) == [UserSaid(0), AssistantSaid(0), UserSaid(1)]
  {
  }

  lemma BlocksOfTwo(turns: seq<Turn>, name: string)
    requires |turns| == 2 && SessionName(turns[0].key) == name && SessionName(turns[1].key) == name
    ensures Blocks(turns, [0, 1], name) == Block(turns, 0) + Block(turns, 1)
  {
    hide SessionName, Block;
    assert [0, 1][..1] == [0] && [0][..0] == [];
    assert Blocks(turns, [0], name) == [] + Block(turns, 0);
  }

  predicate LogSerialized(steps: seq<Step>, name: string) {
    var r := Run(steps);
    InRange(r.turns, r.order) && Log(r, name) == Blocks(r.turns, r.order, name)
  }

  // In every run over `keys`, each session's log is its turns' blocks in order of admission.
  ghost predicate Serializes(keys: iset<SessionKey>) {
    forall steps, name :: ArrivalsIn(steps, keys) ==> LogSerialized(steps, name)
  }

  // Logs are serialized exactly when session names tell the conversations apart.
  lemma SerializesIff(keys: iset<SessionKey>)
    ensures Serializes(keys) <==> Unambiguous(keys)
  {
    if Unambiguous(keys) {
      forall steps, name | ArrivalsIn(steps, keys) ensures LogSerialized(steps, name) {
        LogIsBlocksInOrder(steps, keys, name);
      }
    } else {
      var a, b :| a in keys && b in keys && SessionName(a) == SessionName(b) &&
          NormalizeIdentity(a) != NormalizeIdentity(b);
      var steps := CollidingNamesInterleave(a, b);
      hide SessionName, NormalizeIdentity, Run, Blocks, Log;
      assert ArrivalsIn(steps, keys);
      assert !LogSerialized(steps, SessionName(a));
    }
  }

  // Plain keys serialize.
  lemma PlainKeysSerialize(keys: iset<SessionKey>)
    requires forall k :: k in keys ==> PlainName(k)
    ensures Serializes(keys)
  {
    forall a, b | a in keys && b in keys && SessionName(a) == SessionName(b)
      ensures NormalizeIdentity(a) == NormalizeIdentity(b) {
      SessionNameIsIdentity(a, b);
    }
    SerializesIff(keys);
  }

  // ------------------------------------------------ the registry in place

  class SessionRegistry {
    var turns: seq<Turn>
    var permits: map<SessionKey, nat>
    var logs: map<string, seq<Entry>>
    var order: seq<nat>  // admissions, oldest first

    ghost function View(): Registry
      reads this
    {
      Registry(turns, permits, logs, order)
    }

    constructor ()
      ensures View() == EMPTY
    {
      turns, permits, logs, order := [], map[], map[], [];
    }

    method Arrive(key: SessionKey) returns (t: nat)
      modifies this`turns
      ensures t == old(|turns|) && View() == Apply(old(View()), Step.Arrive(key))
    {
      t := |turns|;
      turns := turns + [Turn(key, Queued, 0, None, false, false)];
    }

    // The semaphore's one permit, if it is free.
    method TryAcquire(t: nat) returns (admitted: bool)
      requires t < |turns| && turns[t].phase.Queued?
      modifies this
      ensures View() == Apply(old(View()), Acquire(t))
      ensures admitted <==> !old(IsBusy(View(), turns[t].key))
    {
      var conversation := NormalizeIdentity(turns[t].key);
      admitted := conversation !in permits;
      if admitted {
        permits := permits[conversation := t];
        turns := turns[t := turns[t].(phase := Admitted, slot := |order|)];
        order := order + [t];
      }
    }

    method LoadHistory(t: nat) returns (history: seq<Entry>)
      requires t < |turns| && turns[t].phase.Admitted?
      modifies this`turns
      ensures View() == Apply(old(View()), Step.LoadHistory(t))
      ensures IsLastFifty(history, old(Log(View(), SessionName(turns[t].key))))
    {
      hide SessionName, LastEntries, IsLastFifty;
      var name := SessionName(turns[t].key);
      history := LastEntries(if name in logs then logs[name] else [], HISTORY_LIMIT);
      LastFifty(if name in logs then logs[name] else []);
      turns := turns[t := turns[t].(phase := HistoryLoaded, history := Some(history))];
    }

    method AppendMessage(t: nat, e: Entry)
      requires t < |turns|
      modifies this`logs
      ensures View() == Appended(old(View()), SessionName(turns[t].key), e)
    {
      var name := SessionName(turns[t].key);
      logs := logs[name := (if name in logs then logs[name] else []) + [e]];
    }

    method StoreUser(t: nat)
      requires t < |turns| && turns[t].phase.HistoryLoaded?
      modifies this
      ensures View() == Apply(old(View()), Step.StoreUser(t))
    {
      turns := turns[t := turns[t].(phase := UserStored, asked := true)];
      AppendMessage(t, UserSaid(t));
    }

    method StoreAssistant(t: nat)
      requires t < |turns| && turns[t].phase.UserStored?
      modifies this
      ensures View() == Apply(old(View()), Step.StoreAssistant(t))
    {
      turns := turns[t := turns[t].(phase := AssistantStored, answered := true)];
      AppendMessage(t, AssistantSaid(t));
    }

    // The permit goes back when the turn's guard is dropped.
    method Finish(t: nat)
      requires t < |turns| && !turns[t].phase.Finished?
      modifies this
      ensures View() == Apply(old(View()), Step.Finish(t))
    {
      if InFlight(turns[t]) {
        permits := permits - {NormalizeIdentity(turns[t].key)};
      }
      turns := turns[t := turns[t].(phase := Finished)];
    }

    // A turn that nothing interrupts; without a permit it stays queued.
    method HandleTurn(key: SessionKey, replied: bool) returns (t: nat, history: Option<seq<Entry>>)
      modifies this
      ensures t == old(|turns|) && View() == HandledTurn(old(View()), key, replied)
      ensures history.Some? <==> !old(IsBusy(View(), key))
      ensures history.Some? ==> IsLastFifty(history.value, old(Log(View(), SessionName(key))))
    {
      hide NormalizeIdentity, SessionName, LastEntries, IsLastFifty;
      t := Arrive(key);
      history := None;
      var admitted := TryAcquire(t);
      if admitted {
        var loaded := LoadHistory(t);
        history := Some(loaded);
        StoreUser(t);
        if replied {
          StoreAssistant(t);
        }
        Finish(t);
      }
    }
  }

  // The same turn as steps of the interleaved registry.
  function HandledTurn(r: Registry, key: SessionKey, replied: bool): Registry {
    var t := |r.turns|;
    var arrived := Apply(r, Arrive(key));
    if IsBusy(r, key) then arrived
    else
      var asked := Apply(Apply(Apply(arrived, Acquire(t)), LoadHistory(t)), StoreUser(t));
      Apply(if replied then Apply(asked, StoreAssistant(t)) else asked, Finish(t))
  }

  // An uninterrupted turn of an idle conversation writes its own block to its own session's
  // log and leaves every other log, and every permit, as it was.
  lemma HandledTurnEffect(r: Registry, key: SessionKey, replied: bool, name: string)
    requires !IsBusy(r, key)
    ensures var r', t := HandledTurn(r, key, replied), |r.turns|;
            && r'.permits == r.permits
            && |r'.turns| == t + 1 && r'.turns[..t] == r.turns && r'.order == r.order + [t]
            && Log(r', name) == Log(r, name) + (if name == SessionName(key) then Block(r'.turns, t) else [])
            && Block(r'.turns, t) == [UserSaid(t)] + (if replied then [AssistantSaid(t)] else [])
  {
    hide NormalizeIdentity, SessionName;
    var t, c, own := |r.turns|, NormalizeIdentity(key), SessionName(key);
    var stored := Log(r, own) + [UserSaid(t)];
    HandledTurnAsked(r, key);
    if replied {
      assert Log(r, own) + [UserSaid(t), AssistantSaid(t)] == stored + [AssistantSaid(t)];
    }
    assert r.permits[c := t] - {c} == r.permits;
  }

  lemma HandledTurnAsked(r: Registry, key: SessionKey)
    requires !IsBusy(r, key)
    ensures var t, c, own := |r.turns|, NormalizeIdentity(key), SessionName(key);
            var history := LastEntries(Log(r, own), HISTORY_LIMIT);
            Apply(Apply(Apply(Apply(r, Arrive(key)), Acquire(t)), LoadHistory(t)), StoreUser(t)) ==
            Registry(
              r.turns + [Turn(key, UserStored, |r.order|, Some(history), true, false)],
              r.permits[c := t], r.logs[own := Log(r, own) + [UserSaid(t)]], r.order + [t])
  {
    hide NormalizeIdentity, SessionName;
  }
}
