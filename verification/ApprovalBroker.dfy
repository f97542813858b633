/** The approval broker: registrations, resolutions, timeouts and drops as atomic steps. */
module ApprovalBroker {
  import opened Prelude

  datatype Decision = AllowOnce | AllowAlways | Deny

  // A oneshot channel, seen from its receiver.
  datatype Channel = Empty | Holding(decision: Decision) | Closed

  // Whose hands a channel's sender is in.
  datatype Sender =
    | Registering(stale: Option<nat>) // its own `register` call, with the sender that one displaced
    | Pending                         // the pending map
    | Stale(newcomer: nat)            // a later `register` of the same id, about to deny it
    | Resolving(decision: Decision)   // a `resolve` call, about to send
    | Dropping                        // removed from the map, about to be dropped
    | Gone

  datatype Phase = Created | Waiting | Expired | Returned(decision: Decision) | Abandoned

  datatype Waiter = Waiter(id: string, channel: Channel, sender: Sender, phase: Phase)

  // The broker, its waiters, and three histories: the decision with which a `resolve` took
  // a waiter's sender, the waiters whose `resolve` reported success, and those among them
  // that were still waiting when the decision arrived.
  datatype Broker = Broker(
    pending: map<string, nat>,
    waiters: seq<Waiter>,
    taken: map<nat, Decision>,
    succeeded: set<nat>,
    inTime: set<nat>,
    successes: nat)

  const EMPTY := Broker(map[], [], map[], {}, {}, 0)

  datatype Step =
    | RegisterTake(id: string)   // create the channel; take a stale sender out of the map
    | RegisterDeny(w: nat)       // deny the stale one
    | RegisterPut(w: nat)        // put the new sender in the map, displacing any other
    | ResolveTake(id: string, decision: Decision)
    | ResolveSend(w: nat)
    | DropSender(w: nat)
    | Receive(w: nat)            // `wait` polls the channel and finds it ready
    | TimeOut(w: nat)            // `wait` finds it empty and the deadline passed
    | Clear(w: nat)              // `clear_if_pending`, then `wait` returns
    | Abandon(w: nat)            // the waiter is dropped

  predicate Listening(w: Waiter) {
    w.phase.Created? || w.phase.Waiting? || w.phase.Expired?
  }

  // `Sender::send`: it fails when the receiver is gone.
  function Deliver(w: Waiter, d: Decision): Waiter {
    w.(sender := Gone, channel := if Listening(w) then Holding(d) else Closed)
  }

  // `pending.remove(id)` with the removed sender left to be dropped.
  function Unmap(b: Broker, id: string): Broker {
    if id in b.pending && b.pending[id] < |b.waiters| then
      var w := b.pending[id];
      b.(pending := b.pending - {id}, waiters := b.waiters[w := b.waiters[w].(sender := Dropping)])
    else b
  }

  function Apply(b: Broker, step: Step): Broker {
    match step
    case RegisterTake(id) =>
      var w := |b.waiters|;
      if id in b.pending && b.pending[id] < w then
        var stale := b.pending[id];
        b.(pending := b.pending - {id},
           waiters := b.waiters[stale := b.waiters[stale].(sender := Stale(w))]
                        + [Waiter(id, Empty, Registering(Some(stale)), Created)])
      else b.(waiters := b.waiters + [Waiter(id, Empty, Registering(None), Created)])
    case RegisterDeny(w) =>
      if w < |b.waiters| && b.waiters[w].sender.Registering? && b.waiters[w].sender.stale.Some?
         && b.waiters[w].sender.stale.value < |b.waiters| then
        var stale := b.waiters[w].sender.stale.value;
        var denied := b.waiters[stale := Deliver(b.waiters[stale], Deny)];
        b.(waiters := denied[w := b.waiters[w].(sender := Registering(None))])
      else b
    case RegisterPut(w) =>
      if w < |b.waiters| && b.waiters[w].sender == Registering(None) then
        var id := b.waiters[w].id;
        var waiters :=
          if id in b.pending && b.pending[id] < |b.waiters|
          then b.waiters[b.pending[id] := b.waiters[b.pending[id]].(sender := Dropping)]
          else b.waiters;
        b.(pending := b.pending[id := w], waiters := waiters[w := b.waiters[w].(sender := Pending, phase := Waiting)])
      else b
    case ResolveTake(id, d) =>
      if id in b.pending && b.pending[id] < |b.waiters| then
        var w := b.pending[id];
        b.(pending := b.pending - {id}, taken := b.taken[w := d],
           waiters := b.waiters[w := b.waiters[w].(sender := Resolving(d))])
      else b // `resolve` returns false
    case ResolveSend(w) =>
      if w < |b.waiters| && b.waiters[w].sender.Resolving? then
        var d := b.waiters[w].sender.decision;
        var heard := Listening(b.waiters[w]);
        b.(waiters := b.waiters[w := Deliver(b.waiters[w], d)],
           succeeded := if heard then b.succeeded + {w} else b.succeeded,
           successes := if heard then b.successes + 1 else b.successes,
           inTime := if b.waiters[w].phase.Waiting? then b.inTime + {w} else b.inTime)
      else b
    case DropSender(w) =>
      if w < |b.waiters| && b.waiters[w].sender.Dropping? then
        b.(waiters := b.waiters[w := b.waiters[w].(sender := Gone, channel := Closed)])
      else b
    case Receive(w) =>
      if w < |b.waiters| && b.waiters[w].phase.Waiting? && !b.waiters[w].channel.Empty? then
        var next := if b.waiters[w].channel.Holding? then Returned(b.waiters[w].channel.decision) else Expired;
        b.(waiters := b.waiters[w := b.waiters[w].(phase := next)])
      else b
    case TimeOut(w) =>
      if w < |b.waiters| && b.waiters[w].phase.Waiting? && b.waiters[w].channel.Empty? then
        b.(waiters := b.waiters[w := b.waiters[w].(phase := Expired)])
      else b
    case Clear(w) =>
      if w < |b.waiters| && b.waiters[w].phase.Expired? then
        Unmap(b.(waiters := b.waiters[w := b.waiters[w].(phase := Returned(Deny))]), b.waiters[w].id)
      else b
    case Abandon(w) =>
      if w < |b.waiters| && b.waiters[w].phase.Waiting? then
        b.(waiters := b.waiters[w := b.waiters[w].(phase := Abandoned)])
      else b
  }

  function RunFrom(b: Broker, steps: seq<Step>): Broker {
    if steps == [] then b else Apply(RunFrom(b, steps[..|steps| - 1]), steps[|steps| - 1])
  }

  function Run(steps: seq<Step>): Broker {
    RunFrom(EMPTY, steps)
  }

  // ------------------------------------------------------------- invariant

  // An entry of the map is the sender of a waiter of that id.
  predicate EntryAgrees(b: Broker, id: string) {
    id in b.pending ==>
      && b.pending[id] < |b.waiters|
      && b.waiters[b.pending[id]].id == id
      && b.waiters[b.pending[id]].sender == Pending
  }

  // Where a waiter's sender is said to be is where it is.
  predicate SenderAgrees(b: Broker, w: nat)
    requires w < |b.waiters|
  {
    var x := b.waiters[w];
    match x.sender
    case Registering(None) => true
    case Registering(Some(v)) => v < w && b.waiters[v].sender == Stale(w)
    case Pending => x.id in b.pending && b.pending[x.id] == w
    case Stale(n) => w < n < |b.waiters| && b.waiters[n].sender == Registering(Some(w))
    case Resolving(d) => w in b.taken && b.taken[w] == d
    case Dropping => true
    case Gone => true
  }

  // One waiter's channel, sender, phase and history.
  predicate HistoryAgrees(b: Broker, w: nat)
    requires w < |b.waiters|
  {
    var x := b.waiters[w];
    && (x.channel.Empty? <==> !x.sender.Gone?)
    && (x.phase.Created? <==> x.sender.Registering?)
    && (w in b.taken ==> x.sender.Resolving? || x.sender.Gone?)
    && (w in b.succeeded ==> x.sender.Gone? && w in b.taken)
    && (w in b.inTime ==> w in b.succeeded && x.channel == Holding(b.taken[w])
                            && (x.phase.Waiting? || x.phase.Abandoned? || x.phase == Returned(b.taken[w])))
    && (x.phase.Waiting? && x.channel.Holding? && x.channel.decision != Deny ==> w in b.inTime)
    && (x.phase.Returned? && x.phase.decision != Deny ==> w in b.inTime)
  }

  predicate WaiterAgrees(b: Broker, w: nat)
    requires w < |b.waiters|
  {
    SenderAgrees(b, w) && HistoryAgrees(b, w)
  }

  ghost predicate EntriesAgree(b: Broker) {
    forall id {:trigger EntryAgrees(b, id)} :: EntryAgrees(b, id)
  }

  ghost predicate WaitersAgree(b: Broker) {
    forall w: nat {:trigger WaiterAgrees(b, w)} :: w < |b.waiters| ==> WaiterAgrees(b, w)
  }

  ghost predicate HistoriesAgree(b: Broker) {
    && (forall w :: w in b.taken || w in b.succeeded || w in b.inTime ==> w < |b.waiters|)
    && b.successes == |b.succeeded|
  }

  ghost predicate Sound(b: Broker) {
    EntriesAgree(b) && WaitersAgree(b) && HistoriesAgree(b)
  }

  // What the invariant says about whatever a step looks at.
  lemma Consult(b: Broker, step: Step, w: nat, id: string)
    requires Sound(b)
    ensures EntryAgrees(b, id)
    ensures w < |b.waiters| ==> WaiterAgrees(b, w) && EntryAgrees(b, b.waiters[w].id)
    ensures step.RegisterTake? || step.ResolveTake? ==> EntryAgrees(b, step.id)
    ensures !step.RegisterTake? && !step.ResolveTake? && step.w < |b.waiters| ==>
              WaiterAgrees(b, step.w) && EntryAgrees(b, b.waiters[step.w].id)
  {
  }

  lemma EntryKept(b: Broker, step: Step, id: string)
    requires Sound(b)
    ensures EntryAgrees(Apply(b, step), id)
  {
    Consult(b, step, |b.waiters|, id);
    hide Sound, HistoryAgrees;
  }

  predicate Registers(step: Step) {
    step.RegisterTake? || step.RegisterDeny? || step.RegisterPut?
  }

  lemma SenderKeptByRegister(b: Broker, step: Step, w: nat)
    requires Sound(b) && w < |b.waiters| && Registers(step)
    ensures SenderAgrees(Apply(b, step), w)
  {
    Consult(b, step, w, "");
    hide Sound, HistoryAgrees;
  }

  lemma SenderKeptByRemoval(b: Broker, step: Step, w: nat)
    requires Sound(b) && w < |b.waiters| && (step.ResolveTake? || step.Clear?)
    ensures SenderAgrees(Apply(b, step), w)
  {
    Consult(b, step, w, "");
    hide Sound, HistoryAgrees;
  }

  lemma SenderKept(b: Broker, step: Step, w: nat)
    requires Sound(b) && w < |b.waiters| && !Registers(step) && !step.ResolveTake? && !step.Clear?
    ensures SenderAgrees(Apply(b, step), w)
  {
    Consult(b, step, w, "");
    hide Sound, HistoryAgrees;
  }

  lemma HistoryKept(b: Broker, step: Step, w: nat)
    requires Sound(b) && w < |b.waiters|
    ensures HistoryAgrees(Apply(b, step), w)
  {
    Consult(b, step, w, "");
    hide Sound;
  }

  lemma NewWaiterAgrees(b: Broker, id: string)
    requires Sound(b)
    ensures WaiterAgrees(Apply(b, RegisterTake(id)), |b.waiters|)
  {
    Consult(b, RegisterTake(id), |b.waiters|, id);
    var n := |b.waiters|;
    assert n !in b.taken && n !in b.succeeded && n !in b.inTime;
    hide Sound;
  }

  lemma SendKeepsHistories(b: Broker, step: Step)
    requires Sound(b) && step.ResolveSend?
    ensures HistoriesAgree(Apply(b, step))
  {
    Consult(b, step, step.w, "");
    hide EntriesAgree, WaitersAgree, SenderAgrees, EntryAgrees;
    if step.w < |b.waiters| && b.waiters[step.w].sender.Resolving? {
      assert step.w !in b.succeeded;
    }
  }

  lemma HistoriesKept(b: Broker, step: Step)
    requires Sound(b) && !step.ResolveSend?
    ensures HistoriesAgree(Apply(b, step))
  {
    Consult(b, step, |b.waiters|, "");
    hide EntriesAgree, WaitersAgree, SenderAgrees, HistoryAgrees;
  }

  lemma ApplyKeepsSound(b: Broker, step: Step)
    requires Sound(b)
    ensures Sound(Apply(b, step))
  {
    var t := Apply(b, step);
    if step.ResolveSend? {
      SendKeepsHistories(b, step);
    } else {
      HistoriesKept(b, step);
    }
    assert |t.waiters| == |b.waiters| + if step.RegisterTake? then 1 else 0;
    hide Apply, HistoriesAgree, EntryAgrees, SenderAgrees, HistoryAgrees;
    forall id ensures EntryAgrees(t, id) {
      EntryKept(b, step, id);
    }
    forall w: nat | w < |t.waiters| ensures WaiterAgrees(t, w) {
      if w < |b.waiters| {
        if Registers(step) {
          SenderKeptByRegister(b, step, w);
        } else if step.ResolveTake? || step.Clear? {
          SenderKeptByRemoval(b, step, w);
        } else {
          SenderKept(b, step, w);
        }
        HistoryKept(b, step, w);
      } else {
        NewWaiterAgrees(b, step.id);
      }
    }
  }

  lemma {:induction false} AlwaysSound(steps: seq<Step>)
    ensures Sound(Run(steps))
  {
    hide Sound, Apply;
    if steps == [] {
      EmptyIsSound();
    } else {
      var b, step := Run(steps[..|steps| - 1]), steps[|steps| - 1];
      AlwaysSound(steps[..|steps| - 1]);
      ApplyKeepsSound(b, step);
    }
  }

  lemma EmptyIsSound()
    ensures Sound(EMPTY)
  {
  }

  // ------------------------------------------------------------- properties

  // A waiter is allowed only what a `resolve` that took its own sender decided, and exactly
  // when that decision arrived while it was still waiting.
  lemma ApprovalFailsClosed(steps: seq<Step>, w: nat, d: Decision)
    requires w < |Run(steps).waiters| && d != Deny && Run(steps).waiters[w].phase.Returned?
    ensures var b := Run(steps);
            b.waiters[w].phase == Returned(d) <==> w in b.inTime && w in b.taken && b.taken[w] == d
  {
    AlwaysSound(steps);
    assert WaiterAgrees(Run(steps), w);
  }

  // No unfinished waiter is orphaned: its sender is in the map under its id or in the hands
  // of a running operation, or its channel is ready.
  lemma NoWaiterIsOrphaned(steps: seq<Step>, w: nat)
    requires w < |Run(steps).waiters| && Listening(Run(steps).waiters[w])
    ensures var b := Run(steps);
            var x := b.waiters[w];
            || x.channel.Holding?
            || x.channel.Closed?
            || (x.id in b.pending && b.pending[x.id] == w)
            || (x.sender.Stale? && x.sender.newcomer < |b.waiters| && b.waiters[x.sender.newcomer].phase.Created?)
            || x.sender.Registering? || x.sender.Resolving? || x.sender.Dropping?
  {
    AlwaysSound(steps);
    assert WaiterAgrees(Run(steps), w);
    var x := Run(steps).waiters[w];
    if x.sender.Stale? {
      assert WaiterAgrees(Run(steps), x.sender.newcomer);
    }
  }

  lemma BoundedSet(s: set<nat>, n: nat)
    requires forall w :: w in s ==> w < n
    ensures |s| <= n
    decreases n
  {
    if n > 0 {
      BoundedSet(s - {n - 1}, n - 1);
    } else {
      assert s == {};
    }
  }

  lemma ResolutionsNeverExceedRegistrations(steps: seq<Step>)
    ensures Run(steps).successes <= |Run(steps).waiters|
  {
    AlwaysSound(steps);
    BoundedSet(Run(steps).succeeded, |Run(steps).waiters|);
  }

  lemma RunNext(steps: seq<Step>, step: Step)
    ensures Run(steps + [step]) == Apply(Run(steps), step)
  {
    assert (steps + [step])[..|steps|] == steps;
  }

  // A `resolve` can report success to its caller and the waiter still return a denial: the
  // decision arrives after the deadline check and before the waiter returns.
  lemma SuccessfulResolveCanBeLost(id: string) returns (steps: seq<Step>)
    ensures var b := Run(steps);
            && |b.waiters| == 1 && b.waiters[0].phase == Returned(Deny)
            && 0 in b.succeeded && 0 in b.taken && b.taken[0] == AllowOnce
  {
    RunNext([], RegisterTake(id));
    RunNext([RegisterTake(id)], RegisterPut(0));
    var s2 := [RegisterTake(id), RegisterPut(0)];
    assert [RegisterTake(id)] + [RegisterPut(0)] == s2;
    RunNext(s2, TimeOut(0));
    var s3 := s2 + [TimeOut(0)];
    RunNext(s3, ResolveTake(id, AllowOnce));
    var s4 := s3 + [ResolveTake(id, AllowOnce)];
    RunNext(s4, ResolveSend(0));
    var s5 := s4 + [ResolveSend(0)];
    RunNext(s5, Clear(0));
    steps := s5 + [Clear(0)];
  }

  lemma NewcomerAfterTimeout(id: string) returns (steps: seq<Step>)
    ensures Run(steps) == Broker(
        map[id := 1], [Waiter(id, Holding(Deny), Gone, Expired), Waiter(id, Empty, Pending, Waiting)], map[], {}, {}, 0)
    ensures TimeOut(1) !in steps
  {
    RunNext([], RegisterTake(id));
    var s1 := [] + [RegisterTake(id)];
    RunNext(s1, RegisterPut(0));
    var s2 := s1 + [RegisterPut(0)];
    RunNext(s2, TimeOut(0));
    var s3 := s2 + [TimeOut(0)];
    RunNext(s3, RegisterTake(id));
    var s4 := s3 + [RegisterTake(id)];
    RunNext(s4, RegisterDeny(1));
    var s5 := s4 + [RegisterDeny(1)];
    RunNext(s5, RegisterPut(1));
    steps := s5 + [RegisterPut(1)];
  }

  // A waiter that timed out clears its id, not its own entry: a newcomer registered under
  // the same id meanwhile is denied without a `resolve` and without a timeout.
  lemma LateClearDeniesNewcomer(id: string) returns (steps: seq<Step>)
    ensures var b := Run(steps);
            && |b.waiters| == 2 && b.waiters[1].id == id && b.waiters[1].phase == Returned(Deny)
            && b.taken == map[] && TimeOut(1) !in steps
  {
    var s6 := NewcomerAfterTimeout(id);
    RunNext(s6, Clear(0));
    var s7 := s6 + [Clear(0)];
    RunNext(s7, DropSender(1));
    var s8 := s7 + [DropSender(1)];
    RunNext(s8, Receive(1));
    var s9 := s8 + [Receive(1)];
    RunNext(s9, Clear(1));
    steps := s9 + [Clear(1)];
  }

  // ------------------------------------------------------ why a request is denied

  datatype Cause =
    | OwnTimeout     // the deadline passes while the channel is empty
    | OwnDenial      // a `resolve` takes its sender with a denial
    | Displacement   // a later `register` takes its entry out of the map
    | OtherClear     // the clear of another waiter takes its entry out of the map

  // The waiter whose entry is under an id.
  predicate Maps(b: Broker, id: string, w: nat) {
    id in b.pending && b.pending[id] == w
  }

  predicate Causes(b: Broker, step: Step, w: nat, cause: Cause) {
    match cause
    case OwnTimeout =>
      step == TimeOut(w) && w < |b.waiters| && b.waiters[w].phase.Waiting? && b.waiters[w].channel.Empty?
    case OwnDenial =>
      step.ResolveTake? && step.decision == Deny && Maps(b, step.id, w)
    case Displacement =>
      || (step.RegisterTake? && Maps(b, step.id, w))
      || (step.RegisterPut? && step.w < |b.waiters| && b.waiters[step.w].sender == Registering(None)
          && Maps(b, b.waiters[step.w].id, w))
    case OtherClear =>
      step.Clear? && step.w != w && step.w < |b.waiters| && b.waiters[step.w].phase.Expired?
      && Maps(b, b.waiters[step.w].id, w)
  }

  // Some step of a run was such a cause.
  predicate Happened(steps: seq<Step>, w: nat, cause: Cause) {
    && steps != []
    && var before := steps[..|steps| - 1];
       Happened(before, w, cause) || Causes(Run(before), steps[|steps| - 1], w, cause)
  }

  datatype Past = Past(timedOut: bool, denied: bool, displaced: bool, cleared: bool)

  function PastOf(steps: seq<Step>, w: nat): Past {
    Past(Happened(steps, w, OwnTimeout), Happened(steps, w, OwnDenial),
         Happened(steps, w, Displacement), Happened(steps, w, OtherClear))
  }

  function PastAfter(p: Past, b: Broker, step: Step, w: nat): Past {
    Past(p.timedOut || Causes(b, step, w, OwnTimeout), p.denied || Causes(b, step, w, OwnDenial),
         p.displaced || Causes(b, step, w, Displacement), p.cleared || Causes(b, step, w, OtherClear))
  }

  // A waiter's state tells which causes it has met.
  predicate Explains(b: Broker, w: nat, p: Past) {
    if w >= |b.waiters| then p == Past(false, false, false, false)
    else
      var x := b.waiters[w];
      && (p.denied <==> w in b.taken && b.taken[w] == Deny)
      && (p.timedOut ==> x.phase.Expired? || x.phase == Returned(Deny))
      && (p.displaced || p.cleared ==> w !in b.taken && (x.sender.Stale? || x.sender.Dropping? || x.sender.Gone?))
      && (x.sender.Stale? ==> p.displaced)
      && (x.phase.Waiting? && (x.sender.Dropping? || x.channel.Closed?) ==> p.displaced || p.cleared)
      && (x.phase.Waiting? && x.channel == Holding(Deny) ==> p.displaced || p.denied)
      && (x.phase.Expired? || x.phase == Returned(Deny) ==> p.timedOut || p.denied || p.displaced || p.cleared)
  }

  lemma RegisterExplains(b: Broker, step: Step, w: nat, p: Past)
    requires Sound(b) && Explains(b, w, p) && Registers(step)
    ensures Explains(Apply(b, step), w, PastAfter(p, b, step, w))
  {
    Consult(b, step, w, "");
    hide Sound;
  }

  lemma ResolveTakeExplains(b: Broker, step: Step, w: nat, p: Past)
    requires Sound(b) && Explains(b, w, p) && step.ResolveTake?
    ensures Explains(Apply(b, step), w, PastAfter(p, b, step, w))
  {
    Consult(b, step, w, "");
    hide Sound;
  }

  lemma ClearExplains(b: Broker, step: Step, w: nat, p: Past)
    requires Sound(b) && Explains(b, w, p) && step.Clear?
    ensures Explains(Apply(b, step), w, PastAfter(p, b, step, w))
  {
    Consult(b, step, w, "");
    hide Sound;
  }

  predicate Sends(step: Step) {
    step.ResolveSend? || step.DropSender?
  }

  lemma SendExplains(b: Broker, step: Step, w: nat, p: Past)
    requires Sound(b) && Explains(b, w, p) && Sends(step)
    ensures Explains(Apply(b, step), w, PastAfter(p, b, step, w))
  {
    hide Sound, Explains;
    assert PastAfter(p, b, step, w) == p;
    if step.w == w {
      SendExplainsOwn(b, step, p);
    } else {
      SendLeavesOthers(b, step, w, p);
    }
  }

  lemma SendExplainsOwn(b: Broker, step: Step, p: Past)
    requires Sound(b) && Sends(step) && Explains(b, step.w, p)
    ensures Explains(Apply(b, step), step.w, p)
  {
    Consult(b, step, step.w, "");
    hide Sound, EntryAgrees;
  }

  lemma SendLeavesOthers(b: Broker, step: Step, w: nat, p: Past)
    requires Sends(step) && step.w != w && Explains(b, w, p)
    ensures Explains(Apply(b, step), w, p)
  {
  }

  predicate Waits(step: Step) {
    step.Receive? || step.TimeOut? || step.Abandon?
  }

  lemma WaitExplains(b: Broker, step: Step, w: nat, p: Past)
    requires Sound(b) && Explains(b, w, p) && Waits(step)
    ensures Explains(Apply(b, step), w, PastAfter(p, b, step, w))
  {
    Consult(b, step, w, "");
    hide Sound, SenderAgrees, EntryAgrees;
  }

  lemma {:induction false} AlwaysExplained(steps: seq<Step>, w: nat)
    ensures Explains(Run(steps), w, PastOf(steps, w))
  {
    hide Apply, Explains, Causes, Sound;
    if steps == [] {
      NothingHappenedYet(w);
    } else {
      var before, step := steps[..|steps| - 1], steps[|steps| - 1];
      AlwaysExplained(before, w);
      AlwaysSound(before);
      var b, p := Run(before), PastOf(before, w);
      if Registers(step) {
        RegisterExplains(b, step, w, p);
      } else if step.ResolveTake? {
        ResolveTakeExplains(b, step, w, p);
      } else if step.Clear? {
        ClearExplains(b, step, w, p);
      } else if Sends(step) {
        SendExplains(b, step, w, p);
      } else {
        WaitExplains(b, step, w, p);
      }
    }
  }

  lemma NothingHappenedYet(w: nat)
    ensures Explains(Run([]), w, PastOf([], w))
  {
  }

  // Over every run, a waiter that has returned was denied exactly when one of four things
  // happened: it timed out, a `resolve` took its own sender with a denial, a later
  // `register` of its id displaced it, or another waiter's clear took its entry.
  lemma DenialIff(steps: seq<Step>, w: nat)
    requires w < |Run(steps).waiters| && Run(steps).waiters[w].phase.Returned?
    ensures Run(steps).waiters[w].phase == Returned(Deny) <==>
            || Happened(steps, w, OwnTimeout)
            || Happened(steps, w, OwnDenial)
            || Happened(steps, w, Displacement)
            || Happened(steps, w, OtherClear)
  {
    AlwaysExplained(steps, w);
    AlwaysSound(steps);
    assert WaiterAgrees(Run(steps), w);
  }

  // Losing its entry to a `register` or to another's clear takes a request of the same id.
  lemma {:induction false} RivalShares(steps: seq<Step>, w: nat)
    requires Happened(steps, w, Displacement) || Happened(steps, w, OtherClear)
    ensures w < |Run(steps).waiters|
    ensures exists v: nat :: v < |Run(steps).waiters| && v != w && Run(steps).waiters[v].id == Run(steps).waiters[w].id
  {
    var before, step := steps[..|steps| - 1], steps[|steps| - 1];
    var b := Run(before);
    IdsStay(b, step);
    AlwaysSound(before);
    if Happened(before, w, Displacement) || Happened(before, w, OtherClear) {
      RivalShares(before, w);
      var v: nat :| v < |b.waiters| && v != w && b.waiters[v].id == b.waiters[w].id;
      assert v < |Run(steps).waiters| && Run(steps).waiters[v].id == Run(steps).waiters[w].id;
    } else {
      var v := if step.RegisterTake? then |b.waiters| else step.w;
      Consult(b, step, w, "");
      hide Sound, Happened, HistoryAgrees;
      assert v != w && w < |b.waiters|;
      assert v < |Run(steps).waiters| && Run(steps).waiters[v].id == Run(steps).waiters[w].id;
    }
  }

  lemma IdsStay(b: Broker, step: Step)
    ensures |Apply(b, step).waiters| == |b.waiters| + if step.RegisterTake? then 1 else 0
    ensures forall v :: 0 <= v < |b.waiters| ==> Apply(b, step).waiters[v].id == b.waiters[v].id
    ensures step.RegisterTake? ==> Apply(b, step).waiters[|b.waiters|].id == step.id
  {
  }

  lemma {:induction false} TimeOutIsAStep(steps: seq<Step>, w: nat)
    ensures Happened(steps, w, OwnTimeout) ==> TimeOut(w) in steps
  {
    if Happened(steps, w, OwnTimeout) {
      TimeOutIsAStep(steps[..|steps| - 1], w);
    }
  }

  // A request with an id of its own that never times out returns what its own `resolve`
  // decided.
  lemma LoneRequestGetsItsDecision(steps: seq<Step>, w: nat)
    requires w < |Run(steps).waiters| && Run(steps).waiters[w].phase.Returned?
    requires forall v: nat :: v < |Run(steps).waiters| && v != w ==>
        Run(steps).waiters[v].id != Run(steps).waiters[w].id
    requires TimeOut(w) !in steps
    ensures w in Run(steps).taken && Run(steps).waiters[w].phase == Returned(Run(steps).taken[w])
  {
    var decision := Run(steps).waiters[w].phase.decision;
    TimeOutIsAStep(steps, w);
    AlwaysExplained(steps, w);
    if decision == Deny {
      if Happened(steps, w, Displacement) || Happened(steps, w, OtherClear) {
        RivalShares(steps, w);
      }
    } else {
      ApprovalFailsClosed(steps, w, decision);
    }
  }

  // A timed-out waiter's clear touches another request exactly when the entry under its id
  // is no longer its own.
  lemma ClearCancelsOtherIff(steps: seq<Step>, v: nat)
    requires v < |Run(steps).waiters| && Run(steps).waiters[v].phase.Expired?
    ensures var b := Run(steps);
            var id := b.waiters[v].id;
            (exists w: nat :: w != v && w < |b.waiters| && Apply(b, Clear(v)).waiters[w] != b.waiters[w]) <==>
            id in b.pending && b.pending[id] != v
  {
    var b := Run(steps);
    AlwaysSound(steps);
    Consult(b, Clear(v), v, "");
    hide Sound;
    var id := b.waiters[v].id;
    if id in b.pending && b.pending[id] != v {
      assert Apply(b, Clear(v)).waiters[b.pending[id]].sender == Dropping;
    }
  }

  // ---------------------------------------------------- uninterrupted calls

  function WholeRegister(b: Broker, id: string): Broker {
    var taking := Apply(b, RegisterTake(id));
    var denied := if id in b.pending then Apply(taking, RegisterDeny(|b.waiters|)) else taking;
    Apply(denied, RegisterPut(|b.waiters|))
  }

  function WholeResolve(b: Broker, id: string, d: Decision): Broker {
    if id in b.pending then Apply(Apply(b, ResolveTake(id, d)), ResolveSend(b.pending[id])) else b
  }

  // `wait`, resumed when the channel is ready or the deadline has passed.
  function WholeWait(b: Broker, w: nat): Broker
    requires w < |b.waiters|
  {
    match b.waiters[w].channel
    case Holding(_) => Apply(b, Receive(w))
    case Closed => Apply(Apply(b, Receive(w)), Clear(w))
    case Empty => Apply(Apply(b, TimeOut(w)), Clear(w))
  }

  lemma RegisterEffect(b: Broker, id: string)
    requires Sound(b)
    ensures var end := WholeRegister(b, id);
            && Sound(end)
            && end == b.(pending := b.pending[id := |b.waiters|], waiters := end.waiters)
            && (id in b.pending ==> b.pending[id] < |b.waiters|)
            && end.waiters ==
                 (if id in b.pending
                  then b.waiters[b.pending[id] := Deliver(b.waiters[b.pending[id]], Deny)]
                  else b.waiters)
                   + [Waiter(id, Empty, Pending, Waiting)]
  {
    assert EntryAgrees(b, id);
    var t := Apply(b, RegisterTake(id));
    ApplyKeepsSound(b, RegisterTake(id));
    var w := |b.waiters|;
    if id in b.pending {
      ApplyKeepsSound(t, RegisterDeny(w));
      ApplyKeepsSound(Apply(t, RegisterDeny(w)), RegisterPut(w));
    } else {
      ApplyKeepsSound(t, RegisterPut(w));
    }
  }

  lemma ResolveEffect(b: Broker, id: string, d: Decision)
    requires Sound(b) && id in b.pending
    ensures var end := WholeResolve(b, id, d);
            var w := b.pending[id];
            && Sound(end)
            && w < |b.waiters|
            && end.pending == b.pending - {id}
            && end.waiters == b.waiters[w := Deliver(b.waiters[w], d)]
            && end.taken == b.taken[w := d]
            && end.succeeded == (if Listening(b.waiters[w]) then b.succeeded + {w} else b.succeeded)
            && end.successes == (if Listening(b.waiters[w]) then b.successes + 1 else b.successes)
            && end.inTime == (if b.waiters[w].phase.Waiting? then b.inTime + {w} else b.inTime)
  {
    assert EntryAgrees(b, id);
    ApplyKeepsSound(b, ResolveTake(id, d));
    ApplyKeepsSound(Apply(b, ResolveTake(id, d)), ResolveSend(b.pending[id]));
  }

  lemma WaitEffect(b: Broker, w: nat)
    requires Sound(b) && w < |b.waiters| && b.waiters[w].phase.Waiting?
    ensures var x := b.waiters[w];
            var d := if x.channel.Holding? then x.channel.decision else Deny;
            var returned := b.(waiters := b.waiters[w := x.(phase := Returned(d))]);
            && Sound(WholeWait(b, w))
            && WholeWait(b, w) == if x.channel.Holding? then returned else Unmap(returned, x.id)
  {
    var expire := if b.waiters[w].channel.Empty? then TimeOut(w) else Receive(w);
    ApplyKeepsSound(b, expire);
    ApplyKeepsSound(Apply(b, expire), Clear(w));
  }

  // The broker's fields, and its public calls when nothing interrupts them: each is the
  // steps above in a row.
  class SharedBroker {
    var pending: map<string, nat>
    var waiters: seq<Waiter>
    ghost var taken: map<nat, Decision>
    ghost var succeeded: set<nat>
    ghost var inTime: set<nat>
    ghost var successes: nat

    ghost function View(): Broker
      reads this
    {
      Broker(pending, waiters, taken, succeeded, inTime, successes)
    }

    constructor ()
      ensures View() == EMPTY && Sound(View())
    {
      pending, waiters := map[], [];
      taken, succeeded, inTime, successes := map[], {}, {}, 0;
    }

    // `register`: an earlier request of the same id is denied and the new one replaces it.
    method Register(id: string) returns (w: nat)
      requires Sound(View())
      modifies this
      ensures Sound(View()) && View() == WholeRegister(old(View()), id)
      ensures w == |old(waiters)| == |waiters| - 1 && pending == old(pending)[id := w]
      ensures waiters[w] == Waiter(id, Empty, Pending, Waiting)
      ensures forall v :: 0 <= v < w ==>
                waiters[v] ==
                if id in old(pending) && old(pending)[id] == v then Deliver(old(waiters)[v], Deny) else old(waiters)[v]
    {
      RegisterEffect(View(), id);
      hide Sound, WholeRegister;
      ghost var end := WholeRegister(View(), id);
      w := |waiters|;
      if id in pending {
        var stale := pending[id];
        pending := pending - {id};
        waiters := waiters[stale := Deliver(waiters[stale], Deny)];
      }
      waiters := waiters + [Waiter(id, Empty, Pending, Waiting)];
      pending := pending[id := w];
      assert View() == end;
    }

    // `resolve`: true exactly when a request of that id was pending and still listened to.
    method Resolve(id: string, decision: Decision) returns (ok: bool)
      requires Sound(View())
      modifies this
      ensures Sound(View()) && View() == WholeResolve(old(View()), id, decision)
      ensures id in old(pending) ==> old(pending)[id] < |old(waiters)|
      ensures ok <==> id in old(pending) && Listening(old(waiters)[old(pending)[id]])
      ensures id in old(pending) ==> pending == old(pending) - {id} && taken == old(taken)[old(pending)[id] := decision]
    {
      if id in pending {
        ResolveEffect(View(), id, decision);
        hide Sound, WholeResolve;
        ghost var end := WholeResolve(View(), id, decision);
        var w := pending[id];
        ok := Listening(waiters[w]);
        if waiters[w].phase.Waiting? {
          inTime := inTime + {w};
        }
        if ok {
          succeeded, successes := succeeded + {w}, successes + 1;
        }
        taken := taken[w := decision];
        pending := pending - {id};
        waiters := waiters[w := Deliver(waiters[w], decision)];
        assert View() == end;
      } else {
        ok := false;
      }
    }

    method Wait(w: nat) returns (decision: Decision)
      requires Sound(View()) && w < |waiters| && waiters[w].phase.Waiting?
      modifies this
      ensures Sound(View()) && View() == WholeWait(old(View()), w)
      ensures decision == if old(waiters)[w].channel.Holding? then old(waiters)[w].channel.decision else Deny
    {
      WaitEffect(View(), w);
      hide Sound, WholeWait;
      ghost var end := WholeWait(View(), w);
      var channel, id := waiters[w].channel, waiters[w].id;
      decision := if channel.Holding? then channel.decision else Deny;
      waiters := waiters[w := waiters[w].(phase := Returned(decision))];
      if !channel.Holding? && id in pending && pending[id] < |waiters| {
        var v := pending[id];
        pending := pending - {id};
        waiters := waiters[v := waiters[v].(sender := Dropping)];
      }
      assert View() == end;
    }
  }
}
