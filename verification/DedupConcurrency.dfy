/** Deduplication when calls overlap: each purge visit and each entry is an atomic step. */
module DedupConcurrency {
  import opened Prelude
  import Dedup

  // A call of `check_and_insert`: the time it read, whether its purge has visited its own
  // id, and what it returned.
  datatype Call = Call(id: string, now: nat, visited: bool, isNew: Option<bool>)

  // An accepted call, the time it read, and the clock when it entered the table.
  datatype Accepted = Accepted(id: string, now: nat, at: nat, call: nat)

  datatype Store = Store(clock: nat, seen: map<string, nat>, calls: seq<Call>, accepted: seq<Accepted>)

  const EMPTY := Store(0, map[], [], [])

  datatype Step =
    | Advance(millis: nat)
    | Begin(id: string)           // read the clock
    | Visit(c: nat, key: string)  // `retain` looks at one entry, under its shard's lock
    | Enter(c: nat)               // `entry`, once the purge is over

  // A step that is not enabled changes nothing.
  function Apply(s: Store, ttl: nat, step: Step): Store {
    match step
    case Advance(millis) => s.(clock := s.clock + millis)
    case Begin(id) => s.(calls := s.calls + [Call(id, s.clock, false, None)])
    case Visit(c, key) =>
      if c < |s.calls| && s.calls[c].isNew.None? then
        var stays := key in s.seen && Dedup.Age(s.calls[c].now, s.seen[key]) < ttl;
        s.(seen := if stays then s.seen else s.seen - {key},
           calls := s.calls[c := s.calls[c].(visited := s.calls[c].visited || key == s.calls[c].id)])
      else s
    case Enter(c) =>
      if c < |s.calls| && s.calls[c].isNew.None? && s.calls[c].visited then
        var call := s.calls[c];
        if call.id in s.seen then s.(calls := s.calls[c := call.(isNew := Some(false))])
        else
          s.(seen := s.seen[call.id := call.now],
             calls := s.calls[c := call.(isNew := Some(true))],
             accepted := s.accepted + [Accepted(call.id, call.now, s.clock, c)])
      else s
  }

  function Run(ttl: nat, steps: seq<Step>): Store {
    if steps == [] then EMPTY else Apply(Run(ttl, steps[..|steps| - 1]), ttl, steps[|steps| - 1])
  }

  // ------------------------------------------------------------- invariant

  // An acceptance is still in the table, or its time-to-live is over.
  predicate AliveOrOver(s: Store, ttl: nat, k: nat)
    requires k < |s.accepted|
  {
    var a := s.accepted[k];
    a.now <= a.at <= s.clock && ((a.id in s.seen && s.seen[a.id] == a.now) || s.clock >= a.now + ttl)
  }

  // An entry that call `c` may run into excuses its rejection.
  predicate Excuses(a: Accepted, id: string, now: nat, ttl: nat) {
    a.id == id && (Dedup.Age(now, a.now) < ttl || a.at >= now)
  }

  predicate EntryIsAccepted(s: Store, id: string) {
    id in s.seen ==> exists k: nat :: k < |s.accepted| && s.accepted[k].id == id && s.accepted[k].now == s.seen[id]
  }

  predicate Excused(s: Store, ttl: nat, id: string, now: nat) {
    exists k: nat :: k < |s.accepted| && Excuses(s.accepted[k], id, now, ttl)
  }

  predicate CallAgrees(s: Store, ttl: nat, c: nat)
    requires c < |s.calls|
  {
    var call := s.calls[c];
    && call.now <= s.clock
    && (call.isNew.None? && call.visited && call.id in s.seen ==> Excused(s, ttl, call.id, call.now))
    && (call.isNew == Some(false) ==> Excused(s, ttl, call.id, call.now))
  }

  // No id is accepted again before the time-to-live of its acceptance is over.
  predicate Spaced(s: Store, ttl: nat) {
    forall i, k :: 0 <= i < k < |s.accepted| && s.accepted[i].id == s.accepted[k].id ==>
      s.accepted[k].at >= s.accepted[i].now + ttl
  }

  ghost predicate Sound(s: Store, ttl: nat) {
    && (forall k: nat {:trigger AliveOrOver(s, ttl, k)} :: k < |s.accepted| ==> AliveOrOver(s, ttl, k))
    && (forall id {:trigger EntryIsAccepted(s, id)} :: EntryIsAccepted(s, id))
    && (forall c: nat {:trigger CallAgrees(s, ttl, c)} :: c < |s.calls| ==> CallAgrees(s, ttl, c))
    && Spaced(s, ttl)
  }

  lemma ExcusedStays(s: Store, t: Store, ttl: nat, id: string, now: nat)
    requires s.accepted <= t.accepted
    ensures Excused(s, ttl, id, now) ==> Excused(t, ttl, id, now)
  {
    if Excused(s, ttl, id, now) {
      var k: nat :| k < |s.accepted| && Excuses(s.accepted[k], id, now, ttl);
      assert Excuses(t.accepted[k], id, now, ttl);
    }
  }

  // A purge that leaves an entry standing finds it young enough.
  lemma YoungEntryExcuses(s: Store, ttl: nat, id: string, now: nat)
    requires EntryIsAccepted(s, id) && id in s.seen && Dedup.Age(now, s.seen[id]) < ttl
    ensures Excused(s, ttl, id, now)
  {
    var k: nat :| k < |s.accepted| && s.accepted[k].id == id && s.accepted[k].now == s.seen[id];
    assert Excuses(s.accepted[k], id, now, ttl);
  }

  lemma VisitKeepsCall(s: Store, ttl: nat, step: Step, c: nat)
    requires Sound(s, ttl) && step.Visit? && c < |s.calls|
    ensures CallAgrees(Apply(s, ttl, step), ttl, c)
  {
    var t := Apply(s, ttl, step);
    assert CallAgrees(s, ttl, c) && EntryIsAccepted(s, s.calls[c].id);
    ExcusedStays(s, t, ttl, s.calls[c].id, s.calls[c].now);
    hide Excused;
    if s.calls[c].id in s.seen && Dedup.Age(s.calls[c].now, s.seen[s.calls[c].id]) < ttl {
      YoungEntryExcuses(s, ttl, s.calls[c].id, s.calls[c].now);
    }
  }

  lemma VisitKeepsSound(s: Store, ttl: nat, step: Step)
    requires Sound(s, ttl) && step.Visit?
    ensures Sound(Apply(s, ttl, step), ttl)
  {
    var t := Apply(s, ttl, step);
    assert step.c < |s.calls| ==> CallAgrees(s, ttl, step.c);
    forall k: nat | k < |t.accepted| ensures AliveOrOver(t, ttl, k) {
      assert AliveOrOver(s, ttl, k);
    }
    forall id ensures EntryIsAccepted(t, id) {
      assert EntryIsAccepted(s, id);
    }
    forall c: nat | c < |t.calls| ensures CallAgrees(t, ttl, c) {
      VisitKeepsCall(s, ttl, step, c);
    }
  }

  lemma EnterKeepsCall(s: Store, ttl: nat, step: Step, c: nat)
    requires Sound(s, ttl) && step.Enter? && c < |s.calls|
    ensures CallAgrees(Apply(s, ttl, step), ttl, c)
  {
    var t := Apply(s, ttl, step);
    assert CallAgrees(s, ttl, c);
    ExcusedStays(s, t, ttl, s.calls[c].id, s.calls[c].now);
    hide Excused;
    if |t.accepted| > |s.accepted| && t.accepted[|s.accepted|].id == s.calls[c].id {
      NewcomerExcuses(s, t, ttl, s.calls[c].id, s.calls[c].now);
    }
  }

  lemma NewcomerExcuses(s: Store, t: Store, ttl: nat, id: string, now: nat)
    requires |t.accepted| == |s.accepted| + 1 && t.accepted[|s.accepted|].id == id && t.accepted[|s.accepted|].at >= now
    ensures Excused(t, ttl, id, now)
  {
    assert Excuses(t.accepted[|s.accepted|], id, now, ttl);
  }

  lemma EnterKeepsSpaced(s: Store, ttl: nat, step: Step)
    requires Sound(s, ttl) && step.Enter?
    ensures Spaced(Apply(s, ttl, step), ttl)
  {
    forall i: nat | i < |s.accepted|
      ensures s.accepted[i].id in s.seen || s.clock >= s.accepted[i].now + ttl {
      assert AliveOrOver(s, ttl, i);
    }
  }

  lemma EnterKeepsSound(s: Store, ttl: nat, step: Step)
    requires Sound(s, ttl) && step.Enter?
    ensures Sound(Apply(s, ttl, step), ttl)
  {
    var t := Apply(s, ttl, step);
    assert step.c < |s.calls| ==> CallAgrees(s, ttl, step.c);
    assert s.accepted <= t.accepted;
    EnterKeepsSpaced(s, ttl, step);
    forall k: nat | k < |t.accepted| ensures AliveOrOver(t, ttl, k) {
      assert k < |s.accepted| ==> AliveOrOver(s, ttl, k);
    }
    forall id ensures EntryIsAccepted(t, id) {
      assert EntryIsAccepted(s, id);
      if id in s.seen {
        var k: nat :| k < |s.accepted| && s.accepted[k].id == id && s.accepted[k].now == s.seen[id];
        assert t.accepted[k] == s.accepted[k];
      } else if id in t.seen {
        assert t.accepted[|s.accepted|].id == id;
      }
    }
    forall c: nat | c < |t.calls| ensures CallAgrees(t, ttl, c) {
      EnterKeepsCall(s, ttl, step, c);
    }
  }

  lemma ClockKeepsSound(s: Store, ttl: nat, step: Step)
    requires Sound(s, ttl) && (step.Advance? || step.Begin?)
    ensures Sound(Apply(s, ttl, step), ttl)
  {
    var t := Apply(s, ttl, step);
    forall k: nat | k < |t.accepted| ensures AliveOrOver(t, ttl, k) {
      assert AliveOrOver(s, ttl, k);
    }
    forall id ensures EntryIsAccepted(t, id) {
      assert EntryIsAccepted(s, id);
    }
    forall c: nat | c < |t.calls| ensures CallAgrees(t, ttl, c) {
      if c < |s.calls| {
        assert CallAgrees(s, ttl, c);
        ExcusedStays(s, t, ttl, s.calls[c].id, s.calls[c].now);
      }
    }
  }

  lemma {:induction false} AlwaysSound(ttl: nat, steps: seq<Step>)
    ensures Sound(Run(ttl, steps), ttl)
  {
    if steps != [] {
      var s, step := Run(ttl, steps[..|steps| - 1]), steps[|steps| - 1];
      AlwaysSound(ttl, steps[..|steps| - 1]);
      if step.Visit? {
        VisitKeepsSound(s, ttl, step);
      } else if step.Enter? {
        EnterKeepsSound(s, ttl, step);
      } else {
        ClockKeepsSound(s, ttl, step);
      }
    }
  }

  // ------------------------------------------------------------- properties

  // In every interleaving, when an id is accepted again the clock has passed the
  // time-to-live of each earlier acceptance, counted from the time that call had read.
  lemma NoEarlyRepeat(ttl: nat, steps: seq<Step>, i: nat, k: nat)
    requires i < k < |Run(ttl, steps).accepted|
    requires Run(ttl, steps).accepted[i].id == Run(ttl, steps).accepted[k].id
    ensures Run(ttl, steps).accepted[k].at >= Run(ttl, steps).accepted[i].now + ttl
  {
    AlwaysSound(ttl, steps);
  }

  // In every interleaving, a call is rejected only for an acceptance of its id that was
  // within the time-to-live when the call began, or that entered during the call.
  lemma RejectedForCause(ttl: nat, steps: seq<Step>, c: nat)
    requires c < |Run(ttl, steps).calls| && Run(ttl, steps).calls[c].isNew == Some(false)
    ensures var s, call := Run(ttl, steps), Run(ttl, steps).calls[c];
            exists k: nat :: k < |s.accepted| && Excuses(s.accepted[k], call.id, call.now, ttl)
  {
    AlwaysSound(ttl, steps);
    assert CallAgrees(Run(ttl, steps), ttl, c);
  }

  // ------------------------------------------------- when a verdict is wrong

  // A call that has neither been accepted nor rejected.
  predicate Undecided(s: Store, c: nat) {
    c < |s.calls| && s.calls[c].isNew.None?
  }

  // The `n` first acceptances hold one of `call`'s id that is young by its own reading.
  predicate YoungAmong(s: Store, ttl: nat, call: Call, n: nat)
    requires n <= |s.accepted|
  {
    exists k: nat :: k < n && s.accepted[k].id == call.id && Dedup.Age(call.now, s.accepted[k].now) < ttl
  }

  // Another call, with a later reading, purges an entry that is still young for call `c`.
  predicate Takes(s: Store, ttl: nat, step: Step, c: nat) {
    && step.Visit? && Undecided(s, step.c) && Undecided(s, c)
    && step.key == s.calls[c].id && step.key in s.seen
    && Dedup.Age(s.calls[step.c].now, s.seen[step.key]) >= ttl
    && Dedup.Age(s.calls[c].now, s.seen[step.key]) < ttl
  }

  // Some step of the run took call `c`'s young entry.
  predicate Overtaken(ttl: nat, steps: seq<Step>, c: nat) {
    && steps != []
    && var before := steps[..|steps| - 1];
       Overtaken(ttl, before, c) || Takes(Run(ttl, before), ttl, steps[|steps| - 1], c)
  }

  // An acceptance of an undecided call's id is in the table, or old by the call's reading.
  predicate EntryOrOld(s: Store, ttl: nat, c: nat, k: nat)
    requires c < |s.calls| && k < |s.accepted|
  {
    var call, a := s.calls[c], s.accepted[k];
    a.id == call.id ==> (a.id in s.seen && s.seen[a.id] == a.now) || Dedup.Age(call.now, a.now) >= ttl
  }

  ghost predicate EntriesOrOld(s: Store, ttl: nat, c: nat)
    requires c < |s.calls|
  {
    forall k: nat {:trigger EntryOrOld(s, ttl, c, k)} :: k < |s.accepted| ==> EntryOrOld(s, ttl, c, k)
  }

  lemma StepKeepsEntriesOrOld(s: Store, ttl: nat, step: Step, c: nat)
    requires Sound(s, ttl)
    requires Undecided(s, c) ==> EntriesOrOld(s, ttl, c)
    requires Undecided(Apply(s, ttl, step), c) && !Takes(s, ttl, step, c)
    ensures EntriesOrOld(Apply(s, ttl, step), ttl, c)
  {
    var t := Apply(s, ttl, step);
    forall k: nat | k < |t.accepted| ensures EntryOrOld(t, ttl, c, k) {
      if k < |s.accepted| {
        assert AliveOrOver(s, ttl, k);
        assert c < |s.calls| ==> EntryOrOld(s, ttl, c, k);
      }
    }
  }

  lemma {:induction false} NotOvertaken(ttl: nat, steps: seq<Step>, c: nat)
    requires Undecided(Run(ttl, steps), c) && !Overtaken(ttl, steps, c)
    ensures EntriesOrOld(Run(ttl, steps), ttl, c)
  {
    hide Apply, Sound, EntriesOrOld, Takes;
    var before, step := steps[..|steps| - 1], steps[|steps| - 1];
    var s := Run(ttl, before);
    if Undecided(s, c) {
      NotOvertaken(ttl, before, c);
    }
    AlwaysSound(ttl, before);
    StepKeepsEntriesOrOld(s, ttl, step, c);
  }

  // Decided calls stay decided, readings stay readings, acceptances stay.
  lemma StepOnlyAdds(s: Store, ttl: nat, step: Step, c: nat)
    ensures var t := Apply(s, ttl, step);
            && s.accepted <= t.accepted
            && (c < |s.calls| ==>
                  && c < |t.calls| && t.calls[c].id == s.calls[c].id && t.calls[c].now == s.calls[c].now
                  && (s.calls[c].isNew.Some? ==> t.calls[c] == s.calls[c]))
            && (|t.accepted| > |s.accepted| ==> step.Enter? && |t.accepted| == |s.accepted| + 1)
  {
  }

  lemma {:induction false} OvertakenHadYoung(ttl: nat, steps: seq<Step>, c: nat)
    requires Overtaken(ttl, steps, c)
    ensures var s := Run(ttl, steps);
            c < |s.calls| && YoungAmong(s, ttl, s.calls[c], |s.accepted|)
  {
    hide Apply, Sound;
    var before, step := steps[..|steps| - 1], steps[|steps| - 1];
    var s, t := Run(ttl, before), Run(ttl, steps);
    StepOnlyAdds(s, ttl, step, c);
    if Overtaken(ttl, before, c) {
      OvertakenHadYoung(ttl, before, c);
    } else {
      AlwaysSound(ttl, before);
      EntryOfSound(s, ttl, s.calls[c].id);
    }
    var k: nat :| k < |s.accepted| && s.accepted[k].id == s.calls[c].id
                && Dedup.Age(s.calls[c].now, s.accepted[k].now) < ttl;
    assert t.accepted[k] == s.accepted[k];
  }

  lemma EntryOfSound(s: Store, ttl: nat, id: string)
    requires Sound(s, ttl)
    ensures EntryIsAccepted(s, id)
  {
  }

  // A call about to be accepted has a young acceptance of its id before it if and only if
  // another call's purge took that acceptance's entry from under it.
  lemma AcceptedThoughYoungIff(ttl: nat, steps: seq<Step>, c: nat)
    requires var s := Run(ttl, steps); Undecided(s, c) && s.calls[c].id !in s.seen
    ensures var s := Run(ttl, steps);
            YoungAmong(s, ttl, s.calls[c], |s.accepted|) <==> Overtaken(ttl, steps, c)
  {
    var s := Run(ttl, steps);
    if Overtaken(ttl, steps, c) {
      OvertakenHadYoung(ttl, steps, c);
    } else {
      NotOvertaken(ttl, steps, c);
      forall k: nat | k < |s.accepted| && s.accepted[k].id == s.calls[c].id
        ensures Dedup.Age(s.calls[c].now, s.accepted[k].now) >= ttl {
        assert EntryOrOld(s, ttl, c, k);
      }
    }
  }

  // Each acceptance belongs to an accepted call.
  predicate Recorded(s: Store, k: nat)
    requires k < |s.accepted|
  {
    var a := s.accepted[k];
    a.call < |s.calls| && s.calls[a.call] == Call(a.id, a.now, true, Some(true))
  }

  lemma {:induction false} AcceptancesAreRecorded(ttl: nat, steps: seq<Step>, k: nat)
    requires k < |Run(ttl, steps).accepted|
    ensures Recorded(Run(ttl, steps), k)
  {
    var before, step := steps[..|steps| - 1], steps[|steps| - 1];
    if k < |Run(ttl, before).accepted| {
      AcceptancesAreRecorded(ttl, before, k);
      StepOnlyAdds(Run(ttl, before), ttl, step, Run(ttl, before).accepted[k].call);
    }
  }

  // Over every run: the `k`-th acceptance has an earlier one of its id within the
  // time-to-live, by the times the two calls read, if and only if it was overtaken.
  lemma {:induction false} StampsTooCloseIff(ttl: nat, steps: seq<Step>, k: nat)
    requires k < |Run(ttl, steps).accepted|
    ensures var s := Run(ttl, steps);
            && s.accepted[k].call < |s.calls|
            && (YoungAmong(s, ttl, s.calls[s.accepted[k].call], k) <==> Overtaken(ttl, steps, s.accepted[k].call))
            && s.calls[s.accepted[k].call] == Call(s.accepted[k].id, s.accepted[k].now, true, Some(true))
  {
    var before, step := steps[..|steps| - 1], steps[|steps| - 1];
    var s, t := Run(ttl, before), Run(ttl, steps);
    var c := t.accepted[k].call;
    AcceptancesAreRecorded(ttl, steps, k);
    StepOnlyAdds(s, ttl, step, c);
    if k < |s.accepted| {
      AcceptancesAreRecorded(ttl, before, k);
      StampsTooCloseIff(ttl, before, k);
    } else {
      AcceptedThoughYoungIff(ttl, before, c);
    }
    hide Apply, Overtaken;
    assert forall i: nat :: i < |s.accepted| ==> t.accepted[i] == s.accepted[i];
  }

  // A call with an older reading enters after call `c`'s purge has looked for its id.
  predicate Slips(s: Store, ttl: nat, step: Step, c: nat) {
    && step.Enter? && Undecided(s, step.c) && Undecided(s, c)
    && s.calls[step.c].visited && s.calls[c].visited
    && s.calls[step.c].id == s.calls[c].id && s.calls[c].id !in s.seen
    && Dedup.Age(s.calls[c].now, s.calls[step.c].now) >= ttl
  }

  predicate Slipped(ttl: nat, steps: seq<Step>, c: nat) {
    && steps != []
    && var before := steps[..|steps| - 1];
       Slipped(ttl, before, c) || Slips(Run(ttl, before), ttl, steps[|steps| - 1], c)
  }

  lemma {:induction false} NotSlipped(ttl: nat, steps: seq<Step>, c: nat)
    requires Undecided(Run(ttl, steps), c) && Run(ttl, steps).calls[c].visited && !Slipped(ttl, steps, c)
    ensures var s := Run(ttl, steps);
            s.calls[c].id in s.seen ==> Dedup.Age(s.calls[c].now, s.seen[s.calls[c].id]) < ttl
  {
    var before, step := steps[..|steps| - 1], steps[|steps| - 1];
    var s := Run(ttl, before);
    if Undecided(s, c) && s.calls[c].visited {
      NotSlipped(ttl, before, c);
    }
  }

  // A call that was neither overtaken nor slipped past is rejected if and only if an
  // acceptance of its id is young by its own reading.
  lemma RejectedIff(ttl: nat, steps: seq<Step>, c: nat)
    requires Undecided(Run(ttl, steps), c) && Run(ttl, steps).calls[c].visited
    requires !Overtaken(ttl, steps, c) && !Slipped(ttl, steps, c)
    ensures var s := Run(ttl, steps);
            Apply(s, ttl, Enter(c)).calls[c].isNew == Some(false) <==> YoungAmong(s, ttl, s.calls[c], |s.accepted|)
  {
    var s := Run(ttl, steps);
    AlwaysSound(ttl, steps);
    NotSlipped(ttl, steps, c);
    EntryOfSound(s, ttl, s.calls[c].id);
    if s.calls[c].id !in s.seen {
      AcceptedThoughYoungIff(ttl, steps, c);
    }
  }

  // A rejection without a young acceptance is always due to a call that slipped past.
  lemma RejectedThoughOldSlipped(ttl: nat, steps: seq<Step>, c: nat)
    requires Undecided(Run(ttl, steps), c) && Run(ttl, steps).calls[c].visited
    ensures var s := Run(ttl, steps);
            Apply(s, ttl, Enter(c)).calls[c].isNew == Some(false) && !YoungAmong(s, ttl, s.calls[c], |s.accepted|) ==>
              Slipped(ttl, steps, c)
  {
    var s := Run(ttl, steps);
    AlwaysSound(ttl, steps);
    EntryOfSound(s, ttl, s.calls[c].id);
    if !Slipped(ttl, steps, c) {
      NotSlipped(ttl, steps, c);
    }
  }

  // ---------------------------------------------------------------- witnesses

  lemma RunNext(ttl: nat, steps: seq<Step>, step: Step)
    ensures Run(ttl, steps + [step]) == Apply(Run(ttl, steps), ttl, step)
  {
    assert (steps + [step])[..|steps|] == steps;
  }

  lemma OneAcceptedOneWaiting(id: string, ttl: nat) returns (steps: seq<Step>)
    ensures Run(ttl, steps) == Store(
        ttl, map[id := 0], [Call(id, 0, true, Some(true)), Call(id, 0, false, None)], [Accepted(id, 0, 0, 0)])
  {
    assert Run(ttl, []) == EMPTY;
    hide Run;
    RunNext(ttl, [], Begin(id));
    var s1 := [] + [Begin(id)];
    RunNext(ttl, s1, Visit(0, id));
    var s2 := s1 + [Visit(0, id)];
    RunNext(ttl, s2, Enter(0));
    var s3 := s2 + [Enter(0)];
    RunNext(ttl, s3, Begin(id));
    var s4 := s3 + [Begin(id)];
    RunNext(ttl, s4, Advance(ttl));
    steps := s4 + [Advance(ttl)];
  }

  // A call that read the clock before the deadline can enter after another's purge, and be
  // accepted within the time-to-live.
  lemma StaleReadingIsAccepted(id: string, ttl: nat) returns (steps: seq<Step>)
    requires ttl >= 1
    ensures var s := Run(ttl, steps);
            && |s.accepted| == 2
            && s.accepted[0].id == s.accepted[1].id == id
            && s.accepted[1].now < s.accepted[0].now + ttl
  {
    hide Run;
    var s5 := OneAcceptedOneWaiting(id, ttl);
    RunNext(ttl, s5, Begin(""));
    var s6 := s5 + [Begin("")];
    RunNext(ttl, s6, Visit(2, id));
    var s7 := s6 + [Visit(2, id)];
    RunNext(ttl, s7, Visit(1, id));
    var s8 := s7 + [Visit(1, id)];
    RunNext(ttl, s8, Enter(1));
    steps := s8 + [Enter(1)];
  }

  // Such an acceptance is stamped in the past, so the id can be accepted again at once.
  lemma AcceptedTwiceAtOnce(id: string, ttl: nat) returns (steps: seq<Step>)
    requires ttl >= 1
    ensures var s := Run(ttl, steps);
            && |s.accepted| == 3
            && s.accepted[1].id == s.accepted[2].id == id
            && s.accepted[1].at == s.accepted[2].at
  {
    hide Run;
    var s5 := OneAcceptedOneWaiting(id, ttl);
    RunNext(ttl, s5, Visit(1, id));
    var s6 := s5 + [Visit(1, id)];
    RunNext(ttl, s6, Begin(id));
    var s7 := s6 + [Begin(id)];
    RunNext(ttl, s7, Visit(2, id));
    var s8 := s7 + [Visit(2, id)];
    RunNext(ttl, s8, Enter(1));
    var s9 := s8 + [Enter(1)];
    steps := PurgeAndEnter(s9, id, ttl);
  }

  lemma PurgeAndEnter(before: seq<Step>, id: string, ttl: nat) returns (steps: seq<Step>)
    requires Run(ttl, before) == Store(
        ttl, map[id := 0],
        [Call(id, 0, true, Some(true)), Call(id, 0, true, Some(true)), Call(id, ttl, true, None)],
        [Accepted(id, 0, 0, 0), Accepted(id, 0, ttl, 1)])
    ensures var s := Run(ttl, steps);
            && |s.accepted| == 3
            && s.accepted[1].id == s.accepted[2].id == id
            && s.accepted[1].at == s.accepted[2].at
  {
    hide Run;
    RunNext(ttl, before, Visit(2, id));
    var s1 := before + [Visit(2, id)];
    RunNext(ttl, s1, Enter(2));
    steps := s1 + [Enter(2)];
  }
}
