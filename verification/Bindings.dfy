/** Routing rules: which agent a conversation is bound to. */
module Bindings {
  import opened Prelude
  import opened Text
  import opened SessionKeyCodec

  datatype PeerKind = UserPeer | GroupPeer

  datatype BindingRule =
    | Thread(channel: Option<string>, scope: string, threadId: string, agentName: string)
    | Scope(channel: Option<string>, scope: string, agentName: string)
    | Peer(channel: Option<string>, kind: PeerKind, id: string, agentName: string)
    | Team(teamId: string, agentName: string)
    | ChannelInstance(boundChannel: string, instance: string, agentName: string)
    | Channel(boundChannel: string, agentName: string)
    | Default(agentName: string)

  // What a rule is matched against: the message's thread and its session.
  datatype Query = Query(threadTs: Option<string>, key: SessionKey)

  predicate ChannelMatches(channel: Option<string>, key: SessionKey) {
    channel.None? || channel.value == key.channel
  }

  function PeerOf(key: SessionKey): Option<(PeerKind, string)> {
    match SplitOnce(key.scope, ":")
    case None => None
    case Some((kind, id)) =>
      if kind == "user" then Some((UserPeer, id)) else if kind == "group" then Some((GroupPeer, id)) else None
  }

  // `rsplit_once(':')`: the text before the last colon.
  function BeforeLastColon(s: string): Option<string> {
    if s == "" then None
    else if s[|s| - 1] == ':' then Some(s[..|s| - 1])
    else BeforeLastColon(s[..|s| - 1])
  }

  function TeamOf(key: SessionKey): Option<string> {
    if key.channel != "specialist" then None else BeforeLastColon(key.scope)
  }

  predicate MatchesThread(b: BindingRule, q: Query) {
    b.Thread? && ChannelMatches(b.channel, q.key) && b.scope == q.key.scope && q.threadTs == Some(b.threadId)
  }

  predicate MatchesScope(b: BindingRule, q: Query) {
    b.Scope? && ChannelMatches(b.channel, q.key) && b.scope == q.key.scope
  }

  predicate MatchesPeer(b: BindingRule, q: Query) {
    b.Peer? && ChannelMatches(b.channel, q.key) && PeerOf(q.key) == Some((b.kind, b.id))
  }

  predicate MatchesTeam(b: BindingRule, q: Query) {
    b.Team? && TeamOf(q.key) == Some(b.teamId)
  }

  predicate MatchesChannelInstance(b: BindingRule, q: Query) {
    b.ChannelInstance? && b.boundChannel == q.key.channel && q.key.channelInstance == Some(b.instance)
  }

  predicate MatchesChannel(b: BindingRule, q: Query) {
    b.Channel? && b.boundChannel == q.key.channel
  }

  predicate MatchesDefault(b: BindingRule, q: Query) {
    b.Default?
  }

  // `iter().rev().find(p)`, keeping the position found.
  function FindLast(bindings: seq<BindingRule>, p: (BindingRule, Query) -> bool, q: Query): (r: Option<nat>)
    ensures r.Some? ==> r.value < |bindings|
  {
    if bindings == [] then None
    else if p(bindings[|bindings| - 1], q) then Some(|bindings| - 1)
    else FindLast(bindings[..|bindings| - 1], p, q)
  }

  function OrElse(a: Option<nat>, b: Option<nat>): Option<nat> {
    if a.Some? then a else b
  }

  function WinnerIndex(q: Query, bs: seq<BindingRule>): (r: Option<nat>)
    ensures r.Some? ==> r.value < |bs|
  {
    OrElse(FindLast(bs, MatchesThread, q),
    OrElse(FindLast(bs, MatchesScope, q),
    OrElse(FindLast(bs, MatchesPeer, q),
    OrElse(FindLast(bs, MatchesTeam, q),
    OrElse(FindLast(bs, MatchesChannelInstance, q),
    OrElse(FindLast(bs, MatchesChannel, q),
           FindLast(bs, MatchesDefault, q)))))))
  }

  function ResolveBinding(q: Query, bs: seq<BindingRule>): Option<BindingRule> {
    match WinnerIndex(q, bs)
    case Some(i) => Some(bs[i])
    case None => None
  }

  // ------------------------------------------------------ reference: a maximum

  function Rank(b: BindingRule): nat {
    match b
    case Thread(_, _, _, _) => 6
    case Scope(_, _, _) => 5
    case Peer(_, _, _, _) => 4
    case Team(_, _) => 3
    case ChannelInstance(_, _, _) => 2
    case Channel(_, _) => 1
    case Default(_) => 0
  }

  predicate Matches(b: BindingRule, q: Query) {
    match Rank(b)
    case 6 => MatchesThread(b, q)
    case 5 => MatchesScope(b, q)
    case 4 => MatchesPeer(b, q)
    case 3 => MatchesTeam(b, q)
    case 2 => MatchesChannelInstance(b, q)
    case 1 => MatchesChannel(b, q)
    case _ => MatchesDefault(b, q)
  }

  predicate OnChannel(channel: Option<string>, key: SessionKey) {
    channel == None || channel == Some(key.channel)
  }

  // When each kind of rule applies.
  lemma RuleApplies(b: BindingRule, q: Query)
    ensures Matches(b, q) <==>
            match b
            case Thread(channel, scope, threadId, _) =>
              OnChannel(channel, q.key) && q.key.scope == scope && q.threadTs == Some(threadId)
            case Scope(channel, scope, _) =>
              OnChannel(channel, q.key) && q.key.scope == scope
            case Peer(channel, kind, id, _) =>
              OnChannel(channel, q.key) && q.key.scope == (if kind.UserPeer? then "user:" else "group:") + id
            case Team(teamId, _) =>
              && q.key.channel == "specialist"
              && exists member: string :: ':' !in member && q.key.scope == teamId + ":" + member
            case ChannelInstance(channel, instance, _) =>
              q.key.channel == channel && q.key.channelInstance == Some(instance)
            case Channel(channel, _) => q.key.channel == channel
            case Default(_) => true
  {
    match b
    case Peer(_, kind, id, _) => PeerIs(q.key, kind, id);
    case Team(teamId, _) => LastColon(q.key.scope, teamId);
    case _ =>
  }

  lemma PeerIs(key: SessionKey, kind: PeerKind, id: string)
    ensures PeerOf(key) == Some((kind, id)) <==> key.scope == (if kind.UserPeer? then "user:" else "group:") + id
  {
    SplitOnceChar(key.scope, ':');
    var head := if kind.UserPeer? then "user" else "group";
    assert ':' !in "user" && ':' !in "group";
    assert "user" != "group" by { assert |"user"| != |"group"|; }
    SplitJoinedChar(head, ':', id);
    assert head + ":" == if kind.UserPeer? then "user:" else "group:";
    assert head + ":" + id == (if kind.UserPeer? then "user:" else "group:") + id;
  }

  lemma {:induction false} LastColon(s: string, before: string)
    ensures BeforeLastColon(s) == Some(before) <==> exists rest: string :: ':' !in rest && s == before + ":" + rest
  {
    if s == "" {
    } else if s[|s| - 1] == ':' {
      EndsInColon(s, before);
    } else {
      LastColon(s[..|s| - 1], before);
      DropsVisible(s, before);
    }
  }

  lemma ColonLast(before: string, rest: string)
    requires ':' !in rest
    ensures var s := before + ":" + rest; s[|s| - 1] == ':' <==> rest == ""
  {
    var s := before + ":" + rest;
    assert s[|s| - 1] == if rest == "" then ':' else rest[|rest| - 1];
  }

  lemma EndsInColon(s: string, before: string)
    requires s != "" && s[|s| - 1] == ':'
    ensures s[..|s| - 1] == before <==> exists rest: string :: ':' !in rest && s == before + ":" + rest
  {
    if s[..|s| - 1] == before {
      assert s == before + ":" + "";
    }
    if exists rest: string :: ':' !in rest && s == before + ":" + rest {
      var rest: string :| ':' !in rest && s == before + ":" + rest;
      ColonLast(before, rest);
    }
  }

  lemma DropsVisible(s: string, before: string)
    requires s != "" && s[|s| - 1] != ':'
    ensures (exists rest: string :: ':' !in rest && s == before + ":" + rest) <==>
            (exists rest: string :: ':' !in rest && s[..|s| - 1] == before + ":" + rest)
  {
    if exists rest: string :: ':' !in rest && s == before + ":" + rest {
      var rest: string :| ':' !in rest && s == before + ":" + rest;
      ColonLast(before, rest);
      assert s[..|s| - 1] == before + ":" + rest[..|rest| - 1];
    }
    if exists rest: string :: ':' !in rest && s[..|s| - 1] == before + ":" + rest {
      var rest: string :| ':' !in rest && s[..|s| - 1] == before + ":" + rest;
      assert s == before + ":" + (rest + [s[|s| - 1]]);
    }
  }

  // A more specific kind of rule beats a less specific one, wherever it stands.
  lemma PrecedenceOfKinds(q: Query, bs: seq<BindingRule>, i: nat)
    requires i < |bs| && Matches(bs[i], q)
    ensures ResolveBinding(q, bs).Some?
    ensures var winner := ResolveBinding(q, bs).value;
            && (bs[i].Thread? ==> winner.Thread?)
            && (bs[i].Scope? ==> winner.Thread? || winner.Scope?)
            && (bs[i].Peer? ==> winner.Thread? || winner.Scope? || winner.Peer?)
            && (bs[i].Team? ==> winner.Thread? || winner.Scope? || winner.Peer? || winner.Team?)
            && (bs[i].ChannelInstance? ==> !winner.Channel? && !winner.Default?)
            && (bs[i].Channel? ==> !winner.Default?)
  {
    ResolutionIsMaximum(q, bs);
    hide WinnerIndex, Matches;
    var w := WinnerIndex(q, bs).value;
    assert IsWinner(q, bs, w);
  }

  // The matching rule with the greatest (rank, position).
  predicate IsWinner(q: Query, bs: seq<BindingRule>, i: nat) {
    && i < |bs|
    && Matches(bs[i], q)
    && forall j :: 0 <= j < |bs| && Matches(bs[j], q) ==>
        Rank(bs[j]) < Rank(bs[i]) || (Rank(bs[j]) == Rank(bs[i]) && j <= i)
  }

  lemma {:induction false} FindLastSpec(bs: seq<BindingRule>, p: (BindingRule, Query) -> bool, q: Query)
    ensures var r := FindLast(bs, p, q);
            match r
            case None => forall j :: 0 <= j < |bs| ==> !p(bs[j], q)
            case Some(i) => p(bs[i], q) && forall j :: i < j < |bs| ==> !p(bs[j], q)
  {
    if bs != [] && !p(bs[|bs| - 1], q) {
      FindLastSpec(bs[..|bs| - 1], p, q);
    }
  }

  lemma MatchesByClass(b: BindingRule, q: Query)
    ensures MatchesThread(b, q) <==> Matches(b, q) && Rank(b) == 6
    ensures MatchesScope(b, q) <==> Matches(b, q) && Rank(b) == 5
    ensures MatchesPeer(b, q) <==> Matches(b, q) && Rank(b) == 4
    ensures MatchesTeam(b, q) <==> Matches(b, q) && Rank(b) == 3
    ensures MatchesChannelInstance(b, q) <==> Matches(b, q) && Rank(b) == 2
    ensures MatchesChannel(b, q) <==> Matches(b, q) && Rank(b) == 1
    ensures MatchesDefault(b, q) <==> Matches(b, q) && Rank(b) == 0
    ensures Rank(b) <= 6
  {
  }

  // Seven reverse scans find the one lexicographic maximum.
  lemma ResolutionIsMaximum(q: Query, bs: seq<BindingRule>)
    ensures forall i: nat :: WinnerIndex(q, bs) == Some(i) <==> IsWinner(q, bs, i)
    ensures WinnerIndex(q, bs).None? <==> forall j :: 0 <= j < |bs| ==> !Matches(bs[j], q)
  {
    FindLastSpec(bs, MatchesThread, q);
    FindLastSpec(bs, MatchesScope, q);
    FindLastSpec(bs, MatchesPeer, q);
    FindLastSpec(bs, MatchesTeam, q);
    FindLastSpec(bs, MatchesChannelInstance, q);
    FindLastSpec(bs, MatchesChannel, q);
    FindLastSpec(bs, MatchesDefault, q);
    hide MatchesThread, MatchesScope, MatchesPeer, MatchesTeam, MatchesChannelInstance, MatchesChannel,
        MatchesDefault, Matches, Rank, FindLast;
    forall j | 0 <= j < |bs|
      ensures MatchesThread(bs[j], q) <==> Matches(bs[j], q) && Rank(bs[j]) == 6
      ensures MatchesScope(bs[j], q) <==> Matches(bs[j], q) && Rank(bs[j]) == 5
      ensures MatchesPeer(bs[j], q) <==> Matches(bs[j], q) && Rank(bs[j]) == 4
      ensures MatchesTeam(bs[j], q) <==> Matches(bs[j], q) && Rank(bs[j]) == 3
      ensures MatchesChannelInstance(bs[j], q) <==> Matches(bs[j], q) && Rank(bs[j]) == 2
      ensures MatchesChannel(bs[j], q) <==> Matches(bs[j], q) && Rank(bs[j]) == 1
      ensures MatchesDefault(bs[j], q) <==> Matches(bs[j], q) && Rank(bs[j]) == 0
      ensures Rank(bs[j]) <= 6 {
      MatchesByClass(bs[j], q);
    }
    if WinnerIndex(q, bs).Some? {
      var w := WinnerIndex(q, bs).value;
      assert IsWinner(q, bs, w);
      forall i: nat ensures IsWinner(q, bs, i) ==> i == w {
      }
    }
  }

  // Resolution is a one-pass fold: a rule added last wins exactly when it matches and its
  // class is at least the current winner's.
  lemma ResolutionIsFold(q: Query, bs: seq<BindingRule>, b: BindingRule)
    ensures ResolveBinding(q, bs + [b]) ==
              var before := ResolveBinding(q, bs);
              if Matches(b, q) && (before.None? || Rank(b) >= Rank(before.value)) then Some(b) else before
  {
    hide WinnerIndex, Matches, Rank;
    var longer := bs + [b];
    ResolutionIsMaximum(q, bs);
    ResolutionIsMaximum(q, longer);
    if WinnerIndex(q, bs).None? {
      if Matches(b, q) {
        assert IsWinner(q, longer, |bs|);
      } else {
        assert forall j :: 0 <= j < |longer| ==> !Matches(longer[j], q);
      }
    } else {
      var w := WinnerIndex(q, bs).value;
      assert IsWinner(q, bs, w);
      if Matches(b, q) && Rank(b) >= Rank(bs[w]) {
        assert IsWinner(q, longer, |bs|);
      } else {
        assert IsWinner(q, longer, w);
      }
    }
  }

  // ------------------------------------------------------------- the roster

  datatype AgentEntry = AgentEntry(name: string, backendId: string)

  // `lower` is Unicode lowercasing.
  function FindByName(agents: seq<AgentEntry>, name: string, lower: string -> string): (r: Option<AgentEntry>)
    ensures r.Some? ==> r.value in agents && lower(r.value.name) == lower(name)
    ensures r.None? ==> forall i :: 0 <= i < |agents| ==> lower(agents[i].name) != lower(name)
  {
    if agents == [] then None
    else if lower(agents[0].name) == lower(name) then Some(agents[0])
    else FindByName(agents[1..], name, lower)
  }

  function RosterMatch(roster: Option<seq<AgentEntry>>, name: string, lower: string -> string): Option<AgentEntry> {
    if roster.None? then None else FindByName(roster.value, name, lower)
  }

  // `register_binding` drops a rule for an agent that a configured roster does not know.
  predicate Admits(roster: Option<seq<AgentEntry>>, b: BindingRule, lower: string -> string) {
    roster.None? || RosterMatch(roster, b.agentName, lower).Some?
  }

  function Registered(
    roster: Option<seq<AgentEntry>>, offered: seq<BindingRule>, lower: string -> string): seq<BindingRule> {
    if offered == [] then []
    else
      var before, b := Registered(roster, offered[..|offered| - 1], lower), offered[|offered| - 1];
      if Admits(roster, b, lower) then before + [b] else before
  }

  class BindingRegistry {
    const roster: Option<seq<AgentEntry>>
    const lower: string -> string
    var bindings: seq<BindingRule>
    ghost var offered: seq<BindingRule>

    ghost predicate Valid()
      reads this
    {
      bindings == Registered(roster, offered, lower)
    }

    constructor (roster: Option<seq<AgentEntry>>, lower: string -> string)
      ensures Valid() && offered == [] && bindings == [] && this.roster == roster && this.lower == lower
    {
      this.roster, this.lower := roster, lower;
      bindings, offered := [], [];
    }

    method RegisterBinding(b: BindingRule)
      requires Valid()
      modifies this
      ensures Valid() && offered == old(offered) + [b]
      ensures bindings == if Admits(roster, b, lower) then old(bindings) + [b] else old(bindings)
    {
      offered := offered + [b];
      assert offered[..|offered| - 1] == old(offered);
      if roster.Some? && FindByName(roster.value, b.agentName, lower).None? {
        return;
      }
      bindings := bindings + [b];
    }
  }

  function ResolveBindingMatch(
    roster: Option<seq<AgentEntry>>, q: Query, bs: seq<BindingRule>, lower: string -> string): Option<AgentEntry>
  {
    match ResolveBinding(q, bs)
    case None => None
    case Some(b) => RosterMatch(roster, b.agentName, lower)
  }

  lemma {:induction false} RegisteredAreAdmitted(
    roster: Option<seq<AgentEntry>>, offered: seq<BindingRule>, lower: string -> string)
    ensures forall i :: 0 <= i < |Registered(roster, offered, lower)| ==>
        Admits(roster, Registered(roster, offered, lower)[i], lower)
  {
    if offered != [] {
      RegisteredAreAdmitted(roster, offered[..|offered| - 1], lower);
    }
  }

  // With a roster, whatever rules were offered, a winning rule always yields an agent, and
  // one is found exactly when some admitted rule matches.
  lemma {:induction false} WinnerAlwaysHasAgent(
    agents: seq<AgentEntry>, offered: seq<BindingRule>, q: Query, lower: string -> string)
    ensures var bs := Registered(Some(agents), offered, lower);
            ResolveBindingMatch(Some(agents), q, bs, lower).Some? <==> exists i :: 0 <= i < |bs| && Matches(bs[i], q)
    ensures var bs := Registered(Some(agents), offered, lower);
            var found := ResolveBindingMatch(Some(agents), q, bs, lower);
            found.Some? ==>
              && found.value in agents
              && exists i: nat :: IsWinner(q, bs, i) && lower(found.value.name) == lower(bs[i].agentName)
  {
    var bs := Registered(Some(agents), offered, lower);
    RegisteredAreAdmitted(Some(agents), offered, lower);
    ResolutionIsMaximum(q, bs);
    hide Matches, WinnerIndex;
    if WinnerIndex(q, bs).Some? {
      assert IsWinner(q, bs, WinnerIndex(q, bs).value);
    }
  }
}
