/** Bot replies that mention other bots: what is triggered, and why it stops. */
module MentionPropagation {
  import opened Prelude
  import opened Text

  datatype MsgSource = Human | BotMention | Relay | Cron | Heartbeat | TeamNotify

  datatype Inbound = Inbound(scope: string, content: string, sender: string, target: string, source: MsgSource)

  // ------------------------------------------------------- the instruction

  // The first line that is not blank, trimmed.
  function FirstVisibleLine(s: string): string
    decreases |s|
  {
    match Find(s, "\n")
    case None => Trim(s)
    case Some(i) => if Trim(s[..i]) != "" then Trim(s[..i]) else FirstVisibleLine(s[i + 1..])
  }

  // `line` is what stands between the leading blanks and the end of its line.
  predicate Frames(s: string, pre: string, line: string, blanks: string, post: string) {
    && s == pre + line + blanks + post
    && Blank(pre) && Blank(blanks)
    && '\n' !in line && Tight(line)
    && (post == "" || post[0] == '\n')
  }

  ghost predicate IsFirstVisibleLine(line: string, s: string) {
    exists pre, blanks, post :: Frames(s, pre, line, blanks, post)
  }

  lemma {:induction false} FirstVisibleLineSpec(s: string)
    ensures FirstVisibleLine(s) == "" <==> Blank(s)
    ensures FirstVisibleLine(s) != "" ==> IsFirstVisibleLine(FirstVisibleLine(s), s)
    decreases |s|
  {
    hide Blank, Trim, Find, IsFirstVisibleLine;
    CutAtNewline(s);
    match Find(s, "\n")
    case None =>
      TrimEmptyIffBlank(s);
      if Trim(s) != "" {
        LineHolds(s, "");
        assert s + "" == s;
      }
    case Some(i) =>
      TrimEmptyIffBlank(s[..i]);
      if Trim(s[..i]) != "" {
        LineHolds(s[..i], s[i..]);
        assert s[..i] + s[i..] == s;
      } else {
        FirstVisibleLineSpec(s[i + 1..]);
        LaterLine(s[..i + 1], FirstVisibleLine(s[i + 1..]), s[i + 1..]);
        assert s[..i + 1] + s[i + 1..] == s;
      }
  }

  lemma CutAtNewline(s: string)
    ensures match Find(s, "\n")
            case None => '\n' !in s
            case Some(i) => '\n' !in s[..i] && s[i..][0] == '\n' && (Blank(s[..i]) ==> Blank(s[..i + 1]))
  {
    ContainsChar(s, '\n');
    FindSpec(s, "\n");
    match Find(s, "\n")
    case None =>
    case Some(i) =>
      OccursAtChar(s, '\n', i);
      forall j | 0 <= j < i ensures s[j] != '\n' {
        OccursAtChar(s, '\n', j);
      }
  }

  lemma BlankSplit(l: string, r: string)
    ensures Blank(l + r) <==> Blank(l) && Blank(r)
  {
    if Blank(l + r) {
      assert forall i :: 0 <= i < |l| ==> l[i] == (l + r)[i];
      assert forall i :: 0 <= i < |r| ==> r[i] == (l + r)[|l| + i];
    }
  }

  lemma LineHolds(l: string, rest: string)
    requires Trim(l) != "" && '\n' !in l && (rest == "" || rest[0] == '\n')
    ensures IsFirstVisibleLine(Trim(l), l + rest) && !Blank(l + rest)
  {
    var a, b := TrimCore(l);
    TrimEmptyIffBlank(l);
    BlankSplit(l, rest);
    hide Blank, Tight, Trim;
    assert forall c :: c in Trim(l) ==> c in l;
    assert Frames(l + rest, a, Trim(l), b, rest);
  }

  lemma LaterLine(skipped: string, line: string, tail: string)
    requires Blank(skipped)
    ensures Blank(skipped + tail) <==> Blank(tail)
    ensures IsFirstVisibleLine(line, tail) ==> IsFirstVisibleLine(line, skipped + tail)
  {
    BlankSplit(skipped, tail);
    if IsFirstVisibleLine(line, tail) {
      var pre, blanks, post :| Frames(tail, pre, line, blanks, post);
      BlankSplit(skipped, pre);
      hide Blank, Tight;
      assert skipped + (pre + line + blanks + post) == (skipped + pre) + line + blanks + post;
      assert Frames(skipped + tail, skipped + pre, line, blanks, post);
    }
  }

  // What `output` asks of `bot`, if anything.
  function Instruction(output: string, bot: string): Option<string> {
    match Find(output, "@" + bot)
    case None => None
    case Some(pos) =>
      var line := FirstVisibleLine(output[pos + |bot| + 1..]);
      if line == "" then None else Some(line)
  }

  // `pos` is where the first mention of `bot` begins.
  ghost predicate FirstMention(output: string, bot: string, pos: nat) {
    && OccursAt("@" + bot, output, pos)
    && forall j: nat :: j < pos ==> !OccursAt("@" + bot, output, j)
  }

  // A bot is asked exactly when text follows its first mention.
  lemma InstructionIff(output: string, bot: string)
    ensures Instruction(output, bot).Some? <==>
            exists pos: nat ::
              && FirstMention(output, bot, pos)
              && pos + |bot| + 1 <= |output| && !Blank(output[pos + |bot| + 1..])
    ensures Instruction(output, bot).Some? ==>
              exists pos: nat ::
                && FirstMention(output, bot, pos)
                && pos + |bot| + 1 <= |output|
                && Instruction(output, bot).value != ""
                && IsFirstVisibleLine(Instruction(output, bot).value, output[pos + |bot| + 1..])
  {
    var pat := "@" + bot;
    FindSpec(output, pat);
    hide Find, Blank, Contains, IsFirstVisibleLine;
    if Find(output, pat).Some? {
      FirstVisibleLineSpec(output[Find(output, pat).value + |bot| + 1..]);
      assert FirstMention(output, bot, Find(output, pat).value);
      hide FirstVisibleLine;
    }
    forall pos: nat ensures FirstMention(output, bot, pos) ==> Find(output, pat) == Some(pos) {
      if FirstMention(output, bot, pos) {
        FindIs(output, pat, pos);
      }
    }
  }

  // Names are matched as substrings: a name's mention may hold another's.
  lemma OccursWithin(s: string, pat: string, long: string, k: nat, p: nat)
    requires OccursAt(pat, long, p) && OccursAt(long, s, k)
    ensures OccursAt(pat, s, k + p) && Contains(s, pat) && p + |pat| <= |long|
  {
    assert forall i :: 0 <= i < |pat| ==> pat[i] == long[p..][i] == long[p + i] == s[k..][p + i] == s[k + p..][i];
    assert OccursAt(pat, s, k + p);
  }

  lemma MentionWithinAsks(output: string, bot: string, longer: string)
    requires Contains("@" + longer, "@" + bot)
    ensures Instruction(output, longer).Some? ==> Instruction(output, bot).Some?
  {
    InstructionIff(output, bot);
    InstructionIff(output, longer);
    var pat, long := "@" + bot, "@" + longer;
    FindSpec(output, pat);
    var p: nat :| p <= |long| && OccursAt(pat, long, p);
    hide Instruction, Find, Blank, OccursAt;
    if Instruction(output, longer).Some? {
      var k: nat :|
        && FirstMention(output, longer, k)
        && k + |longer| + 1 <= |output|
        && !Blank(output[k + |longer| + 1..]);
      OccursWithin(output, pat, long, k, p);
      var j := Find(output, pat).value;
      assert j <= k + p;
      BlankSuffix(output, j + |bot| + 1, k + |longer| + 1);
      assert FirstMention(output, bot, j);
    }
  }

  // A mention with anything visible after it asks.
  lemma SoleMention(name: string)
    ensures Instruction("@" + name + "x", name).Some?
  {
    var pat := "@" + name;
    var output := pat + "x";
    assert output[0..] == output && OccursAt(pat, output, 0);
    assert FirstMention(output, name, 0);
    assert output[0 + |name| + 1..] == "x" && !IsWhitespace("x"[0]);
    InstructionIff(output, name);
  }

  lemma OccursBefore(pat: string, long: string, tail: string, p: nat)
    requires OccursAt(pat, long + tail, p) && p + |pat| <= |long|
    ensures Contains(long, pat)
  {
    assert forall i :: 0 <= i < |pat| ==> pat[i] == (long + tail)[p..][i] == (long + tail)[p + i] == long[p..][i];
    assert OccursAt(pat, long, p);
  }

  // Whatever asks `longer` also asks `bot` if and only if the mention of `longer` holds the
  // mention of `bot`; in particular if `bot` begins `longer`.
  lemma NamesInterfereIff(bot: string, longer: string)
    ensures (forall output :: Instruction(output, longer).Some? ==> Instruction(output, bot).Some?) <==>
            Contains("@" + longer, "@" + bot)
    ensures bot <= longer ==> Contains("@" + longer, "@" + bot)
  {
    var long := "@" + longer;
    if Contains(long, "@" + bot) {
      forall output ensures Instruction(output, longer).Some? ==> Instruction(output, bot).Some? {
        MentionWithinAsks(output, bot, longer);
      }
    }
    SoleMention(longer);
    InstructionIff(long + "x", bot);
    hide Instruction, Contains, OccursAt;
    if Instruction(long + "x", bot).Some? {
      var pos: nat :|
        && FirstMention(long + "x", bot, pos)
        && pos + |bot| + 1 <= |long + "x"|
        && !Blank((long + "x")[pos + |bot| + 1..]);
      VisibleIsNonempty((long + "x")[pos + |bot| + 1..]);
      OccursBefore("@" + bot, long, "x", pos);
    }
    PrefixMention(bot, longer);
  }

  lemma VisibleIsNonempty(s: string)
    ensures !Blank(s) ==> s != ""
  {
  }

  lemma PrefixMention(bot: string, longer: string)
    ensures bot <= longer ==> Contains("@" + longer, "@" + bot)
  {
    if bot <= longer {
      assert ("@" + longer)[0..] == "@" + longer;
      assert OccursAt("@" + bot, "@" + longer, 0);
    }
  }

  lemma BlankSuffix(s: string, i: nat, j: nat)
    requires i <= j <= |s|
    ensures Blank(s[i..]) ==> Blank(s[j..])
  {
    if Blank(s[i..]) {
      assert forall n :: 0 <= n < |s| - j ==> s[j..][n] == s[i..][j - i + n];
    }
  }

  // ----------------------------------------------------------- the trigger

  function Message(output: string, bot: string, sender: string, scope: string): Inbound
    requires Instruction(output, bot).Some?
  {
    Inbound(scope, Instruction(output, bot).value, sender, "@" + bot, BotMention)
  }

  predicate Asks(output: string, bot: string, sender: string) {
    bot != sender && Instruction(output, bot).Some?
  }

  // The messages a reply gives rise to, in roster order.
  function Triggered(bots: seq<string>, output: string, sender: string, scope: string): (ms: seq<Inbound>)
    ensures |ms| <= |bots|
  {
    if bots == [] then []
    else
      var n := |bots| - 1;
      var before := Triggered(bots[..n], output, sender, scope);
      if Asks(output, bots[n], sender) then before + [Message(output, bots[n], sender, scope)] else before
  }

  // A message is triggered exactly for a bot of the roster, other than the sender, that is
  // asked something; it hands over what is asked, from the sender, in the same scope.
  lemma {:induction false} TriggeredIff(bots: seq<string>, output: string, sender: string, scope: string, m: Inbound)
    ensures m in Triggered(bots, output, sender, scope) <==>
            exists bot ::
              && bot in bots && bot != sender
              && Instruction(output, bot) == Some(m.content)
              && m == Inbound(scope, m.content, sender, "@" + bot, BotMention)
  {
    hide Instruction;
    if bots != [] {
      var n := |bots| - 1;
      TriggeredIff(bots[..n], output, sender, scope, m);
      assert bots == bots[..n] + [bots[n]];
    }
  }

  // The messages come in roster order, at most one for each place in it.
  lemma {:induction false} TriggeredInOrder(
    a: seq<string>, b: seq<string>, output: string, sender: string, scope: string)
    ensures Triggered(a + b, output, sender, scope) ==
            Triggered(a, output, sender, scope) + Triggered(b, output, sender, scope)
  {
    hide Asks, Message;
    if b == [] {
      assert a + b == a;
    } else {
      TriggeredInOrder(a, b[..|b| - 1], output, sender, scope);
      assert (a + b)[..|a + b| - 1] == a + b[..|b| - 1];
    }
  }

  // The trigger's own guard.
  predicate Automated(source: MsgSource) {
    source == BotMention || source == Heartbeat || source == TeamNotify
  }

  // The bounded channel: a message that does not fit is dropped.
  function Offer(queue: seq<Inbound>, m: Inbound, capacity: nat): seq<Inbound> {
    if |queue| < capacity then queue + [m] else queue
  }

  function OfferAll(queue: seq<Inbound>, ms: seq<Inbound>, capacity: nat): seq<Inbound> {
    if ms == [] then queue
    else Offer(OfferAll(queue, ms[..|ms| - 1], capacity), ms[|ms| - 1], capacity)
  }

  lemma {:induction false} OfferAllKeepsWhatFits(queue: seq<Inbound>, ms: seq<Inbound>, capacity: nat)
    requires |queue| <= capacity
    ensures var k := if |ms| <= capacity - |queue| then |ms| else capacity - |queue|;
            OfferAll(queue, ms, capacity) == queue + ms[..k]
  {
    if ms != [] {
      OfferAllKeepsWhatFits(queue, ms[..|ms| - 1], capacity);
    }
  }

  class MentionTrigger {
    const registeredBots: seq<string>
    const capacity: nat
    var queue: seq<Inbound>

    constructor (registeredBots: seq<string>, capacity: nat)
      ensures this.registeredBots == registeredBots && this.capacity == capacity && queue == []
    {
      this.registeredBots := registeredBots;
      this.capacity := capacity;
      queue := [];
    }

    method ScanAndDispatch(output: string, senderName: string, scope: string, source: MsgSource)
      modifies this`queue
      ensures queue == if source == BotMention || source == Heartbeat || source == TeamNotify then old(queue)
                       else OfferAll(old(queue), Triggered(registeredBots, output, senderName, scope), capacity)
    {
      if Automated(source) {
        return;
      }
      NothingOffered(queue, registeredBots, output, senderName, scope, capacity);
      hide Triggered, OfferAll, Instruction;
      for i := 0 to |registeredBots|
        invariant queue == OfferAll(old(queue), Triggered(registeredBots[..i], output, senderName, scope), capacity)
      {
        var botName := registeredBots[i];
        NextBot(old(queue), registeredBots, i, output, senderName, scope, capacity);
        if botName == senderName {
          continue;
        }
        var instruction := ExtractInstruction(output, botName);
        if instruction.Some? {
          var msg := Inbound(scope, instruction.value, senderName, "@" + botName, BotMention);
          if |queue| < capacity {
            queue := queue + [msg];
          }
        }
      }
      WholeRoster(registeredBots);
    }
  }

  lemma WholeRoster(bots: seq<string>)
    ensures bots[..|bots|] == bots
  {
  }

  method ExtractInstruction(output: string, botName: string) returns (instruction: Option<string>)
    ensures instruction == Instruction(output, botName)
  {
    hide Find, FirstVisibleLine;
    instruction := None;
    var pattern := "@" + botName;
    var found := Find(output, pattern);
    if found.Some? {
      var line := FirstVisibleLine(output[found.value + |pattern|..]);
      if line != "" {
        instruction := Some(line);
      }
    }
  }

  lemma NothingOffered(
    queue: seq<Inbound>, bots: seq<string>, output: string, sender: string, scope: string, capacity: nat)
    ensures OfferAll(queue, Triggered(bots[..0], output, sender, scope), capacity) == queue
  {
  }

  lemma NextBot(
    queue: seq<Inbound>, bots: seq<string>, i: nat, output: string, sender: string, scope: string, capacity: nat)
    requires i < |bots|
    ensures var before := OfferAll(queue, Triggered(bots[..i], output, sender, scope), capacity);
            OfferAll(queue, Triggered(bots[..i + 1], output, sender, scope), capacity) ==
            if Asks(output, bots[i], sender)
            then Offer(before, Message(output, bots[i], sender, scope), capacity)
            else before
  {
    hide Instruction;
    var ms := Triggered(bots[..i], output, sender, scope);
    assert bots[..i + 1][..i] == bots[..i];
    if Asks(output, bots[i], sender) {
      assert (ms + [Message(output, bots[i], sender, scope)])[..|ms|] == ms;
    }
  }

  // ------------------------------------------------------ the gateway's runs

  predicate ShouldScanMentions(source: MsgSource) {
    source != BotMention && source != Relay && source != TeamNotify && source != Heartbeat
  }

  // The queue between the trigger and the one task that redispatches from it. `sent` and
  // `handled` are histories; `dropped` in an event says which sends found the channel full.
  datatype Gateway = Gateway(queue: seq<Inbound>, running: Option<Inbound>, sent: seq<Inbound>, handled: seq<Inbound>)

  datatype Reply = Reply(output: string, sender: string, isLead: bool, dropped: nat -> bool)

  datatype Event =
    | TurnDone(scope: string, source: MsgSource, reply: Reply)
    | Receive
    | Finish(reply: Reply)

  const START := Gateway([], None, [], [])

  function Kept(ms: seq<Inbound>, dropped: nat -> bool): (kept: seq<Inbound>)
    ensures |kept| <= |ms|
    ensures forall m :: m in kept ==> m in ms
  {
    if ms == [] then []
    else
      var n := |ms| - 1;
      Kept(ms[..n], dropped) + if dropped(n) then [] else [ms[n]]
  }

  lemma {:induction false} NothingDropped(ms: seq<Inbound>, dropped: nat -> bool)
    requires forall n: nat :: n < |ms| ==> !dropped(n)
    ensures Kept(ms, dropped) == ms
  {
    if ms != [] {
      NothingDropped(ms[..|ms| - 1], dropped);
    }
  }

  // What a finished turn puts on the queue.
  function Sends(bots: seq<string>, scope: string, source: MsgSource, r: Reply): seq<Inbound> {
    if !r.isLead && ShouldScanMentions(source) && !Automated(source)
    then Kept(Triggered(bots, r.output, r.sender, scope), r.dropped)
    else []
  }

  function Apply(bots: seq<string>, g: Gateway, e: Event): Gateway {
    match e
    case TurnDone(scope, source, r) =>
      var ms := Sends(bots, scope, source, r);
      g.(queue := g.queue + ms, sent := g.sent + ms)
    case Receive =>
      if g.running.None? && g.queue != [] then g.(queue := g.queue[1..], running := Some(g.queue[0])) else g
    case Finish(r) =>
      if g.running.Some? then
        var m := g.running.value;
        var ms := Sends(bots, m.scope, m.source, r);
        Gateway(g.queue + ms, None, g.sent + ms, g.handled + [m])
      else g
  }

  // A human or scheduled turn of anyone but a lead sends exactly the triggered messages, if
  // all of them fit; every other turn sends nothing.
  lemma TurnSends(bots: seq<string>, g: Gateway, scope: string, source: MsgSource, r: Reply)
    ensures !r.isLead && (source == Human || source == Cron) && (forall n :: !r.dropped(n)) ==>
              var t, ms := Apply(bots, g, TurnDone(scope, source, r)), Triggered(bots, r.output, r.sender, scope);
              t.queue == g.queue + ms && t.sent == g.sent + ms
    ensures r.isLead || (source != Human && source != Cron) ==>
              Apply(bots, g, TurnDone(scope, source, r)).sent == g.sent
  {
    if forall n :: !r.dropped(n) {
      NothingDropped(Triggered(bots, r.output, r.sender, scope), r.dropped);
    }
    hide Triggered, Kept;
  }

  function Run(bots: seq<string>, g: Gateway, es: seq<Event>): Gateway {
    if es == [] then g else Apply(bots, Run(bots, g, es[..|es| - 1]), es[|es| - 1])
  }

  predicate Scanning(e: Event) {
    e.TurnDone? && !e.reply.isLead && (e.source == Human || e.source == Cron)
  }

  function ScanningTurns(es: seq<Event>): nat {
    if es == [] then 0 else ScanningTurns(es[..|es| - 1]) + if Scanning(es[|es| - 1]) then 1 else 0
  }

  predicate WellAddressed(bots: seq<string>, m: Inbound) {
    m.source == BotMention && m.content != "" && Tight(m.content)
    && m.target != "@" + m.sender && exists bot :: bot in bots && m.target == "@" + bot
  }

  function InProgress(g: Gateway): seq<Inbound> {
    if g.running.Some? then [g.running.value] else []
  }

  predicate Inv(bots: seq<string>, g: Gateway, turns: nat) {
    && g.sent == g.handled + InProgress(g) + g.queue
    && (forall m :: m in g.sent ==> WellAddressed(bots, m))
    && |g.sent| <= turns * |bots|
  }

  lemma MessagesAreWellAddressed(bots: seq<string>, scope: string, source: MsgSource, r: Reply, m: Inbound)
    ensures m in Sends(bots, scope, source, r) ==> WellAddressed(bots, m)
  {
    if m in Sends(bots, scope, source, r) {
      TriggeredIff(bots, r.output, r.sender, scope, m);
      var bot :|
        && bot in bots && bot != r.sender
        && Instruction(r.output, bot) == Some(m.content)
        && m == Inbound(scope, m.content, r.sender, "@" + bot, BotMention);
      assert m.target[1..] == bot && ("@" + m.sender)[1..] == m.sender;
      InstructionIsTight(r.output, bot);
    }
  }

  lemma InstructionIsTight(output: string, bot: string)
    ensures Instruction(output, bot).Some? ==>
        Instruction(output, bot).value != "" && Tight(Instruction(output, bot).value)
  {
    var found := Find(output, "@" + bot);
    if found.Some? {
      FirstVisibleLineSpec(output[found.value + |bot| + 1..]);
    }
  }

  lemma TurnKeepsInv(bots: seq<string>, g: Gateway, ms: seq<Inbound>, turns: nat, more: nat)
    requires Inv(bots, g, turns) && more <= 1 && |ms| <= more * |bots|
    requires forall m :: m in ms ==> WellAddressed(bots, m)
    ensures Inv(bots, g.(queue := g.queue + ms, sent := g.sent + ms), turns + more)
  {
    hide WellAddressed;
    assert (turns + more) * |bots| == turns * |bots| + more * |bots|;
    assert g.handled + InProgress(g) + g.queue + ms == g.handled + InProgress(g) + (g.queue + ms);
  }

  lemma SendsAreBounded(bots: seq<string>, scope: string, source: MsgSource, r: Reply)
    ensures |Sends(bots, scope, source, r)| <= if Scanning(TurnDone(scope, source, r)) then |bots| else 0
  {
    hide Triggered, Kept;
  }

  lemma ReceiveKeepsInv(bots: seq<string>, g: Gateway, turns: nat)
    requires Inv(bots, g, turns)
    ensures Inv(bots, Apply(bots, g, Receive), turns)
  {
    hide WellAddressed;
    if g.running.None? && g.queue != [] {
      assert g.queue == [g.queue[0]] + g.queue[1..];
    }
  }

  lemma StepKeepsInv(bots: seq<string>, g: Gateway, e: Event, turns: nat)
    requires Inv(bots, g, turns)
    ensures Inv(bots, Apply(bots, g, e), turns + if Scanning(e) then 1 else 0)
  {
    hide WellAddressed, Sends;
    match e
    case TurnDone(scope, source, r) =>
      forall m | m in Sends(bots, scope, source, r) ensures WellAddressed(bots, m) {
        MessagesAreWellAddressed(bots, scope, source, r, m);
      }
      SendsAreBounded(bots, scope, source, r);
      TurnKeepsInv(bots, g, Sends(bots, scope, source, r), turns, if Scanning(e) then 1 else 0);
    case Receive =>
      ReceiveKeepsInv(bots, g, turns);
    case Finish(r) =>
      RedispatchAddsNothing(bots, g, r, turns);
  }

  // A redispatched turn never sends anything: the mention chain has length one.
  lemma RedispatchAddsNothing(bots: seq<string>, g: Gateway, r: Reply, turns: nat)
    requires Inv(bots, g, turns)
    ensures Apply(bots, g, Finish(r)).sent == g.sent && Apply(bots, g, Finish(r)).queue == g.queue
  {
    if g.running.Some? {
      assert g.running.value in InProgress(g);
      assert g.running.value in g.sent;
      assert WellAddressed(bots, g.running.value);
    }
  }

  // In every run, what was ever sent is what was handled, then what is being handled, then
  // the queue; it is at most one message per bot and human or scheduled turn, and none of it
  // is addressed to its own sender.
  lemma {:induction false} PropagationIsBounded(bots: seq<string>, es: seq<Event>)
    ensures Inv(bots, Run(bots, START, es), ScanningTurns(es))
  {
    if es != [] {
      PropagationIsBounded(bots, es[..|es| - 1]);
      StepKeepsInv(bots, Run(bots, START, es[..|es| - 1]), es[|es| - 1], ScanningTurns(es[..|es| - 1]));
    }
  }

  // ------------------------------------------------------------- draining

  function Work(g: Gateway): nat {
    2 * |g.queue| + |InProgress(g)|
  }

  predicate Enabled(g: Gateway, e: Event) {
    match e
    case TurnDone(_, _, _) => false
    case Receive => g.running.None? && g.queue != []
    case Finish(_) => g.running.Some?
  }

  // How many of the redispatch steps in a run had something to do.
  function StepsTaken(bots: seq<string>, g: Gateway, es: seq<Event>): nat {
    if es == [] then 0
    else
      var before := es[..|es| - 1];
      StepsTaken(bots, g, before) + if Enabled(Run(bots, g, before), es[|es| - 1]) then 1 else 0
  }

  // Every step of the redispatch task uses up one unit of work, and only a scanning turn adds
  // any: so once those stop, the queue drains in exactly the work that is left.
  lemma {:induction false} QueueDrains(bots: seq<string>, es: seq<Event>, more: seq<Event>)
    requires ScanningTurns(more) == 0
    ensures var g := Run(bots, START, es);
            var later := Run(bots, g, more);
            && Work(later) + StepsTaken(bots, g, more) == Work(g)
            && later.sent == g.sent
            && Inv(bots, later, ScanningTurns(es))
    ensures var later := Run(bots, Run(bots, START, es), more);
            (Work(later) == 0 <==> later.handled == later.sent)
            && (Work(later) > 0 ==> Enabled(later, Receive) || forall r :: Enabled(later, Finish(r)))
  {
    PropagationIsBounded(bots, es);
    var g := Run(bots, START, es);
    if more != [] {
      var before, e := more[..|more| - 1], more[|more| - 1];
      QueueDrains(bots, es, before);
      var mid := Run(bots, g, before);
      StepKeepsInv(bots, mid, e, ScanningTurns(es));
      if e.Finish? {
        RedispatchAddsNothing(bots, mid, e.reply, ScanningTurns(es));
      }
    }
    var later := Run(bots, g, more);
    if later.handled == later.sent {
      assert |later.sent| == |later.handled| + |InProgress(later)| + |later.queue|;
    }
  }

  // The trigger on a bounded channel is one of the gateway's steps: what does not fit is a
  // set of dropped messages.
  lemma {:induction false} FullChannelDrops(queue: seq<Inbound>, ms: seq<Inbound>, capacity: nat)
    requires |queue| <= capacity
    ensures OfferAll(queue, ms, capacity) == queue + Kept(ms, i => |queue| + i >= capacity)
  {
    if ms != [] {
      FullChannelDrops(queue, ms[..|ms| - 1], capacity);
      OfferAllKeepsWhatFits(queue, ms[..|ms| - 1], capacity);
    }
  }
}
