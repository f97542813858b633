/** Message deduplication with a time-to-live. */
module Dedup {
  import opened Prelude

  // Times are milliseconds on a monotonic clock.
  datatype Delivery = Delivery(id: string, now: nat)

  const REGISTRY_TTL := 300_000
  const LARK_TTL_SECS := 600

  // `Instant::duration_since` saturates.
  function Age(now: nat, since: nat): nat {
    if now >= since then now - since else 0
  }

  function Purged(seen: map<string, nat>, now: nat, ttl: nat): map<string, nat> {
    map id | id in seen && Age(now, seen[id]) < ttl :: seen[id]
  }

  function Checked(seen: map<string, nat>, d: Delivery, ttl: nat): map<string, nat> {
    var kept := Purged(seen, d.now, ttl);
    if d.id in kept then kept else kept[d.id := d.now]
  }

  class DedupStore {
    var seen: map<string, nat>
    const ttl: nat

    constructor ()
      ensures seen == map[] && ttl == 300_000
    {
      seen := map[];
      ttl := REGISTRY_TTL;
    }

    // Purge, then check and insert under one lock; false for a duplicate.
    method CheckAndInsert(id: string, now: nat) returns (isNew: bool)
      modifies this
      ensures seen == Checked(old(seen), Delivery(id, now), ttl)
      ensures isNew <==> !(id in old(seen) && Age(now, old(seen)[id]) < ttl)
    {
      seen := map k | k in seen && Age(now, seen[k]) < ttl :: seen[k];
      if id in seen {
        isNew := false;
      } else {
        seen := seen[id := now];
        isNew := true;
      }
    }
  }

  // The Lark channel's own gate counts whole seconds.
  class LarkGate {
    var seenMessageIds: map<string, nat>

    constructor ()
      ensures seenMessageIds == map[]
    {
      seenMessageIds := map[];
    }

    method ShouldAcceptMessage(messageId: string, now: nat) returns (accept: bool)
      modifies this
      ensures seenMessageIds == Checked(old(seenMessageIds), Delivery(messageId, now), 600_000)
      ensures accept <==>
              !(messageId in old(seenMessageIds) && Age(now, old(seenMessageIds)[messageId]) < 600_000)
    {
      seenMessageIds := map k | k in seenMessageIds && Age(now, seenMessageIds[k]) / 1000 < LARK_TTL_SECS ::
          seenMessageIds[k];
      if messageId in seenMessageIds {
        return false;
      }
      seenMessageIds := seenMessageIds[messageId := now];
      return true;
    }
  }

  // -------------------------------------------------------------- every run

  function SeenAfter(ds: seq<Delivery>, ttl: nat): map<string, nat> {
    if ds == [] then map[] else Checked(SeenAfter(ds[..|ds| - 1], ttl), ds[|ds| - 1], ttl)
  }

  // Whether the `i`-th delivery of a run is accepted.
  predicate Accepted(ds: seq<Delivery>, ttl: nat, i: nat)
    requires i < |ds|
  {
    ds[i].id !in Purged(SeenAfter(ds[..i], ttl), ds[i].now, ttl)
  }

  predicate ClockRuns(ds: seq<Delivery>) {
    forall i, j :: 0 <= i <= j < |ds| ==> ds[i].now <= ds[j].now
  }

  // An entry comes from an accepted delivery.
  predicate FromAccepted(ds: seq<Delivery>, ttl: nat, id: string, time: nat) {
    exists j: nat :: j < |ds| && ds[j] == Delivery(id, time) && Accepted(ds, ttl, j)
  }

  lemma AcceptedPrefix(ds: seq<Delivery>, ttl: nat, n: nat, j: nat)
    requires j < n <= |ds|
    ensures Accepted(ds[..n], ttl, j) <==> Accepted(ds, ttl, j)
  {
    assert ds[..n][..j] == ds[..j];
  }

  // The table holds only accepted deliveries.
  lemma {:induction false} TableIsAccepted(ds: seq<Delivery>, ttl: nat, id: string)
    ensures id in SeenAfter(ds, ttl) ==> FromAccepted(ds, ttl, id, SeenAfter(ds, ttl)[id])
  {
    if ds != [] {
      var n := |ds| - 1;
      var seen := SeenAfter(ds[..n], ttl);
      TableIsAccepted(ds[..n], ttl, id);
      if id in Purged(seen, ds[n].now, ttl) {
        var j: nat :| j < n && ds[..n][j] == Delivery(id, seen[id]) && Accepted(ds[..n], ttl, j);
        AcceptedPrefix(ds, ttl, n, j);
        assert ds[j] == ds[..n][j];
      } else if id in SeenAfter(ds, ttl) {
        assert ds[n] == Delivery(id, ds[n].now) && Accepted(ds, ttl, n);
      }
    }
  }

  // The table holds every accepted delivery still alive at the last one.
  lemma {:induction false} AliveIsInTable(ds: seq<Delivery>, ttl: nat, j: nat)
    requires ClockRuns(ds) && j < |ds| && Accepted(ds, ttl, j) && ds[|ds| - 1].now - ds[j].now < ttl
    ensures ds[j].id in SeenAfter(ds, ttl) && SeenAfter(ds, ttl)[ds[j].id] == ds[j].now
  {
    var n := |ds| - 1;
    assert ds[j].now <= ds[n].now;
    if j < n {
      assert ds[..n][n - 1] == ds[n - 1] && ds[..n][j] == ds[j];
      assert ds[n - 1].now <= ds[n].now;
      AcceptedPrefix(ds, ttl, n, j);
      ClockPrefix(ds, n);
      AliveIsInTable(ds[..n], ttl, j);
    }
    hide Accepted, ClockRuns;
  }

  lemma ClockPrefix(ds: seq<Delivery>, n: nat)
    requires ClockRuns(ds) && n <= |ds|
    ensures ClockRuns(ds[..n])
  {
  }

  // A delivery is accepted exactly when no delivery of the same id was accepted within the
  // time-to-live before it.
  lemma AcceptedIff(ds: seq<Delivery>, ttl: nat, i: nat)
    requires ClockRuns(ds) && i < |ds|
    ensures Accepted(ds, ttl, i) <==>
              !exists j: nat :: j < i && ds[j].id == ds[i].id && Accepted(ds, ttl, j) && ds[i].now - ds[j].now < ttl
  {
    var before, d := ds[..i], ds[i];
    var seen := SeenAfter(before, ttl);
    TableIsAccepted(before, ttl, d.id);
    if d.id in Purged(seen, d.now, ttl) {
      var j: nat :| j < i && before[j] == Delivery(d.id, seen[d.id]) && Accepted(before, ttl, j);
      AcceptedPrefix(ds, ttl, i, j);
    }
    forall j: nat | j < i && ds[j].id == d.id && Accepted(ds, ttl, j) && d.now - ds[j].now < ttl
      ensures d.id in Purged(seen, d.now, ttl) {
      AcceptedPrefix(ds, ttl, i, j);
      assert ds[i - 1].now <= d.now && ds[j].now <= d.now;
      AliveIsInTable(before, ttl, j);
    }
  }
}

/** Fanning one group message out to the agents it mentions. */
module Fanout {
  import opened Prelude
  import opened Text
  import Dedup

  // ------------------------------------------------------------- mentions

  // `split_whitespace`: the maximal runs of visible characters.
  function Word(s: string): (w: string)
    ensures |w| <= |s|
  {
    if s == "" || IsWhitespace(s[0]) then "" else [s[0]] + Word(s[1..])
  }

  function Words(s: string): seq<string>
    decreases |s|
  {
    if s == "" then []
    else if IsWhitespace(s[0]) then Words(s[1..])
    else [Word(s)] + Words(s[|Word(s)|..])
  }

  // `alnum` is Unicode's alphanumeric property.
  function TrimMention(token: string, alnum: char -> bool): string {
    if token != "" && !alnum(token[|token| - 1]) && token[|token| - 1] != '-' && token[|token| - 1] != '_'
    then TrimMention(token[..|token| - 1], alnum)
    else token
  }

  function MentionsIn(tokens: seq<string>, alnum: char -> bool): seq<string> {
    if tokens == [] then []
    else
      var token := tokens[|tokens| - 1];
      var before := MentionsIn(tokens[..|tokens| - 1], alnum);
      if "@" <= token && |TrimMention(token, alnum)| > 1 then before + [TrimMention(token, alnum)] else before
  }

  // Each value once, in the order of first occurrence.
  function FirstOccurrences(s: seq<string>): seq<string> {
    if s == [] then []
    else
      var before := FirstOccurrences(s[..|s| - 1]);
      if s[|s| - 1] in before then before else before + [s[|s| - 1]]
  }

  predicate Distinct(s: seq<string>) {
    forall i, j :: 0 <= i < j < |s| ==> s[i] != s[j]
  }

  function IndexOf(s: seq<string>, x: string): nat
    requires x in s
  {
    if s[0] == x then 0 else 1 + IndexOf(s[1..], x)
  }

  lemma {:induction false} FirstOccurrencesSpec(s: seq<string>)
    ensures Distinct(FirstOccurrences(s))
    ensures forall x :: x in s <==> x in FirstOccurrences(s)
    ensures forall i, j :: 0 <= i < j < |FirstOccurrences(s)| ==>
              FirstOccurrences(s)[i] in s && FirstOccurrences(s)[j] in s &&
              IndexOf(s, FirstOccurrences(s)[i]) < IndexOf(s, FirstOccurrences(s)[j])
  {
    if s != [] {
      var n := |s| - 1;
      var before := FirstOccurrences(s[..n]);
      FirstOccurrencesSpec(s[..n]);
      assert s == s[..n] + [s[n]];
      forall x ensures x in s[..n] ==> x in s && IndexOf(s, x) == IndexOf(s[..n], x) < n {
        if x in s[..n] {
          IndexOfAppend(s[..n], [s[n]], x);
        }
      }
      if s[n] !in before {
        IndexOfLast(s[..n], s[n]);
      }
    }
  }

  lemma {:induction false} IndexOfAppend(s: seq<string>, t: seq<string>, x: string)
    requires x in s
    ensures x in s + t && IndexOf(s + t, x) == IndexOf(s, x) < |s|
  {
    assert (s + t)[0] == s[0];
    if s[0] != x {
      assert (s + t)[1..] == s[1..] + t;
      IndexOfAppend(s[1..], t, x);
    }
  }

  lemma {:induction false} IndexOfLast(s: seq<string>, x: string)
    requires x !in s
    ensures IndexOf(s + [x], x) == |s|
  {
    if s != [] {
      assert (s + [x])[0] == s[0];
      assert (s + [x])[1..] == s[1..] + [x];
      IndexOfLast(s[1..], x);
    }
  }

  method ExtractAgentMentions(text: string, alnum: char -> bool) returns (mentions: seq<string>)
    ensures mentions == FirstOccurrences(MentionsIn(Words(text), alnum))
  {
    var tokens := Words(text);
    var seen: set<string> := {};
    mentions := [];
    for i := 0 to |tokens|
      invariant mentions == FirstOccurrences(MentionsIn(tokens[..i], alnum))
      invariant forall x :: x in seen <==> x in mentions
    {
      assert tokens[..i + 1][..i] == tokens[..i];
      if !("@" <= tokens[i]) {
        continue;
      }
      var mention := TrimMention(tokens[i], alnum);
      if |mention| <= 1 {
        continue;
      }
      ghost var found := MentionsIn(tokens[..i], alnum);
      assert (found + [mention])[..|found|] == found;
      if mention !in seen {
        seen := seen + {mention};
        mentions := mentions + [mention];
      }
    }
    assert tokens[..|tokens|] == tokens;
  }

  // The targets of a group message: platform mentions first, then those in the text.
  method CollectTargets(platform: seq<string>, inText: seq<string>) returns (targets: seq<string>)
    requires Distinct(platform)
    ensures targets == FirstOccurrences(platform + inText)
  {
    targets := platform;
    DistinctIsFirst(platform);
    assert platform + inText[..0] == platform;
    for i := 0 to |inText|
      invariant targets == FirstOccurrences(platform + inText[..i])
    {
      ghost var sofar := platform + inText[..i];
      assert platform + inText[..i + 1] == sofar + [inText[i]];
      assert (sofar + [inText[i]])[..|sofar|] == sofar;
      if inText[i] !in targets {
        targets := targets + [inText[i]];
      }
    }
    assert inText[..|inText|] == inText;
  }

  lemma {:induction false} DistinctIsFirst(s: seq<string>)
    requires Distinct(s)
    ensures FirstOccurrences(s) == s
  {
    if s != [] {
      var init, last := s[..|s| - 1], s[|s| - 1];
      DistinctIsFirst(init);
      assert last !in init;
      assert s == init + [last];
    }
  }

  // The words of a text are those on either side of any blank, and a text without blanks is
  // one word: these two equations determine them.
  lemma {:induction false} WordsSplit(a: string, c: char, b: string)
    requires IsWhitespace(c)
    ensures Words(a + [c] + b) == Words(a) + Words(b)
    decreases |a|
  {
    var s := a + [c] + b;
    if a == "" {
      assert s[1..] == b;
    } else if IsWhitespace(a[0]) {
      assert s[1..] == a[1..] + [c] + b;
      WordsSplit(a[1..], c, b);
    } else {
      WordStops(a, c, b);
      var w := Word(a);
      assert s[|w|..] == a[|w|..] + [c] + b;
      WordsSplit(a[|w|..], c, b);
    }
  }

  lemma {:induction false} WordStops(a: string, c: char, b: string)
    requires IsWhitespace(c)
    ensures Word(a + [c] + b) == Word(a)
  {
    if a != "" && !IsWhitespace(a[0]) {
      assert (a + [c] + b)[1..] == a[1..] + [c] + b;
      WordStops(a[1..], c, b);
    }
  }

  lemma {:induction false} VisibleIsWord(w: string)
    requires forall i :: 0 <= i < |w| ==> !IsWhitespace(w[i])
    ensures Word(w) == w
    ensures w != "" ==> Words(w) == [w]
  {
    if w != "" {
      VisibleIsWord(w[1..]);
      assert Words(w[|w|..]) == [];
    }
  }

  // A mention keeps everything up to its last letter, digit, dash or underscore.
  lemma {:induction false} TrimMentionSpec(token: string, alnum: char -> bool) returns (tail: string)
    ensures token == TrimMention(token, alnum) + tail
    ensures forall i :: 0 <= i < |tail| ==> !(alnum(tail[i]) || tail[i] == '-' || tail[i] == '_')
    ensures var m := TrimMention(token, alnum);
            m != "" ==> alnum(m[|m| - 1]) || m[|m| - 1] == '-' || m[|m| - 1] == '_'
  {
    tail := "";
    if token != "" && !alnum(token[|token| - 1]) && token[|token| - 1] != '-' && token[|token| - 1] != '_' {
      var rest := TrimMentionSpec(token[..|token| - 1], alnum);
      tail := rest + [token[|token| - 1]];
    }
  }

  lemma {:induction false} MentionsIff(tokens: seq<string>, alnum: char -> bool, m: string)
    ensures m in MentionsIn(tokens, alnum) <==>
            |m| > 1 && exists k :: 0 <= k < |tokens| && "@" <= tokens[k] && TrimMention(tokens[k], alnum) == m
  {
    hide TrimMention;
    if tokens != [] {
      var n := |tokens| - 1;
      MentionsIff(tokens[..n], alnum, m);
    }
  }

  // ------------------------------------------------------------ fan-out ids

  predicate IsPlainChar(c: char) {
    'a' <= c <= 'z' || 'A' <= c <= 'Z' || '0' <= c <= '9' || c == '-' || c == '_'
  }

  function StripAts(s: string): string {
    if s != "" && s[0] == '@' then StripAts(s[1..]) else s
  }

  function Sanitized(s: string): (r: string)
    ensures |r| == |s| && forall i :: 0 <= i < |s| ==> r[i] == if IsPlainChar(s[i]) then s[i] else '_'
  {
    seq(|s|, i requires 0 <= i < |s| => if IsPlainChar(s[i]) then s[i] else '_')
  }

  function StableTarget(target: string): string {
    Sanitized(StripAts(Trim(target)))
  }

  function DeriveId(baseId: string, target: Option<string>): string {
    match target
    case Some(t) => baseId + "#target=" + StableTarget(t)
    case None => baseId
  }

  // What the channel replies to: the platform's id without the fan-out suffix.
  function StripSuffix(id: string): string {
    match SplitOnce(id, "#")
    case Some((base, _)) => base
    case None => id
  }

  lemma StripRecoversBase(baseId: string, target: Option<string>)
    requires '#' !in baseId
    ensures StripSuffix(DeriveId(baseId, target)) == baseId
  {
    match target
    case Some(t) =>
      assert DeriveId(baseId, target) == baseId + "#" + ("target=" + StableTarget(t));
      SplitJoinedChar(baseId, '#', "target=" + StableTarget(t));
    case None =>
      SplitOnceChar(baseId, '#');
  }

  function StableTargetOf(target: Option<string>): Option<string> {
    if target.Some? then Some(StableTarget(target.value)) else None
  }

  // Two fan-out ids are equal exactly when base and sanitized target are.
  lemma IdsEqualIff(b: string, t: Option<string>, b': string, t': Option<string>)
    requires '#' !in b && '#' !in b'
    ensures DeriveId(b, t) == DeriveId(b', t') <==> b == b' && StableTargetOf(t) == StableTargetOf(t')
  {
    hide StableTarget;
    StripRecoversBase(b, t);
    StripRecoversBase(b', t');
    assert t.Some? ==> DeriveId(b, t)[|b| + |"#target="|..] == StableTarget(t.value);
    assert t'.Some? ==> DeriveId(b', t')[|b'| + |"#target="|..] == StableTarget(t'.value);
  }

  predicate PlainTarget(t: string) {
    |t| > 1 && t[0] == '@' && forall i :: 1 <= i < |t| ==> IsPlainChar(t[i])
  }

  lemma PlainTargetIsStable(t: string)
    requires PlainTarget(t)
    ensures StableTarget(t) == t[1..]
  {
    TrimTight(t);
    assert StripAts(t[1..]) == t[1..];
    assert Sanitized(t[1..]) == t[1..];
  }

  // A target is stable under outer blanks and its `@`s; all its other characters count, those
  // that are not letters, digits, dashes or underscores as underscores.
  lemma StableTargetSpec(before: string, ats: string, name: string, behind: string)
    requires Blank(before) && Blank(behind) && (forall i :: 0 <= i < |ats| ==> ats[i] == '@')
    requires name != "" && Tight(name) && name[0] != '@'
    ensures var r := StableTarget(before + (ats + name) + behind);
            && |r| == |name|
            && forall i :: 0 <= i < |r| ==>
                 r[i] == if 'a' <= name[i] <= 'z' || 'A' <= name[i] <= 'Z' || '0' <= name[i] <= '9'
                            || name[i] == '-' || name[i] == '_'
                         then name[i] else '_'
  {
    TrimIs(before, ats + name, behind);
    AtsStripped(ats, name);
    hide Trim, StripAts;
  }

  lemma {:induction false} AtsStripped(ats: string, name: string)
    requires forall i :: 0 <= i < |ats| ==> ats[i] == '@'
    requires name != "" && name[0] != '@'
    ensures StripAts(ats + name) == name
  {
    if ats == "" {
      assert ats + name == name;
    } else {
      assert (ats + name)[1..] == ats[1..] + name;
      AtsStripped(ats[1..], name);
    }
  }

  // Over plain targets, fan-out ids are injective in base and target.
  lemma PlainIdsAreInjective(b: string, t: string, b': string, t': string)
    requires '#' !in b && '#' !in b' && PlainTarget(t) && PlainTarget(t')
    ensures DeriveId(b, Some(t)) == DeriveId(b', Some(t')) <==> b == b' && t == t'
  {
    IdsEqualIff(b, Some(t), b', Some(t'));
    PlainTargetIsStable(t);
    PlainTargetIsStable(t');
    assert t == ['@'] + t[1..] && t' == ['@'] + t'[1..];
  }

  // Other targets can collide: a mention whose punctuation is another's underscore.
  lemma OtherIdsCollide(b: string)
    ensures DeriveId(b, Some("@a.b")) == DeriveId(b, Some("@a_b"))
  {
    TrimTight("@a.b");
    TrimTight("@a_b");
    assert "@a.b"[1..] == "a.b" && "@a_b"[1..] == "a_b";
    assert Sanitized("a.b") == "a_b" == Sanitized("a_b");
  }

  // Fan-out and deduplication together: over any run of fanned-out deliveries, a target of
  // a message is handled exactly when no target that sanitizes alike was already handled,
  // for that message, within the time-to-live.
  lemma HandledOncePerTarget(
    bases: seq<string>, targets: seq<Option<string>>, ds: seq<Dedup.Delivery>, ttl: nat, i: nat)
    requires |bases| == |targets| == |ds| && i < |ds| && Dedup.ClockRuns(ds)
    requires forall k :: 0 <= k < |ds| ==> '#' !in bases[k] && ds[k].id == DeriveId(bases[k], targets[k])
    ensures Dedup.Accepted(ds, ttl, i) <==>
              !exists j: nat :: j < i && bases[j] == bases[i]
                             && StableTargetOf(targets[j]) == StableTargetOf(targets[i])
                             && Dedup.Accepted(ds, ttl, j) && ds[i].now - ds[j].now < ttl
  {
    Dedup.AcceptedIff(ds, ttl, i);
    hide StableTargetOf, DeriveId;
    forall j: nat | j < i
      ensures ds[j].id == ds[i].id <==>
          bases[j] == bases[i] && StableTargetOf(targets[j]) == StableTargetOf(targets[i]) {
      IdsEqualIff(bases[j], targets[j], bases[i], targets[i]);
    }
  }

  // ---------------------------------------------------- one group message

  // The channel's view of the other bots: mention name to instance; `lower` is Unicode
  // lowercasing.
  datatype Channel = Channel(instanceId: string, instances: map<string, string>, lower: string -> string)

  datatype Inbound = Inbound(id: string, instance: string, target: Option<string>)

  function MentionName(value: string, ch: Channel): string {
    (ch.lower)(StripAts(Trim(value)))
  }

  // A platform's numbered stand-in for a mention.
  predicate IsPlaceholder(token: string) {
    "@_" <= token && |token| > 2 && forall i :: 2 <= i < |token| ==> IsPlainChar(token[i])
  }

  function PlatformTargets(names: seq<string>, ch: Channel): seq<string> {
    if names == [] then []
    else
      var before, name := PlatformTargets(names[..|names| - 1], ch), MentionName(names[|names| - 1], ch);
      if name in ch.instances then before + ["@" + ch.instances[name]] else before
  }

  function TextTargets(mentions: seq<string>, ch: Channel): seq<string> {
    if mentions == [] then []
    else
      var before, mention := TextTargets(mentions[..|mentions| - 1], ch), mentions[|mentions| - 1];
      var name := MentionName(mention, ch);
      if IsPlaceholder(mention) then before
      else before + [if name in ch.instances then "@" + ch.instances[name] else mention]
  }

  method MapPlatformMentions(names: seq<string>, ch: Channel) returns (targets: seq<string>)
    ensures targets == FirstOccurrences(PlatformTargets(names, ch))
  {
    var seen: set<string> := {};
    targets := [];
    for i := 0 to |names|
      invariant targets == FirstOccurrences(PlatformTargets(names[..i], ch))
      invariant forall x :: x in seen <==> x in targets
    {
      assert names[..i + 1][..i] == names[..i];
      var normalized := MentionName(names[i], ch);
      if normalized in ch.instances {
        var target := "@" + ch.instances[normalized];
        ghost var found := PlatformTargets(names[..i], ch);
        assert (found + [target])[..|found|] == found;
        if target !in seen {
          seen := seen + {target};
          targets := targets + [target];
        }
      }
    }
    assert names[..|names|] == names;
  }

  // Whom a message is for: every platform and text mention, or the mentioned bot itself.
  function Targets(
    names: seq<string>, text: string, isGroup: bool, selfMentioned: bool, ch: Channel, alnum: char -> bool): seq<string>
  {
    var platform := if isGroup then PlatformTargets(names, ch) else [];
    var found := FirstOccurrences(platform + TextTargets(FirstOccurrences(MentionsIn(Words(text), alnum)), ch));
    if found == [] && isGroup && selfMentioned then ["@" + ch.instanceId] else found
  }

  // A name reads the same with and without its `@`, whatever its case and outer blanks.
  lemma MentionNameOf(name: string, ch: Channel)
    requires Tight(name) && name != "" && name[0] != '@'
    ensures MentionName(name, ch) == MentionName("@" + name, ch) == (ch.lower)(name)
  {
    TrimTight(name);
    TrimTight("@" + name);
    assert ("@" + name)[1..] == name;
  }

  // Whom one platform mention is for.
  predicate PlatformAddresses(name: string, ch: Channel, t: string) {
    MentionName(name, ch) in ch.instances && t == "@" + ch.instances[MentionName(name, ch)]
  }

  // Whom one mention in the text is for: the instance it names, or else itself; a
  // platform's stand-in, `@_` and then letters, digits, dashes or underscores, is for nobody.
  predicate TextAddresses(mention: string, ch: Channel, t: string) {
    && !(|mention| >= 3 && mention[0] == '@' && mention[1] == '_'
         && forall i :: 2 <= i < |mention| ==>
              || 'a' <= mention[i] <= 'z' || 'A' <= mention[i] <= 'Z' || '0' <= mention[i] <= '9'
              || mention[i] == '_' || mention[i] == '-')
    && t == if MentionName(mention, ch) in ch.instances then "@" + ch.instances[MentionName(mention, ch)] else mention
  }

  lemma {:induction false} PlatformTargetsIff(names: seq<string>, ch: Channel, t: string)
    ensures t in PlatformTargets(names, ch) <==> exists k :: 0 <= k < |names| && PlatformAddresses(names[k], ch, t)
  {
    hide MentionName;
    if names != [] {
      PlatformTargetsIff(names[..|names| - 1], ch, t);
    }
  }

  lemma {:induction false} TextTargetsIff(mentions: seq<string>, ch: Channel, t: string)
    ensures t in TextTargets(mentions, ch) <==> exists k :: 0 <= k < |mentions| && TextAddresses(mentions[k], ch, t)
  {
    hide MentionName, TextAddresses;
    if mentions != [] {
      var n := |mentions| - 1;
      TextTargetsIff(mentions[..n], ch, t);
      OneTextTarget(mentions[n], ch, t);
    }
  }

  lemma OneTextTarget(mention: string, ch: Channel, t: string)
    ensures TextAddresses(mention, ch, t) <==>
            && !IsPlaceholder(mention)
            && var name := MentionName(mention, ch);
               t == if name in ch.instances then "@" + ch.instances[name] else mention
  {
    hide MentionName;
  }

  // Whom a message's platform mentions, in a group, or its text name.
  predicate Named(names: seq<string>, text: string, isGroup: bool, ch: Channel, alnum: char -> bool, t: string) {
    || (isGroup && exists k :: 0 <= k < |names| && PlatformAddresses(names[k], ch, t))
    || (var mentions := MentionsIn(Words(text), alnum);
        exists k :: 0 <= k < |mentions| && TextAddresses(mentions[k], ch, t))
  }

  // A message is for whom it names, and for the mentioned bot itself in a group if it names
  // nobody.
  lemma TargetsIff(
    names: seq<string>, text: string, isGroup: bool, selfMentioned: bool, ch: Channel, alnum: char -> bool, t: string)
    ensures t in Targets(names, text, isGroup, selfMentioned, ch, alnum) <==>
            || Named(names, text, isGroup, ch, alnum, t)
            || (isGroup && selfMentioned && t == "@" + ch.instanceId
                && forall x :: !Named(names, text, isGroup, ch, alnum, x))
  {
    var platform := if isGroup then PlatformTargets(names, ch) else [];
    var found := FirstOccurrences(platform + TextTargets(FirstOccurrences(MentionsIn(Words(text), alnum)), ch));
    forall x ensures x in found <==> Named(names, text, isGroup, ch, alnum, x) {
      FoundIffNamed(names, text, isGroup, ch, alnum, x);
    }
    hide Named, PlatformTargets, TextTargets, FirstOccurrences, Words, MentionsIn;
    assert found != [] ==> found[0] in found;
  }

  lemma FoundIffNamed(names: seq<string>, text: string, isGroup: bool, ch: Channel, alnum: char -> bool, x: string)
    ensures var platform := if isGroup then PlatformTargets(names, ch) else [];
            var first := FirstOccurrences(MentionsIn(Words(text), alnum));
            x in FirstOccurrences(platform + TextTargets(first, ch)) <==> Named(names, text, isGroup, ch, alnum, x)
  {
    hide PlatformAddresses, TextAddresses, PlatformTargets, TextTargets, FirstOccurrences, Words, MentionsIn;
    var platform := if isGroup then PlatformTargets(names, ch) else [];
    var mentions := MentionsIn(Words(text), alnum);
    var first := FirstOccurrences(mentions);
    FirstOccurrencesSpec(mentions);
    FirstOccurrencesSpec(platform + TextTargets(first, ch));
    PlatformTargetsIff(names, ch, x);
    TextTargetsIff(first, ch, x);
    SameAddresses(first, mentions, ch, x);
  }

  lemma SameAddresses(a: seq<string>, b: seq<string>, ch: Channel, t: string)
    requires forall x :: x in a <==> x in b
    ensures (exists k :: 0 <= k < |a| && TextAddresses(a[k], ch, t)) <==>
            (exists k :: 0 <= k < |b| && TextAddresses(b[k], ch, t))
  {
    hide TextAddresses;
    if exists k :: 0 <= k < |a| && TextAddresses(a[k], ch, t) {
      var k :| 0 <= k < |a| && TextAddresses(a[k], ch, t);
      assert a[k] in b;
    }
    if exists k :: 0 <= k < |b| && TextAddresses(b[k], ch, t) {
      var k :| 0 <= k < |b| && TextAddresses(b[k], ch, t);
      assert b[k] in a;
    }
  }

  lemma {:induction false} FirstOccurrencesNested(a: seq<string>, b: seq<string>)
    ensures FirstOccurrences(FirstOccurrences(a) + b) == FirstOccurrences(a + b)
  {
    var inner := FirstOccurrences(a);
    if b == [] {
      assert inner + b == inner && a + b == a;
      FirstOccurrencesSpec(a);
      DistinctIsFirst(inner);
    } else {
      var n := |b| - 1;
      FirstOccurrencesNested(a, b[..n]);
      assert (inner + b)[..|inner + b| - 1] == inner + b[..n];
      assert (a + b)[..|a + b| - 1] == a + b[..n];
    }
  }

  function InstanceFor(target: string, ch: Channel): string {
    if "@" <= target && Trim(target[1..]) in ch.instances.Values then Trim(target[1..]) else ch.instanceId
  }

  function Addressed(baseId: string, target: string, ch: Channel): Inbound {
    Inbound(DeriveId(baseId, Some(target)), InstanceFor(target, ch), Some(target))
  }

  method FindTargets(
    names: seq<string>, text: string, isGroup: bool, selfMentioned: bool, ch: Channel, alnum: char -> bool)
    returns (targets: seq<string>)
    ensures targets == Targets(names, text, isGroup, selfMentioned, ch, alnum)
  {
    var platform: seq<string> := [];
    if isGroup {
      platform := MapPlatformMentions(names, ch);
    }
    var mentions := ExtractAgentMentions(text, alnum);
    var inText := TextTargets(mentions, ch);
    ghost var offered := if isGroup then PlatformTargets(names, ch) else [];
    FirstOccurrencesSpec(offered);
    FirstOccurrencesNested(offered, inText);
    targets := CollectTargets(platform, inText);
    if targets == [] && isGroup && selfMentioned {
      targets := ["@" + ch.instanceId];
    }
  }

  // A target names an instance by what follows its `@`.
  predicate NamesInstance(target: string, instance: string) {
    "@" <= target && Trim(target[1..]) == instance
  }

  predicate IsKnown(instance: string, ch: Channel) {
    exists name :: name in ch.instances && ch.instances[name] == instance
  }

  // Whom a fanned-out message is for, the id under which, and the instance as which it is
  // handled: the one the target names if that is known, else the receiving one.
  ghost predicate IsAddressed(msg: Inbound, baseId: string, target: string, ch: Channel) {
    && msg.target == Some(target)
    && msg.id == baseId + "#target=" + StableTarget(target)
    && ((NamesInstance(target, msg.instance) && IsKnown(msg.instance, ch))
        || (msg.instance == ch.instanceId && forall v :: IsKnown(v, ch) ==> !NamesInstance(target, v)))
  }

  lemma AddressedIs(baseId: string, target: string, ch: Channel)
    ensures IsAddressed(Addressed(baseId, target, ch), baseId, target, ch)
  {
    hide Trim, StableTarget;
    forall v ensures IsKnown(v, ch) <==> v in ch.instances.Values {
      KnownIsValue(v, ch);
    }
  }

  lemma KnownIsValue(v: string, ch: Channel)
    ensures IsKnown(v, ch) <==> v in ch.instances.Values
  {
  }

  // The messages an event becomes once it has passed the trigger policy.
  method FanOut(
    baseId: string, names: seq<string>, text: string, isGroup: bool, selfMentioned: bool,
    ch: Channel, alnum: char -> bool)
    returns (out: seq<Inbound>)
    ensures var targets := Targets(names, text, isGroup, selfMentioned, ch, alnum);
            if targets == [] then out == [Inbound(baseId, ch.instanceId, None)]
            else |out| == |targets| && forall i :: 0 <= i < |out| ==> IsAddressed(out[i], baseId, targets[i], ch)
  {
    hide Targets, DeriveId, InstanceFor, IsAddressed;
    var targets := FindTargets(names, text, isGroup, selfMentioned, ch, alnum);
    if targets == [] {
      return [Inbound(baseId, ch.instanceId, None)];
    }
    out := [];
    for i := 0 to |targets|
      invariant |out| == i && forall k :: 0 <= k < i ==> IsAddressed(out[k], baseId, targets[k], ch)
    {
      AddressedIs(baseId, targets[i], ch);
      out := out + [Addressed(baseId, targets[i], ch)];
    }
  }

  // In particular `@v` is handled as `v` if some bot is known to be that instance.
  lemma KnownInstanceIsAddressed(msg: Inbound, baseId: string, v: string, ch: Channel)
    requires IsAddressed(msg, baseId, "@" + v, ch) && Tight(v) && v in ch.instances.Values
    ensures msg.instance == v && msg.target == Some("@" + v)
  {
    TrimTight(v);
    assert ("@" + v)[1..] == v;
    KnownIsValue(v, ch);
  }

  lemma TargetsAreDistinct(
    names: seq<string>, text: string, isGroup: bool, selfMentioned: bool, ch: Channel, alnum: char -> bool)
    ensures Distinct(Targets(names, text, isGroup, selfMentioned, ch, alnum))
  {
    var platform := if isGroup then PlatformTargets(names, ch) else [];
    FirstOccurrencesSpec(platform + TextTargets(FirstOccurrences(MentionsIn(Words(text), alnum)), ch));
  }

  // The messages of one event never shadow each other in the deduplication table, as long
  // as its targets are plain; and all reply to the event's own message.
  lemma FannedOutIdsAreDistinct(
    baseId: string, names: seq<string>, text: string, isGroup: bool, selfMentioned: bool,
    ch: Channel, alnum: char -> bool)
    requires '#' !in baseId
    ensures var targets := Targets(names, text, isGroup, selfMentioned, ch, alnum);
            && (forall i :: 0 <= i < |targets| ==> StripSuffix(Addressed(baseId, targets[i], ch).id) == baseId)
            && ((forall i :: 0 <= i < |targets| ==> PlainTarget(targets[i])) ==>
                  forall i, j :: 0 <= i < j < |targets| ==>
                    Addressed(baseId, targets[i], ch).id != Addressed(baseId, targets[j], ch).id)
  {
    TargetsAreDistinct(names, text, isGroup, selfMentioned, ch, alnum);
    hide Targets, PlainTarget, DeriveId, StripSuffix;
    var targets := Targets(names, text, isGroup, selfMentioned, ch, alnum);
    forall i | 0 <= i < |targets| ensures StripSuffix(Addressed(baseId, targets[i], ch).id) == baseId {
      StripRecoversBase(baseId, Some(targets[i]));
    }
    if forall i :: 0 <= i < |targets| ==> PlainTarget(targets[i]) {
      forall i, j | 0 <= i < j < |targets|
        ensures Addressed(baseId, targets[i], ch).id != Addressed(baseId, targets[j], ch).id {
        PlainIdsAreInjective(baseId, targets[i], baseId, targets[j]);
      }
    }
  }
}
