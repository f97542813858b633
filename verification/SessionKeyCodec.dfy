/** Session keys as text, as storage file names, and as session-id names. */
module SessionKeyCodec {
  import opened Prelude
  import opened Text

  datatype SessionKey = SessionKey(channel: string, scope: string, channelInstance: Option<string>)

  datatype ScopeClass = UserScope | GroupScope | OtherScope

  datatype ParseError = MissingSeparator | EmptyScope | EmptyChannel

  function ClassifyScope(key: SessionKey): ScopeClass {
    if "user:" <= key.scope then UserScope
    else if "group:" <= key.scope then GroupScope
    else OtherScope
  }

  function NormalizeInstance(value: Option<string>): Option<string> {
    if value.Some? && Trim(value.value) != "" then Some(Trim(value.value)) else None
  }

  // The conversation a key denotes: a group is one conversation whatever the instance.
  function NormalizeIdentity(key: SessionKey): SessionKey {
    key.(channelInstance := if ClassifyScope(key).GroupScope? then None else NormalizeInstance(key.channelInstance))
  }

  // A key's instance name without outer blanks, if anything is left of it.
  function VisibleInstance(key: SessionKey): Option<string> {
    match key.channelInstance
    case Some(name) => if Blank(name) then None else Some(Trim(name))
    case None => None
  }

  // Two keys of one conversation: the same channel and scope and, outside groups, the same
  // instance.
  predicate SameConversation(a: SessionKey, b: SessionKey) {
    && a.channel == b.channel
    && a.scope == b.scope
    && ("group:" <= a.scope || VisibleInstance(a) == VisibleInstance(b))
  }

  lemma IdentityIsConversation(a: SessionKey, b: SessionKey)
    ensures NormalizeIdentity(a) == NormalizeIdentity(b) <==> SameConversation(a, b)
  {
    InstanceIsVisible(a);
    InstanceIsVisible(b);
    hide Trim, Blank, NormalizeInstance, VisibleInstance;
    GroupIsNoUser(a.scope);
  }

  lemma InstanceIsVisible(key: SessionKey)
    ensures NormalizeInstance(key.channelInstance) == VisibleInstance(key)
  {
    if key.channelInstance.Some? {
      TrimEmptyIffBlank(key.channelInstance.value);
    }
  }

  lemma GroupIsNoUser(scope: string)
    ensures "group:" <= scope ==> !("user:" <= scope)
  {
    if "group:" <= scope {
      assert scope[0] == 'g' && "user:"[0] == 'u';
    }
  }

  lemma NormalizeInstanceIdempotent(value: Option<string>)
    ensures NormalizeInstance(NormalizeInstance(value)) == NormalizeInstance(value)
  {
    if value.Some? {
      TrimIdempotent(value.value);
    }
  }

  lemma NormalizeIdentityIdempotent(key: SessionKey)
    ensures NormalizeIdentity(NormalizeIdentity(key)) == NormalizeIdentity(key)
  {
    NormalizeInstanceIdempotent(key.channelInstance);
  }

  // ------------------------------------------------------------ text form

  function RenderText(key: SessionKey): string {
    var channel := Trim(key.channel);
    var scope := Trim(key.scope);
    match NormalizeInstance(key.channelInstance)
    case Some(instance) => channel + "@" + instance + ":" + scope
    case None => channel + ":" + scope
  }

  function ParseText(input: string): Result<SessionKey, ParseError> {
    var text := Trim(input);
    match SplitOnce(text, ":")
    case None => Err(MissingSeparator)
    case Some((head, scope)) =>
      if Trim(scope) == "" then Err(EmptyScope)
      else
        var (channel, instance) :=
          match SplitOnce(head, "@")
          case Some((c, i)) => (Trim(c), NormalizeInstance(Some(i)))
          case None => (Trim(head), None);
        if channel == "" then Err(EmptyChannel)
        else Ok(SessionKey(channel, Trim(scope), instance))
  }

  // The key with every part trimmed and a blank instance dropped.
  function Trimmed(key: SessionKey): SessionKey {
    SessionKey(Trim(key.channel), Trim(key.scope), NormalizeInstance(key.channelInstance))
  }

  // A key whose text form can be read back.
  predicate Readable(key: SessionKey) {
    var k := Trimmed(key);
    && k.channel != "" && k.scope != ""
    && ':' !in k.channel && '@' !in k.channel
    && (k.channelInstance.Some? ==> ':' !in k.channelInstance.value)
  }

  lemma TrimKeepsOut(s: string, c: char)
    requires c !in s
    ensures c !in Trim(s)
  {
    var a, b := TrimCore(s);
    forall x | x in Trim(s) ensures x in s {
      assert x in a + Trim(s) + b;
    }
  }

  // Whatever parses is readable and already trimmed.
  lemma ParsedIsReadable(input: string)
    ensures ParseText(input).Ok? ==>
        Readable(ParseText(input).value) && Trimmed(ParseText(input).value) == ParseText(input).value
  {
    var text := Trim(input);
    SplitOnceChar(text, ':');
    if SplitOnce(text, ":").Some? {
      var (head, scope) := SplitOnce(text, ":").value;
      SplitOnceChar(head, '@');
      TrimIdempotent(scope);
      if SplitOnce(head, "@").Some? {
        var (c, i) := SplitOnce(head, "@").value;
        assert forall x :: x in c || x in i ==> x in head;
        TrimKeepsOut(c, ':');
        TrimKeepsOut(c, '@');
        TrimKeepsOut(i, ':');
        TrimIdempotent(c);
        NormalizeInstanceIdempotent(Some(i));
      } else {
        TrimKeepsOut(head, ':');
        TrimKeepsOut(head, '@');
        TrimIdempotent(head);
      }
    }
  }

  // The text before a scope names no channel: it is blank up to its first `@`, if it has one.
  predicate NamesNoChannel(head: string) {
    match Find(head, "@")
    case Some(i) => Blank(head[..i])
    case None => Blank(head)
  }

  // Which texts are refused, and why.
  lemma ParseFailsIff(input: string)
    ensures ParseText(input) == Err(MissingSeparator) <==> ':' !in Trim(input)
    ensures ParseText(input) == Err(EmptyScope) <==>
              exists head: string, rest: string :: ':' !in head && Trim(input) == head + ":" + rest && Blank(rest)
    ensures ParseText(input) == Err(EmptyChannel) <==>
              exists head: string, rest: string ::
                ':' !in head && Trim(input) == head + ":" + rest && !Blank(rest) && NamesNoChannel(head)
  {
    hide Trim, Blank, Find;
    var text := Trim(input);
    SplitOnceChar(text, ':');
    forall head: string, rest: string | ':' !in head && text == head + ":" + rest
      ensures SplitOnce(text, ":") == Some((head, rest)) {
      SplitJoinedChar(head, ':', rest);
    }
    if SplitOnce(text, ":").Some? {
      var (head, rest) := SplitOnce(text, ":").value;
      TrimEmptyIffBlank(rest);
      TrimEmptyIffBlank(head);
      if SplitOnce(head, "@").Some? {
        TrimEmptyIffBlank(SplitOnce(head, "@").value.0);
      }
      assert text == head + ":" + rest;
    }
  }

  lemma RenderTextOf(key: SessionKey) returns (head: string)
    requires Readable(key)
    ensures RenderText(key) == head + ":" + Trimmed(key).scope && ':' !in head
    ensures SplitOnce(head, "@") ==
              match Trimmed(key).channelInstance
              case Some(i) => Some((Trimmed(key).channel, i))
              case None => None
    ensures Trimmed(key).channelInstance.None? ==> head == Trimmed(key).channel
    ensures Trim(RenderText(key)) == RenderText(key)
  {
    var k := Trimmed(key);
    match k.channelInstance {
      case Some(instance) =>
        head := k.channel + "@" + instance;
        SplitJoinedChar(k.channel, '@', instance);
      case None =>
        head := k.channel;
        SplitOnceChar(k.channel, '@');
    }
    TrimIdempotent(key.channel);
    TrimIdempotent(key.scope);
    var t := RenderText(key);
    assert t[0] == k.channel[0] && t[|t| - 1] == k.scope[|k.scope| - 1];
    TrimTight(t);
  }

  // The text form of a key reads back as the trimmed key exactly when the key is readable.
  lemma TextRoundTripIff(key: SessionKey)
    ensures ParseText(RenderText(key)) == Ok(Trimmed(key)) <==> Readable(key)
  {
    var k := Trimmed(key);
    ParsedIsReadable(RenderText(key));
    TrimIdempotent(key.channel);
    TrimIdempotent(key.scope);
    NormalizeInstanceIdempotent(key.channelInstance);
    assert Trimmed(k) == k;
    if Readable(key) {
      var head := RenderTextOf(key);
      SplitJoinedChar(head, ':', k.scope);
    }
  }

  // Text that parses is a fixed point of parse-after-render.
  lemma ParsedTextRoundTrips(input: string)
    requires ParseText(input).Ok?
    ensures ParseText(RenderText(ParseText(input).value)) == ParseText(input)
  {
    ParsedIsReadable(input);
    TextRoundTripIff(ParseText(input).value);
  }

  // A colon in the instance name ends up in the scope that is read back.
  lemma InstanceColonMovesIntoScope(key: SessionKey)
    requires key.channel != "" && Tight(key.channel) && ':' !in key.channel
    requires key.scope != "" && Tight(key.scope)
    requires NormalizeInstance(key.channelInstance).Some? && ':' in NormalizeInstance(key.channelInstance).value
    ensures ParseText(RenderText(key)).Ok? ==> |ParseText(RenderText(key)).value.scope| > |key.scope|
  {
    hide Trim, SplitOnce, IsWhitespace;
    TrimTight(key.channel);
    TrimTight(key.scope);
    var instance := NormalizeInstance(key.channelInstance).value;
    SplitOnceChar(instance, ':');
    var (l, r) := SplitOnce(instance, ":").value;
    var head, rest := key.channel + "@" + l, r + ":" + key.scope;
    var text := RenderText(key);
    assert text == head + ":" + rest;
    assert text[0] == key.channel[0] && text[|text| - 1] == key.scope[|key.scope| - 1];
    TrimTight(text);
    SplitJoinedChar(head, ':', rest);
    assert rest[|r|] == ':' && rest[|rest| - 1] == key.scope[|key.scope| - 1];
    VisibleEnds(key.scope);
    TrimKeepsMiddle(rest, |r|, |rest| - 1);
  }

  lemma VisibleEnds(s: string)
    requires s != "" && Tight(s)
    ensures !IsWhitespace(s[|s| - 1]) && !IsWhitespace(':')
  {
  }

  // The session reference a host hands to its agent, and the key the agent's team client
  // makes of it, denote the same conversation exactly when the key is readable and its
  // channel and scope carry no outer blanks.
  lemma TeamClientRecoversConversationIff(key: SessionKey)
    ensures var parsed := ParseText(RenderText(key));
            parsed.Ok? && NormalizeIdentity(parsed.value) == NormalizeIdentity(key) <==>
            Readable(key) && Tight(key.channel) && Tight(key.scope)
  {
    var parsed := ParseText(RenderText(key));
    if Readable(key) && Tight(key.channel) && Tight(key.scope) {
      TextRoundTripIff(key);
      TrimTight(key.channel);
      TrimTight(key.scope);
      NormalizeInstanceIdempotent(key.channelInstance);
    } else if parsed.Ok? && NormalizeIdentity(parsed.value) == NormalizeIdentity(key) {
      ParsedIsReadable(RenderText(key));
      TrimIdempotent(key.channel);
      TrimIdempotent(key.scope);
      assert parsed.value.channel == key.channel && parsed.value.scope == key.scope;
      if NormalizeInstance(key.channelInstance).Some? && ':' in NormalizeInstance(key.channelInstance).value {
        InstanceColonMovesIntoScope(key);
      }
    }
  }

  // ----------------------------------------------------------- storage keys

  function EscapeComponent(value: string): string {
    Replace(Replace(Replace(value, "%", "%25"), "#", "%23"), "=", "%3D")
  }

  function RenderStorageKey(key: SessionKey): string {
    var normalized := NormalizeIdentity(key);
    match NormalizeInstance(normalized.channelInstance)
    case Some(instance) =>
      "c=" + EscapeComponent(normalized.channel)
      + "#i=" + EscapeComponent(instance)
      + "#s=" + EscapeComponent(normalized.scope)
    case None =>
      "c=" + EscapeComponent(normalized.channel) + "#s=" + EscapeComponent(normalized.scope)
  }

  // The three passes as one substitution per character.
  function EscapeChar(c: char): string {
    if c == '%' then "%25" else if c == '#' then "%23" else if c == '=' then "%3D" else [c]
  }

  function Escape(s: string): string {
    if s == "" then "" else EscapeChar(s[0]) + Escape(s[1..])
  }

  lemma {:induction false} ReplaceCharAppend(a: string, b: string, c: char, with: string)
    ensures Replace(a + b, [c], with) == Replace(a, [c], with) + Replace(b, [c], with)
  {
    if a == "" {
      assert a + b == b;
    } else {
      assert (a + b)[1..] == a[1..] + b;
      assert [c] <= a <==> a[0] == c;
      assert [c] <= a + b <==> a[0] == c;
      ReplaceCharAppend(a[1..], b, c, with);
    }
  }

  lemma {:induction false} ReplaceAbsentChar(s: string, c: char, with: string)
    requires c !in s
    ensures Replace(s, [c], with) == s
  {
    if s != "" {
      assert [c] <= s <==> s[0] == c;
      assert s == [s[0]] + s[1..];
      ReplaceAbsentChar(s[1..], c, with);
    }
  }

  lemma ReplaceOneChar(x: char, c: char, with: string)
    ensures Replace([x], [c], with) == if x == c then with else [x]
  {
    assert [x][1..] == "";
    if x == c {
      assert [c] <= [x];
    } else {
      assert [x][0] != [c][0];
    }
    assert with + "" == with;
  }

  lemma EscapeCharPasses(x: char)
    ensures EscapeComponent([x]) == EscapeChar(x)
  {
    ReplaceOneChar(x, '%', "%25");
    if x == '%' {
      ReplaceAbsentChar("%25", '#', "%23");
      ReplaceAbsentChar("%25", '=', "%3D");
    } else {
      ReplaceOneChar(x, '#', "%23");
      if x == '#' {
        ReplaceAbsentChar("%23", '=', "%3D");
      } else {
        ReplaceOneChar(x, '=', "%3D");
      }
    }
  }

  // The sequential passes never disturb one another's output.
  lemma {:induction false} PassesAreOneEscape(s: string)
    ensures EscapeComponent(s) == Escape(s)
  {
    if s != "" {
      var x, rest := [s[0]], s[1..];
      assert s == x + rest;
      ReplaceCharAppend(x, rest, '%', "%25");
      var x1, rest1 := Replace(x, "%", "%25"), Replace(rest, "%", "%25");
      ReplaceCharAppend(x1, rest1, '#', "%23");
      ReplaceCharAppend(Replace(x1, "#", "%23"), Replace(rest1, "#", "%23"), '=', "%3D");
      EscapeCharPasses(s[0]);
      PassesAreOneEscape(rest);
    }
  }

  function Unescape(s: string): string {
    if s == "" then ""
    else if "%25" <= s then "%" + Unescape(s[3..])
    else if "%23" <= s then "#" + Unescape(s[3..])
    else if "%3D" <= s then "=" + Unescape(s[3..])
    else [s[0]] + Unescape(s[1..])
  }

  lemma {:induction false} UnescapeEscape(s: string)
    ensures Unescape(Escape(s)) == s
  {
    if s != "" {
      var e, rest := EscapeChar(s[0]), Escape(s[1..]);
      UnescapeEscape(s[1..]);
      assert (e + rest)[|e|..] == rest;
      assert (e + rest)[0] == e[0];
      if |e| == 3 {
        assert (e + rest)[1] == e[1] && (e + rest)[2] == e[2];
        assert e <= e + rest;
      }
      assert s == [s[0]] + s[1..];
    }
  }

  lemma {:induction false} EscapeHidesSeparators(s: string)
    ensures '#' !in Escape(s) && '=' !in Escape(s)
  {
    if s != "" {
      EscapeHidesSeparators(s[1..]);
    }
  }

  // An injective, separator-free component encoding.
  lemma EscapeComponentSpec(a: string, b: string)
    ensures '#' !in EscapeComponent(a) && '=' !in EscapeComponent(a)
    ensures EscapeComponent(a) == EscapeComponent(b) <==> a == b
  {
    PassesAreOneEscape(a);
    PassesAreOneEscape(b);
    EscapeHidesSeparators(a);
    UnescapeEscape(a);
    UnescapeEscape(b);
  }

  lemma StorageKeyParts(key: SessionKey)
    ensures var n := NormalizeIdentity(key);
            SplitOnce(RenderStorageKey(key), "#") ==
              Some(("c=" + EscapeComponent(n.channel),
                    match n.channelInstance
                    case Some(i) => "i=" + EscapeComponent(i) + "#" + ("s=" + EscapeComponent(n.scope))
                    case None => "s=" + EscapeComponent(n.scope)))
  {
    hide EscapeComponent, Trim, SplitOnce, ClassifyScope;
    var n := NormalizeIdentity(key);
    NormalizeIdentityIdempotent(key);
    NormalizeInstanceIdempotent(key.channelInstance);
    EscapeComponentSpec(n.channel, n.channel);
    var head := "c=" + EscapeComponent(n.channel);
    match n.channelInstance
    case Some(i) =>
      SplitJoinedChar(head, '#', "i=" + EscapeComponent(i) + "#" + ("s=" + EscapeComponent(n.scope)));
      assert RenderStorageKey(key) ==
          head + "#" + ("i=" + EscapeComponent(i) + "#" + ("s=" + EscapeComponent(n.scope)));
    case None =>
      SplitJoinedChar(head, '#', "s=" + EscapeComponent(n.scope));
      assert RenderStorageKey(key) == head + "#" + ("s=" + EscapeComponent(n.scope));
  }

  lemma StorageKeyIsNormalized(a: SessionKey, b: SessionKey)
    ensures RenderStorageKey(a) == RenderStorageKey(b) <==> NormalizeIdentity(a) == NormalizeIdentity(b)
  {
    var n, m := NormalizeIdentity(a), NormalizeIdentity(b);
    if RenderStorageKey(a) == RenderStorageKey(b) {
      StorageKeyParts(a);
      StorageKeyParts(b);
      EscapeComponentSpec(n.channel, m.channel);
      EscapeComponentSpec(n.scope, m.scope);
      var ha, hb := "c=" + EscapeComponent(n.channel), "c=" + EscapeComponent(m.channel);
      assert ha[2..] == EscapeComponent(n.channel) && hb[2..] == EscapeComponent(m.channel);
      var sa, sb := "s=" + EscapeComponent(n.scope), "s=" + EscapeComponent(m.scope);
      assert sa[2..] == EscapeComponent(n.scope) && sb[2..] == EscapeComponent(m.scope);
      var ra := SplitOnce(RenderStorageKey(a), "#").value.1;
      assert (ra[0] == 'i' <==> n.channelInstance.Some?) && (ra[0] == 'i' <==> m.channelInstance.Some?);
      if n.channelInstance.Some? {
        var i, j := n.channelInstance.value, m.channelInstance.value;
        EscapeComponentSpec(i, j);
        EscapeComponentSpec(j, i);
        var ia, ib := "i=" + EscapeComponent(i), "i=" + EscapeComponent(j);
        SplitJoinedChar(ia, '#', sa);
        SplitJoinedChar(ib, '#', sb);
        assert ia[2..] == EscapeComponent(i) && ib[2..] == EscapeComponent(j);
      }
    }
  }

  // Two keys share a storage key exactly when they are of the same conversation: channel and
  // scope agree, and the instance does too unless the scope is a group's.
  lemma StorageKeyIsIdentity(a: SessionKey, b: SessionKey)
    ensures RenderStorageKey(a) == RenderStorageKey(b) <==>
              && a.channel == b.channel
              && a.scope == b.scope
              && ("group:" <= a.scope || VisibleInstance(a) == VisibleInstance(b))
  {
    StorageKeyIsNormalized(a, b);
    IdentityIsConversation(a, b);
  }

  predicate NeedsNoEscape(s: string) {
    '%' !in s && '#' !in s && '=' !in s
  }

  // How a storage key reads when nothing in it has to be escaped.
  lemma PlainStorageKey(key: SessionKey)
    requires NeedsNoEscape(key.channel) && NeedsNoEscape(key.scope)
    requires VisibleInstance(key).Some? ==> NeedsNoEscape(VisibleInstance(key).value)
    ensures RenderStorageKey(key) ==
            if VisibleInstance(key).Some? && !("group:" <= key.scope)
            then "c=" + key.channel + "#i=" + VisibleInstance(key).value + "#s=" + key.scope
            else "c=" + key.channel + "#s=" + key.scope
  {
    InstanceIsVisible(key);
    NormalizeInstanceIdempotent(key.channelInstance);
    GroupIsNoUser(key.scope);
    EscapeLeaves(key.channel);
    EscapeLeaves(key.scope);
    if VisibleInstance(key).Some? {
      EscapeLeaves(VisibleInstance(key).value);
    }
    hide EscapeComponent, Trim, Blank;
  }

  lemma EscapeLeaves(s: string)
    requires NeedsNoEscape(s)
    ensures EscapeComponent(s) == s
  {
    ReplaceAbsentChar(s, '%', "%25");
    ReplaceAbsentChar(s, '#', "%23");
    ReplaceAbsentChar(s, '=', "%3D");
  }

  // -------------------------------------------------------- session-id names

  // The name a session's UUID is derived from.
  function SessionName(key: SessionKey): string {
    var n := NormalizeIdentity(key);
    match n.channelInstance
    case Some(instance) => n.channel + "@" + instance + ":" + n.scope
    case None => n.channel + ":" + n.scope
  }

  // Unlike storage keys, session names are not escaped: every instance-aware conversation
  // shares its name with another one, whose channel holds the `@`.
  lemma SessionNamesCollide(channel: string, instance: string, scope: string)
    requires instance != "" && Tight(instance) && !("group:" <= scope)
    ensures var a := SessionKey(channel + "@" + instance, scope, None);
            var b := SessionKey(channel, scope, Some(instance));
            && SessionName(a) == SessionName(b)
            && NormalizeIdentity(a) != NormalizeIdentity(b)
            && RenderStorageKey(a) != RenderStorageKey(b)
  {
    TrimTight(instance);
    StorageKeyIsNormalized(
      SessionKey(channel + "@" + instance, scope, None), SessionKey(channel, scope, Some(instance)));
  }

  // Among readable channels and instances, a name still determines the conversation.
  predicate PlainName(key: SessionKey) {
    && ':' !in key.channel && '@' !in key.channel
    && (key.channelInstance.Some? ==> ':' !in key.channelInstance.value)
  }

  lemma SessionNameParts(key: SessionKey)
    requires PlainName(key)
    ensures var n := NormalizeIdentity(key);
            exists head: string ::
              && SplitOnce(SessionName(key), ":") == Some((head, n.scope))
              && SplitOnce(head, "@") ==
                  (match n.channelInstance case Some(i) => Some((n.channel, i)) case None => None)
              && (n.channelInstance.None? ==> head == n.channel)
  {
    var n := NormalizeIdentity(key);
    var head := n.channel;
    match n.channelInstance {
      case Some(instance) =>
        TrimKeepsOut(key.channelInstance.value, ':');
        head := n.channel + "@" + instance;
        SplitJoinedChar(n.channel, '@', instance);
      case None =>
        SplitOnceChar(n.channel, '@');
    }
    SplitJoinedChar(head, ':', n.scope);
    assert SplitOnce(SessionName(key), ":") == Some((head, n.scope));
  }

  lemma SessionNameIsIdentity(a: SessionKey, b: SessionKey)
    requires PlainName(a) && PlainName(b)
    ensures SessionName(a) == SessionName(b) <==> NormalizeIdentity(a) == NormalizeIdentity(b)
  {
    SessionNameParts(a);
    SessionNameParts(b);
  }

  // A conversation without an instance, with one colon in its name and no reading of its
  // channel as a channel and an instance.
  predicate OwnsItsName(n: SessionKey) {
    && n.channelInstance.None?
    && ':' !in n.channel && ':' !in n.scope
    && !HasInstanceReading(n.channel)
  }

  predicate HasInstanceReading(channel: string) {
    exists p :: 0 <= p < |channel| && channel[p] == '@' && channel[p + 1..] != "" && Tight(channel[p + 1..])
  }

  lemma InstanceReading(channel: string, instance: string)
    requires instance != "" && Tight(instance)
    ensures HasInstanceReading(channel + "@" + instance)
  {
    var s := channel + "@" + instance;
    assert s[|channel|] == '@' && s[|channel| + 1..] == instance;
  }

  // A name with one reading determines the conversation.
  lemma NameIsOnlyReading(a: SessionKey, b: SessionKey)
    requires OwnsItsName(NormalizeIdentity(a)) && SessionName(a) == SessionName(b)
    ensures NormalizeIdentity(a) == NormalizeIdentity(b)
  {
    hide ClassifyScope, Trim, IsWhitespace, HasInstanceReading;
    var n, m := NormalizeIdentity(a), NormalizeIdentity(b);
    var head := if m.channelInstance.Some? then m.channel + "@" + m.channelInstance.value else m.channel;
    assert head + ":" + m.scope == n.channel + ":" + n.scope;
    OneColon(n.channel, n.scope, head, m.scope);
    if m.channelInstance.Some? {
      TrimIdempotent(b.channelInstance.value);
      InstanceReading(m.channel, m.channelInstance.value);
    }
  }

  lemma OneColon(l: string, r: string, l': string, r': string)
    requires ':' !in l && ':' !in r && l' + ":" + r' == l + ":" + r
    ensures l' == l && r' == r
  {
    var s := l + ":" + r;
    assert s[|l'|] == ':';
    assert forall k :: 0 <= k < |s| && k != |l| ==> s[k] == if k < |l| then l[k] else r[k - |l| - 1];
    assert |l'| == |l|;
    assert l' == s[..|l|] == l && r' == s[|l| + 1..] == r;
  }

  lemma NameWithoutInstance(channel: string, scope: string)
    ensures NormalizeIdentity(SessionKey(channel, scope, None)) == SessionKey(channel, scope, None)
    ensures SessionName(SessionKey(channel, scope, None)) == channel + ":" + scope
  {
  }

  lemma NameWithInstance(channel: string, instance: string, scope: string)
    requires instance != "" && Tight(instance) && !("group:" <= scope)
    ensures NormalizeIdentity(SessionKey(channel, scope, Some(instance))) == SessionKey(channel, scope, Some(instance))
    ensures SessionName(SessionKey(channel, scope, Some(instance))) == channel + "@" + instance + ":" + scope
  {
    TrimTight(instance);
  }

  // A name that can be read another way is also another conversation's.
  lemma OtherReading(n: SessionKey) returns (b: SessionKey)
    requires NormalizeIdentity(n) == n && !OwnsItsName(n)
    ensures SessionName(b) == SessionName(n) && NormalizeIdentity(b) != n
  {
    hide IsWhitespace, Trim, Tight;
    if n.channelInstance.Some? {
      b := SessionKey(n.channel + "@" + n.channelInstance.value, n.scope, None);
      NameWithoutInstance(b.channel, b.scope);
    } else if ':' in n.channel || ':' in n.scope {
      b := OtherColon(n.channel, n.scope);
    } else {
      b := OtherAt(n.channel, n.scope);
    }
  }

  lemma OtherColon(channel: string, scope: string) returns (b: SessionKey)
    requires ':' in channel || ':' in scope
    ensures SessionName(b) == SessionName(SessionKey(channel, scope, None))
    ensures NormalizeIdentity(b) != SessionKey(channel, scope, None)
  {
    SplitOnceChar(channel, ':');
    SplitOnceChar(scope, ':');
    NameWithoutInstance(channel, scope);
    hide SplitOnce, NormalizeIdentity, SessionName;
    if ':' in channel {
      var (x, y) := SplitOnce(channel, ":").value;
      b := SessionKey(x, y + ":" + scope, None);
      NameWithoutInstance(b.channel, b.scope);
      assert x + ":" + (y + ":" + scope) == (x + ":" + y) + ":" + scope;
      assert |x| < |channel|;
    } else {
      var (x, y) := SplitOnce(scope, ":").value;
      b := SessionKey(channel + ":" + x, y, None);
      NameWithoutInstance(b.channel, b.scope);
      assert (channel + ":" + x) + ":" + y == channel + ":" + (x + ":" + y);
      assert |y| < |scope|;
    }
  }

  lemma OtherAt(channel: string, scope: string) returns (b: SessionKey)
    requires HasInstanceReading(channel) && ':' !in scope
    ensures SessionName(b) == SessionName(SessionKey(channel, scope, None))
    ensures NormalizeIdentity(b) != SessionKey(channel, scope, None)
  {
    NameWithoutInstance(channel, scope);
    hide NormalizeIdentity, SessionName;
    GroupHasColon(scope);
    var p :| 0 <= p < |channel| && channel[p] == '@' && channel[p + 1..] != "" && Tight(channel[p + 1..]);
    b := SessionKey(channel[..p], scope, Some(channel[p + 1..]));
    NameWithInstance(channel[..p], channel[p + 1..], scope);
    assert channel == channel[..p] + "@" + channel[p + 1..];
  }

  lemma GroupHasColon(scope: string)
    ensures "group:" <= scope ==> ':' in scope
  {
    if "group:" <= scope {
      assert scope[5] == ':';
    }
  }

  // A conversation has a session name of its own exactly when it owns its name; in
  // particular no user or group scope does.
  lemma NameIsUniqueIff(a: SessionKey)
    ensures (forall b :: SessionName(b) == SessionName(a) ==> NormalizeIdentity(b) == NormalizeIdentity(a)) <==>
            OwnsItsName(NormalizeIdentity(a))
  {
    if OwnsItsName(NormalizeIdentity(a)) {
      forall b | SessionName(b) == SessionName(a) ensures NormalizeIdentity(b) == NormalizeIdentity(a) {
        NameIsOnlyReading(a, b);
      }
    } else {
      NormalizeIdentityIdempotent(a);
      var b := OtherReading(NormalizeIdentity(a));
    }
  }
}
