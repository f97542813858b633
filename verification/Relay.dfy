/** Relay markers `[RELAY: @agent instruction]`: extraction and rewriting. */
module Relay {
  import opened Prelude
  import opened Text

  datatype RelayMarker = RelayMarker(raw: string, agentName: string, instruction: string)

  // What a synchronous dispatch to a specialist comes back with.
  datatype Outcome = Replied(reply: string) | NoReply | Failed(error: string)

  const OPEN := "[RELAY:"

  // --------------------------------------------------------------- scanning

  function StripOpens(s: string): string {
    if OPEN <= s then StripOpens(s[|OPEN|..]) else s
  }

  function StripCloses(s: string): string {
    if s != "" && s[|s| - 1] == ']' then StripCloses(s[..|s| - 1]) else s
  }

  function FindWhitespace(s: string): (r: Option<nat>)
    ensures r.Some? ==> r.value < |s|
  {
    if s == "" then None
    else if IsWhitespace(s[0]) then Some(0)
    else
      match FindWhitespace(s[1..])
      case Some(k) => Some(k + 1)
      case None => None
  }

  // The text of a marker without its brackets.
  function Inner(raw: string): string {
    Trim(StripCloses(StripOpens(raw)))
  }

  function ParseMarker(raw: string): (r: Option<RelayMarker>)
    ensures r.Some? ==> r.value.raw == raw
  {
    var inner := Inner(raw);
    if !("@" <= inner) then None
    else
      var rest := inner[1..];
      match FindWhitespace(rest)
      case None => None
      case Some(space) =>
        var agentName := Trim(rest[..space]);
        var instruction := Trim(rest[space..]);
        if agentName != "" && instruction != "" then Some(RelayMarker(raw, agentName, instruction)) else None
  }

  function Parsed(raw: string): seq<RelayMarker> {
    if ParseMarker(raw).Some? then [ParseMarker(raw).value] else []
  }

  function Extract(text: string): (ms: seq<RelayMarker>)
    ensures forall i :: 0 <= i < |ms| ==> OPEN <= ms[i].raw && ms[i].raw != ""
    decreases |text|
  {
    match Find(text, OPEN)
    case None => []
    case Some(start) =>
      var afterStart := text[start..];
      match Find(afterStart, "]")
      case None => []
      case Some(end) =>
        FoundRaw(text);
        Parsed(afterStart[..end + 1]) + Extract(afterStart[end + 1..])
  }

  lemma FoundRaw(text: string)
    ensures match Find(text, OPEN)
            case None => true
            case Some(start) =>
              match Find(text[start..], "]")
              case None => true
              case Some(end) => OPEN <= text[start..][..end + 1]
  {
    FindSpec(text, OPEN);
    hide Find;
    match Find(text, OPEN)
    case None =>
    case Some(start) =>
      FindSpec(text[start..], "]");
      match Find(text[start..], "]")
      case None =>
      case Some(end) => RawHasOpening(text[start..], end);
  }

  lemma RawHasOpening(s: string, end: nat)
    requires OPEN <= s && OccursAt("]", s, end)
    ensures OPEN <= s[..end + 1]
  {
    OccursAtChar(s, ']', end);
    assert forall k :: 0 <= k < |OPEN| ==> s[k] == OPEN[k] && OPEN[k] != ']';
    assert |OPEN| <= end;
    assert s[..end + 1][..|OPEN|] == s[..|OPEN|];
  }

  lemma ExtractNext(text: string)
    ensures match Find(text, OPEN)
            case None => Extract(text) == []
            case Some(start) =>
              match Find(text[start..], "]")
              case None => Extract(text) == []
              case Some(end) =>
                Extract(text) == Parsed(text[start..][..end + 1]) + Extract(text[start..][end + 1..])
  {
    hide Parsed, Find;
  }

  method ExtractRelayMarkers(text: string) returns (markers: seq<RelayMarker>)
    ensures markers == Extract(text)
  {
    hide Extract, Parsed, Find;
    markers := [];
    var remaining := text;
    var start := Find(remaining, OPEN);
    while start.Some?
      invariant start == Find(remaining, OPEN)
      invariant Extract(text) == markers + Extract(remaining)
      decreases |remaining|
    {
      ExtractNext(remaining);
      var afterStart := remaining[start.value..];
      var end := Find(afterStart, "]");
      if end.None? {
        break;
      }
      var raw := afterStart[..end.value + 1];
      var rest := afterStart[end.value + 1..];
      assert markers + (Parsed(raw) + Extract(rest)) == (markers + Parsed(raw)) + Extract(rest);
      markers := markers + Parsed(raw);
      remaining := rest;
      start := Find(remaining, OPEN);
    }
    ExtractNext(remaining);
  }

  // -------------------------------------------------------------- rewriting

  function ReplyText(m: RelayMarker, o: Outcome): string {
    match o
    case Replied(reply) => reply
    case NoReply => "[" + m.agentName + " 无回复]"
    case Failed(error) => "[relay error: " + error + "]"
  }

  // The text after the first `n` markers have been replaced in turn, each everywhere.
  function Sequential(text: string, ms: seq<RelayMarker>, outcomes: nat -> Outcome, n: nat): string
    requires n <= |ms| && forall i :: 0 <= i < |ms| ==> ms[i].raw != ""
  {
    if n == 0 then text
    else Replace(Sequential(text, ms, outcomes, n - 1), ms[n - 1].raw, ReplyText(ms[n - 1], outcomes(n - 1)))
  }

  // What the first `n` markers ask of whom.
  function Requests(ms: seq<RelayMarker>, n: nat): seq<(string, string)>
    requires n <= |ms|
  {
    if n == 0 then [] else Requests(ms, n - 1) + [("@" + ms[n - 1].agentName, ms[n - 1].instruction)]
  }

  lemma {:induction false} RequestsAre(ms: seq<RelayMarker>, n: nat)
    requires n <= |ms|
    ensures |Requests(ms, n)| == n
    ensures forall i :: 0 <= i < n ==> Requests(ms, n)[i] == ("@" + ms[i].agentName, ms[i].instruction)
  {
    if n > 0 {
      RequestsAre(ms, n - 1);
    }
  }

  // `RelayEngine::process`; `dispatch(i)` is what the i-th dispatch comes back with.  Each
  // marker's own agent is asked to do its own instruction, in order.
  method Process(leadReply: string, dispatch: nat -> Outcome)
    returns (result: string, asked: seq<(string, string)>)
    ensures var ms := Extract(leadReply);
            && result == Sequential(leadReply, ms, dispatch, |ms|)
            && |asked| == |ms|
            && forall i :: 0 <= i < |ms| ==> asked[i] == ("@" + ms[i].agentName, ms[i].instruction)
  {
    var markers := ExtractRelayMarkers(leadReply);
    result, asked := leadReply, [];
    for i := 0 to |markers|
      invariant result == Sequential(leadReply, markers, dispatch, i)
      invariant asked == Requests(markers, i)
    {
      var marker := markers[i];
      asked := asked + [("@" + marker.agentName, marker.instruction)];
      result := Replace(result, marker.raw, ReplyText(marker, dispatch(i)));
    }
    RequestsAre(markers, |markers|);
  }

  // ---------------------------------------------------- markers in plain text

  datatype Chunk = Plain(text: string) | Marker(text: string)

  // Text that holds no marker opening and cannot become one by what follows it.
  predicate Inert(s: string) {
    forall i :: 0 <= i < |s| ==> !(OPEN <= s[i..]) && !(s[i..] <= OPEN)
  }

  // A bracketed marker with no bracket inside.
  predicate WellFormedRaw(raw: string) {
    && OPEN <= raw
    && |raw| > |OPEN|
    && raw[|raw| - 1] == ']'
    && forall i :: 1 <= i < |raw| - 1 ==> raw[i] != '[' && raw[i] != ']'
  }

  predicate Sound(c: Chunk) {
    if c.Plain? then Inert(c.text) else WellFormedRaw(c.text)
  }

  predicate WellFormed(chunks: seq<Chunk>) {
    forall i :: 0 <= i < |chunks| ==> Sound(chunks[i])
  }

  function Flatten(chunks: seq<Chunk>): string {
    if chunks == [] then "" else chunks[0].text + Flatten(chunks[1..])
  }

  // The markers among the chunks that can be dispatched.
  function Dispatchable(chunks: seq<Chunk>): seq<RelayMarker> {
    if chunks == [] then []
    else (if chunks[0].Marker? then Parsed(chunks[0].text) else []) + Dispatchable(chunks[1..])
  }

  lemma PrefixOfConcat(p: string, a: string, b: string)
    ensures p <= a + b ==> p <= a || a <= p
  {
    if p <= a + b {
      var n := if |p| <= |a| then |p| else |a|;
      assert forall k :: 0 <= k < n ==> p[k] == (a + b)[k] == a[k];
    }
  }

  lemma PrefixTransitive(p: string, q: string, s: string)
    ensures p <= q && q <= s ==> p <= s
  {
  }

  lemma InertHidesOpen(s: string, t: string, i: nat)
    requires Inert(s) && i < |s|
    ensures !OccursAt(OPEN, s + t, i)
  {
    assert (s + t)[i..] == s[i..] + t;
    PrefixOfConcat(OPEN, s[i..], t);
  }

  lemma {:induction false} FindSkips(s: string, t: string, pat: string)
    requires pat != ""
    requires forall i :: 0 <= i < |s| ==> !OccursAt(pat, s + t, i)
    ensures Find(s + t, pat) == match Find(t, pat) { case None => None case Some(k) => Some(|s| + k) }
  {
    if s == "" {
      assert s + t == t;
    } else {
      var u := s + t;
      assert !OccursAt(pat, u, 0) && u[0..] == u;
      assert u[1..] == s[1..] + t;
      forall i | 0 <= i < |s[1..]| ensures !OccursAt(pat, s[1..] + t, i) {
        assert u[1..][i..] == u[i + 1..];
        assert !OccursAt(pat, u, i + 1);
      }
      FindSkips(s[1..], t, pat);
    }
  }

  lemma ExtractSkipsInert(s: string, t: string)
    requires Inert(s)
    ensures Extract(s + t) == Extract(t)
  {
    hide Extract, Parsed, Find, Inert;
    forall i | 0 <= i < |s| ensures !OccursAt(OPEN, s + t, i) {
      InertHidesOpen(s, t, i);
    }
    FindSkips(s, t, OPEN);
    ExtractNext(s + t);
    ExtractNext(t);
    if Find(t, OPEN).Some? {
      var k := Find(t, OPEN).value;
      assert (s + t)[|s| + k..] == t[k..];
    }
  }

  lemma ExtractTakesMarker(m: string, t: string)
    requires WellFormedRaw(m)
    ensures Extract(m + t) == Parsed(m) + Extract(t)
  {
    var u := m + t;
    assert OPEN <= u;
    assert u[0..] == u;
    var end := |m| - 1;
    forall i: nat ensures OccursAt("]", u, i) <==> i < |u| && u[i] == ']' {
      OccursAtChar(u, ']', i);
    }
    assert m[0] == OPEN[0] == '[';
    assert u[end] == ']';
    FindIs(u, "]", end);
    assert u[..end + 1] == m && u[end + 1..] == t;
  }

  // Extraction returns exactly the dispatchable markers of a text, in order.
  lemma {:induction false} ExtractFromChunks(chunks: seq<Chunk>)
    requires WellFormed(chunks)
    ensures Extract(Flatten(chunks)) == Dispatchable(chunks)
  {
    if chunks != [] {
      ExtractFromChunks(chunks[1..]);
      if chunks[0].Plain? {
        ExtractSkipsInert(chunks[0].text, Flatten(chunks[1..]));
      } else {
        ExtractTakesMarker(chunks[0].text, Flatten(chunks[1..]));
      }
    }
  }

  // A tight body is what is left of its marker.
  lemma StripMarker(body: string)
    requires body != "" && Tight(body) && body[|body| - 1] != ']'
    ensures Inner(OPEN + (" " + body + "]")) == body
  {
    StripOpensOnce(" " + body + "]");
    StripClosesOnce(" " + body);
    TrimOneSpace(body);
  }

  lemma TrimOneSpace(body: string)
    requires Tight(body)
    ensures Trim(" " + body) == body
  {
    TrimIs(" ", body, "");
    assert " " + body + "" == " " + body;
  }

  lemma StripOpensOnce(inside: string)
    requires inside != "" && inside[0] != '['
    ensures StripOpens(OPEN + inside) == inside
  {
    var raw := OPEN + inside;
    assert raw[|OPEN|..] == inside;
    assert OPEN[0] == '[';
    assert StripOpens(inside) == inside;
  }

  lemma StripClosesOnce(inside: string)
    requires inside != "" && inside[|inside| - 1] != ']'
    ensures StripCloses(inside + "]") == inside
  {
    var raw := inside + "]";
    assert raw[..|raw| - 1] == inside;
    assert StripCloses(inside) == inside;
  }

  lemma ParseBody(agent: string, instruction: string)
    requires agent != "" && instruction != "" && Tight(instruction)
    requires forall i :: 0 <= i < |agent| ==> !IsWhitespace(agent[i])
    ensures var rest := agent + (" " + instruction);
            && FindWhitespace(rest) == Some(|agent|)
            && Trim(rest[..|agent|]) == agent
            && Trim(rest[|agent|..]) == instruction
  {
    var rest := agent + (" " + instruction);
    FirstSpace(agent, " " + instruction);
    assert rest[..|agent|] == agent && rest[|agent|..] == " " + instruction;
    TrimTight(agent);
    TrimOneSpace(instruction);
  }

  // A marker as an agent is told to write it.
  function WriteMarker(agent: string, instruction: string): (raw: string)
    ensures raw == "[RELAY: @" + agent + " " + instruction + "]"
  {
    var raw := OPEN + (" " + ("@" + (agent + (" " + instruction))) + "]");
    assert raw == "[RELAY: @" + agent + " " + instruction + "]";
    raw
  }

  // Markers are written and read back: agent and instruction are those written.
  lemma MarkerRoundTrip(agent: string, instruction: string)
    requires agent != "" && instruction != "" && Tight(instruction)
    requires forall i :: 0 <= i < |agent| ==> !IsWhitespace(agent[i])
    requires instruction[|instruction| - 1] != ']'
    ensures var raw := WriteMarker(agent, instruction);
            Parsed(raw) == [RelayMarker(raw, agent, instruction)]
  {
    hide Trim, FindWhitespace, StripOpens, StripCloses;
    var rest := agent + (" " + instruction);
    var body := "@" + rest;
    assert body[0] == '@' && body[|body| - 1] == instruction[|instruction| - 1];
    StripMarker(body);
    assert body[1..] == rest;
    ParseBody(agent, instruction);
  }

  lemma WrittenMarkerIsWellFormed(agent: string, instruction: string)
    requires '[' !in agent && ']' !in agent && '[' !in instruction && ']' !in instruction
    ensures WellFormedRaw(WriteMarker(agent, instruction))
  {
    var inside := " " + ("@" + (agent + (" " + instruction)));
    var raw := WriteMarker(agent, instruction);
    assert '[' !in inside && ']' !in inside;
    assert raw == OPEN + inside + "]";
    forall i | 1 <= i < |raw| - 1 ensures raw[i] != '[' && raw[i] != ']' {
      if i < |OPEN| {
        assert raw[i] == OPEN[i];
      } else {
        assert raw[i] == inside[i - |OPEN|];
      }
    }
  }

  lemma {:induction false} FirstSpace(word: string, rest: string)
    requires forall i :: 0 <= i < |word| ==> !IsWhitespace(word[i])
    requires rest != "" && IsWhitespace(rest[0])
    ensures FindWhitespace(word + rest) == Some(|word|)
  {
    if word == "" {
      assert word + rest == rest;
    } else {
      assert (word + rest)[1..] == word[1..] + rest;
      FirstSpace(word[1..], rest);
    }
  }

  // A reply as an agent writes it: markers between stretches of other text.
  datatype Piece = Gap(text: string) | Written(agent: string, instruction: string)

  predicate ProperPiece(p: Piece) {
    match p
    case Gap(text) => Inert(text)
    case Written(agent, instruction) =>
      && agent != "" && (forall i :: 0 <= i < |agent| ==> !IsWhitespace(agent[i]))
      && instruction != "" && Tight(instruction)
      && '[' !in agent && ']' !in agent && '[' !in instruction && ']' !in instruction
  }

  function PieceText(p: Piece): string {
    if p.Gap? then p.text else WriteMarker(p.agent, p.instruction)
  }

  function Reply(ps: seq<Piece>): string {
    if ps == [] then "" else PieceText(ps[0]) + Reply(ps[1..])
  }

  // What the pieces ask of whom, as written.
  function WrittenRequests(ps: seq<Piece>): seq<(string, string)> {
    if ps == [] then []
    else (if ps[0].Written? then [("@" + ps[0].agent, ps[0].instruction)] else []) + WrittenRequests(ps[1..])
  }

  function AsChunk(p: Piece): Chunk {
    if p.Gap? then Plain(p.text) else Marker(WriteMarker(p.agent, p.instruction))
  }

  function AsChunks(ps: seq<Piece>): seq<Chunk> {
    if ps == [] then [] else [AsChunk(ps[0])] + AsChunks(ps[1..])
  }

  function Asks(m: RelayMarker): (string, string) {
    ("@" + m.agentName, m.instruction)
  }

  lemma PieceIsSound(p: Piece)
    requires ProperPiece(p)
    ensures Sound(AsChunk(p)) && AsChunk(p).text == PieceText(p)
    ensures p.Written? ==> Parsed(PieceText(p)) == [RelayMarker(PieceText(p), p.agent, p.instruction)]
  {
    if p.Written? {
      WrittenMarkerIsWellFormed(p.agent, p.instruction);
      MarkerRoundTrip(p.agent, p.instruction);
    }
  }

  // What the dispatchable markers ask, in order.
  function AskedBy(ms: seq<RelayMarker>): seq<(string, string)> {
    if ms == [] then [] else [Asks(ms[0])] + AskedBy(ms[1..])
  }

  lemma {:induction false} AskedByEach(ms: seq<RelayMarker>)
    ensures |AskedBy(ms)| == |ms|
    ensures forall i :: 0 <= i < |ms| ==> AskedBy(ms)[i] == Asks(ms[i])
  {
    if ms != [] {
      AskedByEach(ms[1..]);
    }
  }

  // The agents and instructions asked are exactly those written, in the order written.
  lemma {:induction false} WrittenMarkersAreAsked(ps: seq<Piece>)
    requires forall i :: 0 <= i < |ps| ==> ProperPiece(ps[i])
    ensures WellFormed(AsChunks(ps)) && Flatten(AsChunks(ps)) == Reply(ps)
    ensures AskedBy(Dispatchable(AsChunks(ps))) == WrittenRequests(ps)
  {
    hide Parsed, Sound, ProperPiece, WriteMarker, PieceText;
    if ps != [] {
      var rest := AsChunks(ps[1..]);
      WrittenMarkersAreAsked(ps[1..]);
      PieceIsSound(ps[0]);
      FlattenCons(AsChunk(ps[0]), rest);
      if ps[0].Written? {
        var m := RelayMarker(PieceText(ps[0]), ps[0].agent, ps[0].instruction);
        assert ([m] + Dispatchable(rest))[1..] == Dispatchable(rest);
      } else {
        assert [] + Dispatchable(rest) == Dispatchable(rest);
      }
    }
  }

  // A reply so written is dispatched as written.
  lemma WrittenReplyIsDispatched(ps: seq<Piece>)
    requires forall i :: 0 <= i < |ps| ==> ProperPiece(ps[i])
    ensures var ms := Extract(Reply(ps));
            && |ms| == |WrittenRequests(ps)|
            && forall i :: 0 <= i < |ms| ==> ("@" + ms[i].agentName, ms[i].instruction) == WrittenRequests(ps)[i]
  {
    WrittenMarkersAreAsked(ps);
    ExtractFromChunks(AsChunks(ps));
    AskedByEach(Extract(Reply(ps)));
    hide Extract, Dispatchable, Reply, WrittenRequests, AsChunks, AskedBy;
    var ms := Extract(Reply(ps));
    assert forall i :: 0 <= i < |ms| ==> Asks(ms[i]) == WrittenRequests(ps)[i];
  }

  // ------------------------------------------------- replacing chunk by chunk

  function Substitute(chunks: seq<Chunk>, raw: string, with: string): seq<Chunk> {
    seq(|chunks|, i requires 0 <= i < |chunks| => if chunks[i] == Marker(raw) then Plain(with) else chunks[i])
  }

  lemma {:induction false} ReplaceSkips(s: string, t: string, pat: string, with: string)
    requires pat != ""
    requires forall i :: 0 <= i < |s| ==> !OccursAt(pat, s + t, i)
    ensures Replace(s + t, pat, with) == s + Replace(t, pat, with)
  {
    if s == "" {
      assert s + t == t;
    } else {
      var u := s + t;
      assert !OccursAt(pat, u, 0) && u[0..] == u;
      assert u[1..] == s[1..] + t;
      forall i | 0 <= i < |s[1..]| ensures !OccursAt(pat, s[1..] + t, i) {
        assert u[1..][i..] == u[i + 1..];
        assert !OccursAt(pat, u, i + 1);
      }
      ReplaceSkips(s[1..], t, pat, with);
      assert [s[0]] + (s[1..] + Replace(t, pat, with)) == s + Replace(t, pat, with);
    }
  }

  lemma RawHidesInInert(s: string, t: string, raw: string)
    requires Inert(s) && OPEN <= raw
    ensures forall i :: 0 <= i < |s| ==> !OccursAt(raw, s + t, i)
  {
    forall i | 0 <= i < |s| ensures !OccursAt(raw, s + t, i) {
      InertHidesOpen(s, t, i);
      PrefixTransitive(OPEN, raw, (s + t)[i..]);
    }
  }

  lemma RawHidesInOther(m: string, t: string, raw: string)
    requires WellFormedRaw(m) && WellFormedRaw(raw) && m != raw
    ensures forall i :: 0 <= i < |m| ==> !OccursAt(raw, m + t, i)
  {
    assert raw[0] == OPEN[0] == '[';
    SamePrefixSameRaw(m, t, raw);
    assert (m + t)[0..] == m + t;
    forall i | 1 <= i < |m| ensures !OccursAt(raw, m + t, i) {
      assert (m + t)[i..][0] == m[i];
    }
  }

  // Both end at their first closing bracket.
  lemma SamePrefixSameRaw(m: string, t: string, raw: string)
    requires WellFormedRaw(m) && WellFormedRaw(raw)
    ensures raw <= m + t ==> raw == m
  {
    var u := m + t;
    if raw <= u {
      assert forall k :: 0 <= k < |raw| ==> raw[k] == u[k];
      assert forall k :: 0 <= k < |m| ==> m[k] == u[k];
      assert m[0] == OPEN[0] && raw[0] == OPEN[0];
      assert |raw| == |m|;
      assert raw == u[..|raw|] == m;
    }
  }

  lemma {:induction false} ReplaceInChunks(chunks: seq<Chunk>, raw: string, with: string)
    requires WellFormed(chunks) && WellFormedRaw(raw)
    ensures Replace(Flatten(chunks), raw, with) == Flatten(Substitute(chunks, raw, with))
  {
    if chunks != [] {
      var s, t := chunks[0].text, Flatten(chunks[1..]);
      ReplaceInChunks(chunks[1..], raw, with);
      assert Substitute(chunks, raw, with)[1..] == Substitute(chunks[1..], raw, with);
      if chunks[0].Plain? {
        RawHidesInInert(s, t, raw);
        ReplaceSkips(s, t, raw, with);
      } else if s != raw {
        RawHidesInOther(s, t, raw);
        ReplaceSkips(s, t, raw, with);
      } else {
        assert (raw + t)[|raw|..] == t;
        assert raw <= raw + t;
      }
    }
  }

  // ------------------------------------------------- one positional rewriting

  // The reply a marker's text gets: that of the first dispatched marker written the same.
  function FirstReply(ms: seq<RelayMarker>, outcomes: nat -> Outcome, n: nat, raw: string): Option<string>
    requires n <= |ms|
  {
    if n == 0 then None
    else if FirstReply(ms, outcomes, n - 1, raw).Some? then FirstReply(ms, outcomes, n - 1, raw)
    else if ms[n - 1].raw == raw then Some(ReplyText(ms[n - 1], outcomes(n - 1)))
    else None
  }

  // Every marker rewritten at once, by position.
  function Positional(chunks: seq<Chunk>, ms: seq<RelayMarker>, outcomes: nat -> Outcome, n: nat): seq<Chunk>
    requires n <= |ms|
  {
    seq(|chunks|, i requires 0 <= i < |chunks| =>
      if chunks[i].Marker? && FirstReply(ms, outcomes, n, chunks[i].text).Some?
      then Plain(FirstReply(ms, outcomes, n, chunks[i].text).value)
      else chunks[i])
  }

  predicate AllInert(ms: seq<RelayMarker>, outcomes: nat -> Outcome) {
    forall i: nat :: i < |ms| ==> Inert(ReplyText(ms[i], outcomes(i)))
  }

  lemma {:induction false} FirstReplyInert(ms: seq<RelayMarker>, outcomes: nat -> Outcome, n: nat, raw: string)
    requires n <= |ms| && AllInert(ms, outcomes)
    ensures FirstReply(ms, outcomes, n, raw).Some? ==> Inert(FirstReply(ms, outcomes, n, raw).value)
  {
    hide Inert, ReplyText;
    if n > 0 {
      FirstReplyInert(ms, outcomes, n - 1, raw);
    }
  }

  lemma PositionalWellFormed(chunks: seq<Chunk>, ms: seq<RelayMarker>, outcomes: nat -> Outcome, n: nat)
    requires n <= |ms| && WellFormed(chunks) && AllInert(ms, outcomes)
    ensures WellFormed(Positional(chunks, ms, outcomes, n))
  {
    forall i | 0 <= i < |chunks| && chunks[i].Marker?
      ensures var r := FirstReply(ms, outcomes, n, chunks[i].text); r.Some? ==> Inert(r.value) {
      FirstReplyInert(ms, outcomes, n, chunks[i].text);
    }
  }

  lemma {:induction false} DispatchableWellFormed(chunks: seq<Chunk>)
    requires WellFormed(chunks)
    ensures forall i :: 0 <= i < |Dispatchable(chunks)| ==> WellFormedRaw(Dispatchable(chunks)[i].raw)
  {
    if chunks != [] {
      DispatchableWellFormed(chunks[1..]);
    }
  }

  lemma PositionalOfNone(chunks: seq<Chunk>, ms: seq<RelayMarker>, outcomes: nat -> Outcome)
    ensures Positional(chunks, ms, outcomes, 0) == chunks
  {
  }

  lemma SubstituteIsNext(chunks: seq<Chunk>, ms: seq<RelayMarker>, outcomes: nat -> Outcome, n: nat)
    requires 0 < n <= |ms|
    ensures Substitute(Positional(chunks, ms, outcomes, n - 1), ms[n - 1].raw, ReplyText(ms[n - 1], outcomes(n - 1)))
              == Positional(chunks, ms, outcomes, n)
  {
  }

  lemma {:induction false} SequentialIsPositional(
    chunks: seq<Chunk>, ms: seq<RelayMarker>, outcomes: nat -> Outcome, n: nat)
    requires n <= |ms| && WellFormed(chunks) && AllInert(ms, outcomes)
    requires forall i :: 0 <= i < |ms| ==> WellFormedRaw(ms[i].raw) && ms[i].raw != ""
    ensures Sequential(Flatten(chunks), ms, outcomes, n) == Flatten(Positional(chunks, ms, outcomes, n))
  {
    hide Replace, Flatten, Positional, WellFormed, AllInert, WellFormedRaw, ReplyText, Substitute;
    if n == 0 {
      PositionalOfNone(chunks, ms, outcomes);
    } else {
      var before := Positional(chunks, ms, outcomes, n - 1);
      SequentialIsPositional(chunks, ms, outcomes, n - 1);
      PositionalWellFormed(chunks, ms, outcomes, n - 1);
      ReplaceInChunks(before, ms[n - 1].raw, ReplyText(ms[n - 1], outcomes(n - 1)));
      SubstituteIsNext(chunks, ms, outcomes, n);
    }
  }

  lemma {:induction false} EveryDispatchableReplied(
    chunks: seq<Chunk>, ms: seq<RelayMarker>, outcomes: nat -> Outcome, n: nat, raw: string)
    requires n <= |ms|
    ensures FirstReply(ms, outcomes, n, raw).Some? <==> exists i :: 0 <= i < n && ms[i].raw == raw
  {
    if n > 0 {
      EveryDispatchableReplied(chunks, ms, outcomes, n - 1, raw);
    }
  }

  predicate HasRaw(ms: seq<RelayMarker>, raw: string) {
    exists i :: 0 <= i < |ms| && ms[i].raw == raw
  }

  lemma HasRawAppend(a: seq<RelayMarker>, b: seq<RelayMarker>, raw: string)
    ensures HasRaw(a + b, raw) <==> HasRaw(a, raw) || HasRaw(b, raw)
  {
    if HasRaw(a, raw) {
      var i :| 0 <= i < |a| && a[i].raw == raw;
      assert (a + b)[i].raw == raw;
    }
    if HasRaw(b, raw) {
      var i :| 0 <= i < |b| && b[i].raw == raw;
      assert (a + b)[|a| + i].raw == raw;
    }
  }

  lemma {:induction false} DispatchableHolds(chunks: seq<Chunk>, j: nat)
    requires j < |chunks| && chunks[j].Marker? && ParseMarker(chunks[j].text).Some?
    ensures HasRaw(Dispatchable(chunks), chunks[j].text)
  {
    hide ParseMarker, HasRaw;
    var first := if chunks[0].Marker? then Parsed(chunks[0].text) else [];
    HasRawAppend(first, Dispatchable(chunks[1..]), chunks[j].text);
    if j == 0 {
      ParsedHasRaw(chunks[0].text);
    } else {
      DispatchableHolds(chunks[1..], j - 1);
    }
  }

  lemma ParsedHasRaw(raw: string)
    requires ParseMarker(raw).Some?
    ensures HasRaw(Parsed(raw), raw)
  {
    hide ParseMarker;
    assert Parsed(raw)[0].raw == raw;
  }

  lemma {:induction false} NothingDispatchable(chunks: seq<Chunk>)
    requires forall i :: 0 <= i < |chunks| ==> chunks[i].Plain? || ParseMarker(chunks[i].text).None?
    ensures Dispatchable(chunks) == []
  {
    if chunks != [] {
      NothingDispatchable(chunks[1..]);
    }
  }

  // With inert replies, replacing the markers one after another is rewriting them all at
  // once by position (equal markers share the first reply), and no marker is left to relay.
  lemma RelayIsPositional(chunks: seq<Chunk>, outcomes: nat -> Outcome)
    requires WellFormed(chunks) && AllInert(Dispatchable(chunks), outcomes)
    ensures var text := Flatten(chunks);
            var ms := Extract(text);
            var result := Sequential(text, ms, outcomes, |ms|);
            && ms == Dispatchable(chunks)
            && result == Flatten(Positional(chunks, ms, outcomes, |ms|))
            && Extract(result) == []
  {
    ExtractFromChunks(chunks);
    var ms := Dispatchable(chunks);
    DispatchableWellFormed(chunks);
    SequentialIsPositional(chunks, ms, outcomes, |ms|);
    var after := Positional(chunks, ms, outcomes, |ms|);
    PositionalWellFormed(chunks, ms, outcomes, |ms|);
    forall j | 0 <= j < |after| ensures after[j].Plain? || ParseMarker(after[j].text).None? {
      if chunks[j].Marker? && ParseMarker(chunks[j].text).Some? {
        DispatchableHolds(chunks, j);
        EveryDispatchableReplied(chunks, ms, outcomes, |ms|, chunks[j].text);
      }
    }
    ExtractFromChunks(after);
    NothingDispatchable(after);
  }

  // If every marker can be dispatched, no marker opening survives at all.
  lemma {:induction false} InertChunksHoldNoOpening(chunks: seq<Chunk>)
    requires forall i :: 0 <= i < |chunks| ==> chunks[i].Plain? && Inert(chunks[i].text)
    ensures !Contains(Flatten(chunks), OPEN)
  {
    if chunks == [] {
      forall i | 0 <= i <= 0 ensures !OccursAt(OPEN, "", i) {
      }
    } else {
      var s, t := chunks[0].text, Flatten(chunks[1..]);
      InertChunksHoldNoOpening(chunks[1..]);
      forall i | 0 <= i <= |s + t| ensures !OccursAt(OPEN, s + t, i) {
        if i < |s| {
          InertHidesOpen(s, t, i);
        } else {
          assert (s + t)[i..] == t[i - |s|..];
          assert !OccursAt(OPEN, t, i - |s|);
        }
      }
    }
  }

  lemma {:induction false} NoOpeningSurvives(chunks: seq<Chunk>, outcomes: nat -> Outcome)
    requires WellFormed(chunks) && AllInert(Dispatchable(chunks), outcomes)
    requires forall i :: 0 <= i < |chunks| && chunks[i].Marker? ==> ParseMarker(chunks[i].text).Some?
    ensures var ms := Extract(Flatten(chunks));
            !Contains(Sequential(Flatten(chunks), ms, outcomes, |ms|), OPEN)
  {
    RelayIsPositional(chunks, outcomes);
    var ms := Dispatchable(chunks);
    var after := Positional(chunks, ms, outcomes, |ms|);
    PositionalWellFormed(chunks, ms, outcomes, |ms|);
    forall j | 0 <= j < |after| ensures after[j].Plain? {
      if chunks[j].Marker? {
        DispatchableHolds(chunks, j);
        EveryDispatchableReplied(chunks, ms, outcomes, |ms|, chunks[j].text);
      }
    }
    InertChunksHoldNoOpening(after);
  }

  // One marker in other text is replaced by exactly what its dispatch came back with.
  lemma OneMarkerIsAnswered(before: string, agent: string, instruction: string, after: string, outcomes: nat -> Outcome)
    requires Inert(before) && Inert(after) && ProperPiece(Written(agent, instruction))
    ensures var raw := WriteMarker(agent, instruction);
            var ms := Extract(before + (raw + after));
            && ms == [RelayMarker(raw, agent, instruction)]
            && Sequential(before + (raw + after), ms, outcomes, 1) ==
               before
               + ((match outcomes(0)
                   case Replied(reply) => reply
                   case NoReply => "[" + agent + " 无回复]"
                   case Failed(error) => "[relay error: " + error + "]")
                  + after)
  {
    var raw, m := WriteMarker(agent, instruction), RelayMarker(WriteMarker(agent, instruction), agent, instruction);
    PieceIsSound(Written(agent, instruction));
    var chunks := [Plain(before), Marker(raw), Plain(after)];
    FlattenThree(chunks);
    hide WriteMarker, Parsed, Inert, WellFormedRaw, Extract, Replace, Flatten, Substitute;
    ExtractFromChunks(chunks);
    OneDispatchable(before, raw, after);
    ReplaceInChunks(chunks, raw, ReplyText(m, outcomes(0)));
    SubstituteMiddle(before, raw, after, ReplyText(m, outcomes(0)));
    FlattenThree([Plain(before), Plain(ReplyText(m, outcomes(0))), Plain(after)]);
    assert Sequential(before + (raw + after), [m], outcomes, 0) == before + (raw + after);
  }

  lemma FlattenThree(cs: seq<Chunk>)
    requires |cs| == 3
    ensures Flatten(cs) == cs[0].text + (cs[1].text + cs[2].text)
  {
    assert cs[1..] == [cs[1], cs[2]];
    FlattenTwo(cs[1], cs[2]);
  }

  lemma OneDispatchable(before: string, raw: string, after: string)
    ensures Dispatchable([Plain(before), Marker(raw), Plain(after)]) == Parsed(raw)
  {
    hide Parsed;
    var chunks := [Plain(before), Marker(raw), Plain(after)];
    assert chunks[1..] == [Marker(raw), Plain(after)];
    assert chunks[1..][1..] == [Plain(after)] && [Plain(after)][1..] == [];
    assert Dispatchable([Plain(after)]) == [];
    assert Dispatchable([Marker(raw), Plain(after)]) == Parsed(raw);
  }

  lemma SubstituteMiddle(before: string, raw: string, after: string, with: string)
    ensures Substitute([Plain(before), Marker(raw), Plain(after)], raw, with) ==
            [Plain(before), Plain(with), Plain(after)]
  {
  }

  // ---------------------------------------- when replacing is positional, exactly

  // Replacing only the occurrences of `pat` that begin at a chosen place; `off` is the
  // place at which `s` begins.
  function ReplaceAt(s: string, pat: string, with: string, places: set<nat>, off: nat): string
    requires pat != ""
    decreases |s|
  {
    if s == "" then ""
    else if off in places && pat <= s then with + ReplaceAt(s[|pat|..], pat, with, places, off + |pat|)
    else [s[0]] + ReplaceAt(s[1..], pat, with, places, off + 1)
  }

  // Every occurrence of `pat` is at a chosen place.
  predicate OnlyAt(s: string, pat: string, places: set<nat>, off: nat) {
    forall i: nat :: i <= |s| && OccursAt(pat, s, i) ==> off + i in places
  }

  lemma OnlyAtTail(s: string, pat: string, places: set<nat>, off: nat, n: nat)
    requires n <= |s|
    ensures OnlyAt(s, pat, places, off) ==> OnlyAt(s[n..], pat, places, off + n)
  {
    forall i: nat | i <= |s[n..]| ensures OccursAt(pat, s[n..], i) == OccursAt(pat, s, n + i) {
      assert s[n..][i..] == s[n + i..];
    }
  }

  // Text in which no occurrence begins at a chosen place is copied.
  lemma {:induction false} ReplaceAtCopies(a: string, s: string, pat: string, with: string, places: set<nat>, off: nat)
    requires pat != ""
    requires forall p :: p in places && off <= p < off + |a| ==> !OccursAt(pat, a + s, p - off)
    ensures ReplaceAt(a + s, pat, with, places, off) == a + ReplaceAt(s, pat, with, places, off + |a|)
  {
    if a == "" {
      assert a + s == s;
    } else {
      var u := a + s;
      assert u[0..] == u;
      assert u[1..] == a[1..] + s;
      forall p | p in places && off + 1 <= p < off + |a| ensures !OccursAt(pat, a[1..] + s, p - (off + 1)) {
        assert u[1..][p - (off + 1)..] == u[p - off..];
      }
      ReplaceAtCopies(a[1..], s, pat, with, places, off + 1);
      assert [a[0]] + (a[1..] + ReplaceAt(s, pat, with, places, off + |a|)) ==
          a + ReplaceAt(s, pat, with, places, off + |a|);
    }
  }

  // Replacing more occurrences moves the length further the same way.
  lemma {:induction false} ReplaceLength(s: string, pat: string, with: string, places: set<nat>, off: nat)
    requires Borderless(pat)
    ensures |with| >= |pat| ==> |Replace(s, pat, with)| >= |ReplaceAt(s, pat, with, places, off)|
    ensures |with| <= |pat| ==> |Replace(s, pat, with)| <= |ReplaceAt(s, pat, with, places, off)|
    decreases |s|
  {
    if s != "" {
      if pat <= s {
        ReplaceLength(s[|pat|..], pat, with, places, off + |pat|);
        if off !in places {
          UnchosenOccurrence(s, pat, with, places, off);
        }
      } else {
        ReplaceLength(s[1..], pat, with, places, off + 1);
      }
    }
  }

  lemma UnchosenOccurrence(s: string, pat: string, with: string, places: set<nat>, off: nat)
    requires Borderless(pat) && pat <= s && off !in places
    ensures ReplaceAt(s, pat, with, places, off) == pat + ReplaceAt(s[|pat|..], pat, with, places, off + |pat|)
  {
    var rest := s[|pat|..];
    assert s == pat + rest;
    forall p | p in places && off <= p < off + |pat| ensures !OccursAt(pat, pat + rest, p - off) {
      OccurrencesApart(pat, s, p - off);
    }
    ReplaceAtCopies(pat, rest, pat, with, places, off);
  }

  // Replacing everywhere and replacing at the chosen places give the same text exactly when
  // nothing else is replaced, or a thing by itself.
  lemma {:induction false} ReplaceIsReplaceAtIff(s: string, pat: string, with: string, places: set<nat>, off: nat)
    requires Borderless(pat)
    ensures Replace(s, pat, with) == ReplaceAt(s, pat, with, places, off) <==>
        with == pat || OnlyAt(s, pat, places, off)
    decreases |s|
  {
    assert pat != "";
    hide Borderless;
    if s == "" {
      assert OnlyAt(s, pat, places, off);
    } else if pat <= s {
      OccurrenceStep(s, pat, with, places, off);
    } else {
      ReplaceIsReplaceAtIff(s[1..], pat, with, places, off + 1);
      SkipStep(s, pat, with, places, off);
    }
  }

  lemma SkipStep(s: string, pat: string, with: string, places: set<nat>, off: nat)
    requires s != "" && pat != "" && !(pat <= s)
    ensures OnlyAt(s, pat, places, off) <==> OnlyAt(s[1..], pat, places, off + 1)
    ensures Replace(s, pat, with) == ReplaceAt(s, pat, with, places, off) <==>
            Replace(s[1..], pat, with) == ReplaceAt(s[1..], pat, with, places, off + 1)
  {
    assert s[0..] == s;
    OnlyAtNext(s, pat, places, off, 1);
    hide OnlyAt;
    SamePrefix([s[0]], Replace(s[1..], pat, with), ReplaceAt(s[1..], pat, with, places, off + 1));
  }

  lemma OnlyAtNext(s: string, pat: string, places: set<nat>, off: nat, n: nat)
    requires n <= |s| && forall i: nat :: 1 <= i < n ==> !OccursAt(pat, s, i)
    ensures OnlyAt(s, pat, places, off) <==>
            (n > 0 && OccursAt(pat, s, 0) ==> off in places) && OnlyAt(s[n..], pat, places, off + n)
  {
    OnlyAtTail(s, pat, places, off, n);
    if (n > 0 && OccursAt(pat, s, 0) ==> off in places) && OnlyAt(s[n..], pat, places, off + n) {
      forall i: nat | i <= |s| && OccursAt(pat, s, i) ensures off + i in places {
        if i >= n {
          assert s[n..][i - n..] == s[i..];
          assert OccursAt(pat, s[n..], i - n);
          assert off + n + (i - n) in places;
        } else {
          assert i == 0;
        }
      }
    }
  }

  lemma {:induction false} OccurrenceStep(s: string, pat: string, with: string, places: set<nat>, off: nat)
    requires Borderless(pat) && pat <= s
    ensures Replace(s, pat, with) == ReplaceAt(s, pat, with, places, off) <==>
        with == pat || OnlyAt(s, pat, places, off)
    decreases |s|, 1
  {
    var rest := s[|pat|..];
    var a, b := Replace(rest, pat, with), ReplaceAt(rest, pat, with, places, off + |pat|);
    ReplaceIsReplaceAtIff(rest, pat, with, places, off + |pat|);
    forall i: nat | 1 <= i < |pat| ensures !OccursAt(pat, s, i) {
      OccurrencesApart(pat, s, i);
    }
    OnlyAtNext(s, pat, places, off, |pat|);
    assert s[0..] == s;
    if off in places {
      SamePrefix(with, a, b);
    } else {
      UnchosenOccurrence(s, pat, with, places, off);
      ReplaceLength(rest, pat, with, places, off + |pat|);
      EqualParts(with, a, pat, b);
    }
  }

  lemma SamePrefix(p: string, a: string, b: string)
    ensures p + a == p + b <==> a == b
  {
    assert (p + a)[|p|..] == a && (p + b)[|p|..] == b;
  }

  lemma EqualParts(p: string, a: string, q: string, b: string)
    requires |p| >= |q| ==> |a| >= |b|
    requires |p| <= |q| ==> |a| <= |b|
    ensures p + a == q + b <==> p == q && a == b
  {
    if p + a == q + b {
      assert |p| == |q|;
      assert (p + a)[..|p|] == p && (q + b)[..|q|] == q;
      SamePrefix(p, a, b);
    }
  }

  // Where the chunks `Marker(raw)` begin.
  function Places(chunks: seq<Chunk>, raw: string, off: nat): set<nat> {
    if chunks == [] then {}
    else (if chunks[0] == Marker(raw) then {off} else {}) + Places(chunks[1..], raw, off + |chunks[0].text|)
  }

  lemma {:induction false} PlacesStart(chunks: seq<Chunk>, raw: string, off: nat)
    requires raw != ""
    ensures forall p :: p in Places(chunks, raw, off) ==> p >= off
  {
    if chunks != [] {
      PlacesStart(chunks[1..], raw, off + |chunks[0].text|);
    }
  }

  lemma {:induction false} ReplaceAtChunks(chunks: seq<Chunk>, raw: string, with: string, places: set<nat>, off: nat)
    requires raw != ""
    requires forall p :: p >= off ==> (p in places <==> p in Places(chunks, raw, off))
    ensures ReplaceAt(Flatten(chunks), raw, with, places, off) == Flatten(Substitute(chunks, raw, with))
  {
    if chunks != [] {
      var s, t := chunks[0].text, Flatten(chunks[1..]);
      PlacesStart(chunks[1..], raw, off + |s|);
      assert Substitute(chunks, raw, with)[1..] == Substitute(chunks[1..], raw, with);
      ReplaceAtChunks(chunks[1..], raw, with, places, off + |s|);
      if chunks[0] == Marker(raw) {
        assert (raw + t)[|raw|..] == t;
        assert off in Places(chunks, raw, off);
      } else {
        assert Places(chunks, raw, off) == Places(chunks[1..], raw, off + |s|);
        ReplaceAtCopies(s, t, raw, with, places, off);
      }
    }
  }

  // A marker's text occurs nowhere in the chunks but as that marker.
  predicate NoStray(chunks: seq<Chunk>, raw: string) {
    OnlyAt(Flatten(chunks), raw, Places(chunks, raw, 0), 0)
  }

  // For any chunks, replacing a marker's text everywhere is substituting that marker
  // exactly when its text occurs nowhere else.
  lemma ReplaceIsSubstituteIff(chunks: seq<Chunk>, raw: string, with: string)
    requires Borderless(raw)
    ensures Replace(Flatten(chunks), raw, with) == Flatten(Substitute(chunks, raw, with)) <==>
            with == raw || NoStray(chunks, raw)
  {
    ReplaceAtChunks(chunks, raw, with, Places(chunks, raw, 0), 0);
    ReplaceIsReplaceAtIff(Flatten(chunks), raw, with, Places(chunks, raw, 0), 0);
  }

  // Any text as the scanner cuts it.
  function Scanned(text: string): seq<Chunk>
    decreases |text|
  {
    match Find(text, OPEN)
    case None => [Plain(text)]
    case Some(start) =>
      var afterStart := text[start..];
      match Find(afterStart, "]")
      case None => [Plain(text)]
      case Some(end) =>
        [Plain(text[..start]), Marker(afterStart[..end + 1])] + Scanned(afterStart[end + 1..])
  }

  lemma FlattenCons(c: Chunk, cs: seq<Chunk>)
    ensures Flatten([c] + cs) == c.text + Flatten(cs)
    ensures Dispatchable([c] + cs) == (if c.Marker? then Parsed(c.text) else []) + Dispatchable(cs)
  {
    assert ([c] + cs)[1..] == cs;
  }

  lemma OnePlain(text: string)
    ensures Flatten([Plain(text)]) == text && Dispatchable([Plain(text)]) == []
  {
    assert [Plain(text)] == [Plain(text)] + [];
    FlattenCons(Plain(text), []);
  }

  // Cutting loses nothing, and its dispatchable markers are those extracted.
  lemma {:induction false} ScannedIsTheText(text: string)
    ensures Flatten(Scanned(text)) == text
    ensures Dispatchable(Scanned(text)) == Extract(text)
    decreases |text|
  {
    ExtractNext(text);
    OnePlain(text);
    hide Parsed, Find, Extract, Flatten, Dispatchable;
    if Find(text, OPEN).Some? && Find(text[Find(text, OPEN).value..], "]").Some? {
      var start := Find(text, OPEN).value;
      var end := Find(text[start..], "]").value;
      var gap, raw, rest := text[..start], text[start..][..end + 1], text[start..][end + 1..];
      ScannedIsTheText(rest);
      GapThenMarker(gap, raw, Scanned(rest));
      assert text == gap + (raw + rest);
    }
  }

  lemma GapThenMarker(gap: string, raw: string, cs: seq<Chunk>)
    ensures Flatten([Plain(gap), Marker(raw)] + cs) == gap + (raw + Flatten(cs))
    ensures Dispatchable([Plain(gap), Marker(raw)] + cs) == Parsed(raw) + Dispatchable(cs)
  {
    hide Parsed, Flatten, Dispatchable;
    FlattenCons(Marker(raw), cs);
    FlattenCons(Plain(gap), [Marker(raw)] + cs);
    assert [Plain(gap), Marker(raw)] + cs == [Plain(gap)] + ([Marker(raw)] + cs);
  }

  // An extracted marker's only closing bracket is its last character, so it is borderless.
  lemma BracketedIsBorderless(raw: string)
    requires raw != "" && raw[|raw| - 1] == ']' && forall i :: 0 <= i < |raw| - 1 ==> raw[i] != ']'
    ensures Borderless(raw)
  {
    forall i | 1 <= i < |raw| ensures raw[i..] != raw[..|raw| - i] {
      assert raw[i..][|raw| - i - 1] == ']';
      assert raw[..|raw| - i][|raw| - i - 1] == raw[|raw| - i - 1];
    }
  }

  lemma {:induction false} ExtractedAreBorderless(text: string)
    ensures forall i :: 0 <= i < |Extract(text)| ==> Borderless(Extract(text)[i].raw)
    decreases |text|
  {
    ExtractNext(text);
    hide Find, Extract, Borderless, ParseMarker;
    if Find(text, OPEN).Some? && Find(text[Find(text, OPEN).value..], "]").Some? {
      var afterStart := text[Find(text, OPEN).value..];
      var end := Find(afterStart, "]").value;
      ExtractedAreBorderless(afterStart[end + 1..]);
      UpToBracket(afterStart, end);
      BracketedIsBorderless(afterStart[..end + 1]);
    }
  }

  lemma UpToBracket(s: string, end: nat)
    requires Find(s, "]") == Some(end)
    ensures end < |s| && s[end] == ']' && forall i :: 0 <= i < end ==> s[i] != ']'
  {
    FindSpec(s, "]");
    forall i: nat ensures OccursAt("]", s, i) <==> i < |s| && s[i] == ']' {
      OccursAtChar(s, ']', i);
    }
  }

  // Stage `n` of the rewriting replaces its marker as positional rewriting does.
  predicate StageIsClean(chunks: seq<Chunk>, ms: seq<RelayMarker>, outcomes: nat -> Outcome, n: nat)
    requires n < |ms|
  {
    ReplyText(ms[n], outcomes(n)) == ms[n].raw || NoStray(Positional(chunks, ms, outcomes, n), ms[n].raw)
  }

  predicate StageIsPositional(text: string, chunks: seq<Chunk>, ms: seq<RelayMarker>, outcomes: nat -> Outcome, n: nat)
    requires n <= |ms| && forall i :: 0 <= i < |ms| ==> ms[i].raw != ""
  {
    Sequential(text, ms, outcomes, n) == Flatten(Positional(chunks, ms, outcomes, n))
  }

  lemma FirstStage(text: string, chunks: seq<Chunk>, ms: seq<RelayMarker>, outcomes: nat -> Outcome)
    requires Flatten(chunks) == text && forall i :: 0 <= i < |ms| ==> ms[i].raw != ""
    ensures StageIsPositional(text, chunks, ms, outcomes, 0)
  {
    PositionalOfNone(chunks, ms, outcomes);
  }

  lemma NextStage(text: string, chunks: seq<Chunk>, ms: seq<RelayMarker>, outcomes: nat -> Outcome, n: nat)
    requires n < |ms| && forall i :: 0 <= i < |ms| ==> ms[i].raw != "" && Borderless(ms[i].raw)
    requires StageIsPositional(text, chunks, ms, outcomes, n)
    ensures StageIsPositional(text, chunks, ms, outcomes, n + 1) <==> StageIsClean(chunks, ms, outcomes, n)
  {
    hide Replace, Flatten, Positional, NoStray, Substitute, ReplyText;
    ReplaceIsSubstituteIff(Positional(chunks, ms, outcomes, n), ms[n].raw, ReplyText(ms[n], outcomes(n)));
    SubstituteIsNext(chunks, ms, outcomes, n + 1);
  }

  lemma {:induction false} StagesArePositionalIff(
    text: string, chunks: seq<Chunk>, ms: seq<RelayMarker>, outcomes: nat -> Outcome, n: nat)
    requires n <= |ms| && Flatten(chunks) == text
    requires forall i :: 0 <= i < |ms| ==> ms[i].raw != "" && Borderless(ms[i].raw)
    ensures (forall k: nat :: k <= n ==> StageIsPositional(text, chunks, ms, outcomes, k)) <==>
            (forall k: nat :: k < n ==> StageIsClean(chunks, ms, outcomes, k))
  {
    hide StageIsClean, StageIsPositional, Flatten, Borderless;
    if n == 0 {
      FirstStage(text, chunks, ms, outcomes);
    } else {
      StagesArePositionalIff(text, chunks, ms, outcomes, n - 1);
      if StageIsPositional(text, chunks, ms, outcomes, n - 1) {
        NextStage(text, chunks, ms, outcomes, n - 1);
      }
    }
  }

  // For every text and all replies: each stage of the rewriting is positional if and only if
  // no marker about to be replaced, unless by itself, occurs stray in the text rewritten so
  // far.
  lemma ProcessIsPositionalIff(text: string, outcomes: nat -> Outcome)
    ensures var chunks, ms := Scanned(text), Extract(text);
            && Flatten(chunks) == text && Dispatchable(chunks) == ms
            && ((forall n: nat :: n <= |ms| ==> StageIsPositional(text, chunks, ms, outcomes, n)) <==>
                (forall n: nat :: n < |ms| ==> StageIsClean(chunks, ms, outcomes, n)))
  {
    hide StageIsClean, StageIsPositional, Flatten, Dispatchable, Scanned, Borderless;
    ScannedIsTheText(text);
    ExtractedAreBorderless(text);
    StagesArePositionalIff(text, Scanned(text), Extract(text), outcomes, |Extract(text)|);
  }

  // A reply that quotes a later marker is itself rewritten: positional rewriting fails.
  lemma QuotedMarkerIsRewritten(m1: RelayMarker, m2: RelayMarker, outcomes: nat -> Outcome)
    requires ParseMarker(m1.raw) == Some(m1) && ParseMarker(m2.raw) == Some(m2)
    requires WellFormedRaw(m1.raw) && WellFormedRaw(m2.raw) && m1.raw != m2.raw
    requires m1.raw != "" && m2.raw != ""
    requires outcomes(0) == Replied(m2.raw) && outcomes(1) == Replied("z")
    ensures Extract(m1.raw + m2.raw) == [m1, m2]
    ensures Sequential(m1.raw + m2.raw, [m1, m2], outcomes, 2) == "zz"
    ensures Flatten(Positional([Marker(m1.raw), Marker(m2.raw)], [m1, m2], outcomes, 2)) == m2.raw + "z"
  {
    ExtractTwo(m1, m2);
    RewriteTwo(m1, m2, outcomes);
  }

  lemma RewriteTwo(m1: RelayMarker, m2: RelayMarker, outcomes: nat -> Outcome)
    requires WellFormedRaw(m1.raw) && WellFormedRaw(m2.raw) && m1.raw != m2.raw
    requires m1.raw != "" && m2.raw != ""
    requires outcomes(0) == Replied(m2.raw) && outcomes(1) == Replied("z")
    ensures Sequential(m1.raw + m2.raw, [m1, m2], outcomes, 2) == "zz"
    ensures Flatten(Positional([Marker(m1.raw), Marker(m2.raw)], [m1, m2], outcomes, 2)) == m2.raw + "z"
  {
    hide Replace, Flatten, Positional, WellFormedRaw;
    var ms := [m1, m2];
    ReplaceInTwo(Marker(m1.raw), Marker(m2.raw), m1.raw, m2.raw);
    assert Sequential(m1.raw + m2.raw, ms, outcomes, 0) == m1.raw + m2.raw;
    assert Sequential(m1.raw + m2.raw, ms, outcomes, 1) == m2.raw + m2.raw;
    ReplaceInTwo(Marker(m2.raw), Marker(m2.raw), m2.raw, "z");
    assert Sequential(m1.raw + m2.raw, ms, outcomes, 2) == "z" + "z";
    PositionalOfTwo(m1, m2, outcomes);
    FlattenTwo(Plain(m2.raw), Plain("z"));
  }

  lemma ExtractTwo(m1: RelayMarker, m2: RelayMarker)
    requires ParseMarker(m1.raw) == Some(m1) && ParseMarker(m2.raw) == Some(m2)
    requires WellFormedRaw(m1.raw) && WellFormedRaw(m2.raw)
    ensures Extract(m1.raw + m2.raw) == [m1, m2]
  {
    hide WellFormedRaw, ParseMarker, Extract;
    var chunks := [Marker(m1.raw), Marker(m2.raw)];
    ExtractFromChunks(chunks);
    FlattenTwo(chunks[0], chunks[1]);
    assert chunks[1..] == [chunks[1]] && [chunks[1]][1..] == [];
    assert Dispatchable([chunks[1]]) == Parsed(m2.raw) + Dispatchable([]);
  }

  lemma PositionalOfTwo(m1: RelayMarker, m2: RelayMarker, outcomes: nat -> Outcome)
    requires m1.raw != m2.raw
    ensures Positional([Marker(m1.raw), Marker(m2.raw)], [m1, m2], outcomes, 2) ==
              [Plain(ReplyText(m1, outcomes(0))), Plain(ReplyText(m2, outcomes(1)))]
  {
    var ms := [m1, m2];
    assert FirstReply(ms, outcomes, 1, m1.raw) == Some(ReplyText(m1, outcomes(0)));
    assert FirstReply(ms, outcomes, 1, m2.raw) == None;
  }

  lemma ReplaceInTwo(a: Chunk, b: Chunk, raw: string, with: string)
    requires WellFormed([a, b]) && WellFormedRaw(raw) && raw != ""
    ensures Replace(a.text + b.text, raw, with) ==
              (if a == Marker(raw) then with else a.text) + (if b == Marker(raw) then with else b.text)
  {
    FlattenTwo(a, b);
    ReplaceInChunks([a, b], raw, with);
    var a' := if a == Marker(raw) then Plain(with) else a;
    var b' := if b == Marker(raw) then Plain(with) else b;
    assert Substitute([a, b], raw, with) == [a', b'];
    FlattenTwo(a', b');
  }

  lemma FlattenTwo(a: Chunk, b: Chunk)
    ensures Flatten([a, b]) == a.text + b.text
  {
    assert [a, b][1..] == [b] && [b][1..] == [];
    assert Flatten([b]) == b.text + Flatten([]) == b.text;
  }

  // A reply without an opening bracket is inert.
  lemma UnbracketedIsInert(s: string)
    requires '[' !in s
    ensures Inert(s)
  {
    assert OPEN[0] == '[';
    forall i | 0 <= i < |s| ensures !(OPEN <= s[i..]) && !(s[i..] <= OPEN) {
      assert s[i..][0] == s[i];
    }
  }

  // The "no reply" notice is inert unless the agent's name would open a marker.
  lemma NoReplyIsInertIff(m: RelayMarker)
    requires '[' !in m.agentName
    ensures Inert(ReplyText(m, NoReply)) <==> !("RELAY:" <= m.agentName + " 无回复]")
  {
    var tail := m.agentName + " 无回复]";
    var s := ReplyText(m, NoReply);
    assert s == "[" + tail && s[0..] == s;
    OpeningThenTail(tail);
    assert s[|s| - 1] == ']' && ']' !in OPEN;
    assert '[' !in tail;
    UnbracketedIsInert(tail);
    assert forall i :: 1 <= i < |s| ==> s[i..] == tail[i - 1..];
  }

  lemma OpeningThenTail(tail: string)
    ensures OPEN <= "[" + tail <==> "RELAY:" <= tail
  {
    assert OPEN == "[" + "RELAY:";
    assert ("[" + tail)[1..] == tail;
    assert |tail| >= 6 ==> ("[" + tail)[..7] == "[" + tail[..6];
  }
}
