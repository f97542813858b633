/** Optional values and error returns, as the source's `Option` and `Result`. */
module Prelude {
  datatype Option<+T> = None | Some(value: T)

  datatype Result<+T, +E> = Ok(value: T) | Err(error: E)
}

/** The parts of Rust's `str` interface that the gateway's codecs rely on. */
module Text {
  import opened Prelude

  // The Unicode White_Space property, which `str::trim` and `char::is_whitespace` use.
  predicate IsWhitespace(c: char) {
    || '\t' <= c <= '\r'
    || c == ' '
    || c == '\U{0085}'
    || c == '\U{00A0}'
    || c == '\U{1680}'
    || '\U{2000}' <= c <= '\U{200A}'
    || c == '\U{2028}'
    || c == '\U{2029}'
    || c == '\U{202F}'
    || c == '\U{205F}'
    || c == '\U{3000}'
  }

  predicate Blank(s: string) {
    forall i :: 0 <= i < |s| ==> IsWhitespace(s[i])
  }

  // ---------------------------------------------------------------- trimming

  function TrimStart(s: string): string {
    if s != "" && IsWhitespace(s[0]) then TrimStart(s[1..]) else s
  }

  function TrimEnd(s: string): string {
    if s != "" && IsWhitespace(s[|s| - 1]) then TrimEnd(s[..|s| - 1]) else s
  }

  function Trim(s: string): string {
    TrimEnd(TrimStart(s))
  }

  // A string that trimming leaves alone.
  predicate Tight(s: string) {
    s == "" || (!IsWhitespace(s[0]) && !IsWhitespace(s[|s| - 1]))
  }

  lemma {:induction false} TrimStartSkips(a: string, t: string)
    requires Blank(a)
    ensures TrimStart(a + t) == TrimStart(t)
  {
    if a == "" {
      assert a + t == t;
    } else {
      assert (a + t)[1..] == a[1..] + t;
      TrimStartSkips(a[1..], t);
    }
  }

  lemma {:induction false} TrimEndSkips(t: string, b: string)
    requires Blank(b)
    ensures TrimEnd(t + b) == TrimEnd(t)
  {
    if b == "" {
      assert t + b == t;
    } else {
      assert (t + b)[..|t + b| - 1] == t + b[..|b| - 1];
      TrimEndSkips(t, b[..|b| - 1]);
    }
  }

  lemma {:induction false} TrimStartSpec(s: string) returns (a: string)
    ensures s == a + TrimStart(s) && Blank(a)
    ensures TrimStart(s) != "" ==> !IsWhitespace(TrimStart(s)[0])
  {
    a := "";
    if s != "" && IsWhitespace(s[0]) {
      var rest := TrimStartSpec(s[1..]);
      a := [s[0]] + rest;
    }
  }

  lemma {:induction false} TrimEndSpec(s: string) returns (b: string)
    ensures s == TrimEnd(s) + b && Blank(b)
    ensures var r := TrimEnd(s); r != "" ==> !IsWhitespace(r[|r| - 1])
  {
    b := "";
    if s != "" && IsWhitespace(s[|s| - 1]) {
      var rest := TrimEndSpec(s[..|s| - 1]);
      b := rest + [s[|s| - 1]];
    }
  }

  // Trimming is characterised by what it leaves: a tight core between blanks.
  lemma TrimIs(a: string, m: string, b: string)
    requires Blank(a) && Blank(b) && Tight(m)
    ensures Trim(a + m + b) == m
  {
    assert a + m + b == a + (m + b);
    TrimStartSkips(a, m + b);
    if m == "" {
      assert m + b == b;
      TrimStartSkips(b, "");
      assert b + "" == b;
    } else {
      TrimEndSkips(m, b);
    }
  }

  lemma TrimCore(s: string) returns (a: string, b: string)
    ensures s == a + Trim(s) + b && Blank(a) && Blank(b) && Tight(Trim(s))
  {
    var t := TrimStart(s);
    a := TrimStartSpec(s);
    b := TrimEndSpec(t);
    var m := TrimEnd(t);
    assert a + t == a + m + b;
    assert m != "" ==> m[0] == t[0];
  }

  lemma TrimTight(s: string)
    requires Tight(s)
    ensures Trim(s) == s
  {
    TrimIs("", s, "");
    assert "" + s + "" == s;
  }

  lemma TrimIdempotent(s: string)
    ensures Tight(Trim(s)) && Trim(Trim(s)) == Trim(s)
  {
    var a, b := TrimCore(s);
    TrimTight(Trim(s));
  }

  lemma TrimEmptyIffBlank(s: string)
    ensures Trim(s) == "" <==> Blank(s)
  {
    var a, b := TrimCore(s);
    if Trim(s) == "" {
      assert s == a + b;
    } else {
      assert s[|a|] == Trim(s)[0];
    }
  }

  // Trimming keeps everything between two visible characters.
  lemma TrimKeepsMiddle(s: string, i: nat, j: nat)
    requires i <= j < |s| && !IsWhitespace(s[i]) && !IsWhitespace(s[j])
    ensures |Trim(s)| > j - i
  {
    var a, b := TrimCore(s);
    assert forall k :: 0 <= k < |a| ==> s[k] == a[k];
    assert forall k :: |s| - |b| <= k < |s| ==> s[k] == b[k - (|s| - |b|)];
  }

  // --------------------------------------------------------------- searching

  predicate OccursAt(pat: string, s: string, i: int) {
    0 <= i <= |s| && pat <= s[i..]
  }

  predicate Contains(s: string, pat: string) {
    exists i :: 0 <= i <= |s| && OccursAt(pat, s, i)
  }

  // `str::find`: the first position at which `pat` occurs.
  function Find(s: string, pat: string): (r: Option<nat>)
    ensures r.Some? ==> r.value + |pat| <= |s|
  {
    if pat <= s then Some(0)
    else if s == "" then None
    else
      match Find(s[1..], pat)
      case Some(k) => Some(k + 1)
      case None => None
  }

  lemma {:induction false} FindSpec(s: string, pat: string)
    ensures Find(s, pat).None? <==> !Contains(s, pat)
    ensures Find(s, pat).Some? ==>
              var k := Find(s, pat).value;
              k + |pat| <= |s| && OccursAt(pat, s, k) && forall i :: 0 <= i < k ==> !OccursAt(pat, s, i)
  {
    assert s[0..] == s;
    if pat <= s {
      assert OccursAt(pat, s, 0);
    } else if s != "" {
      FindSpec(s[1..], pat);
      forall i | 1 <= i <= |s| ensures OccursAt(pat, s, i) == OccursAt(pat, s[1..], i - 1) {
        assert s[i..] == s[1..][i - 1..];
      }
      assert !OccursAt(pat, s, 0);
      if Find(s[1..], pat).Some? {
        var k := Find(s[1..], pat).value;
        assert OccursAt(pat, s, k + 1);
        forall i | 0 <= i < k + 1 ensures !OccursAt(pat, s, i) {
          assert i > 0 ==> !OccursAt(pat, s[1..], i - 1);
        }
      } else {
        forall i | 0 <= i <= |s| ensures !OccursAt(pat, s, i) {
          assert i > 0 ==> !OccursAt(pat, s[1..], i - 1);
        }
      }
    } else {
      forall i | 0 <= i <= |s| ensures !OccursAt(pat, s, i) {
      }
    }
  }

  lemma FindIs(s: string, pat: string, i: nat)
    requires OccursAt(pat, s, i)
    requires forall j :: 0 <= j < i ==> !OccursAt(pat, s, j)
    ensures Find(s, pat) == Some(i)
  {
    FindSpec(s, pat);
    assert Contains(s, pat);
  }

  // `str::split_once`: the text before and after the first occurrence.
  function SplitOnce(s: string, pat: string): Option<(string, string)> {
    match Find(s, pat)
    case Some(i) => Some((s[..i], s[i + |pat|..]))
    case None => None
  }

  // A pattern none of whose proper suffixes begins another occurrence of it.
  predicate Borderless(pat: string) {
    pat != "" && forall i :: 1 <= i < |pat| ==> pat[i..] != pat[..|pat| - i]
  }

  lemma OverlapIsBorder(pat: string, s: string, i: nat)
    requires pat <= s && 1 <= i < |pat|
    ensures OccursAt(pat, s, i) ==> pat[i..] == pat[..|pat| - i]
  {
    if OccursAt(pat, s, i) {
      assert forall k :: 0 <= k < |pat| ==> pat[k] == s[i..][k] == s[i + k];
      forall k | 0 <= k < |pat| - i ensures pat[i..][k] == pat[..|pat| - i][k] {
        assert pat[i + k] == s[i + k];
      }
    }
  }

  // Two occurrences of a borderless pattern do not overlap.
  lemma OccurrencesApart(pat: string, s: string, i: nat)
    requires Borderless(pat) && pat <= s && 1 <= i < |pat|
    ensures !OccursAt(pat, s, i)
  {
    OverlapIsBorder(pat, s, i);
  }

  // An occurrence that begins inside `left` lies in `left` or makes `pat` overlap itself.
  lemma OccurrenceBefore(left: string, pat: string, right: string, j: nat)
    requires pat != "" && j < |left|
    ensures OccursAt(pat, left + pat + right, j) ==>
              || OccursAt(pat, left, j)
              || (1 <= |left| - j < |pat| && pat[|left| - j..] == pat[..|pat| - (|left| - j)])
  {
    var s := left + pat + right;
    if OccursAt(pat, s, j) {
      assert forall k :: 0 <= k < |pat| ==> pat[k] == s[j..][k] == s[j + k];
      if j + |pat| <= |left| {
        assert pat <= left[j..];
      } else {
        var i := |left| - j;
        forall k | 0 <= k < |pat| - i ensures pat[i..][k] == pat[..|pat| - i][k] {
          assert pat[i + k] == s[j + (i + k)] == s[|left| + k] == pat[k];
        }
      }
    }
  }

  // Splitting undoes joining when the left part does not hold the separator.
  lemma SplitJoined(left: string, pat: string, right: string)
    requires Borderless(pat) && !Contains(left, pat)
    ensures SplitOnce(left + pat + right, pat) == Some((left, right))
  {
    var s := left + pat + right;
    assert s[|left|..] == pat + right;
    assert s[..|left|] == left && s[|left| + |pat|..] == right;
    forall j | 0 <= j < |left| ensures !OccursAt(pat, s, j) {
      OccurrenceBefore(left, pat, right, j);
    }
    FindIs(s, pat, |left|);
  }

  // Splitting finds the first separator.
  lemma SplitOnceSpec(s: string, pat: string)
    ensures SplitOnce(s, pat).None? <==> !Contains(s, pat)
    ensures SplitOnce(s, pat).Some? ==>
              var (l, r) := SplitOnce(s, pat).value; s == l + pat + r && (pat != "" ==> !Contains(l, pat))
  {
    FindSpec(s, pat);
    hide Find;
    match Find(s, pat)
    case None =>
    case Some(k) =>
      assert s == s[..k] + pat + s[k + |pat|..];
      forall i | 0 <= i <= k && pat != "" ensures !OccursAt(pat, s[..k], i) {
        OccursInPrefix(s, k, pat, i);
      }
  }

  lemma OccursInPrefix(s: string, k: nat, pat: string, i: nat)
    requires i <= k <= |s| && pat != ""
    ensures OccursAt(pat, s[..k], i) ==> i < k && OccursAt(pat, s, i)
  {
    if OccursAt(pat, s[..k], i) {
      assert i < k;
      assert s[i..] == s[..k][i..] + s[k..];
    }
  }

  lemma OccursAtChar(s: string, c: char, i: nat)
    ensures OccursAt([c], s, i) <==> i < |s| && s[i] == c
  {
    if i < |s| {
      assert s[i..][0] == s[i];
    }
  }

  lemma ContainsChar(s: string, c: char)
    ensures Contains(s, [c]) <==> c in s
  {
    forall i: nat ensures OccursAt([c], s, i) <==> i < |s| && s[i] == c {
      OccursAtChar(s, c, i);
    }
    if c in s {
      var i :| 0 <= i < |s| && s[i] == c;
      assert OccursAt([c], s, i);
    }
  }

  // The same for a separator of one character.
  lemma SplitJoinedChar(left: string, c: char, right: string)
    requires c !in left
    ensures SplitOnce(left + [c] + right, [c]) == Some((left, right))
  {
    ContainsChar(left, c);
    SplitJoined(left, [c], right);
  }

  lemma SplitOnceChar(s: string, c: char)
    ensures SplitOnce(s, [c]).None? <==> c !in s
    ensures SplitOnce(s, [c]).Some? ==>
              var (l, r) := SplitOnce(s, [c]).value; c !in l && s == l + [c] + r
  {
    ContainsChar(s, c);
    SplitOnceSpec(s, [c]);
    if SplitOnce(s, [c]).Some? {
      ContainsChar(SplitOnce(s, [c]).value.0, c);
    }
  }

  // -------------------------------------------------------------- replacing

  // `str::replace`: every non-overlapping occurrence, left to right.
  function Replace(s: string, pat: string, with: string): string
    requires pat != ""
    decreases |s|
  {
    if s == "" then ""
    else if pat <= s then with + Replace(s[|pat|..], pat, with)
    else [s[0]] + Replace(s[1..], pat, with)
  }

  // ------------------------------------------------------------------- case

  function AsciiLower(c: char): (r: char)
    ensures 'A' <= c <= 'Z' ==> 'a' <= r <= 'z' && (r as int) - ('a' as int) == (c as int) - ('A' as int)
    ensures !('A' <= c <= 'Z') ==> r == c
  {
    if 'A' <= c <= 'Z' then ((c as int) + 32) as char else c
  }

  function ToAsciiLower(s: string): (r: string)
    ensures |r| == |s| && forall i :: 0 <= i < |s| ==> r[i] == AsciiLower(s[i])
  {
    seq(|s|, i requires 0 <= i < |s| => AsciiLower(s[i]))
  }

  predicate EqIgnoreAsciiCase(s: string, t: string) {
    ToAsciiLower(s) == ToAsciiLower(t)
  }

  // --------------------------------------------------------------- decimals

  predicate IsDigit(c: char) {
    '0' <= c <= '9'
  }

  function Digit(n: nat): (c: char)
    requires n < 10
    ensures IsDigit(c) && (c as int) - ('0' as int) == n
  {
    (n + '0' as int) as char
  }

  function Decimal(n: nat): (s: string)
    ensures s != "" && forall i :: 0 <= i < |s| ==> IsDigit(s[i])
  {
    if n < 10 then [Digit(n)] else Decimal(n / 10) + [Digit(n % 10)]
  }

  function DecimalValue(s: string): int {
    if s == "" then 0 else 10 * DecimalValue(s[..|s| - 1]) + (s[|s| - 1] as int - '0' as int)
  }

  lemma {:induction false} DecimalRoundTrip(n: nat)
    ensures DecimalValue(Decimal(n)) == n
  {
    if n < 10 {
      assert Decimal(n)[..0] == "";
    } else {
      DecimalRoundTrip(n / 10);
      assert Decimal(n)[..|Decimal(n)| - 1] == Decimal(n / 10);
    }
  }
}
