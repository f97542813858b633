/** Canonical provider names for configuration files. */
module ProviderName {
  import opened Text

  predicate IsAlnum(c: char) {
    'a' <= c <= 'z' || 'A' <= c <= 'Z' || '0' <= c <= '9'
  }

  predicate IsLowerAlnum(c: char) {
    'a' <= c <= 'z' || '0' <= c <= '9'
  }

  // The buffer after the loop has read `s`.
  function Collapsed(s: string): string {
    if s == "" then ""
    else
      var out, c := Collapsed(s[..|s| - 1]), s[|s| - 1];
      if IsAlnum(c) then out + [AsciiLower(c)]
      else if out != "" && out[|out| - 1] == '_' then out
      else out + "_"
  }

  function TrimLeft(s: string): string {
    if s != "" && s[0] == '_' then TrimLeft(s[1..]) else s
  }

  function TrimRight(s: string): string {
    if s != "" && s[|s| - 1] == '_' then TrimRight(s[..|s| - 1]) else s
  }

  function Sanitize(input: string): string {
    var trimmed := TrimRight(TrimLeft(Collapsed(input)));
    if trimmed == "" then "provider" else trimmed
  }

  method SanitizeProviderName(input: string) returns (name: string)
    ensures name == Sanitize(input)
  {
    var out := "";
    for i := 0 to |input|
      invariant out == Collapsed(input[..i])
    {
      assert input[..i + 1][..i] == input[..i];
      if IsAlnum(input[i]) {
        out := out + [AsciiLower(input[i])];
      } else if !(out != "" && out[|out| - 1] == '_') {
        out := out + "_";
      }
    }
    assert input[..|input|] == input;
    var trimmed := TrimRight(TrimLeft(out));
    name := if trimmed == "" then "provider" else trimmed;
  }

  // ---------------------------------------------------- the reference: runs

  // The maximal runs of ASCII alphanumerics, lowercased.
  function Runs(s: string): (rs: seq<string>)
    ensures s != "" && IsAlnum(s[|s| - 1]) ==> rs != []
  {
    if s == "" then []
    else
      var before, c := Runs(s[..|s| - 1]), s[|s| - 1];
      if !IsAlnum(c) then before
      else if |s| > 1 && IsAlnum(s[|s| - 2]) then before[..|before| - 1] + [before[|before| - 1] + [AsciiLower(c)]]
      else before + [[AsciiLower(c)]]
  }

  function Join(rs: seq<string>): string {
    if rs == [] then ""
    else if |rs| == 1 then rs[0]
    else Join(rs[..|rs| - 1]) + "_" + rs[|rs| - 1]
  }

  predicate IsRun(r: string) {
    r != "" && forall i :: 0 <= i < |r| ==> IsLowerAlnum(r[i])
  }

  lemma {:induction false} RunsAreRuns(s: string)
    ensures forall i :: 0 <= i < |Runs(s)| ==> IsRun(Runs(s)[i])
  {
    if s != "" {
      RunsAreRuns(s[..|s| - 1]);
    }
  }

  lemma {:induction false} JoinEnds(rs: seq<string>)
    requires rs != [] && forall i :: 0 <= i < |rs| ==> IsRun(rs[i])
    ensures var j := Join(rs); j != "" && IsLowerAlnum(j[0]) && IsLowerAlnum(j[|j| - 1])
  {
    if |rs| > 1 {
      JoinEnds(rs[..|rs| - 1]);
    }
  }

  lemma JoinExtend(rs: seq<string>, c: char)
    requires rs != []
    ensures Join(rs[..|rs| - 1] + [rs[|rs| - 1] + [c]]) == Join(rs) + [c]
  {
    hide Join;
    var init, r := rs[..|rs| - 1], rs[|rs| - 1];
    assert init + [r] == rs;
    JoinPush(init, r + [c]);
    JoinPush(init, r);
    Reassociate(Join(init), r, c);
  }

  lemma Reassociate(a: string, r: string, c: char)
    ensures a + "_" + (r + [c]) == a + "_" + r + [c]
  {
  }

  lemma JoinPush(rs: seq<string>, r: string)
    ensures Join(rs + [r]) == (if rs == [] then r else Join(rs) + "_" + r)
  {
    assert (rs + [r])[..|rs|] == rs;
  }

  function Lead(s: string): string {
    if s != "" && !IsAlnum(s[0]) then "_" else ""
  }

  function Trail(s: string): string {
    if s != "" && !IsAlnum(s[|s| - 1]) && Runs(s) != [] then "_" else ""
  }

  // The buffer is the joined runs, with an underscore where the text has an edge.
  lemma {:induction false} CollapsedIsJoined(s: string)
    ensures Collapsed(s) == Lead(s) + Join(Runs(s)) + Trail(s)
  {
    if s != "" {
      CollapsedIsJoined(s[..|s| - 1]);
      if IsAlnum(s[|s| - 1]) {
        AlnumStep(s);
      } else {
        SeparatorStep(s);
      }
    }
  }

  lemma AlnumStep(s: string)
    requires s != "" && IsAlnum(s[|s| - 1])
    requires var t := s[..|s| - 1]; Collapsed(t) == Lead(t) + Join(Runs(t)) + Trail(t)
    ensures Collapsed(s) == Lead(s) + Join(Runs(s)) + Trail(s)
  {
    hide Join, Runs, Lead;
    var t, c := s[..|s| - 1], AsciiLower(s[|s| - 1]);
    assert Collapsed(s) == Collapsed(t) + [c] && Trail(s) == "";
    JoinPushedAlnum(s);
    EdgesOfPushedAlnum(s);
    Regroup(Lead(t), Join(Runs(t)), Trail(t), [c]);
  }

  lemma Regroup(a: string, b: string, d: string, e: string)
    ensures a + b + d + e == a + (b + d + e) + ""
    ensures b == "" && d == "" ==> a + b + d + e == a + e + ""
  {
  }

  lemma JoinPushedAlnum(s: string)
    requires s != "" && IsAlnum(s[|s| - 1])
    ensures var t, c := s[..|s| - 1], AsciiLower(s[|s| - 1]);
            Join(Runs(s)) ==
            if Runs(t) == [] then [c] else Join(Runs(t)) + Trail(t) + [c]
  {
    hide Join;
    var t, c := s[..|s| - 1], AsciiLower(s[|s| - 1]);
    if t != "" && IsAlnum(t[|t| - 1]) {
      JoinExtend(Runs(t), c);
    } else {
      JoinPush(Runs(t), [c]);
      assert Runs(s) == Runs(t) + [[c]];
    }
  }

  lemma EdgesOfPushedAlnum(s: string)
    requires s != "" && IsAlnum(s[|s| - 1])
    ensures var t := s[..|s| - 1];
            Lead(s) == Lead(t) && (Runs(t) == [] ==> Join(Runs(t)) == "" && Trail(t) == "")
  {
    NoRunsNoAlnum(s[..|s| - 1]);
  }

  lemma JoinNone()
    ensures Join([]) == ""
  {
  }

  lemma SeparatorStep(s: string)
    requires s != "" && !IsAlnum(s[|s| - 1])
    requires var t := s[..|s| - 1]; Collapsed(t) == Lead(t) + Join(Runs(t)) + Trail(t)
    ensures Collapsed(s) == Lead(s) + Join(Runs(s)) + Trail(s)
  {
    var t := s[..|s| - 1];
    assert s == t + [s[|s| - 1]];
    RunsPush(t, s[|s| - 1]);
    NoRunsNoAlnum(t);
    RunsAreRuns(t);
    JoinNone();
    if Runs(t) != [] {
      JoinEnds(Runs(t));
    }
    hide Join, Runs;
    LastOfThree(Lead(t), Join(Runs(t)), Trail(t));
    Underscored(Lead(t), Join(Runs(t)), Trail(t));
  }

  lemma LastOfThree(a: string, b: string, c: string)
    ensures c != "" ==> (a + b + c)[|a + b + c| - 1] == c[|c| - 1]
    ensures c == "" && b != "" ==> (a + b + c)[|a + b + c| - 1] == b[|b| - 1]
  {
  }

  lemma Underscored(a: string, b: string, c: string)
    ensures c == "" ==> a + b + c + "_" == a + b + "_"
    ensures b == "" && c == "" ==> a + b + c == a && "_" + b + c == "_"
  {
  }

  lemma {:induction false} NoRunsNoAlnum(s: string)
    ensures Runs(s) == [] && s != "" ==> !IsAlnum(s[0])
  {
    if s != "" {
      NoRunsNoAlnum(s[..|s| - 1]);
    }
  }

  // The loop computes "split into alphanumeric runs, lowercase, join with underscores".
  lemma SanitizeIsJoinedRuns(s: string)
    ensures Sanitize(s) == if Runs(s) == [] then "provider" else Join(Runs(s))
  {
    CollapsedIsJoined(s);
    RunsAreRuns(s);
    var j := Join(Runs(s));
    if Runs(s) != [] {
      JoinEnds(Runs(s));
      assert Collapsed(s) == Lead(s) + (j + Trail(s));
      TrimLeftSkips(j + Trail(s), Lead(s));
      TrimRightSkips(j, Trail(s));
    } else {
      assert Collapsed(s) == Lead(s);
      TrimLeftSkips("", Lead(s));
      assert Lead(s) + "" == Lead(s);
    }
  }

  lemma TrimLeftSkips(s: string, lead: string)
    requires lead == "" || lead == "_"
    requires s == "" || s[0] != '_'
    ensures TrimLeft(lead + s) == s
  {
    if lead == "_" {
      assert (lead + s)[1..] == s;
    } else {
      assert lead + s == s;
    }
  }

  lemma TrimRightSkips(s: string, trail: string)
    requires trail == "" || trail == "_"
    requires s == "" || s[|s| - 1] != '_'
    ensures TrimRight(s + trail) == s
  {
    if trail == "_" {
      assert (s + trail)[..|s|] == s;
    } else {
      assert s + trail == s;
    }
  }

  // ------------------------------------------------------------ properties

  // The names the sanitizer produces.
  predicate Canonical(t: string) {
    && t != ""
    && (forall i :: 0 <= i < |t| ==> IsLowerAlnum(t[i]) || t[i] == '_')
    && t[0] != '_' && t[|t| - 1] != '_'
    && (forall i :: 0 <= i < |t| - 1 ==> !(t[i] == '_' && t[i + 1] == '_'))
  }

  lemma {:induction false} JoinIsCanonical(rs: seq<string>)
    requires rs != [] && forall i :: 0 <= i < |rs| ==> IsRun(rs[i])
    ensures Canonical(Join(rs))
  {
    if |rs| > 1 {
      JoinIsCanonical(rs[..|rs| - 1]);
      var j, r := Join(rs[..|rs| - 1]), rs[|rs| - 1];
      var t := j + "_" + r;
      forall i | 0 <= i < |t| - 1 ensures !(t[i] == '_' && t[i + 1] == '_') {
        if i < |j| - 1 {
          assert t[i] == j[i] && t[i + 1] == j[i + 1];
        } else if i == |j| - 1 {
          assert t[i] == j[|j| - 1];
        } else {
          assert t[i + 1] == r[i - |j|];
        }
      }
    }
  }

  lemma SanitizeIsCanonical(s: string)
    ensures Canonical(Sanitize(s))
  {
    SanitizeIsJoinedRuns(s);
    RunsAreRuns(s);
    if Runs(s) != [] {
      JoinIsCanonical(Runs(s));
    }
  }

  lemma {:induction false} CanonicalCollapses(t: string)
    requires forall i :: 0 <= i < |t| ==> IsLowerAlnum(t[i]) || t[i] == '_'
    requires forall i :: 0 <= i < |t| - 1 ==> !(t[i] == '_' && t[i + 1] == '_')
    ensures Collapsed(t) == t
  {
    if t != "" {
      var n := |t| - 1;
      CanonicalCollapses(t[..n]);
      assert t == t[..n] + [t[n]];
      if n > 0 {
        assert t[..n][n - 1] == t[n - 1];
        assert !(t[n - 1] == '_' && t[n - 1 + 1] == '_');
      }
    }
  }

  // The canonical names are exactly the sanitizer's fixed points; in particular it is
  // idempotent.
  lemma FixedPointIff(t: string)
    ensures Sanitize(t) == t <==> Canonical(t)
  {
    SanitizeIsCanonical(t);
    if Canonical(t) {
      CanonicalCollapses(t);
    }
  }

  lemma SanitizeIdempotent(s: string)
    ensures Sanitize(Sanitize(s)) == Sanitize(s)
  {
    SanitizeIsCanonical(s);
    FixedPointIff(Sanitize(s));
  }

  // `Runs` is splitting at every other character: these two equations determine it.
  lemma {:induction false} RunsOfWord(w: string)
    requires w != "" && forall i :: 0 <= i < |w| ==> IsAlnum(w[i])
    ensures Runs(w) == [ToAsciiLower(w)]
  {
    var t := w[..|w| - 1];
    assert w == t + [w[|w| - 1]];
    RunsPush(t, w[|w| - 1]);
    assert ToAsciiLower(w) == ToAsciiLower(t) + [AsciiLower(w[|w| - 1])];
    if t == "" {
      assert ToAsciiLower(w) == [AsciiLower(w[0])];
      assert Runs("") == [];
    } else {
      RunsOfWord(t);
    }
  }

  lemma {:induction false} RunsSplit(a: string, c: char, b: string)
    requires !IsAlnum(c)
    ensures Runs(a + [c] + b) == Runs(a) + Runs(b)
  {
    if b == "" {
      assert a + [c] + b == a + [c];
      RunsPush(a, c);
      assert Runs(a) + Runs(b) == Runs(a);
    } else {
      var init, d := b[..|b| - 1], b[|b| - 1];
      RunsSplit(a, c, init);
      var t := a + [c] + init;
      assert b == init + [d] && a + [c] + b == t + [d];
      assert t[|t| - 1] == if init == "" then c else init[|init| - 1];
      RunsPush(t, d);
      RunsPush(init, d);
      hide Runs;
      if IsAlnum(d) && EndsInRun(init) {
        ExtendLastOf(Runs(a), Runs(init), AsciiLower(d));
      } else if IsAlnum(d) {
        assert Runs(a) + Runs(init) + [[AsciiLower(d)]] == Runs(a) + (Runs(init) + [[AsciiLower(d)]]);
      }
    }
  }

  predicate EndsInRun(s: string) {
    s != "" && IsAlnum(s[|s| - 1])
  }

  lemma RunsPush(s: string, c: char)
    ensures EndsInRun(s) ==> Runs(s) != []
    ensures var rs := Runs(s);
            Runs(s + [c]) ==
            if !IsAlnum(c) then rs
            else if EndsInRun(s) then rs[..|rs| - 1] + [rs[|rs| - 1] + [AsciiLower(c)]]
            else rs + [[AsciiLower(c)]]
  {
    assert (s + [c])[..|s|] == s;
  }

  lemma ExtendLastOf(x: seq<string>, y: seq<string>, c: char)
    requires y != []
    ensures (x + y)[..|x + y| - 1] + [(x + y)[|x + y| - 1] + [c]] == x + (y[..|y| - 1] + [y[|y| - 1] + [c]])
  {
    assert (x + y)[..|x + y| - 1] == x + y[..|y| - 1];
  }

  // No letter or digit is lost, added or reordered.
  function LowerAlnums(s: string): string {
    if s == "" then ""
    else LowerAlnums(s[..|s| - 1]) + (if IsAlnum(s[|s| - 1]) then [AsciiLower(s[|s| - 1])] else "")
  }

  function Concat(rs: seq<string>): string {
    if rs == [] then "" else Concat(rs[..|rs| - 1]) + rs[|rs| - 1]
  }

  lemma {:induction false} RunsConserveAlnums(s: string)
    ensures Concat(Runs(s)) == LowerAlnums(s)
  {
    if s != "" {
      var t, c := s[..|s| - 1], s[|s| - 1];
      RunsConserveAlnums(t);
      var before := Runs(t);
      if IsAlnum(c) {
        if t != "" && IsAlnum(t[|t| - 1]) {
          var n := |before| - 1;
          assert Runs(s)[..n] == before[..n];
          assert Concat(before[..n]) + (before[n] + [AsciiLower(c)]) ==
              Concat(before[..n]) + before[n] + [AsciiLower(c)];
        } else {
          assert Runs(s)[..|before|] == before;
        }
      }
    }
  }
}
