/** The two string normalisers of the query compiler, `sanitise` and
    `quoteIfNeeded`. Both CLI revisions (src/utils/search.ts and
    src/utils/parser.ts) carry textually identical copies; they are defined
    once here. */
module Normalise {
  import opened Text

  // ---------------------------------------------------------------------
  // sanitise: four regular-expression replacements applied in turn.

  /** The leading run of `c` removed (`s.replace(/^c+/, '')`). */
  function DropLeading(s: string, c: char): (r: string)
    ensures |r| <= |s| && r == s[|s| - |r|..]
    ensures forall i | 0 <= i < |s| - |r| :: s[i] == c
    ensures r == [] || r[0] != c
  {
    if s != [] && s[0] == c then DropLeading(s[1..], c) else s
  }

  /** The trailing run of `c` removed (`s.replace(/c+$/, '')`). */
  function DropTrailing(s: string, c: char): (r: string)
    ensures |r| <= |s| && r == s[..|r|]
    ensures forall i | |r| <= i < |s| :: s[i] == c
    ensures r == [] || r[|r| - 1] != c
  {
    if s != [] && s[|s| - 1] == c then DropTrailing(s[..|s| - 1], c) else s
  }

  /** Every maximal run of `c` replaced by the single character `sub`
      (`s.replace(/c+/g, sub)`). */
  function ReplaceRuns(s: string, c: char, sub: char): (r: string)
    decreases |s|
  {
    if s == [] then []
    else if s[0] == c then [sub] + ReplaceRuns(DropLeading(s, c), c, sub)
    else [s[0]] + ReplaceRuns(s[1..], c, sub)
  }

  /** `sanitise`: tab runs become one space, space runs become one space,
      then leading and trailing spaces go. Only tab and space are touched. */
  function Sanitise(s: string): string {
    var spaced := ReplaceRuns(ReplaceRuns(s, '\t', ' '), ' ', ' ');
    DropTrailing(DropLeading(spaced, ' '), ' ')
  }

  /** No two adjacent spaces. */
  predicate NoDoubleSpace(s: string) {
    forall i | 0 <= i < |s| - 1 :: !(s[i] == ' ' && s[i + 1] == ' ')
  }

  /** No tab, no two adjacent spaces, no space at either end. */
  predicate Sanitised(s: string) {
    && '\t' !in s
    && NoDoubleSpace(s)
    && (s == [] || (s[0] != ' ' && s[|s| - 1] != ' '))
  }

  predicate IsBlank(c: char) {
    c == ' ' || c == '\t'
  }

  /** The characters that are neither space nor tab, in order. */
  function Visible(s: string): string {
    if s == [] then [] else (if IsBlank(s[0]) then [] else [s[0]]) + Visible(s[1..])
  }

  // -- facts about ReplaceRuns --

  lemma {:induction false} ReplaceRunsHead(s: string, c: char, sub: char)
    requires s != []
    ensures ReplaceRuns(s, c, sub) != []
    ensures ReplaceRuns(s, c, sub)[0] == if s[0] == c then sub else s[0]
  {
  }

  /** A character other than `sub` that was absent stays absent. */
  lemma {:induction false} ReplaceRunsKeepsAbsent(s: string, c: char, sub: char, d: char)
    requires d !in s && d != sub
    ensures d !in ReplaceRuns(s, c, sub)
    decreases |s|
  {
    if s != [] {
      if s[0] == c {
        ReplaceRunsKeepsAbsent(DropLeading(s, c), c, sub, d);
      } else {
        ReplaceRunsKeepsAbsent(s[1..], c, sub, d);
      }
    }
  }

  /** After replacing runs of `c`, no `c` is next to another `c`. */
  lemma {:induction false} ReplaceRunsNoPair(s: string, c: char, sub: char)
    
    ensures var r := ReplaceRuns(s, c, sub);
      forall i | 0 <= i < |r| - 1 :: !(r[i] == c && r[i + 1] == c)
    decreases |s|
  {
    var r := ReplaceRuns(s, c, sub);
    if s != [] {
      if s[0] == c {
        var rest := DropLeading(s, c);
        ReplaceRunsNoPair(rest, c, sub);
        if rest != [] {
          ReplaceRunsHead(rest, c, sub);
        }
        assert r == [sub] + ReplaceRuns(rest, c, sub);
      } else {
        ReplaceRunsNoPair(s[1..], c, sub);
        assert r == [s[0]] + ReplaceRuns(s[1..], c, sub);
      }
    }
  }

  /** Without a pair of adjacent `c`, replacing runs of `c` by `c` changes nothing. */
  lemma {:induction false} ReplaceRunsIdentity(s: string, c: char)
    requires forall i | 0 <= i < |s| - 1 :: !(s[i] == c && s[i + 1] == c)
    ensures ReplaceRuns(s, c, c) == s
    decreases |s|
  {
    if s != [] {
      if s[0] == c {
        assert DropLeading(s, c) == s[1..] by {
          if |s| > 1 {
            assert s[1] != c;
            assert DropLeading(s[1..], c) == s[1..];
          }
        }
      }
      ReplaceRunsIdentity(s[1..], c);
    }
  }

  /** Without any `c`, replacing runs of `c` changes nothing. */
  lemma {:induction false} ReplaceRunsAbsent(s: string, c: char, sub: char)
    requires c !in s
    ensures ReplaceRuns(s, c, sub) == s
  {
    if s != [] {
      ReplaceRunsAbsent(s[1..], c, sub);
    }
  }

  /** Replacing a run of blanks by a blank keeps the visible characters. */
  lemma {:induction false} ReplaceRunsVisible(s: string, c: char, sub: char)
    requires IsBlank(c) && IsBlank(sub)
    ensures Visible(ReplaceRuns(s, c, sub)) == Visible(s)
    decreases |s|
  {
    if s != [] {
      if s[0] == c {
        var rest := DropLeading(s, c);
        ReplaceRunsVisible(rest, c, sub);
        VisibleAppend([sub], ReplaceRuns(rest, c, sub));
        DropLeadingVisible(s, c);
      } else {
        ReplaceRunsVisible(s[1..], c, sub);
        VisibleAppend([s[0]], ReplaceRuns(s[1..], c, sub));
        VisibleAppend([s[0]], s[1..]);
        assert s == [s[0]] + s[1..];
      }
    }
  }

  lemma {:induction false} VisibleAppend(a: string, b: string)
    ensures Visible(a + b) == Visible(a) + Visible(b)
  {
    if a == [] {
      assert a + b == b;
    } else {
      assert (a + b)[1..] == a[1..] + b;
      VisibleAppend(a[1..], b);
    }
  }

  lemma {:induction false} DropLeadingVisible(s: string, c: char)
    requires IsBlank(c)
    ensures Visible(DropLeading(s, c)) == Visible(s)
  {
    if s != [] && s[0] == c {
      DropLeadingVisible(s[1..], c);
    }
  }

  lemma {:induction false} DropTrailingVisible(s: string, c: char)
    requires IsBlank(c)
    ensures Visible(DropTrailing(s, c)) == Visible(s)
  {
    if s != [] && s[|s| - 1] == c {
      var init := s[..|s| - 1];
      DropTrailingVisible(init, c);
      assert s == init + [c];
      VisibleAppend(init, [c]);
    }
  }

  // -- the properties of sanitise --

  /** The output of `sanitise` has no tab, no double space and no space at
      either end. */
  lemma SanitiseNormalises(s: string)
    ensures Sanitised(Sanitise(s))
  {
    var t := ReplaceRuns(s, '\t', ' ');
    var u := ReplaceRuns(t, ' ', ' ');
    NoTabAfterTabPass(s);
    ReplaceRunsKeepsAbsent(t, ' ', ' ', '\t');
    ReplaceRunsNoPair(t, ' ', ' ');
    TrimSpacesSanitised(u);
  }

  /** Cutting the spaces at both ends of a text without tabs or double
      spaces leaves a sanitised text. */
  lemma TrimSpacesSanitised(u: string)
    requires '\t' !in u && NoDoubleSpace(u)
    ensures Sanitised(DropTrailing(DropLeading(u, ' '), ' '))
  {
    var l := DropLeading(u, ' ');
    var r := DropTrailing(l, ' ');
    var a := |u| - |l|;
    assert forall i | 0 <= i < |r| :: r[i] == u[a + i];
    assert NoDoubleSpace(r) by {
      forall i | 0 <= i < |r| - 1 ensures !(r[i] == ' ' && r[i + 1] == ' ') {
        assert r[i] == u[a + i] && r[i + 1] == u[a + i + 1];
      }
    }
    assert r != [] ==> r[0] == l[0];
  }

  /** `sanitise` keeps every character other than space and tab, in order. */
  lemma SanitiseKeepsVisible(s: string)
    ensures Visible(Sanitise(s)) == Visible(s)
  {
    var t := ReplaceRuns(s, '\t', ' ');
    var u := ReplaceRuns(t, ' ', ' ');
    ReplaceRunsVisible(s, '\t', ' ');
    ReplaceRunsVisible(t, ' ', ' ');
    DropLeadingVisible(u, ' ');
    DropTrailingVisible(DropLeading(u, ' '), ' ');
  }

  lemma {:induction false} NoTabAfterTabPass(s: string)
    ensures '\t' !in ReplaceRuns(s, '\t', ' ')
    decreases |s|
  {
    if s != [] {
      if s[0] == '\t' {
        NoTabAfterTabPass(DropLeading(s, '\t'));
      } else {
        NoTabAfterTabPass(s[1..]);
      }
    }
  }

  /** A string that is already sanitised is left unchanged. */
  lemma SanitiseFixesNormal(s: string)
    requires Sanitised(s)
    ensures Sanitise(s) == s
  {
    ReplaceRunsAbsent(s, '\t', ' ');
    ReplaceRunsIdentity(s, ' ');
  }

  /** `sanitise` is idempotent. */
  lemma SanitiseIdempotent(s: string)
    ensures Sanitise(Sanitise(s)) == Sanitise(s)
  {
    SanitiseNormalises(s);
    SanitiseFixesNormal(Sanitise(s));
  }

  /** `sanitise` yields the empty string exactly when its input holds
      nothing but spaces and tabs. */
  lemma SanitiseEmpty(s: string)
    ensures Sanitise(s) == [] <==> Visible(s) == []
  {
    SanitiseNormalises(s);
    SanitiseKeepsVisible(s);
    var r := Sanitise(s);
    if r != [] {
      // a sanitised non-empty string starts with a visible character
      assert Visible(r) == [r[0]] + Visible(r[1..]);
    }
  }

  // ---------------------------------------------------------------------
  // quoteIfNeeded

  /** `t` matches `/^".*"$/`: a quote at each end and no line terminator
      between them (`.` does not match one). */
  predicate FullyQuoted(t: string) {
    && |t| >= 2 && t[0] == '"' && t[|t| - 1] == '"'
    && forall i | 1 <= i < |t| - 1 :: !IsLineTerminator(t[i])
  }

  /** `quoteIfNeeded`: wrap in double quotes a term that contains a space
      and is not already fully quoted. */
  function QuoteIfNeeded(t: string): (r: string)
    ensures r == t || r == "\"" + t + "\""
  {
    if ' ' in t && !FullyQuoted(t) then "\"" + t + "\"" else t
  }

  /** The term is wrapped exactly when it contains a space and does not
      already match `^".*"$`; a wrapped term then contains a space inside
      its quotes. */
  lemma QuoteIfNeededExactly(t: string)
    ensures QuoteIfNeeded(t) != t <==> (' ' in t && !FullyQuoted(t))
    ensures QuoteIfNeeded(t) != t ==> QuoteIfNeeded(t)[1..|QuoteIfNeeded(t)| - 1] == t
  {
  }

  /** Quoting a term without line terminators is idempotent: the quoted
      form is fully quoted, and a fully quoted term is left alone. */
  lemma QuoteIfNeededIdempotent(t: string)
    requires forall i | 0 <= i < |t| :: !IsLineTerminator(t[i])
    ensures QuoteIfNeeded(QuoteIfNeeded(t)) == QuoteIfNeeded(t)
  {
    var q := QuoteIfNeeded(t);
    if q != t {
      assert q == "\"" + t + "\"";
      assert forall i | 1 <= i < |q| - 1 :: q[i] == t[i - 1];
      assert FullyQuoted(q);
    }
  }

  /** With a line terminator inside, the quoted form does not match
      `^".*"$`, so a second application quotes again. */
  lemma QuoteIfNeededNotIdempotentAcrossLines()
    ensures QuoteIfNeeded(QuoteIfNeeded("a b\rc")) == "\"\"a b\rc\"\""
  {
    var q := QuoteIfNeeded("a b\rc");
    assert "a b\rc"[1] == ' ';
    assert q == "\"a b\rc\"";
    assert q[4] == '\r';
    assert !FullyQuoted(q);
    assert q[2] == ' ';
  }
}
