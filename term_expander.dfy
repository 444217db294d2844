/** The term expander of both CLI revisions: a token `key...` is replaced by
    the expansion of the term file `<key>.txt`, read line by line with the
    `#OR` / `#AND` / `#-` markers switching on operator mode. */
module TermExpander {
  import opened Wrappers
  import opened Text
  import opened Normalise

  // ---------------------------------------------------------------------
  // Lines of a term file: `content.split(/\r?\n/)`.

  /** The index of the first `c` in `s`, or `|s|` when there is none. */
  function IndexOf(s: string, c: char): (i: nat)
    ensures i <= |s|
    ensures i < |s| ==> s[i] == c
    ensures forall k | 0 <= k < i :: s[k] != c
  {
    if s == [] || s[0] == c then 0 else 1 + IndexOf(s[1..], c)
  }

  function DropCarriageReturn(line: string): string {
    if line != [] && line[|line| - 1] == '\r' then line[..|line| - 1] else line
  }

  /** `content.split(/\r?\n/)`: cut at every line feed, and a carriage return
      just before a line feed belongs to the separator. */
  function SplitLines(s: string): (lines: seq<string>)
    ensures |lines| >= 1
    ensures forall k | 0 <= k < |lines| :: '\n' !in lines[k]
    decreases |s|
  {
    var i := IndexOf(s, '\n');
    if i == |s| then [s]
    else [DropCarriageReturn(s[..i])] + SplitLines(s[i + 1..])
  }

  function CountChar(s: string, c: char): nat {
    if s == [] then 0 else (if s[0] == c then 1 else 0) + CountChar(s[1..], c)
  }

  lemma {:induction false} CountCharAppend(a: string, b: string, c: char)
    ensures CountChar(a + b, c) == CountChar(a, c) + CountChar(b, c)
  {
    if a == [] {
      assert a + b == b;
    } else {
      assert (a + b)[1..] == a[1..] + b;
      CountCharAppend(a[1..], b, c);
    }
  }

  lemma {:induction false} CountCharAbsent(s: string, c: char)
    requires forall k | 0 <= k < |s| :: s[k] != c
    ensures CountChar(s, c) == 0
  {
    if s != [] {
      CountCharAbsent(s[1..], c);
    }
  }

  /** A term file has one line more than it has line feeds. */
  lemma {:induction false} SplitLinesCount(s: string)
    ensures |SplitLines(s)| == CountChar(s, '\n') + 1
    decreases |s|
  {
    var i := IndexOf(s, '\n');
    if i == |s| {
      CountCharAbsent(s, '\n');
    } else {
      SplitLinesCount(s[i + 1..]);
      assert s == s[..i] + ([s[i]] + s[i + 1..]);
      CountCharAppend(s[..i], [s[i]] + s[i + 1..], '\n');
      CountCharAppend([s[i]], s[i + 1..], '\n');
      CountCharAbsent(s[..i], '\n');
    }
  }

  /** On text without carriage returns, joining the lines with line feeds
      gives the text back. */
  lemma {:induction false} SplitLinesJoin(s: string)
    requires '\r' !in s
    ensures Join(SplitLines(s), "\n") == s
    decreases |s|
  {
    var i := IndexOf(s, '\n');
    if i < |s| {
      var rest := SplitLines(s[i + 1..]);
      assert '\r' !in s[i + 1..];
      SplitLinesJoin(s[i + 1..]);
      assert DropCarriageReturn(s[..i]) == s[..i] by {
        if i > 0 {
          assert s[..i][i - 1] == s[i - 1];
        }
      }
      assert SplitLines(s) == [s[..i]] + rest;
      assert s == s[..i] + "\n" + s[i + 1..];
    }
  }

  // ---------------------------------------------------------------------
  // Operator markers at the end of a line.

  /** The joiner a marker at the end of a line selects: `#OR` gives "OR ",
      `#AND` gives "AND ", `#-` gives a single space; trailing `\s` after
      the marker is allowed. */
  function MarkerOf(line: string): Option<string> {
    var t := TrimEnd(line);
    if EndsWith(t, "#OR") then Some("OR ")
    else if EndsWith(t, "#AND") then Some("AND ")
    else if EndsWith(t, "#-") then Some(" ")
    else None
  }

  /** `m` occurs at `p` and only `\s` follows it. */
  predicate MarkerAt(line: string, m: string, p: nat) {
    p + |m| <= |line| && line[p..p + |m|] == m && AllSpace(line[p + |m|..])
  }

  lemma {:induction false} TrimEndAt(s: string, k: nat)
    requires k <= |s| && AllSpace(s[k..])
    requires k == 0 || !IsJsSpace(s[k - 1])
    ensures TrimEnd(s) == s[..k]
    decreases |s|
  {
    if |s| > k {
      var init := s[..|s| - 1];
      assert s[|s| - 1] == s[k..][|s| - 1 - k];
      assert init[k..] == s[k..|s| - 1];
      assert AllSpace(init[k..]) by {
        forall i | 0 <= i < |init[k..]| ensures IsJsSpace(init[k..][i]) {
          assert init[k..][i] == s[k..][i];
        }
      }
      TrimEndAt(init, k);
      assert init[..k] == s[..k];
    }
  }

  /** Testing the trimmed line for a suffix is what the regular expression
      `/m\s*$/` does, for a marker `m` that ends in a character other than
      `\s`. */
  lemma MarkerMatchesRegex(line: string, m: string)
    requires m != [] && !IsJsSpace(m[|m| - 1])
    ensures EndsWith(TrimEnd(line), m) <==> exists p: nat :: MarkerAt(line, m, p)
  {
    if EndsWith(TrimEnd(line), m) {
      SuffixIsMarker(line, m);
    }
    if p: nat :| MarkerAt(line, m, p) {
      MarkerIsSuffix(line, m, p);
    }
  }

  lemma SuffixIsMarker(line: string, m: string)
    requires EndsWith(TrimEnd(line), m)
    ensures MarkerAt(line, m, |TrimEnd(line)| - |m|)
  {
    var t := TrimEnd(line);
    var p := |t| - |m|;
    assert t == line[..|t|] && AllSpace(line[|t|..]);
    assert p + |m| == |t|;
    assert line[p..|t|] == t[p..] == m;
  }

  lemma MarkerIsSuffix(line: string, m: string, p: nat)
    requires m != [] && !IsJsSpace(m[|m| - 1])
    requires MarkerAt(line, m, p)
    ensures EndsWith(TrimEnd(line), m)
  {
    var k := p + |m|;
    assert line[k - 1] == line[p..p + |m|][|m| - 1];
    TrimEndAt(line, k);
    var t := TrimEnd(line);
    assert t == line[..k];
    assert t[|t| - |m|..] == line[p..p + |m|];
  }

  // ---------------------------------------------------------------------
  // Comments: `line.replace(/#.+$/g, '')`.

  /** A `#` at `p` starts a match of `/#.+$/`: at least one character follows
      it and no following character is a line terminator (`.` does not match
      one, and `$` is the end of the line). */
  predicate CommentAt(line: string, p: nat) {
    p + 1 < |line| && line[p] == '#' && forall i | p < i < |line| :: !IsLineTerminator(line[i])
  }

  /** The leftmost match at or after `from`. */
  function FindComment(line: string, from: nat): (r: Option<nat>)
    ensures r.Some? ==> from <= r.value && CommentAt(line, r.value)
    ensures forall q | from <= q < (if r.Some? then r.value else |line|) :: !CommentAt(line, q)
    decreases |line| - from
  {
    if from >= |line| then None
    else if CommentAt(line, from) then Some(from)
    else FindComment(line, from + 1)
  }

  /** The leftmost match runs to the end of the line, so the line is cut
      there and no second match is left for the `g` flag to find. */
  function StripComment(line: string): string {
    CutComment(line, 0)
  }

  /** The characters from `from` up to the first match of the comment. */
  function CutComment(line: string, from: nat): string
    requires from <= |line|
    decreases |line| - from
  {
    if from == |line| || CommentAt(line, from) then [] else [line[from]] + CutComment(line, from + 1)
  }

  /** The cut is at the leftmost match, and there is none without one. */
  lemma {:induction false} CutCommentAtMatch(line: string, from: nat)
    requires from <= |line|
    ensures FindComment(line, from).Some? ==> CutComment(line, from) == line[from..FindComment(line, from).value]
    ensures FindComment(line, from).None? ==> CutComment(line, from) == line[from..]
    decreases |line| - from
  {
    if from < |line| && !CommentAt(line, from) {
      CutCommentAtMatch(line, from + 1);
      var r := FindComment(line, from + 1);
      var e := if r.Some? then r.value else |line|;
      assert [line[from]] + line[from + 1..e] == line[from..e];
    }
  }

  /** `StripComment` removes everything from the leftmost match on. */
  lemma StripCommentAtMatch(line: string)
    ensures FindComment(line, 0).Some? ==> StripComment(line) == line[..FindComment(line, 0).value]
    ensures FindComment(line, 0).None? ==> StripComment(line) == line
  {
    CutCommentAtMatch(line, 0);
    assert line[0..] == line;
  }

  /** The term a line contributes: the comment cut off, then sanitised. */
  function LineTerm(line: string): string {
    Sanitise(StripComment(line))
  }

  // ---------------------------------------------------------------------
  // Joining the terms of a file.

  /** The accumulated text matches `/[\w")]\s+$/`: it ends in `\s` preceded
      by a word character, a quote or a closing parenthesis. */
  predicate EndsAfterWord(s: string) {
    var t := TrimEnd(s);
    |t| < |s| && t != [] && (IsWordChar(t[|t| - 1]) || t[|t| - 1] == '"' || t[|t| - 1] == ')')
  }

  /** The term matches `/^\s*\)/`. */
  predicate OpensWithClose(term: string) {
    StartsWith(TrimStart(term), ")")
  }

  /** What the inner loop of `searchBuilder` reads off one line: the joiner
      of its marker, if it has one, and its term. */
  datatype LineInfo = LineInfo(marker: Option<string>, term: string)

  function Scan(line: string): LineInfo {
    LineInfo(MarkerOf(line), LineTerm(line))
  }

  function ScanLines(lines: seq<string>): seq<LineInfo> {
    if lines == [] then [] else ScanLines(lines[..|lines| - 1]) + [Scan(lines[|lines| - 1])]
  }

  /** The three variables of the inner loop of `searchBuilder`. */
  datatype ExpandState = ExpandState(result: string, operator: string, useOperator: bool)

  const Initial := ExpandState("", "", false)

  /** One iteration of the inner loop: a marker sets the operator and turns
      operator mode on; a non-empty term is appended, preceded by the
      operator when the text so far ends after a word and the term does not
      open with `)`, quoted if needed in operator mode, and followed by one
      space. */
  function Step(st: ExpandState, info: LineInfo): ExpandState {
    var operator := if info.marker.Some? then info.marker.value else st.operator;
    var useOperator := st.useOperator || info.marker.Some?;
    if info.term == "" then ExpandState(st.result, operator, useOperator)
    else
      var joiner := if EndsAfterWord(st.result) && !OpensWithClose(info.term) then operator else "";
      var text := if useOperator then QuoteIfNeeded(info.term) else info.term;
      ExpandState(st.result + joiner + text + " ", operator, useOperator)
  }

  /** The inner loop run over the lines of a file. */
  function Expand(infos: seq<LineInfo>): ExpandState {
    if infos == [] then Initial
    else Step(Expand(infos[..|infos| - 1]), infos[|infos| - 1])
  }

  /** The expansion of a term file's text. */
  function ExpandContent(content: string): string {
    Expand(ScanLines(SplitLines(content))).result
  }

  /** The last value present in `xs`, if any. */
  function LastPresent<T>(xs: seq<Option<T>>): Option<T> {
    if xs == [] then None
    else if xs[|xs| - 1].Some? then xs[|xs| - 1]
    else LastPresent(xs[..|xs| - 1])
  }

  /** `LastPresent` is the value of a present entry followed by no other. */
  lemma {:induction false} LastPresentIsLast<T>(xs: seq<Option<T>>)
    ensures LastPresent(xs).Some? <==> exists k | 0 <= k < |xs| :: xs[k].Some?
    ensures LastPresent(xs).Some? ==> exists k | 0 <= k < |xs| ::
      xs[k] == LastPresent(xs) && forall j | k < j < |xs| :: xs[j].None?
  {
    if xs != [] {
      var init := xs[..|xs| - 1];
      LastPresentIsLast(init);
      assert forall k | 0 <= k < |init| :: init[k] == xs[k];
      if xs[|xs| - 1].None? && LastPresent(init).Some? {
        var k :| 0 <= k < |init| && init[k] == LastPresent(init) && forall j | k < j < |init| :: init[j].None?;
        assert xs[k] == LastPresent(xs) && forall j | k < j < |xs| :: xs[j].None?;
      }
    }
  }

  function Markers(infos: seq<LineInfo>): seq<Option<string>> {
    seq(|infos|, k requires 0 <= k < |infos| => infos[k].marker)
  }

  /** Operator mode is on exactly when some line so far carried a marker (so
      it stays on once set), and the operator is the joiner of the last
      marker line, or empty when no line had one. */
  lemma {:induction false} OperatorModePersists(infos: seq<LineInfo>)
    ensures Expand(infos).useOperator <==> LastPresent(Markers(infos)).Some?
    ensures Expand(infos).operator == LastPresent(Markers(infos)).GetOr("")
  {
    if infos != [] {
      var init := infos[..|infos| - 1];
      OperatorModePersists(init);
      assert Markers(infos)[..|infos| - 1] == Markers(init);
    }
  }

  /** The expansion is empty exactly when no line has a term, and otherwise
      ends in the space that follows every appended term. */
  lemma {:induction false} ExpansionShape(infos: seq<LineInfo>)
    ensures Expand(infos).result == "" <==> forall k | 0 <= k < |infos| :: infos[k].term == ""
    ensures Expand(infos).result != "" ==> EndsWith(Expand(infos).result, " ")
  {
    if infos != [] {
      var init := infos[..|infos| - 1];
      ExpansionShape(init);
      assert forall k | 0 <= k < |init| :: init[k] == infos[k];
    }
  }

  /** The text built from the first lines is a prefix of the text built from
      all of them: expansion only ever appends. */
  lemma {:induction false} ExpansionAppends(infos: seq<LineInfo>, n: nat)
    requires n <= |infos|
    ensures StartsWith(Expand(infos).result, Expand(infos[..n]).result)
    decreases |infos| - n
  {
    if n < |infos| {
      var init := infos[..|infos| - 1];
      assert init[..n] == infos[..n];
      ExpansionAppends(init, n);
    } else {
      assert infos[..n] == infos;
    }
  }

  predicate IsWord(w: string) {
    w != [] && forall i | 0 <= i < |w| :: IsWordChar(w[i])
  }

  lemma WordTrims(w: string)
    requires IsWord(w)
    ensures TrimEnd(w) == w && TrimStart(w) == w
  {
    assert IsWordChar(w[|w| - 1]) && IsWordChar(w[0]);
    assert !IsJsSpace(w[|w| - 1]) && !IsJsSpace(w[0]);
  }

  lemma WordLacksHashSuffix(w: string, m: string)
    requires IsWord(w) && m != [] && m[0] == '#'
    ensures !EndsWith(w, m)
  {
    if |w| >= |m| {
      assert w[|w| - |m|..][0] == w[|w| - |m|];
    }
  }

  lemma WordIsSanitised(w: string)
    requires IsWord(w)
    ensures Sanitised(w)
  {
    assert forall i | 0 <= i < |w| :: w[i] != ' ' && w[i] != '\t';
  }

  /** Without a `#` there is no comment to strip. */
  lemma {:induction false} NoHashNoComment(line: string, from: nat)
    requires '#' !in line
    ensures FindComment(line, from) == None
    decreases |line| - from
  {
    if from < |line| {
      assert line[from] != '#';
      NoHashNoComment(line, from + 1);
    }
  }

  lemma WordHasNoMarker(w: string)
    requires IsWord(w)
    ensures MarkerOf(w) == None
  {
    WordTrims(w);
    WordLacksHashSuffix(w, "#OR");
    WordLacksHashSuffix(w, "#AND");
    WordLacksHashSuffix(w, "#-");
  }

  lemma WordHasNoComment(w: string)
    requires IsWord(w)
    ensures StripComment(w) == w
  {
    assert '#' !in w by {
      assert forall i | 0 <= i < |w| :: w[i] != '#';
    }
    NoHashNoComment(w, 0);
    StripCommentAtMatch(w);
  }

  lemma WordSanitisesToItself(w: string)
    requires IsWord(w)
    ensures Sanitise(w) == w
  {
    WordIsSanitised(w);
    SanitiseFixesNormal(w);
  }

  /** A line holding a single word has no marker and is its own term. */
  lemma WordLine(w: string)
    requires IsWord(w)
    ensures Scan(w) == LineInfo(None, w)
  {
    WordHasNoMarker(w);
    WordHasNoComment(w);
    WordSanitisesToItself(w);
  }

  /** A word is joined to what precedes it, and is not quoted. */
  lemma WordJoins(w: string)
    requires IsWord(w)
    ensures !OpensWithClose(w) && QuoteIfNeeded(w) == w
  {
    WordTrims(w);
    assert ' ' !in w by {
      assert forall i | 0 <= i < |w| :: w[i] != ' ';
    }
  }

  lemma {:induction false} FindCommentIs(line: string, from: nat, p: nat)
    requires from <= p && CommentAt(line, p)
    requires forall q | from <= q < p :: line[q] != '#'
    ensures FindComment(line, from) == Some(p)
    decreases p - from
  {
    if from < p {
      FindCommentIs(line, from + 1, p);
    }
  }

  /** A word followed by a space sanitises to the word. */
  lemma WordSpaceSanitises(w: string)
    requires IsWord(w)
    ensures Sanitise(w + " ") == w
  {
    var s := w + " ";
    assert '\t' !in s by {
      assert forall i | 0 <= i < |s| :: s[i] != '\t';
    }
    ReplaceRunsAbsent(s, '\t', ' ');
    assert NoDoubleSpace(s) by {
      assert forall i | 0 <= i < |s| - 1 :: s[i] != ' ';
    }
    ReplaceRunsIdentity(s, ' ');
    assert DropLeading(s, ' ') == s;
    assert s[..|s| - 1] == w;
    assert DropTrailing(w, ' ') == w;
  }

  lemma MarkedLineMarker(w: string)
    requires IsWord(w)
    ensures MarkerOf(w + " #OR") == Some("OR ")
  {
    var l := w + " #OR";
    TrimEndAt(l, |l|);
    assert l[|l| - 3..] == "#OR";
  }

  lemma MarkedLineComment(w: string)
    requires IsWord(w)
    ensures StripComment(w + " #OR") == w + " "
  {
    var l := w + " #OR";
    assert l[..|w| + 1] == w + " ";
    assert CommentAt(l, |w| + 1);
    FindCommentIs(l, 0, |w| + 1);
    StripCommentAtMatch(l);
  }

  /** The line `<w> #OR` selects the operator `OR ` and contributes `w`: the
      marker is also a comment, which is cut off with the space before it
      left to `sanitise`. */
  lemma MarkedLine(w: string)
    requires IsWord(w)
    ensures Scan(w + " #OR") == LineInfo(Some("OR "), w)
  {
    MarkedLineMarker(w);
    MarkedLineComment(w);
    WordSpaceSanitises(w);
  }

  /** A single word is appended as it is, after the operator when the text
      so far ends after a word. */
  lemma StepWord(st: ExpandState, marker: Option<string>, w: string)
    requires IsWord(w)
    ensures var op := if marker.Some? then marker.value else st.operator;
      Step(st, LineInfo(marker, w))
      == ExpandState(st.result + (if EndsAfterWord(st.result) then op else "") + w + " ", op, st.useOperator || marker.Some?)
  {
    WordJoins(w);
  }

  /** Text that ends in a word and a space ends after a word. */
  lemma WordThenSpace(r: string, w: string)
    requires IsWord(w)
    ensures EndsAfterWord(r + w + " ")
  {
    var s := r + w + " ";
    TrimEndAt(s, |s| - 1);
    assert s[|s| - 2] == w[|w| - 1];
  }

  lemma ExpandSnoc(infos: seq<LineInfo>, info: LineInfo)
    ensures Expand(infos + [info]) == Step(Expand(infos), info)
  {
    assert (infos + [info])[..|infos|] == infos;
  }

  lemma ExampleFirst(x: string)
    requires IsWord(x)
    ensures Expand([LineInfo(None, x)]) == ExpandState(x + " ", "", false)
  {
    StepWord(Initial, None, x);
    ExpandSnoc([], LineInfo(None, x));
    assert [] + [LineInfo(None, x)] == [LineInfo(None, x)];
  }

  lemma ExampleSecond(x: string, y: string)
    requires IsWord(x) && IsWord(y)
    ensures Expand([LineInfo(None, x), LineInfo(Some("OR "), y)]) == ExpandState(x + " " + "OR " + y + " ", "OR ", true)
  {
    ExampleFirst(x);
    WordThenSpace("", x);
    assert "" + x + " " == x + " ";
    StepWord(ExpandState(x + " ", "", false), Some("OR "), y);
    ExpandSnoc([LineInfo(None, x)], LineInfo(Some("OR "), y));
    assert [LineInfo(None, x)] + [LineInfo(Some("OR "), y)] == [LineInfo(None, x), LineInfo(Some("OR "), y)];
  }

  lemma ExampleThird(x: string, y: string, z: string)
    requires IsWord(x) && IsWord(y) && IsWord(z)
    ensures Expand([LineInfo(None, x), LineInfo(Some("OR "), y), LineInfo(None, z)])
      == ExpandState(x + " " + "OR " + y + " " + "OR " + z + " ", "OR ", true)
  {
    var i1, i2, i3 := LineInfo(None, x), LineInfo(Some("OR "), y), LineInfo(None, z);
    ExampleSecond(x, y);
    WordThenSpace(x + " " + "OR ", y);
    StepWord(ExpandState(x + " " + "OR " + y + " ", "OR ", true), None, z);
    ExpandSnoc([i1, i2], i3);
    assert [i1, i2] + [i3] == [i1, i2, i3];
  }

  lemma ExampleText(x: string, y: string, z: string)
    ensures x + " " + "OR " + y + " " + "OR " + z + " " == x + " OR " + y + " OR " + z + " "
  {
  }

  /** The lines `x`, `y #OR`, `z` (as `WordLine` and `MarkedLine` read them):
      operator mode starts on the second line and holds for the third, the
      operator joins every pair of terms, and single words are not quoted. */
  lemma OperatorExample(x: string, y: string, z: string)
    requires IsWord(x) && IsWord(y) && IsWord(z)
    ensures Expand([LineInfo(None, x), LineInfo(Some("OR "), y), LineInfo(None, z)]).result
      == x + " OR " + y + " OR " + z + " "
  {
    ExampleThird(x, y, z);
    ExampleText(x, y, z);
  }

  /** A line with no line feed and no trailing carriage return is cut off
      the text before the first line feed unchanged. */
  lemma SplitFirstLine(line: string, rest: string)
    requires '\n' !in line && (line == [] || line[|line| - 1] != '\r')
    ensures SplitLines(line + "\n" + rest) == [line] + SplitLines(rest)
  {
    var s := line + "\n" + rest;
    assert s[|line|] == '\n';
    assert forall k | 0 <= k < |line| :: s[k] == line[k];
    assert IndexOf(s, '\n') == |line|;
    assert s[..|line|] == line;
    assert s[|line| + 1..] == rest;
  }

  lemma ScanSnoc(lines: seq<string>, line: string)
    ensures ScanLines(lines + [line]) == ScanLines(lines) + [Scan(line)]
  {
    var all := lines + [line];
    assert all[|all| - 1] == line;
    assert all[..|all| - 1] == lines;
    assert ScanLines(all) == ScanLines(all[..|all| - 1]) + [Scan(all[|all| - 1])];
  }

  lemma ThreeItems<T>(s: seq<T>, a: T, b: T, c: T)
    requires s == ([a] + [b]) + [c]
    ensures s == [a, b, c]
  {
  }

  /** The same example as the text of a term file: the lines `x`, `y #OR`
      and `z` expand to `x OR y OR z `. */
  lemma OperatorExampleText(x: string, y: string, z: string)
    requires IsWord(x) && IsWord(y) && IsWord(z)
    ensures ExpandContent(x + "\n" + y + " #OR\n" + z) == x + " OR " + y + " OR " + z + " "
  {
    var marked := y + " #OR";
    assert x + "\n" + y + " #OR\n" + z == x + "\n" + (marked + "\n" + z);
    assert '\n' !in x by {
      assert forall i | 0 <= i < |x| :: IsWordChar(x[i]);
    }
    assert '\n' !in marked by {
      assert forall i | 0 <= i < |y| :: IsWordChar(y[i]);
      assert forall i | |y| <= i < |marked| :: marked[i] in " #OR";
    }
    assert x[|x| - 1] != '\r' && marked[|marked| - 1] == 'R';
    SplitFirstLine(x, marked + "\n" + z);
    SplitFirstLine(marked, z);
    WordSplitsToItself(z);
    assert SplitLines(x + "\n" + (marked + "\n" + z)) == ([x] + [marked]) + [z];
    WordLine(x);
    MarkedLine(y);
    WordLine(z);
    SingleLineScan(x);
    ScanSnoc([x], marked);
    ScanSnoc([x] + [marked], z);
    ThreeItems(ScanLines(([x] + [marked]) + [z]), Scan(x), Scan(marked), Scan(z));
    OperatorExample(x, y, z);
  }

  // ---------------------------------------------------------------------
  // References `key...` inside a token.

  /** The end of the run of word characters starting at `p`. */
  function WordEnd(s: string, p: nat): (e: nat)
    requires p <= |s|
    ensures p <= e <= |s|
    ensures forall i | p <= i < e :: IsWordChar(s[i])
    ensures e == |s| || !IsWordChar(s[e])
    decreases |s| - p
  {
    if p < |s| && IsWordChar(s[p]) then WordEnd(s, p + 1) else p
  }

  lemma {:induction false} WordEndAt(s: string, p: nat, e: nat)
    requires p <= e <= |s|
    requires forall i | p <= i < e :: IsWordChar(s[i])
    requires e == |s| || !IsWordChar(s[e])
    ensures WordEnd(s, p) == e
    decreases e - p
  {
    if p < e {
      WordEndAt(s, p + 1, e);
    }
  }

  const Ellipsis: string := "..."

  /** A match of `/(\w+)\.\.\./` starts at `p`. The greedy `\w+` takes the
      whole run of word characters, and giving some back cannot help, since
      a dot is not a word character. */
  predicate ReferenceAt(s: string, p: nat) {
    p < |s| && IsWordChar(s[p]) && StartsWith(s[WordEnd(s, p)..], Ellipsis)
  }

  /** The leftmost match at or after `from`. */
  function FindReference(s: string, from: nat): (r: Option<nat>)
    ensures r.Some? ==> from <= r.value && ReferenceAt(s, r.value)
    ensures forall q | from <= q < (if r.Some? then r.value else |s|) :: !ReferenceAt(s, q)
    decreases |s| - from
  {
    if from >= |s| then None
    else if ReferenceAt(s, from) then Some(from)
    else FindReference(s, from + 1)
  }

  /** The captured key of the match at `p`. */
  function ReferenceKey(s: string, p: nat): (key: string)
    requires ReferenceAt(s, p)
    ensures key != [] && forall i | 0 <= i < |key| :: IsWordChar(key[i])
  {
    s[p..WordEnd(s, p)]
  }

  predicate OccursAt(s: string, pat: string, p: nat) {
    p + |pat| <= |s| && s[p..p + |pat|] == pat
  }

  /** The leftmost occurrence of `pat` at or after `from`. */
  function FindOccurrence(s: string, pat: string, from: nat): (r: Option<nat>)
    ensures r.Some? ==> from <= r.value && OccursAt(s, pat, r.value)
    ensures forall q | from <= q < (if r.Some? then r.value else |s|) :: !OccursAt(s, pat, q)
    decreases |s| - from
  {
    if from + |pat| > |s| then None
    else if OccursAt(s, pat, from) then Some(from)
    else FindOccurrence(s, pat, from + 1)
  }

  /** `s.replace(RegExp(pat), rep)` for a pattern without special
      characters: the first occurrence is replaced. */
  function ReplaceFirst(s: string, pat: string, rep: string): string {
    match FindOccurrence(s, pat, 0)
    case Some(p) => s[..p] + rep + s[p + |pat|..]
    case None => s
  }

  lemma {:induction false} FindOccurrenceIs(s: string, pat: string, from: nat, p: nat)
    requires from <= p && OccursAt(s, pat, p)
    requires forall q | from <= q < p :: !OccursAt(s, pat, q)
    ensures FindOccurrence(s, pat, from) == Some(p)
    decreases p - from
  {
    if from < p {
      FindOccurrenceIs(s, pat, from + 1, p);
    }
  }

  /** Wherever a key made of word characters occurs followed by three dots,
      a reference starts. */
  lemma OccurrenceIsReference(s: string, key: string, q: nat)
    requires key != [] && forall i | 0 <= i < |key| :: IsWordChar(key[i])
    requires OccursAt(s, key + Ellipsis, q)
    ensures ReferenceAt(s, q)
  {
    var e := q + |key|;
    assert s[q..q + |key| + 3] == key + Ellipsis;
    assert forall i | q <= i < e :: s[i] == key[i - q];
    var w := s[q..q + |key| + 3];
    assert w[|key|..] == Ellipsis;
    assert s[e..e + 3] == w[|key|..];
    assert s[e] == '.';
    WordEndAt(s, q, e);
    assert s[e..][..3] == s[e..e + 3];
  }

  /** Re-searching for the captured key followed by three dots finds the
      match itself, so exactly the first `key...` of the token is
      replaced. */
  lemma ReplacesFirstReference(s: string, rep: string)
    requires FindReference(s, 0).Some?
    ensures var p := FindReference(s, 0).value;
      var key := ReferenceKey(s, p);
      ReplaceFirst(s, key + Ellipsis, rep) == s[..p] + rep + s[p + |key| + 3..]
  {
    var p := FindReference(s, 0).value;
    var key := ReferenceKey(s, p);
    var e := WordEnd(s, p);
    assert s[p..p + |key| + 3] == key + Ellipsis by {
      assert s[e..][..3] == Ellipsis;
    }
    forall q | 0 <= q < p ensures !OccursAt(s, key + Ellipsis, q) {
      if OccursAt(s, key + Ellipsis, q) {
        OccurrenceIsReference(s, key, q);
      }
    }
    FindOccurrenceIs(s, key + Ellipsis, 0, p);
  }

  // ---------------------------------------------------------------------
  // Term files and tokens.

  /** The two directories a term file `<key>.txt` is read from, each as a map
      from key to file text: the project's `searchterms/` and the user's
      `~/.config/scopus-cli/searchterms/`. */
  datatype TermFiles = TermFiles(local: map<string, string>, user: map<string, string>)

  /** The text expanded for `key`: the project's file, else the user's file,
      else the key itself. */
  function Resolve(files: TermFiles, key: string): string {
    if key in files.local then files.local[key]
    else if key in files.user then files.user[key]
    else key
  }

  /** A token with a reference has its first `key...` replaced by the
      expansion of the key's file; any other token is quoted if needed. */
  function ExpandToken(token: string, files: TermFiles): string {
    match FindReference(token, 0)
    case Some(p) =>
      var key := ReferenceKey(token, p);
      ReplaceFirst(token, key + Ellipsis, ExpandContent(Resolve(files, key)))
    case None => QuoteIfNeeded(token)
  }

  lemma WordSplitsToItself(w: string)
    requires IsWord(w)
    ensures SplitLines(w) == [w]
  {
    assert IndexOf(w, '\n') == |w|;
  }

  lemma SingleLineScan(l: string)
    ensures ScanLines([l]) == [Scan(l)]
  {
    assert [l][..0] == [];
  }

  lemma SingleWordExpansion(w: string)
    requires IsWord(w)
    ensures Expand([LineInfo(None, w)]).result == w + " "
  {
    assert [LineInfo(None, w)][..0] == [];
    StepWord(Initial, None, w);
  }

  /** A key with no term file in either directory expands to itself followed
      by a space: a missing file is not an error. */
  lemma MissingTermFileIsLiteral(files: TermFiles, key: string)
    requires IsWord(key)
    requires key !in files.local && key !in files.user
    ensures ExpandContent(Resolve(files, key)) == key + " "
  {
    WordSplitsToItself(key);
    SingleLineScan(key);
    WordLine(key);
    SingleWordExpansion(key);
  }

  /** What a token contributes: the expansion spliced in at the first
      reference, or the token quoted if needed. */
  lemma ExpandTokenSpec(token: string, files: TermFiles)
    ensures FindReference(token, 0).None? ==> ExpandToken(token, files) == QuoteIfNeeded(token)
    ensures FindReference(token, 0).Some? ==>
      var p := FindReference(token, 0).value;
      var key := ReferenceKey(token, p);
      ExpandToken(token, files) == token[..p] + ExpandContent(Resolve(files, key)) + token[p + |key| + 3..]
  {
    if FindReference(token, 0).Some? {
      var p := FindReference(token, 0).value;
      ReplacesFirstReference(token, ExpandContent(Resolve(files, ReferenceKey(token, p))));
    }
  }
}
