/** The query compiler of the command-line search (src/utils/search.ts):
    `searchBuilder` turns the tokens of a search into one Scopus query,
    expanding `key...` references from term files; `buildQuery` wraps it in
    the field scope; and the `search` command derives its date, sort and
    autosave options. */
module QueryCompiler {
  import opened Wrappers
  import opened Text
  import opened Normalise
  import opened TermExpander
  import RequestParams

  // ---------------------------------------------------------------------
  // searchBuilder

  /** What each token contributes, in order. */
  function Expansions(tokens: seq<string>, files: TermFiles): (pieces: seq<string>)
    ensures |pieces| == |tokens|
  {
    if tokens == [] then []
    else Expansions(tokens[..|tokens| - 1], files) + [ExpandToken(tokens[|tokens| - 1], files)]
  }

  /** The text the token loop accumulates: each piece preceded by one
      space. */
  function Spaced(pieces: seq<string>): string {
    if pieces == [] then ""
    else Spaced(pieces[..|pieces| - 1]) + " " + pieces[|pieces| - 1]
  }

  /** `[` and `]` written for `(` and `)`. */
  function AliasBrackets(s: string): (r: string)
    ensures |r| == |s|
    ensures forall i | 0 <= i < |s| :: r[i] == if s[i] == '[' then '(' else if s[i] == ']' then ')' else s[i]
    ensures '[' !in r && ']' !in r
  {
    ReplaceChar(ReplaceChar(s, '[', '('), ']', ')')
  }

  /** What `searchBuilder` returns for the tokens. */
  function Compile(tokens: seq<string>, files: TermFiles): string {
    AliasBrackets(Spaced(Expansions(tokens, files)))
  }

  /** The inner loop of `searchBuilder` over the lines of one term file. */
  method ExpandTermFile(content: string) returns (result: string)
    ensures result == ExpandContent(content)
  {
    var lines := SplitLines(content);
    result := "";
    var operator := "";
    var useOperator := false;
    var j := 0;
    while j < |lines|
      invariant 0 <= j <= |lines|
      invariant ExpandState(result, operator, useOperator) == Expand(ScanLines(lines[..j]))
    {
      ExpandLinesSnoc(lines, j);
      result, operator, useOperator := ExpandLine(result, operator, useOperator, lines[j]);
      j := j + 1;
    }
    assert lines[..j] == lines;
  }

  /** One pass of the inner loop: the line's marker, then its term. */
  method ExpandLine(result: string, operator: string, useOperator: bool, line: string)
    returns (result': string, operator': string, useOperator': bool)
    ensures ExpandState(result', operator', useOperator') == Step(ExpandState(result, operator, useOperator), Scan(line))
  {
    result', operator', useOperator' := result, operator, useOperator;
    var marker := MarkerOf(line);
    if marker.Some? {
      operator' := marker.value;
      useOperator' := true;
    }
    var term := LineTerm(line);
    if term != "" {
      var joiner := if EndsAfterWord(result) && !OpensWithClose(term) then operator' else "";
      result' := result + joiner + (if useOperator' then QuoteIfNeeded(term) else term) + " ";
    }
  }

  lemma ExpandLinesSnoc(lines: seq<string>, j: nat)
    requires j < |lines|
    ensures Expand(ScanLines(lines[..j + 1])) == Step(Expand(ScanLines(lines[..j])), Scan(lines[j]))
  {
    assert lines[..j + 1][..j] == lines[..j];
    ExpandSnoc(ScanLines(lines[..j]), Scan(lines[j]));
  }

  /** `searchBuilder`: every token is expanded (a reference) or quoted if
      needed (anything else) and appended after a space; then the brackets
      are aliased. */
  method SearchBuilder(query: seq<string>, files: TermFiles) returns (searchQuery: string)
    ensures searchQuery == Compile(query, files)
  {
    searchQuery := "";
    var i := 0;
    while i < |query|
      invariant 0 <= i <= |query|
      invariant searchQuery == Spaced(Expansions(query[..i], files))
    {
      var token := query[i];
      var reference := FindReference(token, 0);
      var text;
      if reference.Some? {
        var key := ReferenceKey(token, reference.value);
        var result := ExpandTermFile(Resolve(files, key));
        text := ReplaceFirst(token, key + Ellipsis, result);
      } else {
        text := QuoteIfNeeded(token);
      }
      searchQuery := searchQuery + " " + text;
      TokenSnoc(query, i, files);
      i := i + 1;
    }
    assert query[..i] == query;
    searchQuery := ReplaceChar(searchQuery, '[', '(');
    searchQuery := ReplaceChar(searchQuery, ']', ')');
  }

  lemma TokenSnoc(query: seq<string>, i: nat, files: TermFiles)
    requires i < |query|
    ensures Spaced(Expansions(query[..i + 1], files))
      == Spaced(Expansions(query[..i], files)) + " " + ExpandToken(query[i], files)
  {
    assert query[..i + 1][..i] == query[..i];
    var pieces := Expansions(query[..i + 1], files);
    assert pieces[..i] == Expansions(query[..i], files);
  }

  lemma {:induction false} SpacedAppend(a: seq<string>, b: seq<string>)
    ensures Spaced(a + b) == Spaced(a) + Spaced(b)
    decreases |b|
  {
    if b == [] {
      assert a + b == a;
    } else {
      var init := b[..|b| - 1];
      assert (a + b)[..|a + b| - 1] == a + init;
      SpacedAppend(a, init);
    }
  }

  lemma {:induction false} ExpansionsAppend(a: seq<string>, b: seq<string>, files: TermFiles)
    ensures Expansions(a + b, files) == Expansions(a, files) + Expansions(b, files)
    decreases |b|
  {
    if b == [] {
      assert a + b == a;
    } else {
      var init := b[..|b| - 1];
      assert (a + b)[..|a + b| - 1] == a + init;
      ExpansionsAppend(a, init, files);
    }
  }

  /** The tokens contribute independently and in order: the text for two
      runs of tokens is the text of the first followed by that of the
      second, and one token gives a space and its expansion. */
  lemma TokensContributeInOrder(a: seq<string>, b: seq<string>, t: string, files: TermFiles)
    ensures Spaced(Expansions(a + b, files)) == Spaced(Expansions(a, files)) + Spaced(Expansions(b, files))
    ensures Spaced(Expansions([t], files)) == " " + ExpandToken(t, files)
  {
    ExpansionsAppend(a, b, files);
    SpacedAppend(Expansions(a, files), Expansions(b, files));
    SingleExpansion(t, files);
  }

  lemma SingleExpansion(t: string, files: TermFiles)
    ensures Spaced(Expansions([t], files)) == " " + ExpandToken(t, files)
  {
    assert [t][..0] == [];
    var pieces := Expansions([t], files);
    assert pieces == [ExpandToken(t, files)];
    assert pieces[..0] == [];
  }

  lemma {:induction false} SpacedJoin(pieces: seq<string>)
    requires pieces != []
    ensures Spaced(pieces) == " " + Join(pieces, " ")
  {
    var n := |pieces|;
    if n == 1 {
      assert pieces[..0] == [];
    } else {
      var init := pieces[..n - 1];
      SpacedJoin(init);
      assert pieces == init + [pieces[n - 1]];
      JoinSnoc(init, pieces[n - 1], " ");
    }
  }

  /** Tokens without references and without spaces are passed through,
      separated by single spaces, after a leading space. */
  lemma PlainTokens(tokens: seq<string>, files: TermFiles)
    requires tokens != []
    requires forall k | 0 <= k < |tokens| :: FindReference(tokens[k], 0).None? && ' ' !in tokens[k]
    ensures Spaced(Expansions(tokens, files)) == " " + Join(tokens, " ")
  {
    PlainExpansions(tokens, files);
    SpacedJoin(tokens);
  }

  lemma {:induction false} PlainExpansions(tokens: seq<string>, files: TermFiles)
    requires forall k | 0 <= k < |tokens| :: FindReference(tokens[k], 0).None? && ' ' !in tokens[k]
    ensures Expansions(tokens, files) == tokens
  {
    if tokens != [] {
      var n := |tokens|;
      PlainExpansions(tokens[..n - 1], files);
      QuoteIfNeededExactly(tokens[n - 1]);
      assert tokens[..n - 1] + [tokens[n - 1]] == tokens;
    }
  }

  /** A reference that opens a token is found at its start, keyed by the
      word before the dots. */
  lemma ReferenceAtStart(key: string, rest: string)
    requires IsWord(key)
    ensures FindReference(key + Ellipsis + rest, 0) == Some(0)
    ensures ReferenceKey(key + Ellipsis + rest, 0) == key
  {
    var s := key + Ellipsis + rest;
    var e := |key|;
    assert forall i | 0 <= i < e :: s[i] == key[i];
    assert s[e] == '.';
    WordEndAt(s, 0, e);
    assert s[e..][..3] == Ellipsis;
    assert s[..e] == key;
  }

  /** A token `key...` whose term file is in neither directory expands to
      the key and a space. */
  lemma MissingReferenceExpands(key: string, files: TermFiles)
    requires IsWord(key)
    requires key !in files.local && key !in files.user
    ensures ExpandToken(key + Ellipsis, files) == key + " "
  {
    var s := key + Ellipsis;
    assert s == key + Ellipsis + "";
    ReferenceAtStart(key, "");
    ExpandTokenSpec(s, files);
    MissingTermFileIsLiteral(files, key);
    SpliceWhole(s, key + " ");
  }

  lemma SpliceWhole(s: string, rep: string)
    ensures s[..0] + rep + s[|s|..] == rep
  {
  }

  /** Such a token compiles to the key itself between spaces. */
  lemma MissingReferenceCompiles(key: string, files: TermFiles)
    requires IsWord(key)
    requires key !in files.local && key !in files.user
    ensures Compile([key + Ellipsis], files) == " " + key + " "
  {
    MissingReferenceExpands(key, files);
    SingleExpansion(key + Ellipsis, files);
    WordHasNoBrackets(key);
  }

  lemma WordHasNoBrackets(key: string)
    requires IsWord(key)
    ensures AliasBrackets(" " + key + " ") == " " + key + " "
  {
    var q := " " + key + " ";
    assert forall i | 0 <= i < |q| :: q[i] != '[' && q[i] != ']';
  }

  // ---------------------------------------------------------------------
  // buildQuery

  /** The field list asks for a scope by its name, its abbreviation, or
      `all`. */
  predicate Selects(fields: seq<string>, name: string, abbreviation: string) {
    name in fields || abbreviation in fields || "all" in fields
  }

  /** The scope labels pushed for the fields, in the fixed order title,
      abstract, keywords. */
  function ScopeLabels(fields: seq<string>): seq<string> {
    (if Selects(fields, "title", "ti") then ["TITLE"] else [])
    + (if Selects(fields, "abstract", "ab") then ["ABS"] else [])
    + (if Selects(fields, "keywords", "ke") then ["KEY"] else [])
  }

  function LabelRank(scope: string): nat {
    if scope == "TITLE" then 0 else if scope == "ABS" then 1 else 2
  }

  /** Each label is present exactly when its scope is selected, labels
      appear in the fixed order without repetition, and `all` selects all
      three. */
  lemma ScopeLabelsSelected(fields: seq<string>)
    ensures "TITLE" in ScopeLabels(fields) <==> Selects(fields, "title", "ti")
    ensures "ABS" in ScopeLabels(fields) <==> Selects(fields, "abstract", "ab")
    ensures "KEY" in ScopeLabels(fields) <==> Selects(fields, "keywords", "ke")
    ensures forall i, j | 0 <= i < j < |ScopeLabels(fields)| ::
      LabelRank(ScopeLabels(fields)[i]) < LabelRank(ScopeLabels(fields)[j])
    ensures "all" in fields ==> ScopeLabels(fields) == ["TITLE", "ABS", "KEY"]
  {
  }

  /** The query's trimmed text starts with `(` and ends with `)`. */
  predicate Parenthesised(q: string) {
    var t := Trim(q);
    StartsWith(t, "(") && EndsWith(t, ")")
  }

  /** The scope label put before the query, with parentheses added unless
      the query already looks parenthesised. */
  function Scoped(scope: string, q: string): string {
    if Parenthesised(q) then scope + q else scope + "(" + q + ")"
  }

  /** `buildQuery`: compile the tokens, collect the labels, and scope the
      query. */
  method BuildQuery(query: seq<string>, fields: seq<string>, files: TermFiles) returns (searchQuery: string)
    ensures searchQuery == Scoped(Join(ScopeLabels(fields), "-"), Compile(query, files))
  {
    searchQuery := SearchBuilder(query, files);
    var searchFields: seq<string> := [];
    if Selects(fields, "title", "ti") {
      searchFields := searchFields + ["TITLE"];
    }
    if Selects(fields, "abstract", "ab") {
      searchFields := searchFields + ["ABS"];
    }
    if Selects(fields, "keywords", "ke") {
      searchFields := searchFields + ["KEY"];
    }
    assert searchFields == ScopeLabels(fields);
    var scope := Join(searchFields, "-");
    if Parenthesised(searchQuery) {
      searchQuery := scope + searchQuery;
    } else {
      searchQuery := scope + "(" + searchQuery + ")";
    }
  }

  /** The label always comes first; the query is kept as it is exactly when
      it looks parenthesised, and is otherwise wrapped, so that the part
      after the label always looks parenthesised. */
  lemma ScopedShape(scope: string, q: string)
    ensures StartsWith(Scoped(scope, q), scope)
    ensures Scoped(scope, q) == scope + q <==> Parenthesised(q)
    ensures Parenthesised(Scoped(scope, q)[|scope|..])
  {
    var r := Scoped(scope, q);
    assert r[..|scope|] == scope;
    if !Parenthesised(q) {
      var w := "(" + q + ")";
      assert r[|scope|..] == w;
      WrappedIsParenthesised(q);
    } else {
      assert r[|scope|..] == q;
    }
  }

  lemma WrappedIsParenthesised(q: string)
    ensures Parenthesised("(" + q + ")")
  {
    var w := "(" + q + ")";
    assert w[0] == '(' && w[|w| - 1] == ')';
    TrimEndKeeps(w);
    TrimStartKeeps(w);
  }

  /** Only the two ends are looked at: `(a) OR (b)` counts as parenthesised
      although its parentheses do not enclose the whole query. */
  lemma ParenthesesCheckedAtEndsOnly(a: string, b: string)
    ensures Parenthesised(" (" + a + ") OR (" + b + ")")
  {
    var q := " (" + a + ") OR (" + b + ")";
    assert q[0] == ' ' && q[1] == '(' && q[|q| - 1] == ')';
    SpacedParentheses(q);
  }

  /** One space, then text from `(` to `)`. */
  lemma SpacedParentheses(q: string)
    requires |q| >= 3 && q[0] == ' ' && q[1] == '(' && q[|q| - 1] == ')'
    ensures Parenthesised(q)
  {
    var t := q[1..];
    assert t[0] == '(' && t[|t| - 1] == ')';
    TrimEndKeeps(q);
    TrimStartSpace(q);
    TrimStartKeeps(t);
    assert Trim(q) == t;
  }

  // ---------------------------------------------------------------------
  // Options of the `search` command.

  predicate IsYear(y: string) {
    |y| == 4 && AllDigits(y)
  }

  /** `YYYY-` (matching `^\d{4}-$`) becomes `YYYY-` followed by the year
      plus 1000. */
  function OpenEndedRange(date: string): string {
    if |date| == 5 && IsYear(date[..4]) && date[4] == '-' then
      date[..4] + "-" + NatToString(DecimalValue(date[..4]) + 1000)
    else date
  }

  /** `-YYYY` (matching `^-\d{4}$`) becomes the year minus 1000, `-` and the
      year. */
  function OpenStartedRange(date: string): string {
    if |date| == 5 && date[0] == '-' && IsYear(date[1..]) then
      IntToString(DecimalValue(date[1..]) - 1000) + "-" + date[1..]
    else date
  }

  /** The request's date: absent unless the argument is a non-empty string,
      which then goes through both rewrites in turn. */
  function DateShorthand(date: Option<string>): Option<string> {
    if RequestParams.Truthy(date) then Some(OpenStartedRange(OpenEndedRange(date.value))) else None
  }

  /** `YYYY-` spans the thousand years from `YYYY`. */
  lemma DateOpenEnd(y: string)
    requires IsYear(y)
    ensures DateShorthand(Some(y + "-")) == Some(y + "-" + NatToString(DecimalValue(y) + 1000))
    ensures DecimalValue(NatToString(DecimalValue(y) + 1000)) == DecimalValue(y) + 1000
  {
    var d := y + "-";
    assert d[..4] == y;
    var r := y + "-" + NatToString(DecimalValue(y) + 1000);
    assert r[0] == y[0];
    NatToStringRoundTrip(DecimalValue(y) + 1000);
  }

  /** `-YYYY` spans the thousand years up to `YYYY`. */
  lemma DateOpenStart(y: string)
    requires IsYear(y)
    ensures DateShorthand(Some("-" + y)) == Some(IntToString(DecimalValue(y) - 1000) + "-" + y)
  {
    var d := "-" + y;
    assert d[4] == y[3] && IsDigit(y[3]);
    assert OpenEndedRange(d) == d;
    assert d[0] == '-' && d[1..] == y;
    assert OpenStartedRange(d) == IntToString(DecimalValue(y) - 1000) + "-" + y;
  }

  /** Any other date is passed on unchanged, and an empty one is dropped. */
  lemma DateOther(date: string)
    requires !(|date| == 5 && IsYear(date[..4]) && date[4] == '-')
    requires !(|date| == 5 && date[0] == '-' && IsYear(date[1..]))
    ensures date != "" ==> DateShorthand(Some(date)) == Some(date)
    ensures date == "" ==> DateShorthand(Some(date)) == None
  {
  }

  /** The request's sort: `relevance` sorts by `relevancy`, `date` by
      `pubyear`, with the given order; anything else sets no sort. */
  function SortMapping(sortBy: Option<string>, sortOrder: Option<string>): Option<RequestParams.Sorting> {
    if !RequestParams.Truthy(sortBy) then None
    else if sortBy.value == "relevance" then Some(RequestParams.Sorting("relevancy", sortOrder))
    else if sortBy.value == "date" then Some(RequestParams.Sorting("pubyear", sortOrder))
    else None
  }

  /** A sort is set exactly for the two known keys and keeps the order; the
      newest-first date sort reaches the API as `-pubyear`. */
  lemma SortMappingSpec(sortBy: Option<string>, sortOrder: Option<string>)
    ensures SortMapping(sortBy, sortOrder).Some? <==> sortBy == Some("relevance") || sortBy == Some("date")
    ensures SortMapping(sortBy, sortOrder).Some? ==> SortMapping(sortBy, sortOrder).value.order == sortOrder
    ensures sortBy == Some("date") && sortOrder == Some("desc") ==>
      RequestParams.ParseSort(Some(RequestParams.One(SortMapping(sortBy, sortOrder).value))) == "-pubyear"
  {
  }

  /** `s.split('  ').join(' ')`: each pair of spaces, taken from the left
      without overlap, becomes one space. */
  function CollapsePairs(s: string): (r: string)
    ensures |r| <= |s|
  {
    if |s| >= 2 && s[0] == ' ' && s[1] == ' ' then [' '] + CollapsePairs(s[2..])
    else if s == [] then []
    else [s[0]] + CollapsePairs(s[1..])
  }

  /** The autosave file name: the trimmed query with space pairs collapsed,
      after the timestamp and a dash when one is given. */
  function AutosaveName(query: string, stamp: Option<string>): string {
    var filename := CollapsePairs(Trim(query));
    if stamp.Some? then stamp.value + "-" + filename else filename
  }

  /** Collapsing removes only spaces. */
  lemma {:induction false} CollapsePairsVisible(s: string)
    ensures Without(CollapsePairs(s), ' ') == Without(s, ' ')
  {
    if |s| >= 2 && s[0] == ' ' && s[1] == ' ' {
      CollapsePairsVisible(s[2..]);
      WithoutAppend([' '], CollapsePairs(s[2..]), ' ');
      assert s == [' ', ' '] + s[2..];
      WithoutAppend([' ', ' '], s[2..], ' ');
    } else if s != [] {
      CollapsePairsVisible(s[1..]);
      WithoutAppend([s[0]], CollapsePairs(s[1..]), ' ');
      assert s == [s[0]] + s[1..];
      WithoutAppend([s[0]], s[1..], ' ');
    }
  }

  /** Text without two adjacent spaces is left as it is. */
  lemma {:induction false} CollapsePairsNormal(s: string)
    requires NoDoubleSpace(s)
    ensures CollapsePairs(s) == s
  {
    if s != [] {
      assert NoDoubleSpace(s[1..]) by {
        forall i | 0 <= i < |s[1..]| - 1 ensures !(s[1..][i] == ' ' && s[1..][i + 1] == ' ') {
          assert s[1..][i] == s[i + 1] && s[1..][i + 1] == s[i + 2];
        }
      }
      CollapsePairsNormal(s[1..]);
    }
  }

  /** Three spaces become two, not one: the name is not fully normalised,
      and collapsing again changes it further. */
  lemma CollapsePairsThreeSpaces()
    ensures CollapsePairs("a   b") == "a  b"
    ensures CollapsePairs(CollapsePairs("a   b")) == "a b"
  {
    assert CollapsePairs("b") == "b";
    assert CollapsePairs(" b") == " b";
    assert CollapsePairs("  b") == " b";
    assert CollapsePairs("   b") == "  b";
  }

  /** With a timestamp the name is the stamp, a dash and the name it would
      have without one. */
  lemma AutosaveNameStamped(query: string, stamp: string)
    ensures AutosaveName(query, Some(stamp)) == stamp + "-" + AutosaveName(query, None)
    ensures Without(AutosaveName(query, None), ' ') == Without(Trim(query), ' ')
  {
    CollapsePairsVisible(Trim(query));
  }
}
