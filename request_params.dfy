/** The parameter serialisers and guards of the SDK (src/sdk/utils/search.ts):
    how a search request's fields become query-string values, which option
    combinations are refused, the chunk-file number format, the URL length
    guard and the query encoding. */
module RequestParams {
  import opened Wrappers
  import opened Text

  /** The API key tier. */
  datatype KeyType = Developer | Institutional

  /** A request field that takes either one value or an array of them. */
  datatype OneOrMany<T> = One(item: T) | Many(items: seq<T>)

  /** JavaScript truthiness of an optional string and an optional number:
      `undefined`, `''` and `0` are falsy. */
  predicate Truthy(s: Option<string>) {
    s.Some? && s.value != ""
  }

  predicate TruthyNumber(n: Option<int>) {
    n.Some? && n.value != 0
  }

  // ---------------------------------------------------------------------
  // `s.split(c)` and its inverse.

  /** `s.split(c)` for a one-character separator. */
  function SplitOn(s: string, c: char): (parts: seq<string>)
    ensures |parts| >= 1
  {
    if s == [] then [""]
    else
      var rest := SplitOn(s[1..], c);
      if s[0] == c then [""] + rest else [[s[0]] + rest[0]] + rest[1..]
  }

  lemma JoinCons(x: string, rest: seq<string>, sep: string)
    requires rest != []
    ensures Join([x] + rest, sep) == x + sep + Join(rest, sep)
  {
    assert ([x] + rest)[1..] == rest;
  }

  lemma JoinHead(a: string, y: string, zs: seq<string>, sep: string)
    ensures Join([a + y] + zs, sep) == a + Join([y] + zs, sep)
  {
    if zs != [] {
      JoinCons(a + y, zs, sep);
      JoinCons(y, zs, sep);
    }
  }

  /** Splitting on a character and joining with another replaces the one
      by the other. */
  lemma {:induction false} SplitJoinReplaces(s: string, c: char, d: char)
    ensures Join(SplitOn(s, c), [d]) == ReplaceChar(s, c, d)
  {
    if s != [] {
      var rest := SplitOn(s[1..], c);
      SplitJoinReplaces(s[1..], c, d);
      assert ReplaceChar(s, c, d) == [if s[0] == c then d else s[0]] + ReplaceChar(s[1..], c, d);
      if s[0] == c {
        JoinCons("", rest, [d]);
      } else {
        assert rest == [rest[0]] + rest[1..];
        JoinHead([s[0]], rest[0], rest[1..], [d]);
      }
    }
  }

  lemma {:induction false} SplitOnAbsent(x: string, c: char)
    requires c !in x
    ensures SplitOn(x, c) == [x]
  {
    if x != [] {
      SplitOnAbsent(x[1..], c);
      assert [x[0]] + x[1..] == x;
    }
  }

  lemma {:induction false} SplitOnPrefix(x: string, t: string, c: char)
    requires c !in x
    ensures SplitOn(x + [c] + t, c) == [x] + SplitOn(t, c)
  {
    if x == [] {
      assert x + [c] + t == [c] + t;
      assert ([c] + t)[1..] == t;
    } else {
      assert (x + [c] + t)[1..] == x[1..] + [c] + t;
      SplitOnPrefix(x[1..], t, c);
      assert [x[0]] + x[1..] == x;
    }
  }

  /** Joining values that do not contain the separator and splitting the
      result again gives the values back. */
  lemma {:induction false} JoinSplitRoundTrip(xs: seq<string>, c: char)
    requires xs != []
    requires forall k | 0 <= k < |xs| :: c !in xs[k]
    ensures SplitOn(Join(xs, [c]), c) == xs
  {
    if |xs| == 1 {
      SplitOnAbsent(xs[0], c);
    } else {
      JoinCons(xs[0], xs[1..], [c]);
      assert xs == [xs[0]] + xs[1..];
      SplitOnPrefix(xs[0], Join(xs[1..], [c]), c);
      JoinSplitRoundTrip(xs[1..], c);
    }
  }

  // ---------------------------------------------------------------------
  // parseField, parseSubj

  /** One field name with its dots turned into commas (`f.split('.').join(',')`). */
  function FieldText(f: string): (r: string)
    ensures '.' !in r && |r| == |f|
  {
    SplitJoinReplaces(f, '.', ',');
    Join(SplitOn(f, '.'), ",")
  }

  function FieldTexts(fs: seq<string>): (rs: seq<string>)
    ensures |rs| == |fs| && forall k | 0 <= k < |fs| :: rs[k] == FieldText(fs[k])
  {
    if fs == [] then [] else [FieldText(fs[0])] + FieldTexts(fs[1..])
  }

  /** `parseField`: the field, or the fields joined by commas, with every
      dot replaced by a comma; empty when absent. */
  function ParseField(field: Option<OneOrMany<string>>): string {
    match field
    case None => ""
    case Some(One(f)) => FieldText(f)
    case Some(Many(fs)) => Join(FieldTexts(fs), ",")
  }

  lemma {:induction false} ReplaceCharJoin(xs: seq<string>, ys: seq<string>, c: char, d: char, sep: char)
    requires sep != c
    requires |ys| == |xs| && forall k | 0 <= k < |xs| :: ys[k] == ReplaceChar(xs[k], c, d)
    ensures ReplaceChar(Join(xs, [sep]), c, d) == Join(ys, [sep])
  {
    if |xs| > 1 {
      JoinCons(xs[0], xs[1..], [sep]);
      JoinCons(ys[0], ys[1..], [sep]);
      assert forall k | 0 <= k < |xs[1..]| :: ys[1..][k] == ReplaceChar(xs[1..][k], c, d);
      ReplaceCharJoin(xs[1..], ys[1..], c, d, sep);
      ReplaceCharAround(xs[0], Join(xs[1..], [sep]), sep, c, d);
    }
  }

  lemma ReplaceCharAround(a: string, b: string, sep: char, c: char, d: char)
    requires sep != c
    ensures ReplaceChar(a + [sep] + b, c, d) == ReplaceChar(a, c, d) + [sep] + ReplaceChar(b, c, d)
  {
    ReplaceCharAppend(a + [sep], b, c, d);
    ReplaceCharAppend(a, [sep], c, d);
  }

  lemma ReplaceCharAppend(a: string, b: string, c: char, d: char)
    ensures ReplaceChar(a + b, c, d) == ReplaceChar(a, c, d) + ReplaceChar(b, c, d)
  {
    var l := ReplaceChar(a + b, c, d);
    var r := ReplaceChar(a, c, d) + ReplaceChar(b, c, d);
    assert forall i | 0 <= i < |l| :: l[i] == r[i] by {
      forall i | 0 <= i < |l| ensures l[i] == r[i] {
        if i < |a| {
          assert (a + b)[i] == a[i];
        } else {
          assert (a + b)[i] == b[i - |a|];
        }
      }
    }
  }

  /** The result never holds a dot, and an array of fields serialises as the
      single field its comma-joined names would make. */
  lemma ParseFieldArray(fs: seq<string>)
    ensures '.' !in ParseField(Some(Many(fs)))
    ensures ParseField(Some(Many(fs))) == ParseField(Some(One(Join(fs, ","))))
  {
    var rs := FieldTexts(fs);
    forall k | 0 <= k < |fs| ensures rs[k] == ReplaceChar(fs[k], '.', ',') {
      SplitJoinReplaces(fs[k], '.', ',');
    }
    ReplaceCharJoin(fs, rs, '.', ',', ',');
    SplitJoinReplaces(Join(fs, ","), '.', ',');
  }

  lemma ReplaceCharAbsent(s: string, c: char, d: char)
    requires c !in s
    ensures ReplaceChar(s, c, d) == s
  {
  }

  /** `parseSubj`: the subject area, or the areas joined by commas; empty
      when absent. */
  function ParseSubj(subj: Option<OneOrMany<string>>): string {
    match subj
    case None => ""
    case Some(One(s)) => s
    case Some(Many(ss)) => Join(ss, ",")
  }

  /** Subject areas (which never contain a comma) are recovered by splitting
      the parameter at its commas. */
  lemma ParseSubjRoundTrip(ss: seq<string>)
    requires ss != [] && forall k | 0 <= k < |ss| :: ',' !in ss[k]
    ensures SplitOn(ParseSubj(Some(Many(ss))), ',') == ss
  {
    JoinSplitRoundTrip(ss, ',');
  }

  // ---------------------------------------------------------------------
  // parseSort

  /** One sort criterion: a field and an optional order. */
  datatype Sorting = Sorting(field: string, order: Option<string>)

  /** A criterion inside an array: no prefix without an order, `+` for
      `asc`, `-` for any other order. */
  function SortKey(s: Sorting): string {
    if !Truthy(s.order) then s.field
    else if s.order.value == "asc" then "+" + s.field
    else "-" + s.field
  }

  function SortKeys(ss: seq<Sorting>): (ks: seq<string>)
    ensures |ks| == |ss| && forall k | 0 <= k < |ss| :: ks[k] == SortKey(ss[k])
  {
    if ss == [] then [] else [SortKey(ss[0])] + SortKeys(ss[1..])
  }

  /** `parseSort`: an array keeps its first three criteria, joined by
      commas; a single criterion with an order other than `asc` or `desc`
      gives the empty string. */
  function ParseSort(sort: Option<OneOrMany<Sorting>>): string {
    match sort
    case None => ""
    case Some(Many(ss)) => Join(SortKeys(if |ss| <= 3 then ss else ss[..3]), ",")
    case Some(One(s)) =>
      if !Truthy(s.order) then s.field
      else if s.order.value == "asc" then "+" + s.field
      else if s.order.value == "desc" then "-" + s.field
      else ""
  }

  /** Criteria after the third are ignored. */
  lemma ParseSortFirstThree(ss: seq<Sorting>, more: seq<Sorting>)
    requires |ss| == 3
    ensures ParseSort(Some(Many(ss + more))) == ParseSort(Some(Many(ss)))
  {
    if more == [] {
      assert ss + more == ss;
    }
    assert (ss + more)[..3] == ss;
  }

  /** A single criterion serialises as a one-element array exactly when its
      order is absent, `asc` or `desc`. */
  lemma ParseSortSingle(s: Sorting)
    ensures ParseSort(Some(One(s))) == ParseSort(Some(Many([s])))
      <==> (!Truthy(s.order) || s.order.value == "asc" || s.order.value == "desc")
  {
    assert SortKeys([s]) == [SortKey(s)];
    if Truthy(s.order) && s.order.value != "asc" && s.order.value != "desc" {
      assert ParseSort(Some(Many([s])))[0] == '-';
    }
  }

  // ---------------------------------------------------------------------
  // parseFacets

  /** One facet request: its name and the optional count, sort and prefix. */
  datatype Facet = Facet(option: string, count: Option<int>, sort: Option<string>, prefix: Option<string>)

  /** The JSON-like text of one facet; each optional member appears only
      when truthy. */
  function FacetText(f: Facet): string {
    "{\"option\":\"" + f.option + "\""
    + (if TruthyNumber(f.count) then ",\"count\":" + IntToString(f.count.value) else "")
    + (if Truthy(f.sort) then ",\"sort\":\"" + f.sort.value + "\"" else "")
    + (if Truthy(f.prefix) then ",\"prefix\":\"" + f.prefix.value + "\"" else "")
    + "}"
  }

  function FacetTexts(fs: seq<Facet>): (ts: seq<string>)
    ensures |ts| == |fs| && forall k | 0 <= k < |fs| :: ts[k] == FacetText(fs[k])
  {
    if fs == [] then [] else [FacetText(fs[0])] + FacetTexts(fs[1..])
  }

  /** `parseFacets`: one text per facet, joined by semicolons. */
  function ParseFacets(facets: Option<OneOrMany<Facet>>): string {
    match facets
    case None => ""
    case Some(One(f)) => FacetText(f)
    case Some(Many(fs)) => Join(FacetTexts(fs), ";")
  }

  /** A zero count, an empty sort and an empty prefix are left out just like
      absent ones; a lone facet and a one-element array serialise alike. */
  lemma FacetFalsyMembers(f: Facet)
    ensures FacetText(f.(count := Some(0))) == FacetText(f.(count := None))
    ensures FacetText(f.(sort := Some(""))) == FacetText(f.(sort := None))
    ensures FacetText(f.(prefix := Some(""))) == FacetText(f.(prefix := None))
    ensures ParseFacets(Some(Many([f]))) == ParseFacets(Some(One(f)))
  {
    assert FacetTexts([f]) == [FacetText(f)];
  }

  /** A bare facet is its name inside the JSON-like braces. */
  lemma FacetBare(option: string)
    ensures FacetText(Facet(option, None, None, None)) == "{\"option\":\"" + option + "\"}"
  {
  }

  // ---------------------------------------------------------------------
  // validateParameters

  const ChunkWithoutFile := "toJson is required with chunkSize"
  const DeveloperLimit := "limit must be less than or equal to 5000 for Developer keys"
  const SmallDeveloperChunk := "chunkSize must be greater than or equal to 25"
  const SmallInstitutionalChunk := "chunkSize must be greater than or equal to 200"

  /** The outcome of `validateParameters`: the message it throws, or the
      warnings it prints. */
  datatype Validation = Rejected(message: string) | Accepted(warnings: seq<string>)

  function ValidateParameters(retrieveAllPages: bool, chunkSize: Option<int>, toJson: Option<string>,
                              limit: Option<int>, keyType: KeyType): Validation
  {
    if TruthyNumber(chunkSize) && !Truthy(toJson) then Rejected(ChunkWithoutFile)
    else if TruthyNumber(limit) && keyType == Developer && limit.value > 5000 then Rejected(DeveloperLimit)
    else if retrieveAllPages && TruthyNumber(chunkSize) then
      if keyType == Developer && chunkSize.value < 25 then Accepted([SmallDeveloperChunk])
      else if keyType == Institutional && chunkSize.value < 200 then Accepted([SmallInstitutionalChunk])
      else Accepted([])
    else Accepted([])
  }

  /** The request is refused exactly when a chunk size comes without an
      output file, or a Developer key asks for more than 5000 results; the
      chunk-file check comes first. */
  lemma ValidateRejectsExactly(retrieveAllPages: bool, chunkSize: Option<int>, toJson: Option<string>,
                               limit: Option<int>, keyType: KeyType)
    ensures var v := ValidateParameters(retrieveAllPages, chunkSize, toJson, limit, keyType);
      && (v.Rejected? <==> (TruthyNumber(chunkSize) && !Truthy(toJson))
                           || (TruthyNumber(limit) && keyType == Developer && limit.value > 5000))
      && (TruthyNumber(chunkSize) && !Truthy(toJson) ==> v == Rejected(ChunkWithoutFile))
  {
  }

  /** A chunk size below the tier's page size only warns: with an output
      file and an acceptable limit the request goes ahead. */
  lemma SmallChunkOnlyWarns(chunkSize: int, toJson: string, limit: Option<int>, keyType: KeyType)
    requires 0 < chunkSize < 25 && toJson != ""
    requires !(TruthyNumber(limit) && keyType == Developer && limit.value > 5000)
    ensures ValidateParameters(true, Some(chunkSize), Some(toJson), limit, keyType).Accepted?
    ensures ValidateParameters(true, Some(chunkSize), Some(toJson), limit, keyType).warnings != []
  {
  }

  // ---------------------------------------------------------------------
  // parseCountAndStart, getNext

  /** `parseCountAndStart`: all pages are read 25 at a time from the start;
      otherwise the count and start are kept. */
  function ParseCountAndStart(count: int, start: int, allPages: bool): (r: (int, int))
  {
    if allPages then (25, 0) else (count, start)
  }

  lemma ParseCountAndStartCases(count: int, start: int, allPages: bool)
    ensures allPages ==> ParseCountAndStart(count, start, allPages) == (25, 0)
    ensures !allPages ==> ParseCountAndStart(count, start, allPages) == (count, start)
    ensures ParseCountAndStart(25, 0, allPages) == (25, 0)
  {
  }

  /** A link of a result page: its relation and its target. */
  datatype Link = Link(rel: string, href: string)

  /** `links.find(l => l['@ref'] === 'next')`: the first link whose relation
      is `next`. */
  function GetNext(links: seq<Link>): Option<Link> {
    if links == [] then None
    else if links[0].rel == "next" then Some(links[0])
    else GetNext(links[1..])
  }

  /** `GetNext` finds nothing exactly when no link is `next`, and otherwise
      the first link that is. */
  lemma {:induction false} GetNextFindsFirst(links: seq<Link>)
    ensures GetNext(links).None? <==> forall k | 0 <= k < |links| :: links[k].rel != "next"
    ensures GetNext(links).Some? ==> exists k | 0 <= k < |links| ::
      links[k] == GetNext(links).value && links[k].rel == "next" && forall j | 0 <= j < k :: links[j].rel != "next"
  {
    if links != [] && links[0].rel != "next" {
      GetNextFindsFirst(links[1..]);
      assert forall k | 1 <= k < |links| :: links[k] == links[1..][k - 1];
      if GetNext(links).Some? {
        var k :| 0 <= k < |links[1..]| && links[1..][k] == GetNext(links).value && links[1..][k].rel == "next"
          && forall j | 0 <= j < k :: links[1..][j].rel != "next";
        assert links[k + 1] == GetNext(links).value;
      }
    } else if links != [] {
      assert links[0] == GetNext(links).value;
    }
  }

  // ---------------------------------------------------------------------
  // formatNumber

  function Zeros(n: nat): (z: string)
    ensures |z| == n && forall i | 0 <= i < n :: z[i] == '0'
  {
    if n == 0 then "" else "0" + Zeros(n - 1)
  }

  /** `s.padStart(width, '0')`. */
  function PadStart(s: string, width: nat): (r: string)
    ensures |r| == if |s| >= width then |s| else width
  {
    if |s| >= width then s else Zeros(width - |s|) + s
  }

  /** The replacement of `/\B(?=(\d{3})+(?!\d))/g` by `,` on a digit string:
      a comma between two digits wherever a positive multiple of three
      digits follows to the end. */
  function GroupThousands(s: string): string
  {
    if |s| <= 3 then s else GroupThousands(s[..|s| - 3]) + [','] + s[|s| - 3..]
  }

  /** `formatNumber` on a whole number: the decimal numeral zero-padded to
      seven digits, then grouped by thousands. */
  function FormatNumber(n: nat): string {
    GroupThousands(PadStart(NatToString(n), 7))
  }

  lemma {:induction false} GroupThousandsDigits(s: string)
    ensures Without(GroupThousands(s), ',') == Without(s, ',')
    decreases |s|
  {
    if |s| > 3 {
      var a, b := s[..|s| - 3], s[|s| - 3..];
      calc {
        Without(GroupThousands(s), ',');
        Without(GroupThousands(a) + [','] + b, ',');
        { WithoutComma(GroupThousands(a), b); }
        Without(GroupThousands(a), ',') + Without(b, ',');
        { GroupThousandsDigits(a); }
        Without(a, ',') + Without(b, ',');
        { WithoutAppend(a, b, ','); }
        Without(a + b, ',');
        { assert a + b == s; }
        Without(s, ',');
      }
    }
  }

  lemma WithoutComma(g: string, b: string)
    ensures Without(g + [','] + b, ',') == Without(g, ',') + Without(b, ',')
  {
    WithoutAppend(g + [','], b, ',');
    WithoutAppend(g, [','], ',');
  }

  /** Removing the commas gives the zero-padded numeral back, whose value
      is the number. */
  lemma FormatNumberValue(n: nat)
    ensures Without(FormatNumber(n), ',') == PadStart(NatToString(n), 7)
    ensures AllDigits(PadStart(NatToString(n), 7))
    ensures DecimalValue(PadStart(NatToString(n), 7)) == n
  {
    var d := NatToString(n);
    var p := PadStart(d, 7);
    GroupThousandsDigits(p);
    NatToStringRoundTrip(n);
    if |d| < 7 {
      LeadingZeros(Zeros(7 - |d|), d);
    }
    assert ',' !in p by {
      assert AllDigits(p) by {
        if |d| < 7 {
          LeadingZeros(Zeros(7 - |d|), d);
        }
      }
    }
    WithoutAbsent(p, ',');
  }

  lemma NatToStringLength(n: nat, k: nat)
    requires n < Power10(k)
    ensures |NatToString(n)| <= if k == 0 then 1 else k
  {
    if n >= 10 {
      NatToStringLength(n / 10, k - 1);
    }
  }

  function Power10(k: nat): (p: nat)
    ensures p >= 1
  {
    if k == 0 then 1 else 10 * Power10(k - 1)
  }

  /** Below ten million the text has the shape `d,ddd,ddd`. */
  lemma FormatNumberShape(n: nat)
    requires n < 10000000
    ensures var r := FormatNumber(n);
      |r| == 9 && r[1] == ',' && r[5] == ','
      && forall i | 0 <= i < 9 && i != 1 && i != 5 :: IsDigit(r[i])
  {
    assert Power10(7) == 10000000;
    NatToStringLength(n, 7);
    var p := PadStart(NatToString(n), 7);
    FormatNumberValue(n);
    assert |p| == 7 && AllDigits(p);
    GroupSeven(p);
    assert FormatNumber(n) == [p[0], ',', p[1], p[2], p[3], ',', p[4], p[5], p[6]];
  }

  /** Seven characters are grouped as one, three and three. */
  lemma GroupSeven(p: string)
    requires |p| == 7
    ensures GroupThousands(p) == [p[0], ',', p[1], p[2], p[3], ',', p[4], p[5], p[6]]
  {
    assert p[..4][..1] == p[..1];
    assert p[..4][1..] == p[1..4];
    assert GroupThousands(p[..4]) == p[..1] + [','] + p[1..4];
  }

  /** The first item of a chunk file name. */
  lemma FormatNumberOne()
    ensures FormatNumber(1) == "0,000,001"
  {
    assert NatToString(1) == "1";
    assert Zeros(6) == "000000";
    assert PadStart("1", 7) == "0000001";
    assert GroupThousands("0000") == "0,000";
    assert GroupThousands("0000001") == GroupThousands("0000") + "," + "001";
  }

  // ---------------------------------------------------------------------
  // checkLength

  const MaxUrlLength := 2800

  /** `url.length`: JavaScript counts UTF-16 code units, two for a character
      outside the Basic Multilingual Plane. */
  function Utf16Length(s: string): (n: nat)
    ensures |s| <= n <= 2 * |s|
  {
    if s == [] then 0 else (if s[0] as int > 0xFFFF then 2 else 1) + Utf16Length(s[1..])
  }

  /** `checkLength`: the URL is accepted exactly when it has at most 2800
      UTF-16 code units (otherwise the process exits). */
  function CheckLength(url: string): (ok: bool)
    ensures |url| > MaxUrlLength ==> !ok
    ensures 2 * |url| <= MaxUrlLength ==> ok
  {
    Utf16Length(url) <= MaxUrlLength
  }

  // ---------------------------------------------------------------------
  // urlEncodeQuery

  /** The characters `encodeURIComponent` leaves alone. */
  predicate Unreserved(c: char) {
    || ('A' <= c <= 'Z') || ('a' <= c <= 'z') || ('0' <= c <= '9')
    || c == '-' || c == '_' || c == '.' || c == '!' || c == '~' || c == '*' || c == '\'' || c == '(' || c == ')'
  }

  function HexDigit(d: nat): (c: char)
    requires d < 16
  {
    "0123456789ABCDEF"[d]
  }

  /** `%XY` for one byte. */
  function PercentByte(b: nat): string
    requires b < 256
  {
    ['%', HexDigit(b / 16), HexDigit(b % 16)]
  }

  /** The UTF-8 bytes of a character. */
  function Utf8(c: char): (bytes: seq<nat>)
    ensures 1 <= |bytes| <= 4 && forall i | 0 <= i < |bytes| :: bytes[i] < 256
  {
    var v := c as int;
    if v < 0x80 then [v]
    else if v < 0x800 then [0xC0 + v / 0x40, 0x80 + v % 0x40]
    else if v < 0x10000 then [0xE0 + v / 0x1000, 0x80 + (v / 0x40) % 0x40, 0x80 + v % 0x40]
    else [0xF0 + v / 0x40000, 0x80 + (v / 0x1000) % 0x40, 0x80 + (v / 0x40) % 0x40, 0x80 + v % 0x40]
  }

  function PercentBytes(bytes: seq<nat>): string
    requires forall i | 0 <= i < |bytes| :: bytes[i] < 256
  {
    if bytes == [] then "" else PercentByte(bytes[0]) + PercentBytes(bytes[1..])
  }

  /** One character of `urlEncodeQuery`: `encodeURIComponent`, then `%20`
      becomes `+` and the parentheses become `%28` and `%29`. */
  function EncodeChar(c: char): string {
    if c == ' ' then ['+']
    else if c == '(' then PercentByte(0x28)
    else if c == ')' then PercentByte(0x29)
    else if Unreserved(c) then [c]
    else PercentBytes(Utf8(c))
  }

  function UrlEncodeQuery(q: string): string {
    if q == [] then "" else EncodeChar(q[0]) + UrlEncodeQuery(q[1..])
  }

  predicate IsAscii(c: char) {
    c as int < 0x80
  }

  function HexValue(c: char): Option<nat> {
    if '0' <= c <= '9' then Some(c as int - '0' as int)
    else if 'A' <= c <= 'F' then Some(c as int - 'A' as int + 10)
    else None
  }

  /** The server-side reading of the query for ASCII text: `+` is a space
      and `%XY` the character with that code. */
  function DecodeQuery(e: string): string
    decreases |e|
  {
    if e == [] then ""
    else if e[0] == '+' then " " + DecodeQuery(e[1..])
    else if e[0] == '%' && |e| >= 3 && HexValue(e[1]).Some? && HexValue(e[2]).Some?
            && HexValue(e[1]).value * 16 + HexValue(e[2]).value < 0x80 then
      [(HexValue(e[1]).value * 16 + HexValue(e[2]).value) as char] + DecodeQuery(e[3..])
    else [e[0]] + DecodeQuery(e[1..])
  }

  lemma HexRoundTrip(d: nat)
    requires d < 16
    ensures HexValue(HexDigit(d)) == Some(d)
  {
    var s := "0123456789ABCDEF";
    assert s[d] == HexDigit(d);
  }

  /** The characters an encoded query is made of: `+`, `%` and the
      unreserved characters other than the parentheses. */
  predicate UrlSafe(c: char) {
    c == '+' || c == '%' || (Unreserved(c) && c != '(' && c != ')')
  }

  lemma {:induction false} PercentBytesSafe(bytes: seq<nat>)
    requires forall i | 0 <= i < |bytes| :: bytes[i] < 256
    ensures forall i | 0 <= i < |PercentBytes(bytes)| :: UrlSafe(PercentBytes(bytes)[i])
  {
    if bytes != [] {
      PercentBytesSafe(bytes[1..]);
      var hex := "0123456789ABCDEF";
      assert forall d | 0 <= d < 16 :: UrlSafe(hex[d]);
    }
  }

  /** The encoding is made of URL-safe characters only: no space, no
      parenthesis and nothing outside ASCII. */
  lemma {:induction false} UrlEncodeQuerySafe(q: string)
    ensures forall i | 0 <= i < |UrlEncodeQuery(q)| :: UrlSafe(UrlEncodeQuery(q)[i])
  {
    if q != [] {
      UrlEncodeQuerySafe(q[1..]);
      var c := q[0];
      if c != ' ' && c != '(' && c != ')' && !Unreserved(c) {
        PercentBytesSafe(Utf8(c));
      }
    }
  }

  lemma DecodePercent(v: nat, t: string)
    requires v < 0x80
    ensures DecodeQuery(PercentByte(v) + t) == [v as char] + DecodeQuery(t)
  {
    HexRoundTrip(v / 16);
    HexRoundTrip(v % 16);
    var e := PercentByte(v) + t;
    assert e[0] == '%' && e[1] == HexDigit(v / 16) && e[2] == HexDigit(v % 16);
    assert e[3..] == t;
  }

  lemma DecodeEncodedChar(c: char, t: string)
    requires IsAscii(c)
    ensures DecodeQuery(EncodeChar(c) + t) == [c] + DecodeQuery(t)
  {
    if c == ' ' {
      assert (['+'] + t)[1..] == t;
    } else if c == '(' {
      DecodePercent(0x28, t);
    } else if c == ')' {
      DecodePercent(0x29, t);
    } else if Unreserved(c) {
      assert ([c] + t)[1..] == t;
    } else {
      DecodeReservedAscii(c, t);
    }
  }

  lemma DecodeReservedAscii(c: char, t: string)
    requires IsAscii(c) && !Unreserved(c)
    ensures DecodeQuery(PercentBytes(Utf8(c)) + t) == [c] + DecodeQuery(t)
  {
    var v := c as int;
    Utf8Ascii(c);
    PercentBytesOne(v);
    DecodePercent(v, t);
  }

  lemma Utf8Ascii(c: char)
    requires IsAscii(c)
    ensures Utf8(c) == [c as int]
  {
  }

  lemma PercentBytesOne(b: nat)
    requires b < 256
    ensures PercentBytes([b]) == PercentByte(b)
  {
    assert PercentBytes([b]) == PercentByte(b) + PercentBytes([]);
  }

  /** For ASCII text, decoding the encoded query gives the query back. */
  lemma {:induction false} UrlEncodeQueryRoundTrip(q: string)
    requires forall i | 0 <= i < |q| :: IsAscii(q[i])
    ensures DecodeQuery(UrlEncodeQuery(q)) == q
  {
    if q != [] {
      UrlEncodeQueryRoundTrip(q[1..]);
      DecodeEncodedChar(q[0], UrlEncodeQuery(q[1..]));
      assert [q[0]] + q[1..] == q;
    }
  }
}
