# scopus-cli: query compiler, request planner and result walkers in Dafny

This project models the algorithmic core of `scopus-cli`, a command-line
client and small SDK for the Scopus search API. It proves properties of that
model. The core has three parts.

- **Query compiler.** Two live revisions exist: `src/utils/search.ts` and the
  older `src/utils/parser.ts`.
  - A search is a list of tokens. A token `key...` is replaced by the
    expansion of the term file `key.txt`.
  - A term file is read line by line. Comments are cut and whitespace is
    normalised (`sanitise`).
  - A trailing `#OR`, `#AND` or `#-` marker turns on an operator mode. The
    mode lasts for the rest of the file and joins terms with the operator.
    In that mode, terms holding a space are quoted (`quoteIfNeeded`).
  - The compiled text has `[`/`]` aliased to `(`/`)`.
  - The text is then scoped. The newer revision prefixes `TITLE`/`ABS`/`KEY`
    labels and adds parentheses when needed. The older one wraps the text in
    `TITLE(...)` or `TITLE-ABS-KEY(...)`.
  - The newer command also derives some request options: the date
    shorthand, the sort mapping and the autosave file name.
- **Request planning and parameter serialisers** (`src/sdk/utils/search.ts`,
  `src/sdk/scopusSDK.ts`).
  - Page-size capping by key tier, and the choice between cursor and offset.
  - URL assembly, including the query's URL encoding.
  - `validateParameters`, `parseSort`, `parseField`, `parseSubj`,
    `parseFacets`, `parseCountAndStart` and `getNext`.
  - The chunk-file number format `formatNumber`, and the URL length guard.
- **Pagination walkers** (`handleAllPages`, `handleMultipleResults`,
  `handleAllPagesInChunks`, `handleMultipleResultsChuncked`).
  - Each follows `next` links and pushes every page's entries onto the first
    page's results object.
  - The chunked walkers flush the whole buffer into numbered chunk files and
    empty it. `Plan` says, apart from the loops, where they cut: at the
    first check that finds at least `chunkSize` entries buffered, and at the
    last check. The first check reads a file's metadata before it sets the
    counters; the later checks read it after.

## Modules

| module | file | models |
|---|---|---|
| `Wrappers` | `wrappers.dfy` | `Option` and `Result` |
| `Text` | `text.dfy` | JavaScript whitespace, `trim`, joins, decimal numerals |
| `Normalise` | `normalise.dfy` | `sanitise` and `quoteIfNeeded` (one definition; both revisions carry identical copies) |
| `TermExpander` | `term_expander.dfy` | The line loop of `searchBuilder` as a fold (`Scan`, `Step`, `Expand`); reference search; term-file lookup |
| `QueryCompiler` | `query_compiler.dfy` | `searchBuilder` and `buildQuery` of `src/utils/search.ts` as methods with loops; the option derivations of `search` |
| `LegacyParser` | `legacy_parser.dfy` | `searchBuilder`, `buildQuery` and `handleCount` of `src/utils/parser.ts` |
| `RequestParams` | `request_params.dfy` | The serialisers and guards of `src/sdk/utils/search.ts` |
| `Pagination` | `pagination.dfy` | The four walkers as methods that update a `SearchResults` object in place; chunk files as an out-parameter |
| `ScopusClient` | `scopus_sdk.dfy` | The `ScopusSDK` class and its `search` |

**Abstractions.**
- The filesystem becomes maps.
  - Term files are two maps from key to text: the project's `searchterms/`
    and the user's `~/.config/scopus-cli/searchterms/`.
  - Chunk-file writes are returned as a list of `ChunkFile` values. Each
    holds a name, the metadata counters and the entries.
- HTTP `GET` becomes a parameter `server: string -> Reply`, a fixed answer
  per URL.
- The walkers stop when a page has no `next` link. The API is trusted to end
  its chain of pages. The requirement `Finishes(server, next, fuel)` states
  that trust: the chain ends within `fuel` requests. `fuel` is a ghost
  parameter that only bounds the proofs.

**Where the code and the system's specification disagree, the model
follows the code** (the one exception is the walker dispatch of `search`,
which fails as written; see "## Findings"):
- The Institutional page cap is 200 whatever view is requested
  (`src/sdk/scopusSDK.ts:57-64`).
- `buildQuery` of `src/utils/search.ts` wraps the query in parentheses even
  when no scope label is selected.
- `handleMultipleResults` lowers the limit by `perPage` per request, not by
  the number of entries the page holds.
- Chunk files are named after the 1-based window `start+1..end`.

## Model

| member | source | states |
|---|---|---|
| Normalise.SanitiseNormalises | src/utils/search.ts:33-40 | The output has no tab, no two adjacent spaces, and no space at either end |
| Normalise.SanitiseKeepsVisible | src/utils/search.ts:33-40 | Every character other than space and tab is kept, in order: only whitespace changes |
| Normalise.SanitiseIdempotent | src/utils/parser.ts:33-40 | Sanitising twice is the same as sanitising once (the older revision's copy is identical) |
| Normalise.SanitiseFixesNormal | src/utils/search.ts:33-40 | A string that is already sanitised is left unchanged |
| Normalise.SanitiseEmpty | src/utils/search.ts:81-82 | A line's term is empty exactly when the line holds nothing but spaces and tabs, so only such lines are skipped |
| Normalise.QuoteIfNeeded | src/utils/search.ts:42-48 | The result is the term itself or the term between double quotes |
| Normalise.QuoteIfNeededExactly | src/utils/parser.ts:42-48 | Both directions: the term is wrapped exactly when it has a space and does not match `^".*"$`; the wrapped text is the term |
| Normalise.QuoteIfNeededIdempotent | src/utils/search.ts:42-48 | For terms without line terminators, quoting twice equals quoting once |
| Normalise.QuoteIfNeededNotIdempotentAcrossLines | src/utils/search.ts:44 | With a carriage return inside, the quoted term no longer matches `^".*"$` (`.` skips line terminators), so it is quoted again |
| TermExpander.SplitLinesCount | src/utils/search.ts:66 | `split(/\r?\n/)` yields one line more than there are line feeds |
| TermExpander.SplitLinesJoin | src/utils/search.ts:66 | For text without carriage returns, joining the lines with line feeds gives the text back |
| TermExpander.MarkerMatchesRegex | src/utils/search.ts:72-80 | Both directions: the trimmed line ends with the marker exactly when the marker occurs followed only by `\s`, as the end-anchored marker patterns (`#OR`, `#AND` or `#-`, then `\s*`) require |
| TermExpander.StripCommentAtMatch | src/utils/search.ts:81 | The comment is cut at the first `#` that starts a match of `#.+$`; with no such `#` the line is kept whole |
| TermExpander.FindReference | src/utils/search.ts:57-58 | The position found is a match of `(\w+)\.\.\.` and no earlier position is; none is found only when there is no match |
| TermExpander.OperatorModePersists | src/utils/search.ts:71-80 | Both directions: operator mode is on exactly when some earlier line had a marker; the operator is the last marker's joiner, or empty if none |
| TermExpander.ExpansionShape | src/utils/search.ts:82-87 | The expansion is empty exactly when every line's term is empty; otherwise it ends in the space that follows each term |
| TermExpander.ExpansionAppends | src/utils/search.ts:82-87 | The text built from the first lines is a prefix of the text built from all lines: expansion only appends |
| TermExpander.StepWord | src/utils/search.ts:82-87 | A single word is appended unquoted and followed by a space. It is preceded by the operator exactly when the text so far matches `[\w")]\s+$` |
| TermExpander.MarkedLine | src/utils/search.ts:72-81 | The line `w #OR` reads as the joiner `OR ` and the term `w` |
| TermExpander.OperatorExample | src/utils/search.ts:71-87 | The lines `a`, `b #OR`, `c` expand to `a OR b OR c `, with no quotes on single words |
| TermExpander.OperatorExampleText | src/utils/search.ts:71-87 | The text `a\nb #OR\nc`, for single words, expands to `a OR b OR c `: the same example, starting from the raw text rather than its lines |
| TermExpander.MissingTermFileIsLiteral | src/utils/search.ts:60-64 | A key with no file in either directory expands to the key and a space; it is not an error |
| TermExpander.ReplacesFirstReference | src/utils/search.ts:89 | Replacing the first `key...` changes exactly the first reference found, and leaves the text before and after it unchanged |
| TermExpander.ExpandTokenSpec | src/utils/search.ts:57-92 | A token with a reference has the file's expansion spliced in at its first reference; any other token is quoted if needed |
| QueryCompiler.AliasBrackets | src/utils/search.ts:95-97 | Each `[` becomes `(`, each `]` becomes `)`, and every other character is kept; no bracket remains |
| QueryCompiler.ExpandLine | src/utils/search.ts:72-87 | One iteration of the line loop is one `Step` of the fold on the line's marker and term |
| QueryCompiler.ExpandTermFile | src/utils/search.ts:66-88 | The line loop over a file's text computes the file's expansion `ExpandContent` |
| QueryCompiler.SearchBuilder | src/utils/search.ts:50-99 | The token loop followed by bracket aliasing computes `Compile`: each token's expansion after one space, with brackets aliased |
| QueryCompiler.TokensContributeInOrder | src/utils/search.ts:53-94 | Tokens contribute independently and in order; one token gives a space and its expansion |
| QueryCompiler.PlainTokens | src/utils/search.ts:91-92 | Tokens with no reference and no space pass through, joined by single spaces after a leading space |
| QueryCompiler.ReferenceAtStart | src/utils/search.ts:57-58 | In `key...rest`, the reference is found at 0 and its key is `key` |
| QueryCompiler.MissingReferenceCompiles | src/utils/search.ts:60-92 | A lone `key...` with no term file compiles to ` key ` |
| QueryCompiler.ScopeLabelsSelected | src/utils/search.ts:103-113 | Both directions: each label is present exactly when its name, abbreviation or `all` is given; labels come in the order TITLE, ABS, KEY without repetition; `all` selects all three |
| QueryCompiler.BuildQuery | src/utils/search.ts:101-119 | The result is the compiled query scoped by the labels joined with `-` |
| QueryCompiler.ScopedShape | src/utils/search.ts:114-116 | The label comes first; the query is kept unwrapped exactly when its trimmed text starts with `(` and ends with `)`; the part after the label always does |
| QueryCompiler.ParenthesesCheckedAtEndsOnly | src/utils/search.ts:114 | ` (a) OR (b)` counts as parenthesised, because only the two ends are checked |
| QueryCompiler.DateOpenEnd | src/utils/search.ts:165-168 | `YYYY-` becomes `YYYY-` followed by the year plus 1000 |
| QueryCompiler.DateOpenStart | src/utils/search.ts:169-172 | `-YYYY` becomes the year minus 1000, a dash, and `YYYY` |
| QueryCompiler.DateOther | src/utils/search.ts:164-174 | Any other non-empty date passes unchanged; an empty one sets no date |
| QueryCompiler.SortMappingSpec | src/utils/search.ts:212-223 | Both directions: a sort is set exactly for `relevance` and `date`, keeping the order; `date` with `desc` reaches the API as `-pubyear` |
| QueryCompiler.CollapsePairsVisible | src/utils/search.ts:193 | `split('  ').join(' ')` removes only spaces |
| QueryCompiler.CollapsePairsNormal | src/utils/search.ts:193 | Text without two adjacent spaces is unchanged |
| QueryCompiler.CollapsePairsThreeSpaces | src/utils/search.ts:193 | Three spaces become two, so applying it again changes the name further |
| QueryCompiler.AutosaveNameStamped | src/utils/search.ts:192-201 | With a timestamp, the name is the stamp, a dash and the unstamped name; the name keeps the trimmed query's non-space text |
| LegacyParser.LegacyLookup | src/utils/parser.ts:57-58 | Only `searchterms/` is read, else the key stands for itself; a file only in the user's directory is ignored |
| LegacyParser.SearchBuilder | src/utils/parser.ts:50-93 | It computes the newer revision's `Compile` over the project files alone; no bracket remains |
| LegacyParser.BuildQuery | src/utils/parser.ts:95-105 | The result is the compiled query wrapped by `LegacyScoped` |
| LegacyParser.LegacyScopedWraps | src/utils/parser.ts:97-102 | The query is never rewritten: it sits between the openers (outermost first) and one `)` per scope; both flags nest as `TITLE-ABS-KEY(TITLE(q))`; with neither flag it is unchanged |
| LegacyParser.LegacySearchOptions.constructor | src/utils/parser.ts:135-137 | The options hold the query and no paging or output file |
| LegacyParser.LegacySearchOptions.HandleCount | src/utils/parser.ts:114-120 | It sets `perPage` and `page` to 1 and leaves the query and output file unchanged |
| RequestParams.SplitJoinReplaces | src/sdk/utils/search.ts:20 | `split(c).join(d)` replaces each `c` by `d` |
| RequestParams.FieldText | src/sdk/utils/search.ts:18-25 | A field name keeps its length and loses every dot |
| RequestParams.ParseFieldArray | src/sdk/utils/search.ts:14-31 | An array of fields has no dot and serialises as the single field its comma-joined names would make |
| RequestParams.ParseSubjRoundTrip | src/sdk/utils/search.ts:58-68 | Subject areas without commas are recovered by splitting the parameter at commas |
| RequestParams.ParseSortFirstThree | src/sdk/utils/search.ts:36-46 | Criteria after the third are ignored |
| RequestParams.ParseSortSingle | src/sdk/utils/search.ts:33-56 | Both directions: a single criterion serialises like a one-element array exactly when its order is absent, `asc` or `desc` |
| RequestParams.FacetFalsyMembers | src/sdk/utils/search.ts:70-85 | A zero count, empty sort and empty prefix are omitted like absent ones; a lone facet and a one-element array serialise alike |
| RequestParams.FacetBare | src/sdk/utils/search.ts:81 | A facet with only a name is `{"option":"<name>"}` |
| RequestParams.ValidateRejectsExactly | src/sdk/utils/search.ts:87-107 | Both directions: the request is refused exactly when a chunk size has no output file, or a Developer key asks for more than 5000 results; the chunk check comes first |
| RequestParams.SmallChunkOnlyWarns | src/sdk/utils/search.ts:99-106 | A chunk size below the tier's page size only warns; the request goes ahead |
| RequestParams.ParseCountAndStartCases | src/sdk/utils/search.ts:109-121 | All pages are read as `(25, 0)`; otherwise the count and start are kept |
| RequestParams.GetNextFindsFirst | src/sdk/utils/search.ts:123-125 | Both directions: nothing is found exactly when no link is `next`; otherwise the first `next` link is found |
| RequestParams.FormatNumberValue | src/sdk/utils/search.ts:158-167 | Without commas, the text is the 7-digit zero-padded numeral, whose value is the number |
| RequestParams.FormatNumberShape | src/sdk/utils/search.ts:158-167 | Below ten million the text has the shape `d,ddd,ddd` |
| RequestParams.FormatNumberOne | src/sdk/utils/search.ts:158-167 | `formatNumber(1)` is `0,000,001` |
| RequestParams.CheckLength | src/sdk/utils/search.ts:417-431 | A URL longer than 2800 code units is refused, and one whose length is at most 1400 characters is accepted |
| RequestParams.UrlEncodeQuerySafe | src/sdk/utils/search.ts:9-12 | The encoded query holds only `+`, `%` and unreserved characters other than parentheses |
| RequestParams.UrlEncodeQueryRoundTrip | src/sdk/utils/search.ts:9-12 | For ASCII text, decoding (`+` as space, `%XY` as a byte) gives the query back |
| Pagination.SearchResults.FromPage | src/sdk/scopusSDK.ts:93-94 | The walkers' object starts with the first page's counters, links and entries |
| Pagination.Metadata | src/sdk/utils/search.ts:127-156 | The output's results are the object's entries, tagged with the given source format |
| Pagination.LimitedWalkIsPrefix | src/sdk/utils/search.ts:263 | The limited walk fetches a prefix of the pages the unlimited walk fetches |
| Pagination.LimitedWalkBound | src/sdk/utils/search.ts:263-281 | With `perPage > 0`, the limited walk makes at most ⌈limit/perPage⌉ requests, and none for a non-positive limit |
| Pagination.HandleAllPages | src/sdk/utils/search.ts:291-327 | The entries become the old entries followed by every fetched page's entries in fetch order; `itemsPerPage` becomes `totalResults`; nothing else changes |
| Pagination.HandleMultipleResults | src/sdk/utils/search.ts:250-289 | Entries are appended from the limited walk; `itemsPerPage` becomes `perPage` times one more than the number of requests |
| Pagination.PlanNonEmpty | src/sdk/utils/search.ts:347-403 | A chunked walk always writes at least one file, since its last check always cuts |
| Pagination.PlanEntries | src/sdk/utils/search.ts:365-399 | The cuts hold the first page's entries and then every fetched page's entries, each once and in fetch order |
| Pagination.PlanContiguous | src/sdk/utils/search.ts:348-358 | Each cut's window starts where the previous one ended, from the given start |
| Pagination.PlanFull | src/sdk/utils/search.ts:384 | Every cut but the last holds at least `chunkSize` entries |
| Pagination.PlanOneFile | src/sdk/utils/search.ts:347-399 | When all the entries together stay below `chunkSize`, the walk cuts exactly once, at the end, with every entry |
| Pagination.FilesShape | src/sdk/utils/search.ts:349-356 | Files rendered from cuts hold the cuts' entries and are named `<toJson>-<first>-<last>.json` after windows that follow one another |
| Pagination.PlanFiles | src/sdk/utils/search.ts:329-404 | The files of a chunked walk hold every entry once and in order, under windows contiguous from 1, all but the last holding at least `chunkSize` entries, and there is at least one |
| Pagination.FlushChunk | src/sdk/utils/search.ts:190-205 | One flush writes the file `FileOf` gives for the window after `start`. Its metadata is the counters as they were when `metadataFirst` (the check before the loop reads them first), else the window's own start and size. The counters become the window's start and size, and the buffer is emptied |
| Pagination.FlushIfDue | src/sdk/utils/search.ts:228-243 | The check flushes exactly when at least `chunkSize` entries are buffered or the walk is over, and otherwise changes nothing. What it writes, followed by the files still to come, is what `Plan` writes from this check on. After the last check the counters are the last file's window |
| Pagination.AllPagesRound | src/sdk/utils/search.ts:365-399 | One request appends the page's entries to the buffer and moves to its `next` link, then checks. The files written so far, followed by the files still to come, stay the same |
| Pagination.LimitedRound | src/sdk/utils/search.ts:208-243 | The same as `AllPagesRound`, and the limit drops by `perPage`; the check also cuts once the limit is no longer positive |
| Pagination.HandleAllPagesInChunks | src/sdk/utils/search.ts:329-404 | The files written are exactly `Files` of `Plan` over the walk. That fixes when each flush happens, every file's name and metadata (the first read before the counters are set, the others after) and every entry's place. The files hold exactly the entries seen, in order, in windows contiguous from 1, only the last possibly short. The object ends with no entries and with `startIndex`/`itemsPerPage` the last file's window (`WrittenLast`) |
| Pagination.HandleMultipleResultsChunked | src/sdk/utils/search.ts:169-248 | The same as `HandleAllPagesInChunks` over the limited walk: the files are `Files` of `Plan` over the pages the limit lets through, and the last check comes once no `next` link is left or the limit is no longer positive |
| ScopusClient.ScopusSDK.constructor | src/sdk/scopusSDK.ts:25-31 | It stores the key and the Elsevier endpoint, with the key in the `X-ELS-APIKey` header |
| ScopusClient.PagePlan | src/sdk/scopusSDK.ts:56-74 | The first page and the remainder sum to the request; the first page is at most the tier cap (25 or 200); a remainder exists exactly when the request exceeds the cap |
| ScopusClient.ScopusSDK.PlanRequest | src/sdk/scopusSDK.ts:56-89 | The branchy planning computes `PagePlan`, and the URL is `RequestUrl` |
| ScopusClient.QueryParameterFirst | src/sdk/scopusSDK.ts:81-83 | `query=` and the encoded query come first and end at the first `&`; the encoded query holds no `&` and decodes to ASCII queries |
| ScopusClient.PagingParameter | src/sdk/scopusSDK.ts:75-89 | After the view comes `&cursor=*` exactly for an all-pages Institutional search, else `&start=0`, followed by the count, date and sort |
| ScopusClient.DefaultRequest | src/sdk/scopusSDK.ts:33-44 | A request with only a query asks the Developer tier for 25 STANDARD results from offset 0, and nothing more |
| ScopusClient.ScopusSDK.Search | src/sdk/scopusSDK.ts:33-133 | Validation comes first. A refusal becomes `GET request failed: <message>`. A long URL exits. A failed status is a quota error for 429 with `QUOTA_EXCEEDED`, otherwise a request failure. Success returns what `Collected` describes, and the JSON file is written only with `toJson`, without a chunk size, and on status 200 |
| ScopusClient.WriteChunks | src/sdk/scopusSDK.ts:96-102 | The chunked walk from the first page writes the files `ChunkedFrom` describes and leaves the object without entries, its `startIndex` the start of the last file's window |
| ScopusClient.Collect | src/sdk/scopusSDK.ts:94-115 | The walkers' dispatch: chunked then plain all-pages, then limited when results remain. It fixes the returned entries and counters. After a chunked search the chunk files are those of `ChunkedFrom` and `firstItem` is the start of the last file's window; otherwise there are no chunk files and `firstItem` is the first page's |
| ScopusClient.RetrieveAllPages | src/sdk/scopusSDK.ts:95-105 | The all-pages part of the intended dispatch: the chunked walker when a chunk size is given, then the all-pages walker. It leaves the entries `Gathered` describes, `itemsPerPage` the total, and `startIndex` the last chunk's window start after a chunked walk, the first page's otherwise |
| ScopusClient.CollectedOf | src/sdk/scopusSDK.ts:106-115 | The limited walker, run after the all-pages part, leaves what `Collected` describes |
| ScopusClient.HandleAllPagesWithoutInfo | src/sdk/utils/search.ts:291-310 | `handleAllPages` without `infoObject`, as `search` calls it: it throws exactly when the first page has a `next` link, after that request and before any entry is pushed, and otherwise only sets `itemsPerPage` to the total |
| ScopusClient.CollectAsWritten | src/sdk/scopusSDK.ts:94-115 | The dispatch as written throws exactly for an all-pages search that is chunked or has a `next` link, or a search with results still wanted. The error is the first failing walker call's. Where it does not throw, it returns what the intended dispatch returns |
| ScopusClient.ScopusSDK.SearchAsWritten | src/sdk/scopusSDK.ts:33-133 | `search` as written: validation, the URL guard and the first response behave as in `Search`. A throwing dispatch becomes `GET request failed: ` plus the `TypeError` message, since the error carries no response. Any other search returns what `Collected` describes, with no chunk files |
| ScopusClient.HundredResultsThrow | src/sdk/scopusSDK.ts:108 | A Developer search for 100 results leaves 75 for the limited walker, so the written dispatch throws |
| ScopusClient.LimitedSearchIsPrefix | src/sdk/scopusSDK.ts:95-115 | A search not asking for all pages returns a prefix of what the all-pages search returns |

## Left out

- HTTP is the deterministic parameter `server`. Headers are not sent, and
  axios's error message text is represented by `HttpFailed(status)`.
  Transport failures (network errors) are not modelled.
- A follow-up request that fails inside a walker is not modelled: every
  answer to a `next` link is taken as a page.
- The API is assumed to end its chain of `next` links (`Finishes`). Cycles
  in the links are not modelled; the walkers do not detect them either.
- The filesystem is left out.
  - Term files are maps.
  - Chunk-file writes are the returned `ChunkFile` list.
  - The full JSON file is named in `Returned.saved`.
  - Also left out: the info log (`*.info.txt`), `infoLength.txt`,
    `scopusOptions.json` and `*.config.json`.
- Progress telemetry is not modelled: `infoObject` (times, fractions,
  `Math.round`), `console` output and the `infoFile` argument.
- `metadata`'s fields other than the counters, the entries and the source
  format are not modelled: the request `meta` fields, the timestamp and the
  constant fields.
- `search` is assumed to receive `meta`; a missing `meta` makes `metadata`
  throw in the source.
- The quota error's message is represented by `QuotaExceeded`. Its reset
  time is rendered with the locale's `toLocaleTimeString`.
- ScopusSDK.Search: models the evidently intended dispatch. As written,
  the search fails with `GET request failed: ` plus a `TypeError` message
  whenever a walker that fetches is called. That is an all-pages search that
  is chunked or whose first page has a `next` link, or any search with
  results still wanted. `ScopusSDK.SearchAsWritten` states that outcome (see
  "## Findings").
- Collect: gives the intended walker calls. As written, the limited walker
  is imported under a name the walker file does not export, and the other
  walkers get no `infoObject`, so they throw. `CollectAsWritten` states
  where, and with which error.
- WriteChunks: gives the files the chunked walker is meant to write. As
  written, it receives no `infoObject` and throws (`src/sdk/utils/search.ts:344`)
  before writing any file.
- The `TypeError` messages are Node's wording for the CommonJS build; the
  TypeScript compile errors the misspelt import and the missing arguments
  raise are not modelled.
- `handleMultipleResultsChuncked` is modelled but `search` never calls it.
- QueryCompiler.SearchBuilder: tokens are strings. The source's in-place
  `query[i].toString()` for non-string tokens is not modelled.
- `ReplaceFirst` replaces the first `key...` with the expansion taken
  literally. JavaScript would interpret a `$` pattern inside the expansion.
- RequestParams.UrlEncodeQueryRoundTrip: the round trip is proved for ASCII
  queries only. Characters outside ASCII are encoded as UTF-8 but not
  decoded. Lone surrogates, on which `encodeURIComponent` throws, cannot
  occur in the model's strings.
- RequestParams.FormatNumberShape: the shape is proved below ten million.
  Fractional and negative numbers are not modelled: chunk windows are whole
  and non-negative.
- Normalise.QuoteIfNeededIdempotent: idempotence needs the term to have no
  line terminator. `QuoteIfNeededNotIdempotentAcrossLines` shows why.
- The autosave timestamp is a parameter of `AutosaveName`; the clock is not
  read.
- `handleCount` of `src/utils/search.ts` sets `limit`, a field that `search`
  does not read. The same holds for the `perPage` and `page` that the older
  `handleCount` sets (`LegacySearchOptions.HandleCount`): `search` reads
  neither. It is a one-line CLI step and is not modelled. The CLI
  wiring of both revisions is not modelled either (yargs, `getKey`/`setKey`,
  `testKey`, `saveAndSearch`).
- `testApi` and `wait` are not modelled; they are I/O and timers.

## Findings

| source | as written | input that shows it | evidently intended | confidence | as-written member | corrected member |
|---|---|---|---|---|---|---|
| src/sdk/scopusSDK.ts:108 | `search` calls `handleMultipleResutls`, which `src/sdk/utils/search.ts` does not export; the call throws a `TypeError`, rethrown as `GET request failed: …` | A Developer search for 100 results: 25 on the first page leave 75 for the limited walker | Call the exported `handleMultipleResults` | not executed; high | ScopusClient.CollectAsWritten | ScopusClient.Collect |
| src/sdk/scopusSDK.ts:97-105 | The chunked and all-pages walkers are called without `infoObject`. The chunked walker reads `infoObject.progress` (`src/sdk/utils/search.ts:344`) before writing any file. The all-pages walker sets `infoObject.endTime` (`src/sdk/utils/search.ts:306`) after its first request | Any chunked all-pages search, or an all-pages search whose first page has a `next` link | Pass the telemetry object, so the walkers run to the end | not executed; high | ScopusClient.CollectAsWritten | ScopusClient.RetrieveAllPages |
