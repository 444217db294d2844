/** The SDK client (src/sdk/scopusSDK.ts): one `search` call validates the
    request, plans the first page, assembles the request URL, fetches the
    first page and hands it to the pagination walkers. */
module ScopusClient {
  import opened Wrappers
  import opened Text
  import opened RequestParams
  import opened Pagination

  const BaseUrl := "https://api.elsevier.com/content"
  const ApiKeyHeader := "X-ELS-APIKey"

  /** The prefix every error leaving `search` is given. */
  const RequestFailed := "GET request failed: "

  /** The `X-ELS-Status` value of a quota refusal. */
  const QuotaStatus := "QUOTA_EXCEEDED"

  /** The request fields `search` reads; `None` stands for a field left
      out, which the defaults then fill in. */
  datatype SearchRequest = SearchRequest(
    query: string,
    view: Option<string>,
    toJson: Option<string>,
    retrieveAllPages: Option<bool>,
    resultsNumber: Option<int>,
    chunkSize: Option<int>,
    date: Option<string>,
    sort: Option<OneOrMany<Sorting>>,
    keyType: Option<KeyType>)

  /** The defaults of `search`'s parameters. */
  function ViewOf(req: SearchRequest): string { req.view.GetOr("STANDARD") }
  function AllPages(req: SearchRequest): bool { req.retrieveAllPages.GetOr(false) }
  function ResultsNumber(req: SearchRequest): int { req.resultsNumber.GetOr(25) }
  function Key(req: SearchRequest): KeyType { req.keyType.GetOr(Developer) }

  /** What a `search` call ends with. `Returned` carries the returned
      metadata, the chunk files written and the name of the full JSON file
      when one is written. `Failed` is an error with its message;
      `HttpFailed` stands for the message `GET request failed: ` followed by
      the HTTP client's description of the refused status;
      `QuotaExceeded` is the quota check's own error; `Exited` is the
      process exit of `checkLength`. */
  datatype Outcome =
    | Returned(output: Output, chunks: seq<ChunkFile>, saved: Option<string>)
    | Failed(message: string)
    | HttpFailed(status: int)
    | QuotaExceeded
    | Exited

  /** The HTTP client accepts the statuses 200 to 299. */
  predicate IsSuccess(status: int) {
    200 <= status < 300
  }

  // ---------------------------------------------------------------------
  // Request planning

  /** The largest page a key type may ask for. */
  function PageCap(keyType: KeyType): nat {
    if keyType == Institutional then 200 else 25
  }

  /** The first page's size and the number of results still wanted after
      it: the first page takes as many results as the key type allows, the
      rest is left to the follow-up requests. */
  function PagePlan(resultsNumber: int, keyType: KeyType): (plan: (int, int))
    ensures plan.0 + plan.1 == resultsNumber
    ensures plan.0 <= PageCap(keyType) && plan.1 >= 0
    ensures plan.1 > 0 ==> plan.0 == PageCap(keyType)
    ensures plan.1 > 0 <==> resultsNumber > PageCap(keyType)
  {
    var cap := PageCap(keyType);
    if resultsNumber < cap then (resultsNumber, 0) else (cap, resultsNumber - cap)
  }

  /** The cursor is used for an all-pages search with an Institutional
      key; every other search starts at offset 0. */
  function UseCursor(allPages: bool, keyType: KeyType): bool {
    allPages && keyType == Institutional
  }

  /** The query string of the search URL: the encoded query first, then
      the options. */
  function SearchParams(encodedQuery: string, view: string, useCursor: bool, perPage: int,
                        date: Option<string>, sort: Option<OneOrMany<Sorting>>): string
  {
    "query=" + encodedQuery + Options(view, useCursor, perPage, date, sort)
  }

  /** The view, then the paging parameters. */
  function Options(view: string, useCursor: bool, perPage: int,
                   date: Option<string>, sort: Option<OneOrMany<Sorting>>): string
  {
    "&view=" + view + PagingAndFilters(useCursor, perPage, date, sort)
  }

  /** `&cursor=*` or `&start=0`, the page size, then the filters. */
  function PagingAndFilters(useCursor: bool, perPage: int, date: Option<string>, sort: Option<OneOrMany<Sorting>>): string {
    Paging(useCursor) + Filters(perPage, date, sort)
  }

  function Paging(useCursor: bool): string {
    if useCursor then "&cursor=*" else "&start=0"
  }

  /** The page size, then the date range only when one is given and the
      sort only when one is given. */
  function Filters(perPage: int, date: Option<string>, sort: Option<OneOrMany<Sorting>>): string {
    "&count=" + IntToString(perPage)
    + (if Truthy(date) then "&date=" + date.value else "")
    + (if sort.Some? then "&sort=" + ParseSort(sort) else "")
  }

  function SearchUrl(baseUrl: string, params: string): string {
    baseUrl + "/search/scopus?" + params
  }

  /** The URL `search` requests first. */
  function RequestUrl(baseUrl: string, req: SearchRequest): string {
    var plan := PagePlan(ResultsNumber(req), Key(req));
    SearchUrl(baseUrl, SearchParams(UrlEncodeQuery(req.query), ViewOf(req), UseCursor(AllPages(req), Key(req)),
                                    plan.0, req.date, req.sort))
  }

  /** `a + b` splits back into `a` and `b`. */
  lemma SplitAt<T>(a: seq<T>, b: seq<T>)
    ensures (a + b)[..|a|] == a && (a + b)[|a|..] == b
  {
  }

  /** The query parameter comes first and ends at the first `&`: the
      encoded query holds no `&`, so no other parameter can be mistaken for
      part of it, and for ASCII text it decodes to the query. */
  lemma QueryParameterFirst(encodedQuery: string, q: string, view: string, useCursor: bool, perPage: int,
                            date: Option<string>, sort: Option<OneOrMany<Sorting>>)
    requires encodedQuery == UrlEncodeQuery(q)
    ensures var p := SearchParams(encodedQuery, view, useCursor, perPage, date, sort);
      && |p| > 6 + |encodedQuery| && p[..6] == "query=" && p[6..6 + |encodedQuery|] == encodedQuery
      && p[6 + |encodedQuery|] == '&'
    ensures forall i | 0 <= i < |encodedQuery| :: encodedQuery[i] != '&'
    ensures (forall i | 0 <= i < |q| :: IsAscii(q[i])) ==> DecodeQuery(encodedQuery) == q
  {
    UrlEncodeQuerySafe(q);
    if forall i | 0 <= i < |q| :: IsAscii(q[i]) {
      UrlEncodeQueryRoundTrip(q);
    }
    QueryParameterHead(encodedQuery, view, useCursor, perPage, date, sort);
  }

  lemma QueryParameterHead(encodedQuery: string, view: string, useCursor: bool, perPage: int,
                           date: Option<string>, sort: Option<OneOrMany<Sorting>>)
    ensures var p := SearchParams(encodedQuery, view, useCursor, perPage, date, sort);
      && |p| > 6 + |encodedQuery| && p[..6] == "query=" && p[6..6 + |encodedQuery|] == encodedQuery
      && p[6 + |encodedQuery|] == '&'
  {
    var head := "query=" + encodedQuery;
    var rest := Options(view, useCursor, perPage, date, sort);
    SplitAt(head, rest);
    SplitAt("query=", encodedQuery);
    assert rest[0] == '&';
  }

  /** After the query and the view comes the paging parameter: `&cursor=*`
      exactly for an all-pages search with an Institutional key, `&start=0`
      otherwise; the page size follows it. */
  lemma PagingParameter(encodedQuery: string, view: string, allPages: bool, keyType: KeyType, perPage: int,
                        date: Option<string>, sort: Option<OneOrMany<Sorting>>)
    ensures var p := SearchParams(encodedQuery, view, UseCursor(allPages, keyType), perPage, date, sort);
      var at := 6 + |encodedQuery| + 6 + |view|;
      && |p| >= at + |Paging(UseCursor(allPages, keyType))|
      && p[at..] == Paging(UseCursor(allPages, keyType)) + Filters(perPage, date, sort)
      && Paging(UseCursor(allPages, keyType)) == if allPages && keyType == Institutional then "&cursor=*" else "&start=0"
  {
    var cursor := UseCursor(allPages, keyType);
    var head := "query=" + encodedQuery;
    var view_ := "&view=" + view;
    var rest := PagingAndFilters(cursor, perPage, date, sort);
    SplitAt(head, view_ + rest);
    SplitAt(view_, rest);
    var p := SearchParams(encodedQuery, view, cursor, perPage, date, sort);
    assert p == head + (view_ + rest);
    assert p[|head|..] == view_ + rest;
    assert p[|head| + |view_|..] == rest;
  }

  /** A request that gives only a query asks the Developer tier for the
      first 25 results of the STANDARD view from offset 0, and leaves
      nothing to follow-up requests. */
  lemma DefaultRequest(q: string)
    ensures var req := SearchRequest(q, None, None, None, None, None, None, None, None);
      && PagePlan(ResultsNumber(req), Key(req)) == (25, 0)
      && RequestUrl(BaseUrl, req) == SearchUrl(BaseUrl, "query=" + UrlEncodeQuery(q) + "&view=STANDARD&start=0&count=25")
  {
    var req := SearchRequest(q, None, None, None, None, None, None, None, None);
    assert ViewOf(req) == "STANDARD" && !UseCursor(AllPages(req), Key(req));
    DefaultOptions();
  }

  lemma DefaultFilters()
    ensures Filters(25, None, None) == "&count=25"
  {
    assert IntToString(25) == "25";
  }

  lemma DefaultOptions()
    ensures Options("STANDARD", false, 25, None, None) == "&view=STANDARD&start=0&count=25"
  {
    DefaultFilters();
    assert PagingAndFilters(false, 25, None, None) == "&start=0&count=25";
  }

  // ---------------------------------------------------------------------
  // What a successful search returns

  /** The entries `search` returns after the first page: the walkers fill
      the first page's entry array in turn. The chunked walker empties it,
      so the all-pages walker that follows it starts from nothing. */
  function Gathered(server: string -> Reply, first: Page, allPages: bool, chunked: bool,
                    remaining: int, perPage: int, fuel: nat): seq<Entry>
  {
    var next := GetNext(first.links);
    var kept := if allPages && chunked then [] else first.entries;
    var afterAll := if allPages then kept + Entries(Walk(server, next, fuel)) else kept;
    if remaining > 0 then afterAll + Entries(LimitedWalk(server, next, remaining, perPage, fuel)) else afterAll
  }

  /** The entries of a prefix of the fetches are a prefix of the entries. */
  lemma {:induction false} EntriesPrefix(w: seq<Fetch>, all: seq<Fetch>)
    requires |w| <= |all| && w == all[..|w|]
    ensures Entries(w) <= Entries(all)
  {
    if w != [] {
      assert w[1..] == all[1..][..|w| - 1];
      EntriesPrefix(w[1..], all[1..]);
    }
  }

  /** A search that does not ask for all pages returns a prefix of what
      the plain all-pages search returns: the first page, then the pages
      its `next` links lead to, in order. */
  lemma LimitedSearchIsPrefix(server: string -> Reply, first: Page, chunked: bool,
                              remaining: int, perPage: int, fuel: nat)
    ensures Gathered(server, first, false, chunked, remaining, perPage, fuel)
         <= Gathered(server, first, true, false, 0, perPage, fuel)
  {
    var next := GetNext(first.links);
    LimitedWalkIsPrefix(server, next, remaining, perPage, fuel);
    EntriesPrefix(LimitedWalk(server, next, remaining, perPage, fuel), Walk(server, next, fuel));
    var some := if remaining > 0 then Entries(LimitedWalk(server, next, remaining, perPage, fuel)) else [];
    var all := Entries(Walk(server, next, fuel));
    assert some <= all;
    assert Gathered(server, first, false, chunked, remaining, perPage, fuel) == first.entries + some;
    assert Gathered(server, first, true, false, 0, perPage, fuel) == first.entries + all;
    PrefixAppend(first.entries, some, all);
  }

  lemma PrefixAppend<T>(a: seq<T>, b: seq<T>, c: seq<T>)
    requires b <= c
    ensures a + b <= a + c
  {
    assert (a + c)[..|a + b|] == a + b;
  }

  /** The SDK object: the API key, the endpoint and the request headers. */
  class ScopusSDK {
    var apiKey: string
    var baseUrl: string
    var headers: map<string, string>

    constructor (apiKey: string)
      ensures this.apiKey == apiKey && baseUrl == BaseUrl && headers == map[ApiKeyHeader := apiKey]
    {
      this.apiKey := apiKey;
      baseUrl := BaseUrl;
      headers := map[ApiKeyHeader := apiKey];
    }

    /** The page planning and URL assembly of `search`: the first page
        takes as many of the wanted results as the key type allows, the
        cursor is chosen for an all-pages Institutional search, and the URL
        is put together from the encoded query and the options. */
    method PlanRequest(req: SearchRequest) returns (perPage: int, remaining: int, url: string)
      ensures (perPage, remaining) == PagePlan(ResultsNumber(req), Key(req))
      ensures url == RequestUrl(baseUrl, req)
    {
      var encodedQuery := UrlEncodeQuery(req.query);
      var keyType := Key(req);
      remaining := ResultsNumber(req);
      perPage := 25;
      if keyType == Institutional {
        if remaining < 200 {
          perPage := remaining;
          remaining := 0;
        } else {
          perPage := 200;
          remaining := remaining - 200;
        }
      } else {
        if remaining < 25 {
          perPage := remaining;
          remaining := 0;
        } else {
          perPage := 25;
          remaining := remaining - 25;
        }
      }
      var useCursor := false;
      if AllPages(req) {
        if keyType == Institutional {
          useCursor := true;
        }
      }
      url := SearchUrl(baseUrl, SearchParams(encodedQuery, ViewOf(req), useCursor, perPage, req.date, req.sort));
    }

    /** `search` itself. `server` answers a GET request for a URL (the same
        URL always gets the same answer); every answer with a success
        status is taken to end its chain of `next` links within `fuel`
        requests. */
    method Search(server: string -> Reply, req: SearchRequest, ghost fuel: nat) returns (outcome: Outcome)
      requires var reply := server(RequestUrl(baseUrl, req));
        IsSuccess(reply.status) ==> Finishes(server, GetNext(reply.page.links), fuel)
      ensures var v := ValidateParameters(AllPages(req), req.chunkSize, req.toJson, Some(ResultsNumber(req)), Key(req));
        v.Rejected? ==> outcome == Failed(RequestFailed + v.message)
      ensures ValidateParameters(AllPages(req), req.chunkSize, req.toJson, Some(ResultsNumber(req)), Key(req)).Accepted? ==>
        var url := RequestUrl(baseUrl, req);
        var reply := server(url);
        && (!CheckLength(url) ==> outcome == Exited)
        && (CheckLength(url) && !IsSuccess(reply.status) ==>
              outcome == if reply.status == 429 && reply.elsStatus == QuotaStatus then QuotaExceeded else HttpFailed(reply.status))
        && (CheckLength(url) && IsSuccess(reply.status) ==> outcome.Returned?)
      ensures outcome.Returned? ==>
        var url := RequestUrl(baseUrl, req);
        var reply := server(url);
        var plan := PagePlan(ResultsNumber(req), Key(req));
        && CheckLength(url) && IsSuccess(reply.status)
        && Collected(server, reply.page, AllPages(req), req.chunkSize, req.toJson, plan.1, plan.0, fuel,
                     outcome.output, outcome.chunks)
        && outcome.saved == if Truthy(req.toJson) && !TruthyNumber(req.chunkSize) && reply.status == 200
                            then Some(req.toJson.value + ".json") else None
    {
      var validation := ValidateParameters(AllPages(req), req.chunkSize, req.toJson, Some(ResultsNumber(req)), Key(req));
      if validation.Rejected? {
        outcome := Failed(RequestFailed + validation.message);
        return;
      }
      var perPage, remaining, url := PlanRequest(req);
      if !CheckLength(url) {
        outcome := Exited;
        return;
      }
      var reply := server(url);
      if !IsSuccess(reply.status) {
        if reply.status == 429 && reply.elsStatus == QuotaStatus {
          outcome := QuotaExceeded;
        } else {
          outcome := HttpFailed(reply.status);
        }
        return;
      }
      var output, chunks := Collect(server, reply.page, AllPages(req), req.chunkSize, req.toJson, remaining, perPage, fuel);
      var saved := None;
      if Truthy(req.toJson) && !TruthyNumber(req.chunkSize) {
        if reply.status == 200 {
          saved := Some(req.toJson.value + ".json");
        }
      }
      outcome := Returned(output, chunks, saved);
    }

    /** `search` as the file is written: everything up to the walkers is
        `Search`, and a successful first response reaches the written
        dispatch. Where that throws (see `WrittenError`), the `catch` finds
        no response on the error, so the outcome is `GET request failed: `
        followed by the error's message; elsewhere the outcome is the one
        `Search` describes, without chunk files. */
    method SearchAsWritten(server: string -> Reply, req: SearchRequest, ghost fuel: nat) returns (outcome: Outcome)
      ensures var v := ValidateParameters(AllPages(req), req.chunkSize, req.toJson, Some(ResultsNumber(req)), Key(req));
        v.Rejected? ==> outcome == Failed(RequestFailed + v.message)
      ensures ValidateParameters(AllPages(req), req.chunkSize, req.toJson, Some(ResultsNumber(req)), Key(req)).Accepted? ==>
        var url := RequestUrl(baseUrl, req);
        var reply := server(url);
        var thrown := WrittenError(reply.page, AllPages(req), TruthyNumber(req.chunkSize), PagePlan(ResultsNumber(req), Key(req)).1);
        && (!CheckLength(url) ==> outcome == Exited)
        && (CheckLength(url) && !IsSuccess(reply.status) ==>
              outcome == if reply.status == 429 && reply.elsStatus == QuotaStatus then QuotaExceeded else HttpFailed(reply.status))
        && (CheckLength(url) && IsSuccess(reply.status) && thrown.Some? ==>
              outcome == Failed(RequestFailed + DispatchMessage(thrown.value)))
        && (CheckLength(url) && IsSuccess(reply.status) && thrown.None? ==> outcome.Returned?)
      ensures outcome.Returned? ==>
        var url := RequestUrl(baseUrl, req);
        var reply := server(url);
        var plan := PagePlan(ResultsNumber(req), Key(req));
        && CheckLength(url) && IsSuccess(reply.status)
        && Collected(server, reply.page, AllPages(req), req.chunkSize, req.toJson, plan.1, plan.0, fuel,
                     outcome.output, outcome.chunks)
        && outcome.saved == if Truthy(req.toJson) && !TruthyNumber(req.chunkSize) && reply.status == 200
                            then Some(req.toJson.value + ".json") else None
    {
      var validation := ValidateParameters(AllPages(req), req.chunkSize, req.toJson, Some(ResultsNumber(req)), Key(req));
      if validation.Rejected? {
        outcome := Failed(RequestFailed + validation.message);
        return;
      }
      var perPage, remaining, url := PlanRequest(req);
      if !CheckLength(url) {
        outcome := Exited;
        return;
      }
      var reply := server(url);
      if !IsSuccess(reply.status) {
        if reply.status == 429 && reply.elsStatus == QuotaStatus {
          outcome := QuotaExceeded;
        } else {
          outcome := HttpFailed(reply.status);
        }
        return;
      }
      var collected := CollectAsWritten(server, reply.page, AllPages(req), req.chunkSize, req.toJson, remaining, perPage, fuel);
      if collected.Failure? {
        outcome := Failed(RequestFailed + DispatchMessage(collected.error));
        return;
      }
      var saved := None;
      if Truthy(req.toJson) && !TruthyNumber(req.chunkSize) {
        if reply.status == 200 {
          saved := Some(req.toJson.value + ".json");
        }
      }
      outcome := Returned(collected.value, [], saved);
    }
  }

  /** The chunk files of an all-pages chunked search from the first page
      `first`: those `Plan` gives for the walk, holding every entry seen, in
      order, in windows contiguous from 1, only the last possibly short. */
  predicate ChunkedFrom(server: string -> Reply, first: Page, chunkSize: int, toJson: string, fuel: nat,
                        chunks: seq<ChunkFile>)
  {
    var fetched := Walk(server, GetNext(first.links), fuel);
    && chunks == Files(toJson, Plan(chunkSize, 0, first.entries, fetched, Some((first.startIndex, first.itemsPerPage))))
    && Flatten(chunks) == first.entries + Entries(fetched)
    && Contiguous(chunks, toJson) && FullBeforeLast(chunks, chunkSize) && |chunks| >= 1
  }

  /** The chunked walk over the object built from the first page `first`,
      as the search sees it: the files are those `ChunkedFrom` describes,
      and the object is left without entries, its `firstItem` the start of
      the last file's window. */
  method WriteChunks(server: string -> Reply, data: SearchResults, chunkSize: int, toJson: string,
                     ghost first: Page, ghost fuel: nat)
    returns (output: Output, chunks: seq<ChunkFile>)
    requires data.entries == first.entries && data.links == first.links
    requires data.startIndex == first.startIndex && data.itemsPerPage == first.itemsPerPage
    requires Finishes(server, GetNext(first.links), fuel)
    modifies data
    ensures ChunkedFrom(server, first, chunkSize, toJson, fuel, chunks)
    ensures data.entries == [] && data.startIndex == IntToString(|Flatten(chunks[..|chunks| - 1])|)
    ensures data.totalResults == old(data.totalResults) && data.links == old(data.links)
    ensures output == Metadata(data, Original)
  {
    output, chunks := HandleAllPagesInChunks(server, data, chunkSize, toJson, fuel);
    LastWindow(data, chunks);
  }

  /** The all-pages part of the dispatch, over the object built from the
      first page `first`: the chunked walker when a chunk size is given,
      then the all-pages walker. The object is left with the entries
      `Gathered` describes before the limited walker, `itemsPerPage` the
      total, and `startIndex` the start of the last chunk's window after a
      chunked walk, the first page's otherwise. */
  method RetrieveAllPages(server: string -> Reply, data: SearchResults, chunkSize: Option<int>, toJson: Option<string>,
                          ghost first: Page, ghost fuel: nat)
    returns (output: Output, chunks: seq<ChunkFile>)
    requires data.entries == first.entries && data.links == first.links && data.totalResults == first.totalResults
    requires data.startIndex == first.startIndex && data.itemsPerPage == first.itemsPerPage
    requires Finishes(server, GetNext(first.links), fuel)
    requires TruthyNumber(chunkSize) ==> Truthy(toJson)
    modifies data
    ensures data.links == first.links && data.totalResults == first.totalResults
    ensures data.entries == Gathered(server, first, true, TruthyNumber(chunkSize), 0, 0, fuel)
    ensures data.itemsPerPage == first.totalResults
    ensures TruthyNumber(chunkSize) ==>
      && ChunkedFrom(server, first, chunkSize.value, toJson.value, fuel, chunks)
      && data.startIndex == IntToString(|Flatten(chunks[..|chunks| - 1])|)
    ensures !TruthyNumber(chunkSize) ==> chunks == [] && data.startIndex == first.startIndex
    ensures output == Metadata(data, Original)
  {
    chunks := [];
    if TruthyNumber(chunkSize) {
      output, chunks := WriteChunks(server, data, chunkSize.value, toJson.value, first, fuel);
    }
    output := HandleAllPages(server, data, fuel);
  }

  /** What the walkers leave after the first page `first`: the returned
      entries are those `Gathered` describes, the total is the first page's,
      `itemsPerPage` is last set by the limited walker, else by the
      all-pages walker, else it is the first page's; the chunk files of an
      all-pages chunked search are those `Plan` describes, holding every
      entry seen in windows contiguous from 1, and no other search writes
      any. `firstItem` is the start of the last chunk's window after a
      chunked search (the chunked walker leaves it there and the later
      walkers keep it), the first page's otherwise. */
  predicate Collected(server: string -> Reply, first: Page, allPages: bool, chunkSize: Option<int>, toJson: Option<string>,
                      remaining: int, perPage: int, fuel: nat, output: Output, chunks: seq<ChunkFile>)
  {
    var next := GetNext(first.links);
    var chunked := allPages && TruthyNumber(chunkSize);
    && output.results == Gathered(server, first, allPages, TruthyNumber(chunkSize), remaining, perPage, fuel)
    && output.totalResults == first.totalResults && output.sourceFormat == Original
    && output.resultsPerPage
       == (if remaining > 0 then IntToString(perPage * (|LimitedWalk(server, next, remaining, perPage, fuel)| + 1))
           else if allPages then first.totalResults
           else first.itemsPerPage)
    && (chunked ==> && toJson.Some? && chunkSize.Some?
                    && ChunkedFrom(server, first, chunkSize.value, toJson.value, fuel, chunks)
                    && output.firstItem == IntToString(|Flatten(chunks[..|chunks| - 1])|))
    && (!chunked ==> chunks == [] && output.firstItem == first.startIndex)
  }

  /** The walker dispatch of `search`: the first page's results object is
      handed to the chunked walker and then to the all-pages walker when all
      pages are asked for, and to the limited walker when results are still
      wanted. A chunk size always comes with an output file here, as the
      validation ensures. */
  method Collect(server: string -> Reply, first: Page, allPages: bool, chunkSize: Option<int>, toJson: Option<string>,
                 remaining: int, perPage: int, ghost fuel: nat)
    returns (output: Output, chunks: seq<ChunkFile>)
    requires Finishes(server, GetNext(first.links), fuel)
    requires TruthyNumber(chunkSize) ==> Truthy(toJson)
    ensures Collected(server, first, allPages, chunkSize, toJson, remaining, perPage, fuel, output, chunks)
  {
    var data := new SearchResults.FromPage(first);
    output := Metadata(data, Original);
    chunks := [];
    if allPages {
      output, chunks := RetrieveAllPages(server, data, chunkSize, toJson, first, fuel);
    }
    ghost var mid, firstItem := data.entries, data.startIndex;
    if remaining > 0 {
      output := HandleMultipleResults(server, data, remaining, perPage, fuel);
    }
    CollectedOf(server, first, allPages, chunkSize, toJson, remaining, perPage, fuel, output, chunks, mid, firstItem);
  }

  /** `Collected`, from what the all-pages part leaves (`mid`, `firstItem`)
      and what the limited walker then does. */
  lemma CollectedOf(server: string -> Reply, first: Page, allPages: bool, chunkSize: Option<int>, toJson: Option<string>,
                    remaining: int, perPage: int, fuel: nat, output: Output, chunks: seq<ChunkFile>,
                    mid: seq<Entry>, firstItem: string)
    requires mid == Gathered(server, first, allPages, TruthyNumber(chunkSize), 0, perPage, fuel)
    requires var next := GetNext(first.links);
      output.results == if remaining > 0 then mid + Entries(LimitedWalk(server, next, remaining, perPage, fuel)) else mid
    requires output.totalResults == first.totalResults && output.sourceFormat == Original && output.firstItem == firstItem
    requires output.resultsPerPage
       == (if remaining > 0 then IntToString(perPage * (|LimitedWalk(server, GetNext(first.links), remaining, perPage, fuel)| + 1))
           else if allPages then first.totalResults
           else first.itemsPerPage)
    requires allPages && TruthyNumber(chunkSize) ==>
      && toJson.Some? && chunkSize.Some?
      && ChunkedFrom(server, first, chunkSize.value, toJson.value, fuel, chunks)
      && firstItem == IntToString(|Flatten(chunks[..|chunks| - 1])|)
    requires !(allPages && TruthyNumber(chunkSize)) ==> chunks == [] && firstItem == first.startIndex
    ensures Collected(server, first, allPages, chunkSize, toJson, remaining, perPage, fuel, output, chunks)
  {
  }

  // ---------------------------------------------------------------------
  // The dispatch as the file is written

  /** The errors the written dispatch throws. The walkers are called
      without their `infoObject` argument: the chunked walker fails reading
      `infoObject.progress` before its first check, and the all-pages walker
      fails setting `infoObject.endTime` after its first request. The
      limited walker is imported as `handleMultipleResutls`, a name the
      walker file does not export, so calling it fails. */
  datatype DispatchError = ProgressOfUndefined | EndTimeOfUndefined | LimitedWalkerMissing

  /** The message of each `TypeError`, as Node words it for the CommonJS
      build. */
  function DispatchMessage(e: DispatchError): string {
    match e
    case ProgressOfUndefined => "Cannot read properties of undefined (reading 'progress')"
    case EndTimeOfUndefined => "Cannot set properties of undefined (setting 'endTime')"
    case LimitedWalkerMissing => "(0 , search_1.handleMultipleResutls) is not a function"
  }

  /** The error the written dispatch throws after the first page `first`,
      if any: the first walker call that fails, in the order they are
      made. */
  function WrittenError(first: Page, allPages: bool, chunked: bool, remaining: int): Option<DispatchError> {
    if allPages && chunked then Some(ProgressOfUndefined)
    else if allPages && GetNext(first.links).Some? then Some(EndTimeOfUndefined)
    else if remaining > 0 then Some(LimitedWalkerMissing)
    else None
  }

  /** A Developer search for 100 results leaves 75 for the limited walker,
      so the written dispatch throws whatever the first page holds. */
  lemma HundredResultsThrow(first: Page)
    ensures PagePlan(100, Developer) == (25, 75)
    ensures WrittenError(first, false, false, PagePlan(100, Developer).1) == Some(LimitedWalkerMissing)
  {
  }

  /** `handleAllPages` called without `infoObject`: with a `next` link it
      makes its first request and then throws before the page's entries are
      pushed; with none it only sets `itemsPerPage`, as the intended walker
      does. */
  method HandleAllPagesWithoutInfo(server: string -> Reply, data: SearchResults)
    returns (result: Result<Output, DispatchError>)
    modifies data
    ensures result.Failure? <==> GetNext(old(data.links)).Some?
    ensures result.Failure? ==> result.error == EndTimeOfUndefined && unchanged(data)
    ensures result.Success? ==>
      && data.entries == old(data.entries) && data.itemsPerPage == data.totalResults == old(data.totalResults)
      && data.links == old(data.links) && data.startIndex == old(data.startIndex)
      && result.value == Metadata(data, Original)
  {
    var next := GetNext(data.links);
    if next.Some? {
      var reply := server(next.value.href);
      result := Failure(EndTimeOfUndefined);
      return;
    }
    data.itemsPerPage := data.totalResults;
    result := Success(Metadata(data, Original));
  }

  /** The walker dispatch of `search` as the file is written. It throws
      exactly when a walker that fetches is called: an all-pages search
      that is chunked or whose first page has a `next` link, or a search
      with results still wanted; the error is the one `WrittenError` names.
      Where it does not throw, it returns what the intended dispatch
      (`Collect`) returns, with no chunk files. */
  method CollectAsWritten(server: string -> Reply, first: Page, allPages: bool, chunkSize: Option<int>,
                          toJson: Option<string>, remaining: int, perPage: int, ghost fuel: nat)
    returns (result: Result<Output, DispatchError>)
    ensures result.Failure? <==> (allPages && (TruthyNumber(chunkSize) || GetNext(first.links).Some?)) || remaining > 0
    ensures result.Failure? ==> Some(result.error) == WrittenError(first, allPages, TruthyNumber(chunkSize), remaining)
    ensures result.Success? ==>
      Collected(server, first, allPages, chunkSize, toJson, remaining, perPage, fuel, result.value, [])
  {
    var data := new SearchResults.FromPage(first);
    var output := Metadata(data, Original);
    if allPages {
      if TruthyNumber(chunkSize) {
        result := Failure(ProgressOfUndefined);
        return;
      }
      result := HandleAllPagesWithoutInfo(server, data);
      if result.Failure? {
        return;
      }
      output := result.value;
    }
    if remaining > 0 {
      result := Failure(LimitedWalkerMissing);
      return;
    }
    result := Success(output);
  }
}
