/** The pagination walkers of the SDK (src/sdk/utils/search.ts): starting
    from the first result page, they follow `next` links, gather the entries
    of every page into the first page's object, and, in the chunked
    variants, flush the gathered entries into numbered chunk files. */
module Pagination {
  import opened Wrappers
  import opened Text
  import opened RequestParams

  /** A search result; only its identity matters here. */
  datatype Entry = Entry(eid: string)

  /** The `search-results` part of a response page. The counters are
      strings, as the API sends them. */
  datatype Page = Page(totalResults: string, startIndex: string, itemsPerPage: string,
                       links: seq<Link>, entries: seq<Entry>)

  /** A response: its HTTP status, the `X-ELS-Status` header and the page. */
  datatype Reply = Reply(status: int, elsStatus: string, page: Page)

  /** The `search-results` object of the first response, which every walker
      updates in place: entries are pushed onto it and its counters are
      overwritten. */
  class SearchResults {
    var totalResults: string
    var startIndex: string
    var itemsPerPage: string
    var links: seq<Link>
    var entries: seq<Entry>

    constructor FromPage(p: Page)
      ensures totalResults == p.totalResults && startIndex == p.startIndex && itemsPerPage == p.itemsPerPage
      ensures links == p.links && entries == p.entries
    {
      totalResults := p.totalResults;
      startIndex := p.startIndex;
      itemsPerPage := p.itemsPerPage;
      links := p.links;
      entries := p.entries;
    }
  }

  /** `sourceFormat` of the metadata. */
  datatype Format = Original | Chunk

  /** The part of `metadata`'s output read from the results object: the
      counters and the entry array. */
  datatype Output = Output(totalResults: string, resultsPerPage: string, firstItem: string,
                           sourceFormat: Format, results: seq<Entry>)

  function Metadata(data: SearchResults, format: Format): (out: Output)
    reads data
    ensures out.results == data.entries && out.sourceFormat == format
  {
    Output(data.totalResults, data.itemsPerPage, data.startIndex, format, data.entries)
  }

  // ---------------------------------------------------------------------
  // The walks the loops perform.

  /** One request of a walk: the URL and the answer. */
  datatype Fetch = Fetch(url: string, reply: Reply)

  /** Following `next` links ends within `fuel` requests. The API is
      expected to end its chain of result pages; this is what the walkers
      rely on to stop. */
  predicate Finishes(server: string -> Reply, next: Option<Link>, fuel: nat)
    decreases fuel
  {
    next.None? || (fuel > 0 && Finishes(server, GetNext(server(next.value.href).page.links), fuel - 1))
  }

  /** The requests made by following `next` links until a page has none
      (or `fuel` runs out). */
  function Walk(server: string -> Reply, next: Option<Link>, fuel: nat): seq<Fetch>
    decreases fuel
  {
    if next.None? || fuel == 0 then []
    else
      var reply := server(next.value.href);
      [Fetch(next.value.href, reply)] + Walk(server, GetNext(reply.page.links), fuel - 1)
  }

  /** The walk of `handleMultipleResults`: the same walk, stopped as well
      once `limit`, lowered by `perPage` per request, is no longer
      positive. */
  function LimitedWalk(server: string -> Reply, next: Option<Link>, limit: int, perPage: int, fuel: nat): seq<Fetch>
    decreases fuel
  {
    if next.None? || fuel == 0 || limit <= 0 then []
    else
      var reply := server(next.value.href);
      [Fetch(next.value.href, reply)] + LimitedWalk(server, GetNext(reply.page.links), limit - perPage, perPage, fuel - 1)
  }

  /** The entries of the fetched pages, in fetch order. */
  function Entries(fetches: seq<Fetch>): seq<Entry> {
    if fetches == [] then [] else fetches[0].reply.page.entries + Entries(fetches[1..])
  }

  lemma AppendAssoc<T>(a: seq<T>, b: seq<T>, c: seq<T>)
    ensures (a + b) + c == a + (b + c)
  {
  }

  lemma AppendEmpty<T>(a: seq<T>)
    ensures a + [] == a
  {
  }

  lemma MulStep(a: int, n: int)
    ensures a * (n + 1) == a * n + a
  {
  }

  /** What a walk's first request contributes. */
  lemma FirstFetch(fetches: seq<Fetch>, f: Fetch, rest: seq<Fetch>)
    requires fetches == [f] + rest
    ensures Entries(fetches) == f.reply.page.entries + Entries(rest)
  {
    assert fetches[1..] == rest;
  }

  /** The `next` link of a chain that ends is followed by one that ends
      sooner. */
  lemma FinishesStep(server: string -> Reply, next: Option<Link>, fuel: nat, reply: Reply)
    requires next.Some? && Finishes(server, next, fuel) && reply == server(next.value.href)
    ensures fuel > 0 && Finishes(server, GetNext(reply.page.links), fuel - 1)
  {
  }

  /** A walk with requests left makes one for the `next` link and goes on
      from the links of the answer. */
  lemma WalkStep(server: string -> Reply, next: Option<Link>, fuel: nat, reply: Reply)
    requires fuel > 0 && next.Some? && reply == server(next.value.href)
    ensures var rest := Walk(server, GetNext(reply.page.links), fuel - 1);
      && Entries(Walk(server, next, fuel)) == reply.page.entries + Entries(rest)
      && |Walk(server, next, fuel)| == 1 + |rest|
  {
    FirstFetch(Walk(server, next, fuel), Fetch(next.value.href, reply), Walk(server, GetNext(reply.page.links), fuel - 1));
  }

  /** One round of the limited walk: the page fetched from `next` moves
      from what is to come to what is done. */
  lemma LimitedStep(server: string -> Reply, next: Option<Link>, remaining: int, perPage: int, left: nat, reply: Reply)
    requires Finishes(server, next, left) && remaining > 0 && next.Some? && reply == server(next.value.href)
    ensures left > 0 && Finishes(server, GetNext(reply.page.links), left - 1)
    ensures var rest := LimitedWalk(server, GetNext(reply.page.links), remaining - perPage, perPage, left - 1);
      && Entries(LimitedWalk(server, next, remaining, perPage, left)) == reply.page.entries + Entries(rest)
      && |LimitedWalk(server, next, remaining, perPage, left)| == 1 + |rest|
  {
    FinishesStep(server, next, left, reply);
    FirstFetch(LimitedWalk(server, next, remaining, perPage, left), Fetch(next.value.href, reply),
      LimitedWalk(server, GetNext(reply.page.links), remaining - perPage, perPage, left - 1));
  }

  /** Pushing a page's entries keeps `done + to come == total`. */
  lemma Pushed<T>(done: seq<T>, page: seq<T>, rest: seq<T>, total: seq<T>)
    requires done + (page + rest) == total
    ensures (done + page) + rest == total
  {
    AppendAssoc(done, page, rest);
  }

  /** The limited walk fetches a prefix of what the unlimited one fetches,
      and the same pages when the limit is never reached. */
  lemma {:induction false} LimitedWalkIsPrefix(server: string -> Reply, next: Option<Link>, limit: int, perPage: int, fuel: nat)
    ensures var w := LimitedWalk(server, next, limit, perPage, fuel);
      |w| <= |Walk(server, next, fuel)| && w == Walk(server, next, fuel)[..|w|]
    decreases fuel
  {
    if next.Some? && fuel > 0 && limit > 0 {
      var reply := server(next.value.href);
      LimitedWalkIsPrefix(server, GetNext(reply.page.links), limit - perPage, perPage, fuel - 1);
    }
  }

  /** With a positive page size, the limited walk makes at most
      ⌈limit / perPage⌉ requests (none for a limit that is not positive). */
  lemma {:induction false} LimitedWalkBound(server: string -> Reply, next: Option<Link>, limit: int, perPage: int, fuel: nat)
    requires perPage > 0
    ensures |LimitedWalk(server, next, limit, perPage, fuel)| * perPage < (if limit > 0 then limit else 0) + perPage
    decreases fuel
  {
    if next.Some? && fuel > 0 && limit > 0 {
      var reply := server(next.value.href);
      var n := |LimitedWalk(server, GetNext(reply.page.links), limit - perPage, perPage, fuel - 1)|;
      LimitedWalkBound(server, GetNext(reply.page.links), limit - perPage, perPage, fuel - 1);
      MulStep(perPage, n);
      assert (n + 1) * perPage == n * perPage + perPage;
    }
  }

  // ---------------------------------------------------------------------
  // handleAllPages

  /** `handleAllPages`: every page reached through `next` links is fetched
      once, its entries appended in fetch order; then `itemsPerPage` is set
      to `totalResults`. */
  method HandleAllPages(server: string -> Reply, data: SearchResults, ghost fuel: nat) returns (result: Output)
    requires Finishes(server, GetNext(data.links), fuel)
    modifies data
    ensures var fetched := Walk(server, GetNext(old(data.links)), fuel);
      && data.entries == old(data.entries) + Entries(fetched)
    ensures data.itemsPerPage == data.totalResults == old(data.totalResults)
    ensures data.links == old(data.links) && data.startIndex == old(data.startIndex)
    ensures result == Metadata(data, Original)
  {
    var next := GetNext(data.links);
    ghost var total := Entries(Walk(server, next, fuel));
    ghost var entries0 := data.entries;
    ghost var left := fuel;
    while next.Some?
      invariant Finishes(server, next, left)
      invariant data.entries + Entries(Walk(server, next, left)) == entries0 + total
      invariant data.totalResults == old(data.totalResults) && data.links == old(data.links)
      invariant data.startIndex == old(data.startIndex)
      decreases left
    {
      var reply := server(next.value.href);
      FinishesStep(server, next, left, reply);
      WalkStep(server, next, left, reply);
      ghost var rest := Walk(server, GetNext(reply.page.links), left - 1);
      Pushed(data.entries, reply.page.entries, Entries(rest), entries0 + total);
      data.entries := data.entries + reply.page.entries;
      next := GetNext(reply.page.links);
      left := left - 1;
    }
    AppendEmpty(data.entries);
    data.itemsPerPage := data.totalResults;
    result := Metadata(data, Original);
  }

  // ---------------------------------------------------------------------
  // handleMultipleResults

  /** `handleMultipleResults`: pages are fetched while the limit is positive
      and a `next` link exists, the limit dropping by `perPage` each time;
      `itemsPerPage` then reports `perPage` times one more than the number
      of requests. */
  method HandleMultipleResults(server: string -> Reply, data: SearchResults, limit: int, perPage: int, ghost fuel: nat)
    returns (result: Output)
    requires Finishes(server, GetNext(data.links), fuel)
    modifies data
    ensures var fetched := LimitedWalk(server, GetNext(old(data.links)), limit, perPage, fuel);
      && data.entries == old(data.entries) + Entries(fetched)
      && data.itemsPerPage == IntToString(perPage * (|fetched| + 1))
    ensures data.totalResults == old(data.totalResults) && data.links == old(data.links)
    ensures data.startIndex == old(data.startIndex)
    ensures result == Metadata(data, Original)
  {
    var next := GetNext(data.links);
    var remaining := limit;
    var totalResults := perPage;
    ghost var walk := LimitedWalk(server, next, limit, perPage, fuel);
    ghost var total := Entries(walk);
    ghost var entries0 := data.entries;
    ghost var left := fuel;
    ghost var count: nat := 0;
    while remaining > 0 && next.Some?
      invariant Finishes(server, next, left)
      invariant data.entries + Entries(LimitedWalk(server, next, remaining, perPage, left)) == entries0 + total
      invariant count + |LimitedWalk(server, next, remaining, perPage, left)| == |walk|
      invariant totalResults == perPage * (count + 1)
      invariant data.totalResults == old(data.totalResults) && data.links == old(data.links)
      invariant data.startIndex == old(data.startIndex)
      decreases left
    {
      var reply := server(next.value.href);
      LimitedStep(server, next, remaining, perPage, left, reply);
      ghost var rest := LimitedWalk(server, GetNext(reply.page.links), remaining - perPage, perPage, left - 1);
      Pushed(data.entries, reply.page.entries, Entries(rest), entries0 + total);
      MulStep(perPage, count + 1);
      data.entries := data.entries + reply.page.entries;
      totalResults := totalResults + perPage;
      remaining := remaining - perPage;
      next := GetNext(reply.page.links);
      left, count := left - 1, count + 1;
    }
    AppendEmpty(data.entries);
    data.itemsPerPage := IntToString(totalResults);
    result := Metadata(data, Original);
  }

  // ---------------------------------------------------------------------
  // Chunk files.

  /** A written chunk file: its name and the metadata and entries it
      holds. */
  datatype ChunkFile = ChunkFile(name: string, firstItem: string, resultsPerPage: string, results: seq<Entry>)

  /** `<toJson>-<first>-<last>.json` for the 1-based window `first..last`. */
  function ChunkName(toJson: string, start: nat, end: nat): string {
    toJson + "-" + FormatNumber(start + 1) + "-" + FormatNumber(end) + ".json"
  }

  /** The entries of the chunk files, in order. */
  function Flatten(files: seq<ChunkFile>): seq<Entry> {
    if files == [] then [] else files[0].results + Flatten(files[1..])
  }

  lemma {:induction false} FlattenAppend(a: seq<ChunkFile>, b: seq<ChunkFile>)
    ensures Flatten(a + b) == Flatten(a) + Flatten(b)
    decreases |a|
  {
    if a == [] {
      assert a + b == b;
    } else {
      assert (a + b)[1..] == a[1..] + b;
      FlattenAppend(a[1..], b);
      AppendAssoc(a[0].results, Flatten(a[1..]), Flatten(b));
    }
  }

  lemma FlattenSnoc(files: seq<ChunkFile>, f: ChunkFile)
    ensures Flatten(files + [f]) == Flatten(files) + f.results
  {
    FlattenAppend(files, [f]);
    assert [f][1..] == [];
    AppendEmpty(f.results);
  }

  /** Each file is named after the window of its entries, the windows
      following one another from `start + 1`. */
  predicate ContiguousFrom(files: seq<ChunkFile>, toJson: string, start: nat)
    decreases |files|
  {
    files == [] ||
    (&& files[0].name == ChunkName(toJson, start, start + |files[0].results|)
     && ContiguousFrom(files[1..], toJson, start + |files[0].results|))
  }

  /** The windows of the files follow one another from 1. */
  predicate Contiguous(files: seq<ChunkFile>, toJson: string) {
    ContiguousFrom(files, toJson, 0)
  }

  /** Every file but the last holds at least `chunkSize` entries. */
  predicate FullBeforeLast(files: seq<ChunkFile>, chunkSize: int) {
    forall k | 0 <= k < |files| - 1 :: |files[k].results| >= chunkSize
  }

  // ---------------------------------------------------------------------
  // Where a chunked walk cuts, independently of its loop.

  /** One flush as the plan sees it: the 0-based start of its window, the
      entries written, and the first page's counters when the flush reads
      the metadata before setting them. */
  datatype Cut = Cut(start: nat, entries: seq<Entry>, read: Option<(string, string)>)

  /** The file a cut becomes: named after its window, its metadata the
      counters read before they were set, or else the window's own 0-based
      start and size (what the counters hold once set). */
  function FileOf(toJson: string, cut: Cut): ChunkFile {
    ChunkFile(ChunkName(toJson, cut.start, cut.start + |cut.entries|),
              if cut.read.Some? then cut.read.value.0 else IntToString(cut.start),
              if cut.read.Some? then cut.read.value.1 else IntToString(|cut.entries|),
              cut.entries)
  }

  /** The files the cuts become, in order. */
  function Files(toJson: string, cuts: seq<Cut>): (files: seq<ChunkFile>)
    ensures |files| == |cuts|
    ensures forall k | 0 <= k < |cuts| :: files[k].results == cuts[k].entries
  {
    if cuts == [] then [] else [FileOf(toJson, cuts[0])] + Files(toJson, cuts[1..])
  }

  lemma {:induction false} FilesAppend(toJson: string, a: seq<Cut>, b: seq<Cut>)
    ensures Files(toJson, a + b) == Files(toJson, a) + Files(toJson, b)
    decreases |a|
  {
    if a != [] {
      assert (a + b)[1..] == a[1..] + b;
      FilesAppend(toJson, a[1..], b);
    } else {
      assert a + b == b;
    }
  }

  lemma FilesSingle(toJson: string, cut: Cut)
    ensures Files(toJson, [cut]) == [FileOf(toJson, cut)]
  {
    assert [cut][1..] == [];
  }

  /** The entries of the cuts, in order. */
  function CutEntries(cuts: seq<Cut>): seq<Entry> {
    if cuts == [] then [] else cuts[0].entries + CutEntries(cuts[1..])
  }

  /** The cuts' windows follow one another from `start`. */
  predicate CutsFrom(cuts: seq<Cut>, start: nat)
    decreases |cuts|
  {
    cuts == [] || (cuts[0].start == start && CutsFrom(cuts[1..], start + |cuts[0].entries|))
  }

  /** Every cut but the last holds at least `chunkSize` entries. */
  predicate CutsFull(cuts: seq<Cut>, chunkSize: int) {
    forall k | 0 <= k < |cuts| - 1 :: |cuts[k].entries| >= chunkSize
  }

  /** The walk cuts after the first check that finds `buffer` (which has
      just grown, or is the first page's entries) holding at least
      `chunkSize` entries, and at the last check, made when no request is
      left; `fetches` are the requests still to come, whose entries join the
      buffer one page at a time. `read` is given for the check before the
      first request, which reads the metadata before setting the
      counters. */
  function Plan(chunkSize: int, start: nat, buffer: seq<Entry>, fetches: seq<Fetch>,
                read: Option<(string, string)>): seq<Cut>
    decreases |fetches|, 1
  {
    if |buffer| >= chunkSize || fetches == [] then
      [Cut(start, buffer, read)] + Rest(chunkSize, start + |buffer|, [], fetches)
    else
      Rest(chunkSize, start, buffer, fetches)
  }

  /** The cuts still to come after a check: the next page's entries join
      `buffer`, and the plan goes on from there. */
  function Rest(chunkSize: int, start: nat, buffer: seq<Entry>, fetches: seq<Fetch>): seq<Cut>
    decreases |fetches|, 0
  {
    if fetches == [] then []
    else Plan(chunkSize, start, buffer + fetches[0].reply.page.entries, fetches[1..], None)
  }

  /** A check that finds the buffer full, or the walk over, cuts. */
  lemma PlanFlushes(chunkSize: int, start: nat, buffer: seq<Entry>, fetches: seq<Fetch>, read: Option<(string, string)>)
    requires |buffer| >= chunkSize || fetches == []
    ensures Plan(chunkSize, start, buffer, fetches, read)
         == [Cut(start, buffer, read)] + Rest(chunkSize, start + |buffer|, [], fetches)
  {
  }

  /** A check that finds the buffer short of `chunkSize`, with requests to
      come, does not cut. */
  lemma PlanWaits(chunkSize: int, start: nat, buffer: seq<Entry>, fetches: seq<Fetch>, read: Option<(string, string)>)
    requires |buffer| < chunkSize && fetches != []
    ensures Plan(chunkSize, start, buffer, fetches, read) == Rest(chunkSize, start, buffer, fetches)
  {
  }

  lemma RestStep(chunkSize: int, start: nat, buffer: seq<Entry>, f: Fetch, later: seq<Fetch>)
    ensures Rest(chunkSize, start, buffer, [f] + later)
         == Plan(chunkSize, start, buffer + f.reply.page.entries, later, None)
  {
    assert ([f] + later)[1..] == later;
  }

  /** What a check leaves written, followed by the files still to come, is
      what the plan writes from that check on. */
  lemma Checked(toJson: string, chunkSize: int, start: nat, written: seq<ChunkFile>, buffer: seq<Entry>,
                fetches: seq<Fetch>, read: Option<(string, string)>,
                files: seq<ChunkFile>, startAfter: nat, bufferAfter: seq<Entry>)
    requires |buffer| >= chunkSize || fetches == [] ==>
      files == written + [FileOf(toJson, Cut(start, buffer, read))] && startAfter == start + |buffer| && bufferAfter == []
    requires |buffer| < chunkSize && fetches != [] ==>
      files == written && startAfter == start && bufferAfter == buffer
    ensures files + Files(toJson, Rest(chunkSize, startAfter, bufferAfter, fetches))
         == written + Files(toJson, Plan(chunkSize, start, buffer, fetches, read))
  {
    var rest := Rest(chunkSize, startAfter, bufferAfter, fetches);
    if |buffer| >= chunkSize || fetches == [] {
      var cut := Cut(start, buffer, read);
      PlanFlushes(chunkSize, start, buffer, fetches, read);
      FilesAppend(toJson, [cut], rest);
      FilesSingle(toJson, cut);
      AppendAssoc(written, [FileOf(toJson, cut)], Files(toJson, rest));
    } else {
      PlanWaits(chunkSize, start, buffer, fetches, read);
    }
  }

  /** The plan cuts at least once: the last check always cuts. */
  lemma {:induction false} PlanNonEmpty(chunkSize: int, start: nat, buffer: seq<Entry>, fetches: seq<Fetch>,
                                        read: Option<(string, string)>)
    ensures |Plan(chunkSize, start, buffer, fetches, read)| >= 1
    decreases |fetches|
  {
    if |buffer| < chunkSize && fetches != [] {
      PlanNonEmpty(chunkSize, start, buffer + fetches[0].reply.page.entries, fetches[1..], None);
    }
  }

  /** The cuts hold every entry once and in order. */
  lemma {:induction false} PlanEntries(chunkSize: int, start: nat, buffer: seq<Entry>, fetches: seq<Fetch>,
                                       read: Option<(string, string)>)
    ensures CutEntries(Plan(chunkSize, start, buffer, fetches, read)) == buffer + Entries(fetches)
    decreases |fetches|
  {
    var cuts := Plan(chunkSize, start, buffer, fetches, read);
    if fetches == [] {
      assert cuts == [Cut(start, buffer, read)];
      assert cuts[1..] == [];
      AppendEmpty(buffer);
    } else {
      var page, later := fetches[0].reply.page.entries, fetches[1..];
      assert Entries(fetches) == page + Entries(later);
      AppendAssoc(buffer, page, Entries(later));
      if |buffer| >= chunkSize {
        var rest := Plan(chunkSize, start + |buffer|, [] + page, later, None);
        assert [] + page == page;
        PlanFlushes(chunkSize, start, buffer, fetches, read);
        assert cuts == [Cut(start, buffer, read)] + rest;
        assert cuts[1..] == rest;
        PlanEntries(chunkSize, start + |buffer|, [] + page, later, None);
      } else {
        PlanWaits(chunkSize, start, buffer, fetches, read);
        assert cuts == Plan(chunkSize, start, buffer + page, later, None);
        PlanEntries(chunkSize, start, buffer + page, later, None);
      }
    }
  }

  /** The windows of the cuts follow one another from `start`. */
  lemma {:induction false} PlanContiguous(chunkSize: int, start: nat, buffer: seq<Entry>, fetches: seq<Fetch>,
                                          read: Option<(string, string)>)
    ensures CutsFrom(Plan(chunkSize, start, buffer, fetches, read), start)
    decreases |fetches|
  {
    var cuts := Plan(chunkSize, start, buffer, fetches, read);
    if |buffer| >= chunkSize || fetches == [] {
      assert cuts[1..] == Rest(chunkSize, start + |buffer|, [], fetches);
      if fetches != [] {
        PlanContiguous(chunkSize, start + |buffer|, [] + fetches[0].reply.page.entries, fetches[1..], None);
      }
    } else {
      PlanContiguous(chunkSize, start, buffer + fetches[0].reply.page.entries, fetches[1..], None);
    }
  }

  /** Only the last cut can hold fewer than `chunkSize` entries: every other
      one was made because the buffer had reached `chunkSize`. */
  lemma {:induction false} PlanFull(chunkSize: int, start: nat, buffer: seq<Entry>, fetches: seq<Fetch>,
                                    read: Option<(string, string)>)
    ensures CutsFull(Plan(chunkSize, start, buffer, fetches, read), chunkSize)
    decreases |fetches|
  {
    var cuts := Plan(chunkSize, start, buffer, fetches, read);
    if fetches != [] {
      var page, later := fetches[0].reply.page.entries, fetches[1..];
      if |buffer| >= chunkSize {
        var rest := Plan(chunkSize, start + |buffer|, [] + page, later, None);
        PlanFlushes(chunkSize, start, buffer, fetches, read);
        assert cuts == [Cut(start, buffer, read)] + rest;
        PlanFull(chunkSize, start + |buffer|, [] + page, later, None);
        forall k | 0 <= k < |cuts| - 1
          ensures |cuts[k].entries| >= chunkSize
        {
          if k > 0 {
            assert cuts[k] == rest[k - 1];
          }
        }
      } else {
        PlanWaits(chunkSize, start, buffer, fetches, read);
        assert cuts == Plan(chunkSize, start, buffer + page, later, None);
        PlanFull(chunkSize, start, buffer + page, later, None);
      }
    }
  }

  /** A walk whose entries never reach `chunkSize` cuts once, at the end,
      with every entry: nothing is cut before the buffer is full. */
  lemma {:induction false} PlanOneFile(chunkSize: int, start: nat, buffer: seq<Entry>, fetches: seq<Fetch>,
                                       read: Option<(string, string)>)
    requires |buffer| + |Entries(fetches)| < chunkSize
    ensures var cuts := Plan(chunkSize, start, buffer, fetches, read);
      |cuts| == 1 && cuts[0].start == start && cuts[0].entries == buffer + Entries(fetches)
    decreases |fetches|
  {
    if fetches == [] {
      AppendEmpty(buffer);
    } else {
      var page, later := fetches[0].reply.page.entries, fetches[1..];
      PlanOneFile(chunkSize, start, buffer + page, later, None);
      AppendAssoc(buffer, page, Entries(later));
    }
  }

  /** The files rendered from cuts hold the cuts' entries, under windows
      that follow one another as the cuts' do. */
  lemma {:induction false} FilesShape(toJson: string, cuts: seq<Cut>, start: nat)
    requires CutsFrom(cuts, start)
    ensures Flatten(Files(toJson, cuts)) == CutEntries(cuts)
    ensures ContiguousFrom(Files(toJson, cuts), toJson, start)
    decreases |cuts|
  {
    if cuts != [] {
      var files := Files(toJson, cuts);
      FilesShape(toJson, cuts[1..], start + |cuts[0].entries|);
      assert files[1..] == Files(toJson, cuts[1..]);
    }
  }

  /** The files of a chunked walk, as the plan gives them: every entry once
      and in order, windows contiguous from 1, every file but the last
      holding at least `chunkSize` entries, and at least one file. */
  lemma PlanFiles(toJson: string, chunkSize: int, buffer: seq<Entry>, fetches: seq<Fetch>, read: Option<(string, string)>)
    ensures var files := Files(toJson, Plan(chunkSize, 0, buffer, fetches, read));
      && |files| >= 1 && Flatten(files) == buffer + Entries(fetches)
      && Contiguous(files, toJson) && FullBeforeLast(files, chunkSize)
  {
    var cuts := Plan(chunkSize, 0, buffer, fetches, read);
    PlanNonEmpty(chunkSize, 0, buffer, fetches, read);
    PlanEntries(chunkSize, 0, buffer, fetches, read);
    PlanContiguous(chunkSize, 0, buffer, fetches, read);
    PlanFull(chunkSize, 0, buffer, fetches, read);
    FilesShape(toJson, cuts, 0);
  }

  /** A walk that has not ended makes its next request; one that has ended
      makes none. */
  lemma WalkEnds(server: string -> Reply, next: Option<Link>, fuel: nat)
    requires Finishes(server, next, fuel)
    ensures (Walk(server, next, fuel) == []) == next.None?
  {
  }

  lemma LimitedWalkEnds(server: string -> Reply, next: Option<Link>, limit: int, perPage: int, fuel: nat)
    requires Finishes(server, next, fuel)
    ensures (LimitedWalk(server, next, limit, perPage, fuel) == []) == (next.None? || limit <= 0)
  {
  }

  // ---------------------------------------------------------------------
  // The flush and the check.

  /** One flush: the whole buffer goes to the file of the window after
      `start`; `startIndex` and `itemsPerPage` are set to the window's
      0-based start and size, and the buffer is emptied. The file's metadata
      is read before those counters are set when `metadataFirst` holds (the
      check before the loop), and is then the first page's; otherwise (the
      checks in the loop) it is read after them, and is the window itself,
      which is what `FileOf` gives a cut that read nothing. */
  method FlushChunk(data: SearchResults, written: seq<ChunkFile>, start: nat, toJson: string, metadataFirst: bool)
    returns (files: seq<ChunkFile>, end: nat)
    requires start == |Flatten(written)|
    modifies data
    ensures var read := if metadataFirst then Some((old(data.startIndex), old(data.itemsPerPage))) else None;
      files == written + [FileOf(toJson, Cut(start, old(data.entries), read))]
    ensures end == start + |old(data.entries)| && end == |Flatten(files)|
    ensures data.entries == [] && data.startIndex == IntToString(start)
    ensures data.itemsPerPage == IntToString(|old(data.entries)|)
    ensures WrittenLast(data, files)
    ensures data.totalResults == old(data.totalResults) && data.links == old(data.links)
  {
    var entries := data.entries;
    end := start + |entries|;
    var read := None;
    if metadataFirst {
      var meta := Metadata(data, Chunk);
      read := Some((meta.firstItem, meta.resultsPerPage));
    }
    var file := FileOf(toJson, Cut(start, entries, read));
    FlattenSnoc(written, file);
    files := written + [file];
    assert files[..|files| - 1] == written;
    data.startIndex, data.itemsPerPage, data.entries := IntToString(start), IntToString(|entries|), [];
  }

  /** The check made once before the first request and after each one: the
      buffer is flushed when it holds at least `chunkSize` entries or the
      walk is over (`last`), and left alone otherwise. What it writes is the
      first step of `Plan` over the requests `later` still to come. */
  method FlushIfDue(data: SearchResults, written: seq<ChunkFile>, start: nat, toJson: string, chunkSize: int,
                    last: bool, metadataFirst: bool, ghost later: seq<Fetch>)
    returns (files: seq<ChunkFile>, startAfter: nat)
    requires last == (later == []) && start == |Flatten(written)|
    modifies data
    ensures var read := if metadataFirst then Some((old(data.startIndex), old(data.itemsPerPage))) else None;
      if |old(data.entries)| >= chunkSize || last then
        && startAfter == start + |old(data.entries)|
        && files == written + [FileOf(toJson, Cut(start, old(data.entries), read))]
        && data.entries == [] && data.startIndex == IntToString(start)
        && data.itemsPerPage == IntToString(|old(data.entries)|)
      else
        && files == written && startAfter == start && data.entries == old(data.entries)
        && data.startIndex == old(data.startIndex) && data.itemsPerPage == old(data.itemsPerPage)
    ensures startAfter == |Flatten(files)|
    ensures last ==> WrittenLast(data, files)
    ensures var read := if metadataFirst then Some((old(data.startIndex), old(data.itemsPerPage))) else None;
      files + Files(toJson, Rest(chunkSize, startAfter, data.entries, later))
      == written + Files(toJson, Plan(chunkSize, start, old(data.entries), later, read))
    ensures data.totalResults == old(data.totalResults) && data.links == old(data.links)
  {
    ghost var entries := data.entries;
    ghost var read := if metadataFirst then Some((data.startIndex, data.itemsPerPage)) else None;
    if |data.entries| >= chunkSize || last {
      files, startAfter := FlushChunk(data, written, start, toJson, metadataFirst);
    } else {
      files, startAfter := written, start;
    }
    Checked(toJson, chunkSize, start, written, entries, later, read, files, startAfter, data.entries);
  }

  /** After the last check: the buffer is empty, and the counters are the
      window of the last file written. */
  predicate WrittenLast(data: SearchResults, written: seq<ChunkFile>)
    reads data
  {
    && data.entries == [] && written != []
    && data.startIndex == IntToString(|Flatten(written[..|written| - 1])|)
    && data.itemsPerPage == IntToString(|written[|written| - 1].results|)
  }

  lemma LastWindow(data: SearchResults, written: seq<ChunkFile>)
    requires WrittenLast(data, written)
    ensures var last := |written| - 1;
      && data.startIndex == IntToString(|Flatten(written[..last])|)
      && data.itemsPerPage == IntToString(|written[last].results|)
  {
  }

  // ---------------------------------------------------------------------
  // handleAllPagesInChunks

  /** `handleAllPagesInChunks`: like `handleAllPages`, but the buffer (the
      first page's entry array) is checked once before the first request
      and after every request, and written out as the next chunk file and
      emptied whenever it holds at least `chunkSize` entries or no `next`
      link is left. The files written are exactly those of `Plan` over the
      walk: they hold every entry seen, in order, under contiguous windows
      from 1, and only the last can be short. The object handed back holds
      no entries, and its counters are the last file's window. */
  method HandleAllPagesInChunks(server: string -> Reply, data: SearchResults, chunkSize: int, toJson: string, ghost fuel: nat)
    returns (result: Output, written: seq<ChunkFile>)
    requires Finishes(server, GetNext(data.links), fuel)
    modifies data
    ensures var fetched := Walk(server, GetNext(old(data.links)), fuel);
      && written == Files(toJson, Plan(chunkSize, 0, old(data.entries), fetched,
                                       Some((old(data.startIndex), old(data.itemsPerPage)))))
      && Flatten(written) == old(data.entries) + Entries(fetched)
    ensures Contiguous(written, toJson) && FullBeforeLast(written, chunkSize) && |written| >= 1
    ensures WrittenLast(data, written)
    ensures data.entries == [] && result == Metadata(data, Original) && result.results == []
    ensures data.totalResults == old(data.totalResults) && data.links == old(data.links)
  {
    var next := GetNext(data.links);
    ghost var read := Some((data.startIndex, data.itemsPerPage));
    ghost var walk := Walk(server, next, fuel);
    ghost var plan := Files(toJson, Plan(chunkSize, 0, data.entries, walk, read));
    PlanFiles(toJson, chunkSize, data.entries, walk, read);
    WalkEnds(server, next, fuel);
    var start: nat;
    written, start := FlushIfDue(data, [], 0, toJson, chunkSize, next.None?, true, walk);
    ghost var left := fuel;
    while next.Some?
      invariant Finishes(server, next, left)
      invariant written + Files(toJson, Rest(chunkSize, start, data.entries, Walk(server, next, left))) == plan
      invariant start == |Flatten(written)|
      invariant next.None? ==> WrittenLast(data, written)
      invariant data.totalResults == old(data.totalResults) && data.links == old(data.links)
      decreases left
    {
      next, left, written, start := AllPagesRound(server, data, next, left, written, start, toJson, chunkSize);
    }
    WalkEnds(server, next, left);
    AppendEmpty(written);
    result := Metadata(data, Original);
  }

  /** One round of the loop of `handleAllPagesInChunks`: the page `next`
      points to is fetched, its entries appended to the buffer, the walk
      moves to the page's own `next` link, and the buffer is checked. What
      is written and the files still to come keep making up the same
      files. */
  method AllPagesRound(server: string -> Reply, data: SearchResults, next: Option<Link>, ghost left: nat,
                       written: seq<ChunkFile>, start: nat, toJson: string, chunkSize: int)
    returns (after: Option<Link>, ghost leftAfter: nat, files: seq<ChunkFile>, startAfter: nat)
    requires Finishes(server, next, left) && next.Some? && start == |Flatten(written)|
    modifies data
    ensures after == GetNext(server(next.value.href).page.links)
    ensures leftAfter < left && Finishes(server, after, leftAfter)
    ensures files + Files(toJson, Rest(chunkSize, startAfter, data.entries, Walk(server, after, leftAfter)))
         == written + Files(toJson, Rest(chunkSize, start, old(data.entries), Walk(server, next, left)))
    ensures startAfter == |Flatten(files)|
    ensures after.None? ==> WrittenLast(data, files)
    ensures data.totalResults == old(data.totalResults) && data.links == old(data.links)
  {
    var reply := server(next.value.href);
    FinishesStep(server, next, left, reply);
    ghost var buffer := data.entries;
    data.entries := data.entries + reply.page.entries;
    after, leftAfter := GetNext(reply.page.links), left - 1;
    ghost var later := Walk(server, after, leftAfter);
    assert Walk(server, next, left) == [Fetch(next.value.href, reply)] + later;
    WalkEnds(server, after, leftAfter);
    RestStep(chunkSize, start, buffer, Fetch(next.value.href, reply), later);
    files, startAfter := FlushIfDue(data, written, start, toJson, chunkSize, after.None?, false, later);
  }

  // ---------------------------------------------------------------------
  // handleMultipleResultsChuncked

  /** `handleMultipleResultsChuncked`: the chunked walk of
      `handleMultipleResults`; the buffer is also written out once the
      limit is no longer positive. The files written are those of `Plan`
      over the limited walk. */
  method HandleMultipleResultsChunked(server: string -> Reply, data: SearchResults, limit: int, perPage: int,
                                      toJson: string, chunkSize: int, ghost fuel: nat)
    returns (result: Output, written: seq<ChunkFile>)
    requires Finishes(server, GetNext(data.links), fuel)
    modifies data
    ensures var fetched := LimitedWalk(server, GetNext(old(data.links)), limit, perPage, fuel);
      && written == Files(toJson, Plan(chunkSize, 0, old(data.entries), fetched,
                                       Some((old(data.startIndex), old(data.itemsPerPage)))))
      && Flatten(written) == old(data.entries) + Entries(fetched)
    ensures Contiguous(written, toJson) && FullBeforeLast(written, chunkSize) && |written| >= 1
    ensures WrittenLast(data, written)
    ensures data.entries == [] && result == Metadata(data, Original) && result.results == []
    ensures data.totalResults == old(data.totalResults) && data.links == old(data.links)
  {
    var next := GetNext(data.links);
    var remaining := limit;
    ghost var read := Some((data.startIndex, data.itemsPerPage));
    ghost var walk := LimitedWalk(server, next, limit, perPage, fuel);
    ghost var plan := Files(toJson, Plan(chunkSize, 0, data.entries, walk, read));
    PlanFiles(toJson, chunkSize, data.entries, walk, read);
    LimitedWalkEnds(server, next, limit, perPage, fuel);
    var start: nat;
    written, start := FlushIfDue(data, [], 0, toJson, chunkSize, next.None? || remaining <= 0, true, walk);
    ghost var left := fuel;
    while remaining > 0 && next.Some?
      invariant Finishes(server, next, left)
      invariant written + Files(toJson, Rest(chunkSize, start, data.entries, LimitedWalk(server, next, remaining, perPage, left)))
                == plan
      invariant start == |Flatten(written)|
      invariant next.None? || remaining <= 0 ==> WrittenLast(data, written)
      invariant data.totalResults == old(data.totalResults) && data.links == old(data.links)
      decreases left
    {
      next, remaining, left, written, start :=
        LimitedRound(server, data, next, remaining, perPage, left, written, start, toJson, chunkSize);
    }
    LimitedWalkEnds(server, next, remaining, perPage, left);
    AppendEmpty(written);
    result := Metadata(data, Original);
  }

  /** One round of the loop of `handleMultipleResultsChuncked`: the page
      `next` points to is fetched and its entries appended to the buffer,
      the limit drops by `perPage`, the walk moves to the page's own `next`
      link, and the buffer is checked. What is written and the files still
      to come keep making up the same files. */
  method LimitedRound(server: string -> Reply, data: SearchResults, next: Option<Link>, remaining: int, perPage: int,
                      ghost left: nat, written: seq<ChunkFile>, start: nat, toJson: string, chunkSize: int)
    returns (after: Option<Link>, remainingAfter: int, ghost leftAfter: nat, files: seq<ChunkFile>, startAfter: nat)
    requires Finishes(server, next, left) && remaining > 0 && next.Some? && start == |Flatten(written)|
    modifies data
    ensures after == GetNext(server(next.value.href).page.links) && remainingAfter == remaining - perPage
    ensures leftAfter < left && Finishes(server, after, leftAfter)
    ensures files + Files(toJson, Rest(chunkSize, startAfter, data.entries, LimitedWalk(server, after, remainingAfter, perPage, leftAfter)))
         == written + Files(toJson, Rest(chunkSize, start, old(data.entries), LimitedWalk(server, next, remaining, perPage, left)))
    ensures startAfter == |Flatten(files)|
    ensures after.None? || remainingAfter <= 0 ==> WrittenLast(data, files)
    ensures data.totalResults == old(data.totalResults) && data.links == old(data.links)
  {
    var reply := server(next.value.href);
    FinishesStep(server, next, left, reply);
    ghost var buffer := data.entries;
    data.entries := data.entries + reply.page.entries;
    after, remainingAfter, leftAfter := GetNext(reply.page.links), remaining - perPage, left - 1;
    ghost var later := LimitedWalk(server, after, remainingAfter, perPage, leftAfter);
    assert LimitedWalk(server, next, remaining, perPage, left) == [Fetch(next.value.href, reply)] + later;
    LimitedWalkEnds(server, after, remainingAfter, perPage, leftAfter);
    RestStep(chunkSize, start, buffer, Fetch(next.value.href, reply), later);
    files, startAfter := FlushIfDue(data, written, start, toJson, chunkSize, after.None? || remainingAfter <= 0, false, later);
  }
}
