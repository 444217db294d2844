/** The older revision of the command-line query compiler
    (src/utils/parser.ts). Its `sanitise`, `quoteIfNeeded` and line
    expansion are those of the newer revision; it differs in where term files
    are looked up, in how the query is scoped, and in how a count-only search
    is requested. */
module LegacyParser {
  import opened Wrappers
  import opened Text
  import opened TermExpander
  import QueryCompiler

  /** Only the project's `searchterms/` directory is consulted. */
  function LegacyFiles(local: map<string, string>): TermFiles {
    TermFiles(local, map[])
  }

  /** A term file is taken from the project directory or not at all: the
      key then stands for itself. A file only in the user's directory, which
      the newer revision reads, is ignored here. */
  lemma LegacyLookup(local: map<string, string>, user: map<string, string>, key: string)
    ensures Resolve(LegacyFiles(local), key) == if key in local then local[key] else key
    ensures key !in local && key in user ==>
      Resolve(TermFiles(local, user), key) == user[key] && Resolve(LegacyFiles(local), key) == key
  {
  }

  /** `searchBuilder`: the same token and line loops as the newer revision,
      over the project's term files only. */
  method SearchBuilder(query: seq<string>, local: map<string, string>) returns (searchQuery: string)
    ensures searchQuery == QueryCompiler.Compile(query, LegacyFiles(local))
    ensures '[' !in searchQuery && ']' !in searchQuery
  {
    searchQuery := QueryCompiler.SearchBuilder(query, LegacyFiles(local));
  }

  /** The scoped query: wrapped in `TITLE(...)` for a title search, then in
      `TITLE-ABS-KEY(...)` for a title, abstract and keywords search. */
  function LegacyScoped(q: string, title: bool, titleAndAbstract: bool): string {
    var t := if title then "TITLE(" + q + ")" else q;
    if titleAndAbstract then "TITLE-ABS-KEY(" + t + ")" else t
  }

  /** `buildQuery`: the query is rewrapped step by step. */
  method BuildQuery(query: seq<string>, title: bool, titleAndAbstract: bool, local: map<string, string>)
    returns (searchQuery: string)
    ensures searchQuery == LegacyScoped(QueryCompiler.Compile(query, LegacyFiles(local)), title, titleAndAbstract)
  {
    searchQuery := SearchBuilder(query, local);
    if title {
      searchQuery := "TITLE(" + searchQuery + ")";
    }
    if titleAndAbstract {
      searchQuery := "TITLE-ABS-KEY(" + searchQuery + ")";
    }
  }

  /** The openers a scoping puts before the query, outermost first. */
  function Openers(title: bool, titleAndAbstract: bool): string {
    (if titleAndAbstract then "TITLE-ABS-KEY(" else "") + (if title then "TITLE(" else "")
  }

  function Closers(n: nat): (r: string)
    ensures |r| == n && forall i | 0 <= i < n :: r[i] == ')'
  {
    if n == 0 then "" else Closers(n - 1) + ")"
  }

  /** The query itself is never rewritten: it sits between the openers,
      outermost first, and one closing parenthesis per scope. With both
      flags the scopes nest, `TITLE-ABS-KEY(TITLE(q))`; with neither the
      query is returned unchanged. */
  lemma LegacyScopedWraps(q: string, title: bool, titleAndAbstract: bool)
    ensures LegacyScoped(q, title, titleAndAbstract)
      == Openers(title, titleAndAbstract) + q + Closers((if title then 1 else 0) + (if titleAndAbstract then 1 else 0))
  {
    assert Closers(1) == ")";
    assert Closers(2) == "))";
  }

  /** The request options of the older command: the compiled query and the
      paging the count search overrides. */
  class LegacySearchOptions {
    var query: string
    var perPage: Option<int>
    var page: Option<int>
    var toJson: Option<string>

    constructor (query: string)
      ensures this.query == query && perPage == None && page == None && toJson == None
    {
      this.query := query;
      perPage := None;
      page := None;
      toJson := None;
    }

    /** `handleCount`: a count is asked for as the first page of one
        result; the query and the output file are untouched. */
    method HandleCount()
      modifies this
      ensures perPage == Some(1) && page == Some(1)
      ensures query == old(query) && toJson == old(toJson)
    {
      perPage := Some(1);
      page := Some(1);
    }
  }
}
