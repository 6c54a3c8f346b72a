/**
 * The view state of the keyword search bar inside the multi-select dialog:
 * the typed query and its debounced copy `search`, the id mirror of the
 * selection, the first-page and extend requests, the page cursor, the
 * accumulated results and the "create new keyword" flag.
 *
 * Every network call is split into the moment it is issued (recorded in
 * `issued`) and a later response event. A response event only has an effect
 * while its coroutine still waits for it: restarting the search effect
 * cancels the previous first-page coroutine, so at most one first-page
 * request is ever live, and restarting the "reached bottom" effect cancels a
 * waiting next-page coroutine. Nothing ties a response to the term it was
 * issued for.
 */
module KeywordSearch {
  import opened Options
  import opened Keywords
  import opened KotlinStrings

  /** The lifecycle of one request-state holder. */
  datatype Request = Idle | Loading | Succeeded | Failed

  /** A call issued to the server. */
  datatype Fetch =
    | FirstPage(term: string)
    | NextPage(term: string, page: int)
    | CreateKeyword(name: string, labelText: string)

  /** One page of a keyword listing: its entries and whether a `next` link came with it. */
  datatype Page = Page(items: seq<Keyword>, hasNext: bool)

  datatype Bar = Bar(
    query: string,             // text in the input field
    pending: Option<string>,   // the running quiet-period timer and the query it will publish
    search: string,            // the debounced search term
    mirror: seq<int>,          // ids of the selection, refreshed by MirrorSync
    searchRequest: Request,    // first-page request
    extendRequest: Request,    // next-page request state
    extendLive: bool,          // a next-page coroutine is waiting for its response
    creating: nat,             // create-keyword calls in flight
    currentPage: int,
    nextPageExists: bool,
    results: seq<Keyword>,
    showCreation: bool,
    issued: seq<Fetch>)

  /**
   * The bar as first composed over selection `sel`: both effects keyed on
   * `query` and `search` start, so a quiet-period timer for "" runs and the
   * first page for "" is already requested; the mirror copies `sel`.
   */
  function Init(sel: seq<Keyword>): (b: Bar)
    ensures b.query == "" && b.pending == Some("") && b.search == "" && b.results == []
    ensures b.mirror == Ids(sel)
    ensures b.searchRequest == Loading && b.issued == [FirstPage("")]
    ensures b.extendRequest == Idle && !b.extendLive && b.creating == 0
    ensures b.currentPage == 1 && !b.nextPageExists && !b.showCreation
  {
    Bar("", Some(""), "", Ids(sel), Loading, Idle, false, 0, 1, false, [], false, [FirstPage("")])
  }

  /** ASCII lower-casing of one character. */
  function LowerChar(c: char): (r: char)
    ensures 'A' <= c <= 'Z' ==> 'a' <= r <= 'z' && r as int - c as int == 32
    ensures !('A' <= c <= 'Z') ==> r == c
  {
    if 'A' <= c <= 'Z' then (c as int + 32) as char else c
  }

  /** `String.lowercase()`, restricted to ASCII letters. */
  function Lower(s: string): (r: string)
    ensures |r| == |s|
    ensures forall i :: 0 <= i < |s| ==> r[i] == LowerChar(s[i])
  {
    seq(|s|, i requires 0 <= i < |s| => LowerChar(s[i]))
  }

  /** Two strings are equal once both are lower-cased. */
  predicate SameIgnoringCase(a: string, b: string) {
    Lower(a) == Lower(b)
  }

  /**
   * Whether the "create" item is offered for `query` against `results`: the
   * query is longer than two UTF-16 code units (Kotlin's `length`) and the first result, if there is
   * one, does not match it ignoring case.
   */
  function CreationCandidate(query: string, results: seq<Keyword>): (r: bool)
    ensures r <==> Utf16Length(query) > 2 && (results == [] || !SameIgnoringCase(results[0].name, query))
  {
    if Utf16Length(query) > 2 then
      if |results| == 0 then true else Lower(results[0].name) != Lower(query)
    else false
  }

  /**
   * The flag after the result list became `results`: the effect keyed on the
   * result list reruns only when the list changed by value.
   */
  function CreationAfterResults(b: Bar, results: seq<Keyword>): (r: bool)
    ensures results != b.results ==> (r <==> CreationCandidate(b.query, results))
    ensures results == b.results ==> r == b.showCreation
  {
    if results == b.results then b.showCreation else CreationCandidate(b.query, results)
  }

  /**
   * A write to `search`. Only a changed value restarts the two effects keyed
   * on it: the page cursor goes back to 1, the first page of the new term is
   * requested and the create item is hidden. Results and `nextPageExists`
   * stay as they were; the extend request is not touched.
   */
  function SetSearch(b: Bar, t: string): (r: Bar)
    ensures t == b.search ==> r == b
    ensures r.search == t
    ensures t != b.search ==> r.currentPage == 1 && r.searchRequest == Loading && !r.showCreation
    ensures t != b.search ==> r.issued == b.issued + [FirstPage(t)]
    ensures r.results == b.results && r.nextPageExists == b.nextPageExists
    ensures r.extendRequest == b.extendRequest && r.extendLive == b.extendLive
    ensures r.query == b.query && r.pending == b.pending && r.mirror == b.mirror && r.creating == b.creating
  {
    if t == b.search then b
    else b.(search := t, currentPage := 1, searchRequest := Loading, showCreation := false,
            issued := b.issued + [FirstPage(t)])
  }

  /** Typing: a changed query restarts the quiet-period timer with the new text; nothing is searched yet. */
  function QueryChanged(b: Bar, q: string): (r: Bar)
    ensures r.query == q
    ensures r.search == b.search && r.issued == b.issued && r.results == b.results
    ensures q != b.query ==> r.pending == Some(q)
    ensures q == b.query ==> r == b
    ensures q != b.query ==> r == b.(query := q, pending := Some(q))
  {
    if q == b.query then b else b.(query := q, pending := Some(q))
  }

  /** The quiet period ran out without another change: the timer publishes its query as the search term. */
  function QuietPeriodElapsed(b: Bar): (r: Bar)
    ensures b.pending.None? ==> r == b
    ensures b.pending.Some? ==> r.search == b.pending.value && r.pending.None?
    ensures r.query == b.query && r.results == b.results
    ensures b.pending.Some? && b.pending.value == b.search ==> r == b.(pending := None)
    ensures b.pending.Some? && b.pending.value != b.search ==>
      && r.currentPage == 1 && r.searchRequest == Loading && !r.showCreation
      && r.issued == b.issued + [FirstPage(b.pending.value)]
      && r == b.(pending := None, search := r.search, currentPage := 1, searchRequest := Loading,
                 showCreation := false, issued := r.issued)
  {
    match b.pending
    case None => b
    case Some(v) => SetSearch(b.(pending := None), v)
  }

  /** The keyboard's search action publishes the current query at once, without waiting. */
  function SearchAction(b: Bar): (r: Bar)
    ensures r.search == b.query
    ensures r.pending == b.pending && r.results == b.results
    ensures b.query == b.search ==> r == b
    ensures b.query != b.search ==>
      && r.currentPage == 1 && r.searchRequest == Loading && !r.showCreation
      && r.issued == b.issued + [FirstPage(b.query)]
      && r == b.(search := r.search, currentPage := 1, searchRequest := Loading,
                 showCreation := false, issued := r.issued)
  {
    SetSearch(b, b.query)
  }

  /** The first page arrived: it replaces the results and sets `nextPageExists` from its `next` link. */
  function FirstPageSucceeded(b: Bar, p: Page): (r: Bar)
    ensures b.searchRequest != Loading ==> r == b
    ensures b.searchRequest == Loading ==>
      && r.searchRequest == Succeeded
      && r.results == p.items
      && r.nextPageExists == p.hasNext
      && r.currentPage == b.currentPage
      && r.showCreation == CreationAfterResults(b, p.items)
    ensures r.search == b.search && r.issued == b.issued
    ensures r == b.(searchRequest := r.searchRequest, nextPageExists := r.nextPageExists,
                    results := r.results, showCreation := r.showCreation)
  {
    if b.searchRequest != Loading then b
    else b.(searchRequest := Succeeded, nextPageExists := p.hasNext, results := p.items,
            showCreation := CreationAfterResults(b, p.items))
  }

  /** The first page failed: only the request state records it. */
  function FirstPageFailed(b: Bar): (r: Bar)
    ensures r.results == b.results && r.nextPageExists == b.nextPageExists
    ensures r.currentPage == b.currentPage && r.showCreation == b.showCreation
    ensures b.searchRequest == Loading ==> r.searchRequest == Failed
    ensures b.searchRequest != Loading ==> r == b
    ensures r == b.(searchRequest := r.searchRequest)
  {
    if b.searchRequest != Loading then b else b.(searchRequest := Failed)
  }

  /**
   * The guard of the "reached bottom" effect: the first page has arrived, no
   * next-page call is in flight, and the last page carried a `next` link.
   */
  predicate CanExtend(b: Bar)
    ensures CanExtend(b) ==> b.searchRequest == Succeeded && b.nextPageExists
    ensures b.extendRequest == Loading ==> !CanExtend(b)
  {
    b.searchRequest == Succeeded && b.extendRequest != Loading && b.nextPageExists
  }

  /**
   * Restarting the "reached bottom" effect cancels a next-page coroutine that
   * still waits: its response is never applied, and the request holder is
   * left in state `seen`. What `wrapRequest` leaves behind on cancellation is
   * not part of this model, so `seen` is whatever the restarted effect reads.
   */
  function CancelExtend(b: Bar, seen: Request): (r: Bar)
    ensures !r.extendLive
    ensures b.extendLive ==> r == b.(extendLive := false, extendRequest := seen)
    ensures !b.extendLive ==> r == b
  {
    if b.extendLive then b.(extendLive := false, extendRequest := seen) else b
  }

  /**
   * The "reached bottom" flag changed. A waiting next-page call is cancelled
   * (see `CancelExtend`); then, unless the guard blocks, the page counter
   * goes up first and that page of the current term is requested.
   */
  function BottomReached(b: Bar, seen: Request): (r: Bar)
    ensures !b.extendLive && !CanExtend(b) ==> r == b
    ensures !CanExtend(CancelExtend(b, seen)) ==> r == CancelExtend(b, seen)
    ensures CanExtend(CancelExtend(b, seen)) ==>
      && r.currentPage == b.currentPage + 1
      && r.extendRequest == Loading && r.extendLive
      && r.issued == b.issued + [NextPage(b.search, b.currentPage + 1)]
      && !CanExtend(r)
    ensures b.extendLive && seen == Loading ==> r.issued == b.issued && !r.extendLive
    ensures r.results == b.results && r.search == b.search && r.nextPageExists == b.nextPageExists
    ensures r == b.(currentPage := r.currentPage, extendRequest := r.extendRequest,
                    extendLive := r.extendLive, issued := r.issued)
  {
    var c := CancelExtend(b, seen);
    if !CanExtend(c) then c
    else
      var page := c.currentPage + 1;
      c.(currentPage := page, extendRequest := Loading, extendLive := true,
         issued := c.issued + [NextPage(c.search, page)])
  }

  /** A further page arrived: it is appended to whatever the results are now. */
  function ExtendSucceeded(b: Bar, p: Page): (r: Bar)
    ensures !b.extendLive ==> r == b
    ensures b.extendLive ==>
      && r.results == b.results + p.items
      && r.nextPageExists == p.hasNext
      && r.extendRequest == Succeeded && !r.extendLive
      && r.currentPage == b.currentPage
      && r.showCreation == CreationAfterResults(b, b.results + p.items)
    ensures r.search == b.search && r.issued == b.issued
    ensures r == b.(extendRequest := r.extendRequest, extendLive := r.extendLive,
                    nextPageExists := r.nextPageExists, results := r.results, showCreation := r.showCreation)
  {
    if !b.extendLive then b
    else
      var results := b.results + p.items;
      b.(extendRequest := Succeeded, extendLive := false, nextPageExists := p.hasNext, results := results,
         showCreation := CreationAfterResults(b, results))
  }

  /** A further page failed: nothing is appended and the page counter is not rolled back. */
  function ExtendFailed(b: Bar): (r: Bar)
    ensures r.results == b.results && r.nextPageExists == b.nextPageExists
    ensures r.currentPage == b.currentPage
    ensures b.extendLive ==> r.extendRequest == Failed && !r.extendLive
    ensures !b.extendLive ==> r == b
    ensures r == b.(extendRequest := r.extendRequest, extendLive := r.extendLive)
  {
    if !b.extendLive then b else b.(extendRequest := Failed, extendLive := false)
  }

  /** The effect keyed on the selection copies its ids into the mirror. */
  function MirrorSync(b: Bar, sel: seq<Keyword>): (r: Bar)
    ensures forall id :: id in r.mirror <==> exists k :: k in sel && k.id == id
    ensures r == b.(mirror := r.mirror)
  {
    InIdsAll(sel);
    b.(mirror := Ids(sel))
  }

  lemma InIdsAll(sel: seq<Keyword>)
    ensures forall id :: id in Ids(sel) <==> exists k :: k in sel && k.id == id
  {
    forall id ensures id in Ids(sel) <==> exists k :: k in sel && k.id == id {
      InIds(sel, id);
    }
  }

  /** The value a click on result row `k` passes to the toggle callback: checked rows are unchecked. */
  function RowClickValue(b: Bar, k: Keyword): (value: bool)
    ensures value <==> k.id !in b.mirror
  {
    k.id !in b.mirror
  }

  /** Whether the create item is on screen, given the dialog's `hideKeywordCreation`. */
  function CreationItemVisible(b: Bar, hideKeywordCreation: bool): (r: bool)
    ensures r <==> b.showCreation && !hideKeywordCreation
  {
    b.showCreation && !hideKeywordCreation
  }

  /** A click on the create item asks the server for a keyword named (and labelled) after the query. */
  function CreateRequested(b: Bar): (r: Bar)
    ensures r.issued == b.issued + [CreateKeyword(b.query, b.query)]
    ensures r.creating == b.creating + 1
    ensures r.search == b.search && r.results == b.results
    ensures r == b.(creating := r.creating, issued := r.issued)
  {
    b.(creating := b.creating + 1, issued := b.issued + [CreateKeyword(b.query, b.query)])
  }

  /** A create call finished (either way); its keyword, if any, goes to the toggle callback. */
  function CreateFinished(b: Bar): (r: Bar)
    ensures b.creating > 0 ==> r.creating == b.creating - 1
    ensures b.creating == 0 ==> r == b
    ensures r == b.(creating := r.creating)
  {
    if b.creating == 0 then b else b.(creating := b.creating - 1)
  }

  /** The term of the most recent first-page request, if any. */
  function LastTerm(fs: seq<Fetch>): (r: Option<string>) {
    if |fs| == 0 then None
    else if fs[|fs| - 1].FirstPage? then Some(fs[|fs| - 1].term)
    else LastTerm(fs[..|fs| - 1])
  }

  /** The next-page requests issued after the most recent first-page request, in order. */
  function ExtendsSinceTerm(fs: seq<Fetch>): (r: seq<Fetch>) {
    if |fs| == 0 then []
    else if fs[|fs| - 1].FirstPage? then []
    else if fs[|fs| - 1].NextPage? then ExtendsSinceTerm(fs[..|fs| - 1]) + [fs[|fs| - 1]]
    else ExtendsSinceTerm(fs[..|fs| - 1])
  }

  /** Requests for pages 2, 3, ..., `page` of term `t`, one each, in that order. */
  function PagesTwoThrough(t: string, page: int): (r: seq<Fetch>)
    requires page >= 1
    ensures |r| == page - 1
    ensures forall i :: 0 <= i < |r| ==> r[i] == NextPage(t, i + 2)
  {
    seq(page - 1, i requires 0 <= i < page - 1 => NextPage(t, i + 2))
  }

  /**
   * What holds of the bar while it is composed: the timer carries the
   * current query, and without a timer the term is the query; some first
   * page was requested, the latest one for the current term; and since then
   * exactly the pages 2 .. `currentPage` of that term were requested, so the
   * counter never moves back, even after a failure; a waiting next-page
   * coroutine shows its request as loading.
   */
  predicate BarInv(b: Bar) {
    && (b.pending.Some? ==> b.pending.value == b.query)
    && (b.pending.None? ==> b.search == b.query)
    && b.searchRequest != Idle
    && LastTerm(b.issued) == Some(b.search)
    && b.currentPage >= 1
    && ExtendsSinceTerm(b.issued) == PagesTwoThrough(b.search, b.currentPage)
    && (b.extendLive ==> b.extendRequest == Loading)
  }
}
