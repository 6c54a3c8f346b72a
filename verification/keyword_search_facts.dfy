/**
 * Properties of the keyword search bar over several events: the invariant
 * every event keeps, debounce bursts, the pagination scenarios and the
 * behaviours the bar shows because responses carry no term.
 */
module KeywordSearchFacts {
  import opened Options
  import opened Keywords
  import opened KeywordSearch
  import opened KotlinStrings

  lemma LogAppend(fs: seq<Fetch>, f: Fetch)
    ensures LastTerm(fs + [f]) == (if f.FirstPage? then Some(f.term) else LastTerm(fs))
    ensures ExtendsSinceTerm(fs + [f]) ==
      (if f.FirstPage? then [] else if f.NextPage? then ExtendsSinceTerm(fs) + [f] else ExtendsSinceTerm(fs))
  {
    assert (fs + [f])[..|fs|] == fs;
  }

  /** A freshly composed bar satisfies the invariant. */
  lemma InitKeepsInv(sel: seq<Keyword>)
    ensures BarInv(Init(sel))
  {
    LogAppend([], FirstPage(""));
  }

  lemma SetSearchKeepsLog(b: Bar, t: string)
    requires LastTerm(b.issued) == Some(b.search) && b.currentPage >= 1
    requires ExtendsSinceTerm(b.issued) == PagesTwoThrough(b.search, b.currentPage)
    ensures var r := SetSearch(b, t);
      LastTerm(r.issued) == Some(r.search) && r.currentPage >= 1
      && ExtendsSinceTerm(r.issued) == PagesTwoThrough(r.search, r.currentPage)
  {
    if t != b.search {
      LogAppend(b.issued, FirstPage(t));
    }
  }

  /** Typing, the quiet period and the search action keep the invariant. */
  lemma DebounceKeepsInv(b: Bar, q: string)
    requires BarInv(b)
    ensures BarInv(QueryChanged(b, q))
    ensures BarInv(QuietPeriodElapsed(b))
    ensures BarInv(SearchAction(b))
  {
    if b.pending.Some? {
      SetSearchKeepsLog(b.(pending := None), b.pending.value);
    }
    SetSearchKeepsLog(b, b.query);
  }

  /** "Reached bottom" keeps the invariant: the page it asks for is the one after the last. */
  lemma BottomKeepsInv(b: Bar, seen: Request)
    requires BarInv(b)
    ensures BarInv(BottomReached(b, seen))
  {
    if CanExtend(CancelExtend(b, seen)) {
      var f := NextPage(b.search, b.currentPage + 1);
      LogAppend(b.issued, f);
      assert PagesTwoThrough(b.search, b.currentPage) + [f] == PagesTwoThrough(b.search, b.currentPage + 1);
    }
  }

  /** Responses, the mirror and the create calls keep the invariant. */
  lemma ResponsesKeepInv(b: Bar, p: Page, sel: seq<Keyword>)
    requires BarInv(b)
    ensures BarInv(FirstPageSucceeded(b, p)) && BarInv(FirstPageFailed(b))
    ensures BarInv(ExtendSucceeded(b, p)) && BarInv(ExtendFailed(b))
    ensures BarInv(MirrorSync(b, sel))
    ensures BarInv(CreateRequested(b)) && BarInv(CreateFinished(b))
  {
    LogAppend(b.issued, CreateKeyword(b.query, b.query));
  }

  /** Typing each string of `qs` in turn, faster than the quiet period. */
  function TypeAll(b: Bar, qs: seq<string>): (r: Bar)
    decreases |qs|
  {
    if |qs| == 0 then b else TypeAll(QueryChanged(b, qs[0]), qs[1..])
  }

  /** A burst of typing searches nothing: the term, the log and the results stay; the query is the last text. */
  lemma {:induction false} TypeAllSearchesNothing(b: Bar, qs: seq<string>)
    requires BarInv(b)
    ensures var r := TypeAll(b, qs);
      && BarInv(r)
      && r.search == b.search && r.issued == b.issued && r.results == b.results
      && (|qs| > 0 ==> r.query == qs[|qs| - 1])
    decreases |qs|
  {
    if |qs| > 0 {
      DebounceKeepsInv(b, qs[0]);
      TypeAllSearchesNothing(QueryChanged(b, qs[0]), qs[1..]);
      if |qs| > 1 {
        assert qs[1..][|qs[1..]| - 1] == qs[|qs| - 1];
      }
    }
  }

  /** Debounce: after a burst and one quiet period, the term is the burst's last text, whatever came before. */
  lemma BurstPublishesLastValue(b: Bar, qs: seq<string>)
    requires BarInv(b) && |qs| > 0
    ensures QuietPeriodElapsed(TypeAll(b, qs)).search == qs[|qs| - 1]
  {
    TypeAllSearchesNothing(b, qs);
  }

  /**
   * A new term closes the pagination guard until its first page arrives:
   * reaching the bottom in between asks for nothing, whatever became of a
   * next-page call of the old term.
   */
  lemma NewTermBlocksExtend(b: Bar, seen: Request)
    requires b.pending.Some? && b.pending.value != b.search
    ensures !CanExtend(QuietPeriodElapsed(b))
    ensures BottomReached(QuietPeriodElapsed(b), seen).issued == QuietPeriodElapsed(b).issued
    ensures BottomReached(QuietPeriodElapsed(b), seen).currentPage == 1
  {
  }

  /**
   * A second "reached bottom" change while the page it asked for is still on
   * its way cancels that call: the page is never appended and the raised
   * counter stays. If the cancelled request still reads as loading, no
   * response applies any more and the guard blocks every later change too;
   * otherwise the second change asks for the page after the cancelled one.
   */
  lemma SecondFlipCancelsPage(b: Bar, first: Request, seen: Request, p: Page)
    requires CanExtend(b) && !b.extendLive
    ensures var b2 := BottomReached(BottomReached(b, first), seen);
      && b2.results == b.results
      && (seen == Loading ==>
            && ExtendSucceeded(b2, p) == b2
            && b2.currentPage == b.currentPage + 1
            && b2.issued == b.issued + [NextPage(b.search, b.currentPage + 1)]
            && forall later :: BottomReached(b2, later) == b2)
      && (seen != Loading ==>
            b2.issued == b.issued + [NextPage(b.search, b.currentPage + 1), NextPage(b.search, b.currentPage + 2)])
  {
  }

  /**
   * Page 1 with a `next` link, then "reached bottom": page 2 of the same term
   * is requested, and when it arrives the results are page 1 followed by page 2.
   */
  lemma SecondPageAppends(b: Bar, p1: Page, p2: Page, seen: Request)
    requires BarInv(b) && b.searchRequest == Loading && b.extendRequest != Loading
    requires b.currentPage == 1 && p1.hasNext
    ensures var b2 := BottomReached(FirstPageSucceeded(b, p1), seen);
      && b2.issued == b.issued + [NextPage(b.search, 2)]
      && ExtendSucceeded(b2, p2).results == p1.items + p2.items
      && |ExtendSucceeded(b2, p2).results| == |p1.items| + |p2.items|
  {
  }

  /**
   * A failed extend keeps the results and the raised counter, so the next
   * "reached bottom" asks for the page after the failed one.
   */
  lemma FailedExtendSkipsPage(b: Bar, first: Request, second: Request)
    requires CanExtend(b) && !b.extendLive
    ensures var b1 := ExtendFailed(BottomReached(b, first));
      && b1.results == b.results
      && CanExtend(b1)
      && BottomReached(b1, second).issued
         == b.issued + [NextPage(b.search, b.currentPage + 1), NextPage(b.search, b.currentPage + 2)]
  {
  }

  /**
   * A new term does not clear the results, and an extend started for the old
   * term is still live: its page is appended to the new term's first page.
   */
  lemma OldExtendAppendsToNewTerm(b: Bar, t: string, p1: Page, p2: Page)
    requires b.extendLive && t != b.search
    ensures SetSearch(b, t).results == b.results
    ensures var r := ExtendSucceeded(FirstPageSucceeded(SetSearch(b, t), p1), p2);
      r.search == t && r.results == p1.items + p2.items
  {
  }

  /**
   * The create item is hidden on a term change and recomputed only when the
   * result list changes, so a first page equal to the old results leaves it
   * hidden whatever the query.
   */
  lemma EqualResultsKeepCreationHidden(b: Bar, t: string, p: Page)
    requires t != b.search && p.items == b.results
    ensures !FirstPageSucceeded(SetSearch(b, t), p).showCreation
  {
  }

  /** One such case: a query of four letters with no match keeps the item hidden after an empty first page. */
  lemma EqualResultsExample()
    ensures var b := Init([]).(query := "xyzw", pending := Some("xyzw"));
      && CreationCandidate("xyzw", [])
      && !QuietPeriodElapsed(b).showCreation
      && !FirstPageSucceeded(QuietPeriodElapsed(b), Page([], false)).showCreation
  {
  }

  /** Lower-casing twice is lower-casing once. */
  lemma LowerIdempotent(s: string)
    ensures Lower(Lower(s)) == Lower(s)
  {
  }

  /** ASCII lower-casing keeps every character in the Basic Multilingual Plane it was in, so Kotlin's length is kept. */
  lemma {:induction false} LowerKeepsUtf16Length(s: string)
    ensures Utf16Length(Lower(s)) == Utf16Length(s)
    decreases |s|
  {
    if |s| > 0 {
      assert Lower(s)[1..] == Lower(s[1..]);
      LowerKeepsUtf16Length(s[1..]);
    }
  }

  /**
   * For every query and result list: the decision reads the query only
   * through its lower-cased form and the results only through the first
   * name, and a first result matching the query ignoring case always
   * withholds the item.
   */
  lemma CreationCandidateIgnoresCase(q1: string, q2: string, results: seq<Keyword>, other: seq<Keyword>)
    requires Lower(q1) == Lower(q2)
    ensures CreationCandidate(q1, results) == CreationCandidate(q2, results)
    ensures CreationCandidate(Lower(q1), results) == CreationCandidate(q1, results)
    ensures |results| > 0 && |other| > 0 && results[0].name == other[0].name ==>
      CreationCandidate(q1, results) == CreationCandidate(q1, other)
    ensures |results| > 0 && SameIgnoringCase(results[0].name, q1) ==> !CreationCandidate(q1, results)
  {
    LowerIdempotent(q1);
    LowerKeepsUtf16Length(q1);
    LowerKeepsUtf16Length(q2);
  }

  /**
   * The create item against its deciding cases: too short, exact match
   * ignoring case, longer text, and two characters outside the Basic
   * Multilingual Plane, which Kotlin counts as four.
   */
  lemma CreationExamples()
    ensures !CreationCandidate("ap", [])
    ensures !CreationCandidate("apple", [Keyword(1, "Apple", "Apple")])
    ensures CreationCandidate("applesauce", [Keyword(1, "Apple", "Apple")])
    ensures CreationCandidate("app", [])
    ensures CreationCandidate("\U{1F600}\U{1F600}", [])
  {
    assert Lower("Apple") == "apple";
  }
}
