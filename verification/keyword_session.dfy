/**
 * The keyword multi-select dialog together with its search bar, driven by one
 * event at a time. The bar exists only while the dialog is shown: opening a
 * hidden dialog composes a fresh bar, and every bar event reaching a hidden
 * dialog is dropped.
 */
module KeywordSession {
  import opened Keywords
  import KeywordDialog
  import opened KeywordSearch
  import KeywordSearchFacts

  datatype Session = Session(dialog: KeywordDialog.DialogState, bar: Bar, hideKeywordCreation: bool)

  datatype Event =
    | OpenDialog(keywords: seq<Keyword>)
    | DismissDialog
    | SubmitDialog
    | Type(text: string)
    | QuietPeriod
    | SearchKey
    | FirstPageOk(page: Page)
    | FirstPageErr
    | BottomChanged(seen: Request)
    | ExtendOk(page: Page)
    | ExtendErr
    | SelectionSettled
    | ResultRowClicked(keyword: Keyword)
    | PanelRowClicked(keyword: Keyword)
    | CreateItemClicked
    | CreateOk(keyword: Keyword)
    | CreateErr

  /** A session before the dialog was first opened. */
  function Start(hideKeywordCreation: bool): (r: Session) {
    Session(KeywordDialog.Initial, Init([]), hideKeywordCreation)
  }

  /** A click on result row `k` toggles it against the mirror, not against the selection itself. */
  function ClickResult(s: Session, k: Keyword): (r: Session)
    ensures r.bar == s.bar
    ensures r == s.(dialog := r.dialog) && r.dialog.shown == s.dialog.shown
    ensures k.id !in s.bar.mirror ==> r.dialog.selected == [k] + s.dialog.selected
    ensures k.id in s.bar.mirror ==> r.dialog.selected == RemoveId(s.dialog.selected, k.id)
  {
    s.(dialog := KeywordDialog.ApplyToggle(s.dialog, k, k.id, RowClickValue(s.bar, k)))
  }

  /** One event. */
  function Step(s: Session, e: Event): (r: Session)
    ensures r.hideKeywordCreation == s.hideKeywordCreation
    ensures !s.dialog.shown && !e.OpenDialog? ==> r == s
  {
    match e
    case OpenDialog(ks) =>
      var d := KeywordDialog.Open(s.dialog, ks);
      if s.dialog.shown then s.(dialog := d) else s.(dialog := d, bar := Init(ks))
    case _ =>
      if !s.dialog.shown then s
      else match e
        case DismissDialog => s.(dialog := KeywordDialog.Dismiss(s.dialog))
        case SubmitDialog => s.(dialog := KeywordDialog.Submit(s.dialog).dialog)
        case Type(q) => s.(bar := QueryChanged(s.bar, q))
        case QuietPeriod => s.(bar := QuietPeriodElapsed(s.bar))
        case SearchKey => s.(bar := SearchAction(s.bar))
        case FirstPageOk(p) => s.(bar := FirstPageSucceeded(s.bar, p))
        case FirstPageErr => s.(bar := FirstPageFailed(s.bar))
        case BottomChanged(seen) => s.(bar := BottomReached(s.bar, seen))
        case ExtendOk(p) => s.(bar := ExtendSucceeded(s.bar, p))
        case ExtendErr => s.(bar := ExtendFailed(s.bar))
        case SelectionSettled => s.(bar := MirrorSync(s.bar, s.dialog.selected))
        case ResultRowClicked(k) => ClickResult(s, k)
        case PanelRowClicked(k) => s.(dialog := KeywordDialog.RemoveFromPanel(s.dialog, k))
        case CreateItemClicked =>
          if CreationItemVisible(s.bar, s.hideKeywordCreation) then s.(bar := CreateRequested(s.bar)) else s
        case CreateOk(k) =>
          if s.bar.creating == 0 then s
          else Session(KeywordDialog.ApplyToggle(s.dialog, k, k.id, true), CreateFinished(s.bar), s.hideKeywordCreation)
        case CreateErr => s.(bar := CreateFinished(s.bar))
  }

  /** A sequence of events, in order. */
  function Run(s: Session, es: seq<Event>): (r: Session)
    decreases |es|
  {
    if |es| == 0 then s else Run(Step(s, es[0]), es[1..])
  }

  lemma RunThree(s: Session, a: Event, b: Event, c: Event)
    ensures Run(s, [a, b, c]) == Step(Step(Step(s, a), b), c)
  {
    var es := [a, b, c];
    assert es[1..] == [b, c];
    assert es[1..][1..] == [c];
    assert es[1..][1..][1..] == [];
    calc {
      Run(s, es);
      Run(Step(s, a), [b, c]);
      Run(Step(Step(s, a), b), [c]);
      Run(Step(Step(Step(s, a), b), c), []);
    }
  }

  lemma StepClick(s: Session, k: Keyword)
    requires s.dialog.shown
    ensures var r := Step(s, ResultRowClicked(k));
      r.dialog.shown && r.bar == s.bar
      && r.dialog.selected == Toggle(s.dialog.selected, k, k.id, k.id !in s.bar.mirror)
  {
  }

  lemma StepSync(s: Session)
    requires s.dialog.shown
    ensures var r := Step(s, SelectionSettled);
      r.dialog == s.dialog && r.bar.mirror == Ids(s.dialog.selected)
  {
  }

  /** While the dialog is shown, its bar satisfies the bar invariant. */
  predicate Inv(s: Session) {
    s.dialog.shown ==> BarInv(s.bar)
  }

  /** The mirror has caught up with the selection. */
  predicate Synced(s: Session) {
    s.bar.mirror == Ids(s.dialog.selected)
  }

  lemma StartKeepsInv(hidden: bool)
    ensures Inv(Start(hidden))
  {
  }

  /** Typing, the quiet period and the search action keep the bar invariant. */
  lemma DebounceStepKeepsInv(s: Session, e: Event)
    requires s.dialog.shown && BarInv(s.bar) && (e.Type? || e.QuietPeriod? || e.SearchKey?)
    ensures BarInv(Step(s, e).bar)
  {
    KeywordSearchFacts.DebounceKeepsInv(s.bar, if e.Type? then e.text else "");
  }

  /** Page responses and failures keep the bar invariant. */
  lemma ResponseStepKeepsInv(s: Session, e: Event)
    requires s.dialog.shown && BarInv(s.bar)
    requires e.FirstPageOk? || e.FirstPageErr? || e.ExtendOk? || e.ExtendErr?
    ensures BarInv(Step(s, e).bar)
  {
    var p := if e.FirstPageOk? || e.ExtendOk? then e.page else Page([], false);
    KeywordSearchFacts.ResponsesKeepInv(s.bar, p, s.dialog.selected);
  }

  /** The dialog's own events, the mirror sync and the create calls keep the bar invariant. */
  lemma LocalStepKeepsInv(s: Session, e: Event)
    requires s.dialog.shown && BarInv(s.bar)
    requires e.DismissDialog? || e.SubmitDialog? || e.SelectionSettled? || e.ResultRowClicked?
      || e.PanelRowClicked? || e.CreateItemClicked? || e.CreateOk? || e.CreateErr?
    ensures BarInv(Step(s, e).bar)
  {
    KeywordSearchFacts.LogAppend(s.bar.issued, CreateKeyword(s.bar.query, s.bar.query));
  }

  /** Every event reaching a shown dialog keeps its bar's invariant. */
  lemma ShownStepKeepsInv(s: Session, e: Event)
    requires s.dialog.shown && BarInv(s.bar) && !e.OpenDialog?
    ensures BarInv(Step(s, e).bar)
  {
    if e.Type? || e.QuietPeriod? || e.SearchKey? {
      DebounceStepKeepsInv(s, e);
    } else if e.BottomChanged? {
      KeywordSearchFacts.BottomKeepsInv(s.bar, e.seen);
    } else if e.FirstPageOk? || e.FirstPageErr? || e.ExtendOk? || e.ExtendErr? {
      ResponseStepKeepsInv(s, e);
    } else {
      LocalStepKeepsInv(s, e);
    }
  }

  /** Every event keeps the session invariant. */
  lemma StepKeepsInv(s: Session, e: Event)
    requires Inv(s)
    ensures Inv(Step(s, e))
  {
    if e.OpenDialog? {
      KeywordSearchFacts.InitKeepsInv(e.keywords);
    } else if s.dialog.shown {
      ShownStepKeepsInv(s, e);
    }
  }

  /**
   * The create flag across every event reaching a shown dialog: a new term
   * hides it; with the same term and the same results it keeps its value;
   * results that changed recompute it from the query.
   */
  lemma CreationFlagRules(s: Session, e: Event)
    requires s.dialog.shown && !e.OpenDialog?
    ensures var b := s.bar; var r := Step(s, e).bar;
      && (r.search != b.search ==> !r.showCreation && r.results == b.results)
      && (r.search == b.search && r.results == b.results ==> r.showCreation == b.showCreation)
      && (r.results != b.results ==> r.search == b.search && (r.showCreation <==> CreationCandidate(b.query, r.results)))
  {
  }

  /** Every event sequence keeps the session invariant. */
  lemma {:induction false} RunKeepsInv(s: Session, es: seq<Event>)
    requires Inv(s)
    ensures Inv(Run(s, es))
    decreases |es|
  {
    if |es| > 0 {
      StepKeepsInv(s, es[0]);
      RunKeepsInv(Step(s, es[0]), es[1..]);
    }
  }

  /**
   * With the mirror caught up, a result-row click never creates a second
   * entry for an id: checked rows are removed, unchecked ones inserted.
   */
  lemma ClickKeepsIdsDistinct(s: Session, k: Keyword)
    requires s.dialog.shown && Synced(s) && DistinctIds(s.dialog.selected)
    ensures DistinctIds(Step(s, ResultRowClicked(k)).dialog.selected)
  {
    if k.id in s.bar.mirror {
      RemoveIdKeepsDistinct(s.dialog.selected, k.id);
    } else {
      InsertFrontKeepsDistinct(s.dialog.selected, k);
    }
  }

  /**
   * Clicking a row, letting the mirror catch up and clicking it again gives
   * back the id set one started with; a row that was unchecked even gives
   * back the very same list.
   */
  lemma ClickTwiceRestoresIds(s: Session, k: Keyword)
    requires s.dialog.shown && Synced(s)
    ensures var s3 := Run(s, [ResultRowClicked(k), SelectionSettled, ResultRowClicked(k)]);
      && IdSet(s3.dialog.selected) == IdSet(s.dialog.selected)
      && (k.id !in s.bar.mirror ==> s3.dialog.selected == s.dialog.selected)
  {
    var s1 := Step(s, ResultRowClicked(k));
    var s2 := Step(s1, SelectionSettled);
    var s3 := Step(s2, ResultRowClicked(k));
    RunThree(s, ResultRowClicked(k), SelectionSettled, ResultRowClicked(k));
    var sel := s.dialog.selected;
    StepClick(s, k);
    StepSync(s1);
    StepClick(s2, k);
    ToggleTwiceRestoresIds(sel, k);
  }

  /**
   * Before the mirror catches up, a second click on an unchecked row inserts
   * the keyword again: the selection then holds two entries with its id.
   */
  lemma DoubleClickBeforeSyncDuplicates(s: Session, k: Keyword)
    requires s.dialog.shown && k.id !in s.bar.mirror
    ensures var s2 := Step(Step(s, ResultRowClicked(k)), ResultRowClicked(k));
      && s2.dialog.selected == [k, k] + s.dialog.selected
      && CountId(s2.dialog.selected, k.id) == CountId(s.dialog.selected, k.id) + 2
  {
    var s2 := Step(Step(s, ResultRowClicked(k)), ResultRowClicked(k));
    assert s2.dialog.selected == [k] + ([k] + s.dialog.selected);
    assert ([k] + ([k] + s.dialog.selected))[1..] == [k] + s.dialog.selected;
    assert ([k] + s.dialog.selected)[1..] == s.dialog.selected;
  }

  /** A created keyword lands at the front of the selection, even when its id is already selected. */
  lemma CreatedKeywordGoesFirst(s: Session, k: Keyword)
    requires s.dialog.shown && s.bar.creating > 0
    ensures Step(s, CreateOk(k)).dialog.selected == [k] + s.dialog.selected
  {
  }

  /** The create item asks for a keyword named after the current query, and only while it is on screen. */
  lemma CreateUsesQuery(s: Session)
    requires s.dialog.shown
    ensures var r := Step(s, CreateItemClicked);
      && (CreationItemVisible(s.bar, s.hideKeywordCreation) ==>
            r.bar.issued == s.bar.issued + [CreateKeyword(s.bar.query, s.bar.query)])
      && (s.hideKeywordCreation || !s.bar.showCreation ==> r == s)
  {
  }

  /** Submit hides the dialog and hands over the selection; nothing reaches the hidden dialog's bar. */
  lemma SubmitHandsOverSelection(s: Session, e: Event)
    requires s.dialog.shown && !e.OpenDialog?
    ensures KeywordDialog.Submit(s.dialog).handedOver == s.dialog.selected
    ensures var r := Step(s, SubmitDialog); !r.dialog.shown && Step(r, e) == r
  {
  }

  /** Reopening a dismissed dialog starts from a fresh bar over the new selection. */
  lemma ReopenStartsFresh(s: Session, ks: seq<Keyword>)
    requires !s.dialog.shown
    ensures var r := Step(s, OpenDialog(ks));
      && r.dialog.shown && r.dialog.selected == ks
      && Synced(r) && r.bar.results == [] && r.bar.issued == [FirstPage("")]
  {
  }
}
