/**
 * The state holder of the keyword multi-select dialog: whether it is shown
 * and the ordered list of selected keywords, with open, dismiss, the toggle
 * callback, the removal from the selected-keywords panel and submit.
 */
module KeywordDialog {
  import opened Keywords

  datatype DialogState = DialogState(shown: bool, selected: seq<Keyword>)

  /** A freshly remembered state holder: hidden, nothing selected. */
  const Initial := DialogState(false, [])

  /** What submit produces: the dialog after the click, and the list handed to `onSubmit`. */
  datatype Submission = Submission(dialog: DialogState, handedOver: seq<Keyword>)

  /** Opening replaces the selection by the caller's list, in the caller's order, and shows the dialog. */
  function Open(d: DialogState, ks: seq<Keyword>): (r: DialogState)
    ensures r.shown
    ensures |r.selected| == |ks|
    ensures forall i :: 0 <= i < |ks| ==> r.selected[i] == ks[i]
  {
    DialogState(true, ks)
  }

  /** Dismissing hides the dialog and keeps the selection. */
  function Dismiss(d: DialogState): (r: DialogState)
    ensures !r.shown
    ensures r.selected == d.selected
  {
    d.(shown := false)
  }

  /** The toggle callback the search bar calls. */
  function ApplyToggle(d: DialogState, k: Keyword, id: int, value: bool): (r: DialogState)
    ensures r.shown == d.shown
    ensures value ==> |r.selected| == |d.selected| + 1 && r.selected[0] == k && r.selected[1..] == d.selected
    ensures !value ==> forall x :: x in r.selected ==> x.id != id
    ensures !value ==> forall x :: x in d.selected && x.id != id ==> x in r.selected
    ensures !value ==> r.selected == RemoveId(d.selected, id)
  {
    d.(selected := Toggle(d.selected, k, id, value))
  }

  /** A click on an entry of the selected-keywords panel removes that one entry (its first equal occurrence). */
  function RemoveFromPanel(d: DialogState, k: Keyword): (r: DialogState)
    ensures r.shown == d.shown
    ensures multiset(r.selected) == multiset(d.selected) - multiset{k}
    ensures k in d.selected ==> |r.selected| == |d.selected| - 1
    ensures Subsequence(r.selected, d.selected)
    ensures k in d.selected ==>
      r.selected == d.selected[..FirstIndex(d.selected, k)] + d.selected[FirstIndex(d.selected, k) + 1..]
  {
    d.(selected := RemoveFirst(d.selected, k))
  }

  /** Submit dismisses the dialog first, then hands the current selection to the caller. */
  function Submit(d: DialogState): (r: Submission)
    ensures !r.dialog.shown
    ensures r.handedOver == d.selected == r.dialog.selected
  {
    var dismissed := Dismiss(d);
    Submission(dismissed, dismissed.selected)
  }

  /** Whatever was selected before, a submit right after opening hands back exactly the opening list. */
  lemma OpenThenSubmit(d: DialogState, ks: seq<Keyword>)
    ensures Submit(Open(d, ks)).handedOver == ks
    ensures !Submit(Open(d, ks)).dialog.shown
  {
  }

  /** Reopening after a dismiss discards whatever the earlier session selected. */
  lemma ReopenForgetsSelection(d: DialogState, ks: seq<Keyword>, k: Keyword, id: int, value: bool)
    ensures Open(Dismiss(ApplyToggle(Open(d, ks), k, id, value)), ks) == Open(d, ks)
  {
  }
}
