/**
 The selection keeper of the picker (desktop/src/effect/pickerViewModel.ts:97-195):
 what the selection becomes when rows, filter or focus change.
 */
module PickerSelection {
  import opened Options
  import opened PickerGroups

  type PaneId = string

  datatype View = View(loading: bool, allRowsCount: nat, rows: seq<Row>, focused: Option<PaneId>)

  // What the dock holds between two decisions.
  datatype Keeper = Keeper(selected: Option<PaneId>, prevFocused: Option<PaneId>)

  // A present field is to be assigned, possibly cleared; an absent one is left.
  datatype SelectionStep = SelectionStep(selected: Option<Option<PaneId>>, prevFocused: Option<Option<PaneId>>)

  predicate Visible(rows: seq<Row>, pane: Option<PaneId>) {
    pane.Some? && exists i :: 0 <= i < |rows| && rows[i].paneId == pane.value
  }

  /** The row is the first of those with the highest recency. */
  predicate MostRecent(rows: seq<Row>, i: nat) {
    && i < |rows| && rows[i].focusSeq.Some?
    && (forall k :: 0 <= k < |rows| && rows[k].focusSeq.Some? ==> rows[k].focusSeq.value <= rows[i].focusSeq.value)
    && (forall k :: 0 <= k < i && rows[k].focusSeq.Some? ==> rows[k].focusSeq.value < rows[i].focusSeq.value)
  }

  method MruVisiblePaneId(rows: seq<Row>) returns (pane: Option<PaneId>)
    ensures pane.None? <==> forall k :: 0 <= k < |rows| ==> rows[k].focusSeq.None?
    ensures pane.Some? ==> exists i: nat :: MostRecent(rows, i) && pane.value == rows[i].paneId
  {
    var best: Option<nat> := None;
    for i := 0 to |rows|
      invariant best.None? ==> forall k :: 0 <= k < i ==> rows[k].focusSeq.None?
      invariant best.Some? ==> best.value < i && MostRecent(rows[..i], best.value)
    {
      if rows[i].focusSeq.Some? {
        if best.None? || rows[i].focusSeq.value > rows[best.value].focusSeq.value {
          best := Some(i);
        }
      }
    }
    assert rows[..|rows|] == rows;
    return if best.Some? then Some(rows[best.value].paneId) else None;
  }

  /** The step, given the pane to fall back to when neither selection nor focus is
      visible. */
  function StepFor(view: View, keeper: Keeper, fallback: PaneId): SelectionStep {
    var focusedVisible := Visible(view.rows, view.focused);
    if view.loading then SelectionStep(None, None)
    else if view.allRowsCount == 0 then
      SelectionStep(if keeper.selected.Some? then Some(None) else None, Some(None))
    else if view.rows == [] then SelectionStep(None, None)
    else if focusedVisible && keeper.prevFocused.Some? && view.focused != keeper.prevFocused then
      SelectionStep(Some(view.focused), Some(view.focused))
    else
      SelectionStep(
        if keeper.selected.None? || keeper.selected.value == "" || !Visible(view.rows, keeper.selected)
        then Some(if focusedVisible then view.focused else Some(fallback)) else None,
        if focusedVisible then Some(view.focused) else None)
  }

  /** The most recently focused row, else the first. */
  ghost predicate IsFallback(rows: seq<Row>, pane: PaneId) {
    if rows == [] then pane == ""
    else if forall k :: 0 <= k < |rows| ==> rows[k].focusSeq.None? then pane == rows[0].paneId
    else exists i: nat :: MostRecent(rows, i) && pane == rows[i].paneId
  }

  method IsVisible(rows: seq<Row>, pane: Option<PaneId>) returns (visible: bool)
    ensures visible <==> Visible(rows, pane)
  {
    if pane.None? {
      return false;
    }
    for i := 0 to |rows|
      invariant forall k :: 0 <= k < i ==> rows[k].paneId != pane.value
    {
      if rows[i].paneId == pane.value {
        return true;
      }
    }
    return false;
  }

  method ReconcileSelection(view: View, keeper: Keeper) returns (step: SelectionStep)
    ensures exists fallback :: IsFallback(view.rows, fallback) && step == StepFor(view, keeper, fallback)
  {
    var mru := MruVisiblePaneId(view.rows);
    ghost var fallback := if mru.Some? then mru.value else if view.rows == [] then "" else view.rows[0].paneId;
    assert IsFallback(view.rows, fallback);
    step := SelectionStep(None, None);
    if view.loading {
      return;
    }
    if view.allRowsCount == 0 {
      step := step.(prevFocused := Some(None));
      if keeper.selected.Some? {
        step := step.(selected := Some(None));
      }
      return;
    }
    if view.rows == [] {
      return;
    }
    var focusedVisible := IsVisible(view.rows, view.focused);
    if focusedVisible && keeper.prevFocused.Some? && view.focused != keeper.prevFocused {
      step := SelectionStep(Some(view.focused), Some(view.focused));
      return;
    }
    if focusedVisible {
      step := step.(prevFocused := Some(view.focused));
    }
    var selectedVisible := IsVisible(view.rows, keeper.selected);
    if keeper.selected.None? || keeper.selected.value == "" || !selectedVisible {
      step := step.(selected := Some(if focusedVisible then view.focused
                                     else if mru.Some? then mru else Some(view.rows[0].paneId)));
    }
  }

  function Applied(keeper: Keeper, step: SelectionStep): Keeper {
    Keeper(if step.selected.Some? then step.selected.value else keeper.selected,
           if step.prevFocused.Some? then step.prevFocused.value else keeper.prevFocused)
  }

  function Decided(view: View, keeper: Keeper, fallback: PaneId): Keeper {
    Applied(keeper, StepFor(view, keeper, fallback))
  }

  lemma FallbackIsVisible(rows: seq<Row>, fallback: PaneId)
    requires rows != [] && IsFallback(rows, fallback)
    ensures Visible(rows, Some(fallback))
  {
    if forall k :: 0 <= k < |rows| ==> rows[k].focusSeq.None? {
      assert rows[0].paneId == fallback;
    } else {
      var i: nat :| MostRecent(rows, i) && fallback == rows[i].paneId;
    }
  }

  /** One decision settles: deciding again on the same view changes nothing. And when
      rows are shown, a shown row is selected. */
  lemma DecisionSettles(view: View, keeper: Keeper, fallback: PaneId, again: PaneId)
    requires IsFallback(view.rows, fallback) && IsFallback(view.rows, again)
    requires forall i :: 0 <= i < |view.rows| ==> view.rows[i].paneId != ""
    ensures var after := Decided(view, keeper, fallback);
            && Decided(view, after, again) == after
            && (!view.loading && view.allRowsCount > 0 && view.rows != [] ==> Visible(view.rows, after.selected))
  {
    if view.rows != [] {
      FallbackIsVisible(view.rows, fallback);
    }
  }

  /** Applying a filter and clearing it again, while the focus stays, keeps a manual
      selection exactly if the filter leaves the selected row visible or hides every
      row. A filter that hides it but leaves others moves the selection to one of
      those, and clearing the filter does not bring it back. */
  lemma FilterKeepsManualPickIff(all: View, filtered: View, keeper: Keeper, fallback: PaneId, fallback': PaneId)
    requires !all.loading && !filtered.loading && filtered.allRowsCount == all.allRowsCount > 0
    requires forall i :: 0 <= i < |filtered.rows| ==> filtered.rows[i] in all.rows && filtered.rows[i].paneId != ""
    requires keeper.selected.Some? && keeper.selected.value != "" && Visible(all.rows, keeper.selected)
    requires filtered.focused == all.focused && (keeper.prevFocused == all.focused || keeper.prevFocused.None?)
    requires IsFallback(filtered.rows, fallback)
    ensures Decided(all, Decided(filtered, keeper, fallback), fallback').selected == keeper.selected
            <==> Visible(filtered.rows, keeper.selected) || filtered.rows == []
  {
    if filtered.rows != [] {
      FallbackIsVisible(filtered.rows, fallback);
    }
  }

  /** Two panes, the second focused, the first picked by hand: a filter that leaves only
      the second selects it, and it stays selected when the filter is cleared. */
  lemma FilterTakesHiddenPick(project: string)
    ensures var (a, b) := (Row("A", "p", project, None), Row("B", "p", project, None));
            var (all, filtered) := (View(false, 2, [a, b], Some("B")), View(false, 2, [b], Some("B")));
            var keeper := Keeper(Some("A"), Some("B"));
            && IsFallback(filtered.rows, "B") && IsFallback(all.rows, "A")
            && Decided(all, Decided(filtered, keeper, "B"), "A").selected == Some("B")
  {
    var (a, b) := (Row("A", "p", project, None), Row("B", "p", project, None));
    var (all, filtered) := (View(false, 2, [a, b], Some("B")), View(false, 2, [b], Some("B")));
    var keeper := Keeper(Some("A"), Some("B"));
    assert all.rows[0] == a && all.rows[1] == b && filtered.rows[0] == b;
    assert Visible(all.rows, Some("B")) && Visible(filtered.rows, Some("B"));
    assert Decided(filtered, keeper, "B") == Keeper(Some("B"), Some("B"));
  }

  /** A genuine focus move to a visible pane is followed, over any manual pick, even if
      the pane was hidden by a filter when it happened. */
  lemma HiddenMoveIsFollowedLater(filtered: View, all: View, keeper: Keeper, fallback: PaneId, fallback': PaneId)
    requires keeper.prevFocused.Some? && all.focused.Some? && all.focused != keeper.prevFocused
    requires !filtered.loading && !all.loading && filtered.allRowsCount > 0 && all.allRowsCount > 0
    requires filtered.focused == all.focused && !Visible(filtered.rows, all.focused) && Visible(all.rows, all.focused)
    ensures Decided(all, Decided(filtered, keeper, fallback), fallback') == Keeper(all.focused, all.focused)
  {
  }

  /** While rows load, or a filter hides them all, nothing is decided. */
  lemma NothingToDecide(view: View, keeper: Keeper, fallback: PaneId)
    requires view.loading || (view.allRowsCount > 0 && view.rows == [])
    ensures Decided(view, keeper, fallback) == keeper
  {
  }

  /** An empty source forgets selection and focus alike, so the next rows are decided on
      from scratch: the focused pane if it is shown, else the fallback, whatever was
      selected or focused before. */
  lemma EmptySourceStartsOver(empty: View, keeper: Keeper, fallback: PaneId, next: View, fallback': PaneId)
    requires !empty.loading && empty.allRowsCount == 0
    requires !next.loading && next.allRowsCount > 0 && next.rows != []
    ensures Decided(empty, keeper, fallback) == Keeper(None, None)
    ensures var shown := Visible(next.rows, next.focused);
            Decided(next, Decided(empty, keeper, fallback), fallback')
            == Keeper(if shown then next.focused else Some(fallback'), if shown then next.focused else None)
  {
  }

  /** The focus remembered is the last one that was shown; while it is shown and has not
      moved, a shown selection stays. */
  lemma SelectionStaysWhileFocusDoes(view: View, keeper: Keeper, fallback: PaneId)
    requires !view.loading && view.allRowsCount > 0 && view.rows != []
    ensures Decided(view, keeper, fallback).prevFocused == if Visible(view.rows, view.focused) then view.focused else keeper.prevFocused
    ensures keeper.selected.Some? && keeper.selected.value != "" && Visible(view.rows, keeper.selected)
            && (!Visible(view.rows, view.focused) || keeper.prevFocused.None? || view.focused == keeper.prevFocused) ==>
              Decided(view, keeper, fallback).selected == keeper.selected
    ensures !Visible(view.rows, keeper.selected) ==>
              Decided(view, keeper, fallback).selected == if Visible(view.rows, view.focused) then view.focused else Some(fallback)
  {
  }
}
