/**
 * Cursors and views: the dashboard selection, the three kanban cursors and the
 * focused column, and the cycle of views.
 */
module Navigation {
  import opened Wrappers
  import opened Models

  // ---------------------------------------------------------------------------
  // A cursor over a list of `len` entries

  /** The step down a list (`next_dashboard_task`, `next_kanban_item`): nothing on an
      empty list, the first entry from no selection or from the last entry (or beyond),
      the following entry otherwise. */
  function NextIndex(sel: Option<nat>, len: nat): (r: Option<nat>)
    ensures len == 0 ==> r == sel
    ensures len > 0 ==> r.Some? && r.value < len
    ensures len > 0 ==> (r == Some(0) <==> sel.None? || sel.value >= len - 1)
    ensures len > 0 && sel.Some? && sel.value < len - 1 ==> r == Some(sel.value + 1)
  {
    if len == 0 then sel
    else
      match sel
      case None => Some(0)
      case Some(i) => if i >= len - 1 then Some(0) else Some(i + 1)
  }

  /** The step up a list (`previous_dashboard_task`, `previous_kanban_item`): nothing on
      an empty list, the first entry from no selection, the last entry from the first,
      the preceding entry otherwise. A cursor more than one past the end stays past it. */
  function PrevIndex(sel: Option<nat>, len: nat): (r: Option<nat>)
    ensures len == 0 ==> r == sel
    ensures len > 0 ==> r.Some?
    ensures len > 0 ==> (r.value < len <==> sel.None? || sel.value <= len)
    ensures len > 0 && sel == Some(0) ==> r == Some(len - 1)
    ensures len > 0 && sel.None? ==> r == Some(0)
    ensures len > 0 && sel.Some? && sel.value > 0 ==> r == Some(sel.value - 1)
  {
    if len == 0 then sel
    else
      match sel
      case None => Some(0)
      case Some(i) => if i == 0 then Some(len - 1) else Some(i - 1)
  }

  /** Stepping down then up, or up then down, returns to a cursor that is in range. */
  lemma NextPrevInverse(i: nat, len: nat)
    requires i < len
    ensures PrevIndex(NextIndex(Some(i), len), len) == Some(i)
    ensures NextIndex(PrevIndex(Some(i), len), len) == Some(i)
  {
  }

  function NextTimes(sel: Option<nat>, len: nat, k: nat): Option<nat> {
    if k == 0 then sel else NextIndex(NextTimes(sel, len, k - 1), len)
  }

  /** Up to `len` steps down from entry `i` move `k` entries on, wrapping past the
      last entry to the first. */
  lemma {:induction false} NextTimesWraps(i: nat, len: nat, k: nat)
    requires i < len && k <= len
    ensures NextTimes(Some(i), len, k) == Some(if i + k < len then i + k else i + k - len)
  {
    if k > 0 {
      NextTimesWraps(i, len, k - 1);
    }
  }

  /** After `len` steps down the cursor is back where it started. */
  lemma NextPeriod(i: nat, len: nat)
    requires i < len
    ensures NextTimes(Some(i), len, len) == Some(i)
  {
    NextTimesWraps(i, len, len);
  }

  /** The dashboard selection as `refresh_state` leaves it for a list of `len` entries:
      the first entry when nothing was selected, the last entry (or 0 on an empty list)
      when the selection had run past the end, the selection itself otherwise. */
  function ClampSelection(sel: Option<nat>, len: nat): (r: Option<nat>)
    ensures r.Some?
    ensures len == 0 ==> r == Some(0)
    ensures len > 0 ==> r.value < len
    ensures sel.Some? && sel.value < len ==> r == sel
    ensures sel.None? && len > 0 ==> r == Some(0)
    ensures sel.Some? && sel.value >= len && len > 0 ==> r == Some(len - 1)
  {
    if sel.None? && len > 0 then Some(0)
    else if sel.GetOr(0) >= len then Some(if len == 0 then 0 else len - 1)
    else sel
  }

  /** The selection after `delete_current_task` removed entry `i`, leaving `len`. */
  function DeleteFixup(i: nat, len: nat): (r: Option<nat>)
    ensures len == 0 <==> r.None?
    ensures len > 0 ==> r.value < len
    ensures i < len ==> r == Some(i)
    ensures 0 < len <= i ==> r == Some(len - 1)
  {
    if len == 0 then None else if i >= len then Some(len - 1) else Some(i)
  }

  /** The dashboard selection is in range whenever there is something to select; an
      empty list has no selection or the harmless selection 0. */
  predicate SelectionOk(sel: Option<nat>, len: nat) {
    (sel.None? ==> len == 0) && (sel.Some? ==> sel.value < len || sel.value == 0)
  }

  /** Every way the application sets the dashboard selection keeps it acceptable. */
  lemma SelectionOkKept(sel: Option<nat>, len: nat, i: nat)
    ensures SelectionOk(ClampSelection(sel, len), len)
    ensures SelectionOk(DeleteFixup(i, len), len)
    ensures SelectionOk(sel, len) ==> SelectionOk(NextIndex(sel, len), len)
    ensures SelectionOk(sel, len) ==> SelectionOk(PrevIndex(sel, len), len)
  {
  }

  /** A non-empty list always has an entry selected, so the actions on the selected
      task are then never skipped. */
  lemma SelectionOkSelects(sel: Option<nat>, len: nat)
    requires SelectionOk(sel, len) && len > 0
    ensures sel.Some? && sel.value < len
  {
  }

  // ---------------------------------------------------------------------------
  // The kanban board

  /** The three column cursors and the focused column. */
  datatype KanbanState = KanbanState(todo: Option<nat>, doing: Option<nat>, done: Option<nat>, focusedCol: nat)

  /** `KanbanState::default`: every cursor on the first card, the first column focused. */
  const DefaultKanban: KanbanState := KanbanState(Some(0), Some(0), Some(0), 0)

  /** `get_status_from_col`. */
  function StatusFromCol(col: nat): (s: TaskStatus)
    ensures col == 1 <==> s == Doing
    ensures col == 2 <==> s == Done
    ensures col != 1 && col != 2 <==> s == Todo
  {
    if col == 0 then Todo else if col == 1 then Doing else if col == 2 then Done else Todo
  }

  /** The number of tasks shown in the column of status `s`. */
  function CountStatus(ts: seq<Task>, s: TaskStatus): (c: nat)
    ensures c <= |ts|
    ensures c == 0 <==> forall k :: 0 <= k < |ts| ==> ts[k].status != s
  {
    if ts == [] then 0
    else
      var rest := CountStatus(ts[1..], s);
      assert forall k :: 1 <= k < |ts| ==> ts[k] == ts[1..][k - 1];
      (if ts[0].status == s then 1 else 0) + rest
  }

  /** Every task sits in exactly one of the three columns. */
  lemma {:induction false} ColumnsPartition(ts: seq<Task>)
    ensures CountStatus(ts, Todo) + CountStatus(ts, Doing) + CountStatus(ts, Done) == |ts|
  {
    if ts != [] {
      ColumnsPartition(ts[1..]);
    }
  }

  function Cursor(k: KanbanState, col: nat): Option<nat> {
    if col == 0 then k.todo else if col == 1 then k.doing else k.done
  }

  /** A new board has every cursor on its first card and the To Do column focused, so
      the first Down moves to the second To Do card, or stays on a single one. */
  lemma DefaultKanbanStart(ts: seq<Task>)
    ensures forall col :: col <= 2 ==> Cursor(DefaultKanban, col) == Some(0)
    ensures StatusFromCol(DefaultKanban.focusedCol) == Todo
    ensures var count := CountStatus(ts, Todo);
      count > 0 ==> Cursor(KanbanNext(DefaultKanban, ts), 0) == Some(1 % count)
  {
    var count := CountStatus(ts, Todo);
    if count > 0 {
      var r := KanbanNext(DefaultKanban, ts);
      assert Cursor(r, 0) == NextIndex(Some(0), count);
      if count == 1 {
        assert NextIndex(Some(0), count) == Some(0);
      } else {
        assert NextIndex(Some(0), count) == Some(1);
      }
    }
  }

  function WithCursor(k: KanbanState, col: nat, c: Option<nat>): KanbanState {
    if col == 0 then k.(todo := c) else if col == 1 then k.(doing := c) else k.(done := c)
  }

  /** `next_kanban_item` over the visible tasks: only the focused column's cursor moves,
      stepping over that column's cards; nothing changes on an empty column or an
      out-of-range focus. */
  function KanbanNext(k: KanbanState, ts: seq<Task>): (r: KanbanState)
    ensures r.focusedCol == k.focusedCol
    ensures var count := CountStatus(ts, StatusFromCol(k.focusedCol));
      if count == 0 || k.focusedCol > 2 then r == k
      else (Cursor(r, k.focusedCol) == NextIndex(Cursor(k, k.focusedCol), count)
        && Cursor(r, k.focusedCol).value < count
        && forall col :: col <= 2 && col != k.focusedCol ==> Cursor(r, col) == Cursor(k, col))
  {
    var count := CountStatus(ts, StatusFromCol(k.focusedCol));
    if count == 0 || k.focusedCol > 2 then k
    else WithCursor(k, k.focusedCol, NextIndex(Cursor(k, k.focusedCol), count))
  }

  /** `previous_kanban_item`, with the same frame as `KanbanNext`. */
  function KanbanPrev(k: KanbanState, ts: seq<Task>): (r: KanbanState)
    ensures r.focusedCol == k.focusedCol
    ensures var count := CountStatus(ts, StatusFromCol(k.focusedCol));
      if count == 0 || k.focusedCol > 2 then r == k
      else (Cursor(r, k.focusedCol) == PrevIndex(Cursor(k, k.focusedCol), count)
        && forall col :: col <= 2 && col != k.focusedCol ==> Cursor(r, col) == Cursor(k, col))
  {
    var count := CountStatus(ts, StatusFromCol(k.focusedCol));
    if count == 0 || k.focusedCol > 2 then k
    else WithCursor(k, k.focusedCol, PrevIndex(Cursor(k, k.focusedCol), count))
  }

  /** `next_kanban_col`: one column right, wrapping from the last to the first. */
  function NextCol(col: nat): (r: nat)
    ensures r <= 2
    ensures col < 2 ==> r == col + 1
    ensures col >= 2 ==> r == 0
  {
    if col < 2 then col + 1 else 0
  }

  /** `prev_kanban_col`: one column left, wrapping from the first to the last. */
  function PrevCol(col: nat): (r: nat)
    ensures col <= 3 ==> r <= 2
    ensures col > 0 ==> r == col - 1
    ensures col == 0 ==> r == 2
  {
    if col > 0 then col - 1 else 2
  }

  /** The two column moves undo each other and three of either return to the start. */
  lemma ColumnCycle(col: nat)
    requires col <= 2
    ensures PrevCol(NextCol(col)) == col && NextCol(PrevCol(col)) == col
    ensures NextCol(NextCol(NextCol(col))) == col && PrevCol(PrevCol(PrevCol(col))) == col
  {
  }

  // ---------------------------------------------------------------------------
  // Views

  datatype View = Splash | Dashboard | Kanban | Focus | Analytics

  /** `cycle_view`: Dashboard, Kanban, Focus, Analytics and round again; Splash leads
      into the cycle and is never re-entered. */
  function NextView(v: View): (r: View)
    ensures r != Splash
    ensures v == Splash ==> r == Dashboard
  {
    match v
    case Splash => Dashboard
    case Dashboard => Kanban
    case Kanban => Focus
    case Focus => Analytics
    case Analytics => Dashboard
  }

  /** Four steps of the cycle come back to any non-splash view, and no fewer do. */
  lemma NextViewPeriod(v: View)
    requires v != Splash
    ensures NextView(NextView(NextView(NextView(v)))) == v
    ensures NextView(v) != v && NextView(NextView(v)) != v && NextView(NextView(NextView(v))) != v
  {
  }
}
