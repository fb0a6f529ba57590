/**
 * The application state: the store it drives, the tasks on screen, the
 * selection cursors, the form, the search query and the focus countdown.
 */
module Application {
  import opened Wrappers
  import opened Text
  import opened Dates
  import opened Models
  import opened Store
  import opened Search
  import opened Navigation
  import opened Timer
  import opened TextArea
  import opened Form

  datatype InputMode = Normal | Editing | Searching

  /** The status toggle: Todo, Doing, Done, and round again. */
  function NextStatus(s: TaskStatus): TaskStatus {
    match s
    case Todo => Doing
    case Doing => Done
    case Done => Todo
  }

  /** Three toggles restore a status, and a toggle completes a task exactly when it
      was in progress. */
  lemma StatusCycle(s: TaskStatus)
    ensures NextStatus(NextStatus(NextStatus(s))) == s
    ensures NextStatus(s) != s
    ensures NextStatus(s) == Done <==> s == Doing
  {
  }

  /** What `refresh_state` leaves on screen for a table `rows` and profile `profile`:
      the tasks the query selects, that profile, and the weekly statistics. */
  ghost predicate Synced(rows: seq<Row>, profile: UserProfile, query: string,
                        tasks: seq<Task>, shown: UserProfile, stats: seq<(int, nat)>)
  {
    DecodeRows(rows).Some? && tasks == FilterTasks(DecodeRows(rows).value, query) && shown == profile
    && stats == WeeklyStats(rows, StoredDone)
  }

  /** The part of the application state that the screen commands change: the input
      mode, the form, the dashboard selection, the view, the countdown, the kanban
      cursors, the inspector, the task being edited and the help overlay. */
  datatype Screen = Screen(mode: InputMode, form: TaskForm, sel: Option<nat>, view: View,
                           focus: FocusState, kanban: KanbanState, inspecting: bool,
                           editing: Option<string>, help: bool)

  /** The application state as a value: the table and profile in the store, the search
      query, the tasks on screen and the screen. The profile and statistics on screen
      follow from the store by the invariant, and are left out. */
  datatype State = State(rows: seq<Row>, profile: UserProfile, query: string, tasks: seq<Task>,
                         screen: Screen)

  function ScreenOf(app: App): Screen
    reads app`inputMode, app`taskForm, app`tableSel, app`currentView, app`focus, app`kanban
    reads app`isInspecting, app`editingTaskId, app`showHelp
  {
    Screen(app.inputMode, app.taskForm, app.tableSel, app.currentView, app.focus, app.kanban,
           app.isInspecting, app.editingTaskId, app.showHelp)
  }

  function StateOf(app: App): State
    reads app`inputMode, app`taskForm, app`tableSel, app`currentView, app`focus, app`kanban
    reads app`isInspecting, app`editingTaskId, app`showHelp, app`searchQuery, app`tasks
    reads app.db`rows, app.db`profile
  {
    State(app.db.rows, app.db.profile, app.searchQuery, app.tasks, ScreenOf(app))
  }

  /** `toggle_status` from `s0` to `s` at instant `now`: on the dashboard with a task
      selected, the task moves to its next status in the store, completing it awards its
      reward, and the selection is kept, clamped to the reloaded list; otherwise nothing
      changes. */
  predicate StatusToggled(s0: State, s: State, now: int) {
    var sc := s0.screen;
    if sc.view == Dashboard && sc.sel.Some? && sc.sel.value < |s0.tasks| then
      var t := s0.tasks[sc.sel.value];
      var st := NextStatus(t.status);
      s == s0.(rows := SetStatus(s0.rows, t.id, st, now),
               profile := if st == Done then ProfileAfterXp(s0.profile, t.xpReward) else s0.profile,
               tasks := s.tasks, screen := sc.(sel := ClampSelection(sc.sel, |s.tasks|)))
    else s == s0
  }

  /** `delete_current_task` from `s0` to `s`: on the dashboard with a task selected, the
      task leaves the store and the selection stays at its position, or moves to the last
      task, or to none; otherwise nothing changes. */
  predicate TaskDeleted(s0: State, s: State) {
    var sc := s0.screen;
    if sc.view == Dashboard && sc.sel.Some? && sc.sel.value < |s0.tasks| then
      s == s0.(rows := RemoveId(s0.rows, s0.tasks[sc.sel.value].id), tasks := s.tasks,
               screen := sc.(sel := DeleteFixup(sc.sel.value, |s.tasks|)))
    else s == s0
  }

  /** `save_task` from `s0` to `s`, creating with identifier `freshId` at instant `now`:
      a blank title changes nothing; otherwise the edited task gets the form's content,
      or a new task is created unless its identifier is taken (then nothing changes); a
      save that reaches the store resets the form and clamps the selection. */
  predicate TaskSaved(s0: State, s: State, now: int, freshId: string) {
    var sc := s0.screen;
    var d := Submit(sc.form);
    var reset := sc.(editing := None, form := DefaultForm(), sel := ClampSelection(sc.sel, |s.tasks|));
    if d.None? then s == s0
    else if sc.editing.Some? then
      s == s0.(rows := SetContent(s0.rows, sc.editing.value, d.value.title, d.value.description,
                                  d.value.priority, d.value.dueDate),
               tasks := s.tasks, screen := reset)
    else if !HasId(s0.rows, freshId) then
      s == s0.(rows := InsertNewest(s0.rows, InsertedRow(NewTask(freshId, d.value.title, d.value.description,
                                                                 d.value.priority, d.value.xpReward,
                                                                 d.value.dueDate, now))),
               tasks := s.tasks, screen := reset)
    else s == s0
  }

  /** A save of a task being edited whose form submits writes the submitted content back
      to that task and resets the form. */
  lemma SavedEdit(s0: State, s: State, now: int, freshId: string)
    requires s0.screen.editing.Some? && Submit(s0.screen.form).Some?
    requires TaskSaved(s0, s, now, freshId)
    ensures var d := Submit(s0.screen.form).value;
      s.rows == SetContent(s0.rows, s0.screen.editing.value, d.title, d.description, d.priority, d.dueDate)
      && s.screen.editing == None && s.screen.form == DefaultForm() && s.screen.mode == s0.screen.mode
  {
  }

  /** A save leaves the form as it was or puts back the default form. */
  lemma SavedForm(s0: State, s: State, now: int, freshId: string)
    requires TaskSaved(s0, s, now, freshId)
    ensures s.screen.form == s0.screen.form || s.screen.form == DefaultForm()
  {
  }

  class App {
    const db: Database
    var tasks: seq<Task>
    var userProfile: UserProfile
    var inputMode: InputMode
    var taskForm: TaskForm
    var tableSel: Option<nat>
    var currentView: View
    var focus: FocusState
    var kanban: KanbanState
    var isInspecting: bool
    var editingTaskId: Option<string>
    var searchQuery: string
    var stats: seq<(int, nat)>
    var showHelp: bool

    /** The store keeps its table invariants and completion times. */
    ghost predicate StoreOk()
      reads db`rows
    {
      db.Valid() && db.CompletionTracked()
    }

    /** The parts of the state no store call touches. */
    ghost predicate LocalOk()
      reads this`kanban, this`focus, this`taskForm
    {
      kanban.focusedCol <= 2 && TimerInv(focus) && focus.durationSec == 1500 && FormOk(taskForm)
    }

    /** What is on screen reflects the store. */
    ghost predicate InSync()
      reads this`tasks, this`userProfile, this`stats, this`searchQuery, db`rows, db`profile
    {
      Synced(db.rows, db.profile, searchQuery, tasks, userProfile, stats)
    }

    /** The whole invariant, with a dashboard selection that is acceptable for the list. */
    ghost predicate Valid()
      reads this`tasks, this`userProfile, this`stats, this`searchQuery, this`tableSel
      reads this`kanban, this`focus, this`taskForm, db`rows, db`profile
    {
      StoreOk() && LocalOk() && InSync() && SelectionOk(tableSel, |tasks|)
    }

    /** `App::new` over an opened store: every task listed, the first one selected if
        there is one, the splash screen shown. */
    constructor (store: Database)
      requires store.Valid() && store.CompletionTracked()
      ensures Valid()
      ensures db == store && tasks == store.Tasks() && userProfile == store.profile
      ensures tableSel == (if tasks == [] then None else Some(0))
      ensures inputMode == Normal && currentView == Splash && taskForm == DefaultForm()
      ensures focus == DefaultFocus && kanban == DefaultKanban
      ensures !isInspecting && editingTaskId == None && searchQuery == [] && !showHelp
    {
      db := store;
      var ts := store.GetAllTasks();
      var p := store.GetUserProfile();
      var st := store.GetWeeklyStats();
      tasks := ts;
      userProfile := p;
      stats := st;
      tableSel := if ts == [] then None else Some(0);
      inputMode := Normal;
      taskForm := DefaultForm();
      currentView := Splash;
      focus := DefaultFocus;
      kanban := DefaultKanban;
      isInspecting := false;
      editingTaskId := None;
      searchQuery := [];
      showHelp := false;
    }

    /** `refresh_state`: reload the tasks through the search filter, the profile and the
        statistics, then clamp the dashboard selection to the new list. */
    method RefreshState()
      requires StoreOk() && LocalOk()
      modifies this`tasks, this`userProfile, this`stats, this`tableSel
      ensures Valid() && unchanged(db)
      ensures tableSel == ClampSelection(old(tableSel), |tasks|)
      ensures StateOf(this) == old(StateOf(this)).(tasks := tasks, screen := old(ScreenOf(this)).(sel := tableSel))
    {
      var allTasks := db.GetAllTasks();
      tasks := FilterTasks(allTasks, searchQuery);
      userProfile := db.GetUserProfile();
      stats := db.GetWeeklyStats();
      tableSel := ClampSelection(tableSel, |tasks|);
      SelectionOkKept(old(tableSel), |tasks|, 0);
    }

    /** `save_task`, creating with identifier `freshId` at instant `now` when no task is
        being edited. A blank title changes nothing. Otherwise the edited task's content
        is updated, or a new task is created, and the form is reset; a new task whose
        identifier is taken is rejected by the store and then the form is kept. */
    method SaveTask(now: int, freshId: string) returns (ok: bool)
      requires Valid()
      modifies this`tasks, this`userProfile, this`stats, this`tableSel, this`editingTaskId, this`taskForm, db`rows
      ensures Valid()
      ensures ok <==> !(Submit(old(taskForm)).Some? && old(editingTaskId).None? && HasId(old(db.rows), freshId))
      ensures TaskSaved(old(StateOf(this)), StateOf(this), now, freshId)
    {
      var d := Submit(taskForm);
      if d.None? {
        ok := true;
        return;
      }
      var draft := d.value;
      match editingTaskId {
        case Some(id) =>
          SaveEdited(id, draft);
          ok := true;
        case None =>
          var task := NewTask(freshId, draft.title, draft.description, draft.priority,
                              draft.xpReward, draft.dueDate, now);
          ok := SaveNew(task);
      }
    }

    /** The editing branch of `save_task`: the store updates the task's content, then the
        form is reset and the state reloaded. */
    method SaveEdited(id: string, draft: Draft)
      requires StoreOk() && LocalOk()
      modifies this`tasks, this`userProfile, this`stats, this`tableSel, this`editingTaskId, this`taskForm, db`rows
      ensures Valid()
      ensures StateOf(this) == old(StateOf(this)).(
        rows := SetContent(old(db.rows), id, draft.title, draft.description, draft.priority, draft.dueDate),
        tasks := tasks,
        screen := old(ScreenOf(this)).(editing := None, form := DefaultForm(),
                                       sel := ClampSelection(old(tableSel), |tasks|)))
    {
      db.UpdateTaskContent(id, draft.title, draft.description, draft.priority, draft.dueDate);
      editingTaskId := None;
      taskForm := DefaultForm();
      RefreshState();
    }

    /** The creating branch of `save_task`: the store inserts the task unless its
        identifier is taken, in which case the error leaves everything as it was. */
    method SaveNew(t: Task) returns (ok: bool)
      requires Valid() && t.status != Done
      modifies this`tasks, this`userProfile, this`stats, this`tableSel, this`editingTaskId, this`taskForm, db`rows
      ensures Valid()
      ensures ok <==> !HasId(old(db.rows), t.id)
      ensures ok ==> StateOf(this) == old(StateOf(this)).(
        rows := InsertNewest(old(db.rows), InsertedRow(t)),
        tasks := tasks,
        screen := old(ScreenOf(this)).(editing := None, form := DefaultForm(),
                                       sel := ClampSelection(old(tableSel), |tasks|)))
      ensures !ok ==> StateOf(this) == old(StateOf(this))
    {
      ok := db.CreateTask(t);
      if !ok {
        return;
      }
      editingTaskId := None;
      taskForm := DefaultForm();
      RefreshState();
    }

    /** `start_editing`: on the dashboard, with a task selected, load it into the form and
        start editing it. */
    method StartEditing()
      modifies this`editingTaskId, this`taskForm, this`inputMode
      ensures old(LocalOk()) ==> LocalOk()
      ensures if currentView == Dashboard && tableSel.Some? && tableSel.value < |tasks| then
          editingTaskId == Some(tasks[tableSel.value].id) && taskForm == Prefill(tasks[tableSel.value])
          && inputMode == Editing
        else
          editingTaskId == old(editingTaskId) && taskForm == old(taskForm) && inputMode == old(inputMode)
    {
      if currentView != Dashboard {
        return;
      }
      if tableSel.Some? && tableSel.value < |tasks| {
        var task := tasks[tableSel.value];
        editingTaskId := Some(task.id);
        taskForm := Prefill(task);
        inputMode := Editing;
      }
    }

    /** `toggle_inspector`: only on a non-empty dashboard. */
    method ToggleInspector()
      modifies this`isInspecting
      ensures isInspecting == if currentView == Dashboard && tasks != [] then !old(isInspecting) else old(isInspecting)
    {
      if currentView == Dashboard && tasks != [] {
        isInspecting := !isInspecting;
      }
    }

    method NextDashboardTask()
      modifies this`tableSel
      ensures tableSel == NextIndex(old(tableSel), |tasks|)
    {
      if tasks == [] {
        return;
      }
      var i := match tableSel
        case Some(i) => if i >= |tasks| - 1 then 0 else i + 1
        case None => 0;
      tableSel := Some(i);
    }

    method PreviousDashboardTask()
      modifies this`tableSel
      ensures tableSel == PrevIndex(old(tableSel), |tasks|)
    {
      if tasks == [] {
        return;
      }
      var i := match tableSel
        case Some(i) => if i == 0 then |tasks| - 1 else i - 1
        case None => 0;
      tableSel := Some(i);
    }

    method NextKanbanItem()
      modifies this`kanban
      ensures kanban == KanbanNext(old(kanban), tasks)
    {
      var status := StatusFromCol(kanban.focusedCol);
      var count := CountStatus(tasks, status);
      if count == 0 || kanban.focusedCol > 2 {
        return;
      }
      var i := match Cursor(kanban, kanban.focusedCol)
        case Some(i) => if i >= count - 1 then 0 else i + 1
        case None => 0;
      kanban := WithCursor(kanban, kanban.focusedCol, Some(i));
    }

    method PreviousKanbanItem()
      modifies this`kanban
      ensures kanban == KanbanPrev(old(kanban), tasks)
    {
      var status := StatusFromCol(kanban.focusedCol);
      var count := CountStatus(tasks, status);
      if count == 0 || kanban.focusedCol > 2 {
        return;
      }
      var i := match Cursor(kanban, kanban.focusedCol)
        case Some(i) => if i == 0 then count - 1 else i - 1
        case None => 0;
      kanban := WithCursor(kanban, kanban.focusedCol, Some(i));
    }

    /** `next_item`: the dashboard selection or the focused kanban cursor steps down;
        the other views have no cursor. */
    method NextItem()
      modifies this`tableSel, this`kanban
      ensures old(LocalOk()) ==> LocalOk()
      ensures old(SelectionOk(tableSel, |tasks|)) ==> SelectionOk(tableSel, |tasks|)
      ensures currentView == Dashboard ==> tableSel == NextIndex(old(tableSel), |tasks|) && kanban == old(kanban)
      ensures currentView == Kanban ==> kanban == KanbanNext(old(kanban), tasks) && tableSel == old(tableSel)
      ensures currentView != Dashboard && currentView != Kanban ==> tableSel == old(tableSel) && kanban == old(kanban)
    {
      match currentView {
        case Dashboard =>
          NextDashboardTask();
          SelectionOkKept(old(tableSel), |tasks|, 0);
        case Kanban =>
          NextKanbanItem();
        case _ =>
      }
    }

    /** `previous_item`: as `next_item`, stepping up. */
    method PreviousItem()
      modifies this`tableSel, this`kanban
      ensures old(LocalOk()) ==> LocalOk()
      ensures old(SelectionOk(tableSel, |tasks|)) ==> SelectionOk(tableSel, |tasks|)
      ensures currentView == Dashboard ==> tableSel == PrevIndex(old(tableSel), |tasks|) && kanban == old(kanban)
      ensures currentView == Kanban ==> kanban == KanbanPrev(old(kanban), tasks) && tableSel == old(tableSel)
      ensures currentView != Dashboard && currentView != Kanban ==> tableSel == old(tableSel) && kanban == old(kanban)
    {
      match currentView {
        case Dashboard =>
          PreviousDashboardTask();
          SelectionOkKept(old(tableSel), |tasks|, 0);
        case Kanban =>
          PreviousKanbanItem();
        case _ =>
      }
    }

    /** `next_kanban_col`, whatever the view. */
    method NextKanbanCol()
      modifies this`kanban
      ensures old(LocalOk()) ==> LocalOk()
      ensures kanban == old(kanban).(focusedCol := NextCol(old(kanban).focusedCol))
    {
      if kanban.focusedCol < 2 {
        kanban := kanban.(focusedCol := kanban.focusedCol + 1);
      } else {
        kanban := kanban.(focusedCol := 0);
      }
    }

    /** `prev_kanban_col`, whatever the view. */
    method PrevKanbanCol()
      modifies this`kanban
      ensures old(LocalOk()) ==> LocalOk()
      ensures kanban == old(kanban).(focusedCol := PrevCol(old(kanban).focusedCol))
    {
      if kanban.focusedCol > 0 {
        kanban := kanban.(focusedCol := kanban.focusedCol - 1);
      } else {
        kanban := kanban.(focusedCol := 2);
      }
    }

    /** `cycle_view`. */
    method CycleView()
      modifies this`currentView
      ensures currentView == NextView(old(currentView))
    {
      currentView := match currentView
        case Splash => Dashboard
        case Dashboard => Kanban
        case Kanban => Focus
        case Focus => Analytics
        case Analytics => Dashboard;
    }

    /** `toggle_status` at instant `now`: on the dashboard, the selected task moves to the
        next status; completing it first awards its reward. The list is then reloaded and
        the selection kept. */
    method ToggleStatus(now: int)
      requires Valid()
      modifies this`tasks, this`userProfile, this`stats, this`tableSel, db`rows, db`profile
      ensures Valid()
      ensures StatusToggled(old(StateOf(this)), StateOf(this), now)
    {
      if currentView != Dashboard {
        return;
      }
      if tableSel.Some? && tableSel.value < |tasks| {
        ToggleStatusAt(tableSel.value, now);
      }
    }

    /** The body of `toggle_status` for the selected position `i`. */
    method ToggleStatusAt(i: nat, now: int)
      requires StoreOk() && LocalOk() && i < |tasks| && tableSel == Some(i)
      modifies this`tasks, this`userProfile, this`stats, this`tableSel, db`rows, db`profile
      ensures Valid()
      ensures var t := old(tasks)[i];
        var s := NextStatus(t.status);
        StateOf(this) == old(StateOf(this)).(
          rows := SetStatus(old(db.rows), t.id, s, now),
          profile := if s == Done then ProfileAfterXp(old(db.profile), t.xpReward) else old(db.profile),
          tasks := tasks,
          screen := old(ScreenOf(this)).(sel := ClampSelection(Some(i), |tasks|)))
    {
      var task := tasks[i];
      var newStatus := NextStatus(task.status);
      if newStatus == Done && task.status != Done {
        db.AddXp(task.xpReward);
      }
      db.UpdateTaskStatus(task.id, newStatus, now);
      RefreshState();
      Reselect(if i < |tasks| then Some(i) else tableSel);
    }

    /** `delete_current_task`: on the dashboard, the selected task is removed, the list
        reloaded, and the selection moved to the same position, or the last one, or none. */
    method DeleteCurrentTask()
      requires Valid()
      modifies this`tasks, this`userProfile, this`stats, this`tableSel, db`rows
      ensures Valid()
      ensures TaskDeleted(old(StateOf(this)), StateOf(this))
    {
      if currentView != Dashboard {
        return;
      }
      if tableSel.Some? && tableSel.value < |tasks| {
        DeleteAt(tableSel.value);
      }
    }

    /** The body of `delete_current_task` for the selected position `i`. */
    method DeleteAt(i: nat)
      requires StoreOk() && LocalOk() && i < |tasks|
      modifies this`tasks, this`userProfile, this`stats, this`tableSel, db`rows
      ensures Valid()
      ensures StateOf(this) == old(StateOf(this)).(
        rows := RemoveId(old(db.rows), old(tasks)[i].id),
        tasks := tasks,
        screen := old(ScreenOf(this)).(sel := DeleteFixup(i, |tasks|)))
    {
      var task := tasks[i];
      db.DeleteTask(task.id);
      RefreshState();
      var sel := if tasks == [] then None else if i >= |tasks| then Some(|tasks| - 1) else Some(i);
      SelectionOkKept(None, |tasks|, i);
      Reselect(sel);
    }

    /** Moves the dashboard selection of a synced state to `sel`, acceptable for the list. */
    method Reselect(sel: Option<nat>)
      requires StoreOk() && LocalOk() && InSync() && SelectionOk(sel, |tasks|)
      modifies this`tableSel
      ensures Valid() && tableSel == sel && unchanged(db)
      ensures StateOf(this) == old(StateOf(this)).(screen := old(ScreenOf(this)).(sel := sel))
    {
      tableSel := sel;
    }

    /** `toggle_timer` at instant `now`. */
    method ToggleTimer(now: int)
      modifies this`focus
      ensures old(LocalOk()) ==> LocalOk()
      ensures focus == Toggle(old(focus), now)
    {
      focus := focus.(isRunning := !focus.isRunning);
      if focus.isRunning {
        focus := focus.(lastTick := Some(now));
      } else {
        focus := focus.(lastTick := None);
      }
    }

    /** `reset_timer`. */
    method ResetTimer()
      modifies this`focus
      ensures old(LocalOk()) ==> LocalOk()
      ensures focus == Reset(old(focus))
    {
      focus := focus.(isRunning := false);
      focus := focus.(remainingSec := focus.durationSec);
      focus := focus.(lastTick := None);
    }

    /** `on_tick` at instant `now`, with the anchor advanced by the whole seconds counted
        (the corrected tick; see `Timer.SteadyTick`). */
    method OnTick(now: int)
      modifies this`focus
      ensures old(LocalOk()) ==> LocalOk()
      ensures focus == SteadyTick(old(focus), now)
    {
      if focus.isRunning {
        match focus.lastTick {
          case Some(lastTick) =>
            var delta := NumSeconds(now - lastTick);
            if delta > 0 {
              if focus.remainingSec >= delta {
                focus := focus.(remainingSec := focus.remainingSec - delta);
              } else {
                focus := focus.(remainingSec := 0);
                focus := focus.(isRunning := false);
              }
              focus := focus.(lastTick := Some(lastTick + 1000 * delta));
            }
          case None =>
            focus := focus.(lastTick := Some(now));
        }
      }
    }
  }
}
