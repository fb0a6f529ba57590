/**
 * The event loop: what each key press does, depending on the input mode, the
 * view and the form field being edited, and one round of the loop (the timer
 * tick, then at most one key).
 */
module Dispatch {
  import opened Wrappers
  import opened Text
  import opened Models
  import opened Store
  import opened Navigation
  import opened TextArea
  import opened Form
  import opened Keys
  import opened Application
  import Timer

  /** What a key does. */
  datatype Command =
    | Ignore            // not a key press
    | Quit
    | LeaveSplash
    // normal mode
    | ToggleHelp | CycleView | NewForm | StartEditing | NextItem | PreviousItem
    | NextColumn | PreviousColumn | ToggleTimer | ResetTimer | ToggleStatus | DeleteTask
    | StartSearch | ToggleInspector | CloseInspector
    // editing mode
    | StopEditing | NextFormField | PreviousFormField | PriorityDown | PriorityUp | Save | FieldInput
    // search mode
    | EndSearch | SearchPop | SearchPush(c: char)
    | Nothing

  /** The keys of normal mode. */
  function NormalKey(code: KeyCode): Command {
    match code
    case Char('?') => ToggleHelp
    case Char('q') => Quit
    case Tab => CycleView
    case Char('n') => NewForm
    case Char('e') => StartEditing
    case Char('j') => NextItem
    case Down => NextItem
    case Char('k') => PreviousItem
    case Up => PreviousItem
    case Char('l') => NextColumn
    case Right => NextColumn
    case Char('h') => PreviousColumn
    case Left => PreviousColumn
    case Char('t') => ToggleTimer
    case Char('r') => ResetTimer
    case Char(' ') => ToggleStatus
    case Char('d') => DeleteTask
    case Delete => DeleteTask
    case Char('/') => StartSearch
    case Enter => ToggleInspector
    case Esc => CloseInspector
    case _ => Nothing
  }

  /** The keys of editing mode, with field `field` active: Left/'h' and Right/'l' cycle
      the priority only on the priority field, Enter saves except in the description,
      and every other key goes to the active field. */
  function EditingKey(field: FormField, code: KeyCode): Command {
    if code == Esc then StopEditing
    else if code == Tab then NextFormField
    else if code == BackTab then PreviousFormField
    else if (code == Left || code == Char('h')) && field == Priority then PriorityDown
    else if (code == Right || code == Char('l')) && field == Priority then PriorityUp
    else if code == Enter && field != Description then Save
    else FieldInput
  }

  /** The keys of search mode. */
  function SearchKey(code: KeyCode): Command {
    match code
    case Enter => EndSearch
    case Esc => EndSearch
    case Backspace => SearchPop
    case Char(c) => SearchPush(c)
    case _ => Nothing
  }

  /** The routing of `run_app`: releases and repeats are skipped, Control with 'c' or
      'q' quits from anywhere, the splash screen quits on 'q' and otherwise gives way to
      the dashboard, and then the input mode decides. */
  function Route(mode: InputMode, view: View, field: FormField, ev: KeyEvent): (r: Command)
    ensures r == Ignore <==> ev.kind != Press
    ensures ev.kind == Press && view == Splash ==> r == Quit || r == LeaveSplash
  {
    if ev.kind != Press then Ignore
    else if ev.ctrl && (ev.code == Char('c') || ev.code == Char('q')) then Quit
    else if view == Splash then (if ev.code == Char('q') then Quit else LeaveSplash)
    else match mode
      case Normal => NormalKey(ev.code)
      case Editing => EditingKey(field, ev.code)
      case Searching => SearchKey(ev.code)
  }

  /** Quitting: a pressed Control-c or Control-q anywhere, or a plain 'q' on the splash
      screen or in normal mode; while a field or the query is being typed, 'q' is text. */
  lemma QuitKeys(mode: InputMode, view: View, field: FormField, ev: KeyEvent)
    ensures Route(mode, view, field, ev) == Quit <==>
      ev.kind == Press
      && ((ev.ctrl && (ev.code == Char('c') || ev.code == Char('q')))
          || (ev.code == Char('q') && (view == Splash || mode == Normal)))
  {
  }

  /** Saving: Enter in editing mode, unless the description is being edited. */
  lemma SaveKeys(mode: InputMode, view: View, field: FormField, ev: KeyEvent)
    ensures Route(mode, view, field, ev) == Save <==>
      ev.kind == Press && view != Splash && mode == Editing && ev.code == Enter && field != Description
  {
  }

  /** While editing a text field, every plain character is typed into it. */
  lemma TypingGoesToField(view: View, field: FormField, c: char, kind: KeyKind)
    requires kind == Press && view != Splash && field != Priority
    ensures Route(Editing, view, field, KeyEvent(Char(c), kind, false, false)) == FieldInput
  {
  }

  /** The XP field lets through digits, Backspace and Delete, and nothing else. */
  predicate XpAccepts(code: KeyCode) {
    match code
    case Char(c) => IsDigit(c)
    case Backspace => true
    case Delete => true
    case _ => false
  }

  /** The text-input branch of editing mode: the key goes to the active field's text
      area (to the XP field only when it accepts it); the priority field takes no text. */
  function FieldKey(f: TaskForm, ev: KeyEvent): (r: TaskForm)
    requires FormOk(f)
    ensures FormOk(r)
    ensures r.activeField == f.activeField && r.priority == f.priority
    ensures f.activeField != Title ==> r.title == f.title
    ensures f.activeField != Description ==> r.description == f.description
    ensures f.activeField != Xp ==> r.xp == f.xp
    ensures f.activeField != DueDate ==> r.dueDate == f.dueDate
    ensures f.activeField == Priority ==> r == f
    ensures f.activeField == Title ==> r.title == Input(f.title, ev)
    ensures f.activeField == Description ==> r.description == Input(f.description, ev)
    ensures f.activeField == DueDate ==> r.dueDate == Input(f.dueDate, ev)
    ensures f.activeField == Xp ==> r.xp == if XpAccepts(ev.code) then Input(f.xp, ev) else f.xp
  {
    match f.activeField
    case Title => f.(title := Input(f.title, ev))
    case Description => f.(description := Input(f.description, ev))
    case Xp => if XpAccepts(ev.code) then f.(xp := Input(f.xp, ev)) else f
    case DueDate => f.(dueDate := Input(f.dueDate, ev))
    case Priority => f
  }

  predicate DigitLines(a: Area) {
    forall i :: 0 <= i < |a.lines| ==> AllDigits(a.lines[i])
  }

  /** The reward field of a fresh form holds digits only. */
  lemma DefaultXpIsNumeric()
    ensures DigitLines(DefaultForm().xp)
  {
    var x := DefaultForm().xp.lines[0];
    assert IsDigit(x[0]) && IsDigit(x[1]);
  }

  lemma DigitsOfSlices(x: string, i: nat, j: nat)
    requires AllDigits(x) && i <= j <= |x|
    ensures AllDigits(x[i..j]) && AllDigits(x[..i]) && AllDigits(x[j..])
  {
    assert forall k :: 0 <= k < |x[i..j]| ==> x[i..j][k] == x[i + k];
    assert forall k :: 0 <= k < |x[j..]| ==> x[j..][k] == x[j + k];
  }

  lemma DigitsOfConcat(x: string, y: string)
    requires AllDigits(x) && AllDigits(y)
    ensures AllDigits(x + y)
  {
    assert forall k :: |x| <= k < |x + y| ==> (x + y)[k] == y[k - |x|];
  }

  /** What the XP field accepts keeps every line of it made of digits, so the reward is
      read as its value when that fits an `i32`, and as 10 otherwise. */
  lemma XpStaysNumeric(a: Area, ev: KeyEvent)
    requires AreaOk(a) && DigitLines(a) && XpAccepts(ev.code)
    ensures DigitLines(Input(a, ev))
  {
    var r := Input(a, ev);
    var x := a.lines[a.row];
    assert AllDigits(x);
    if !ev.ctrl && !ev.alt {
      match ev.code {
        case Char(c) =>
          DigitsOfSlices(x, a.col, a.col);
          assert AllDigits([c]);
          DigitsOfConcat(x[..a.col], [c]);
          DigitsOfConcat(x[..a.col] + [c], x[a.col..]);
          assert r.lines == a.lines[a.row := x[..a.col] + [c] + x[a.col..]];
        case Backspace =>
          if a.col > 0 {
            DigitsOfSlices(x, a.col - 1, a.col);
            DigitsOfConcat(x[..a.col - 1], x[a.col..]);
            assert r.lines == a.lines[a.row := x[..a.col - 1] + x[a.col..]];
          } else if a.row > 0 {
            var p := a.lines[a.row - 1];
            assert AllDigits(p);
            DigitsOfConcat(p, x);
            assert r.lines == a.lines[..a.row - 1] + [p + x] + a.lines[a.row + 1..];
            forall i | 0 <= i < |r.lines| ensures AllDigits(r.lines[i]) {
              if i >= a.row {
                assert r.lines[i] == a.lines[i + 1];
              } else if i < a.row - 1 {
                assert r.lines[i] == a.lines[i];
              }
            }
          }
        case Delete =>
          if a.col < |x| {
            DigitsOfSlices(x, a.col, a.col + 1);
            DigitsOfConcat(x[..a.col], x[a.col + 1..]);
            assert r.lines == a.lines[a.row := x[..a.col] + x[a.col + 1..]];
          } else if a.row + 1 < |a.lines| {
            var n := a.lines[a.row + 1];
            assert AllDigits(n);
            DigitsOfConcat(x, n);
            assert r.lines == a.lines[..a.row] + [x + n] + a.lines[a.row + 2..];
            forall i | 0 <= i < |r.lines| ensures AllDigits(r.lines[i]) {
              if i > a.row {
                assert r.lines[i] == a.lines[i + 1];
              } else if i < a.row {
                assert r.lines[i] == a.lines[i];
              }
            }
          }
      }
    }
  }

  /** Whatever key reaches the form, an XP field made of digits stays made of digits:
      the keys it refuses leave it as it was, and the ones it takes keep it numeric. */
  lemma FieldKeyKeepsXpNumeric(f: TaskForm, ev: KeyEvent)
    requires FormOk(f) && DigitLines(f.xp)
    ensures DigitLines(FieldKey(f, ev).xp)
  {
    if f.activeField == Xp && XpAccepts(ev.code) {
      XpStaysNumeric(f.xp, ev);
    }
  }

  /** The commands that go through the store. */
  predicate StoreCommand(cmd: Command) {
    cmd.ToggleStatus? || cmd.DeleteTask? || cmd.Save?
  }

  /** The commands that change the search query. */
  predicate QueryCommand(cmd: Command) {
    cmd.SearchPop? || cmd.SearchPush?
  }

  /** The commands that touch the store or the search query, and so reload the screen. */
  predicate Reloads(cmd: Command) {
    StoreCommand(cmd) || QueryCommand(cmd)
  }

  /** The commands of the views: moving around, the help, the inspector and the timer. */
  predicate ViewCommand(cmd: Command) {
    cmd.LeaveSplash? || cmd.ToggleHelp? || cmd.CycleView? || cmd.NextItem? || cmd.PreviousItem?
    || cmd.NextColumn? || cmd.PreviousColumn? || cmd.ToggleInspector? || cmd.CloseInspector?
    || cmd.ToggleTimer? || cmd.ResetTimer?
  }

  /** The commands that open or leave the form or the search line. */
  predicate ModeCommand(cmd: Command) {
    cmd.NewForm? || cmd.StartEditing? || cmd.StartSearch? || cmd.StopEditing? || cmd.EndSearch?
  }

  /** The commands that edit the form. */
  predicate FieldCommand(cmd: Command) {
    cmd.NextFormField? || cmd.PreviousFormField? || cmd.PriorityDown? || cmd.PriorityUp? || cmd.FieldInput?
  }

  /** The commands of the form and of the mode changes. */
  predicate FormCommand(cmd: Command) {
    ModeCommand(cmd) || FieldCommand(cmd)
  }

  // ---------------------------------------------------------------------------
  // What a command does to the application state

  /** Whether `toggle_inspector` flips the inspector: only on a non-empty dashboard. */
  predicate InspectorFlips(s: Screen, tasks: seq<Task>) {
    s.view == Dashboard && tasks != []
  }

  /** What a view or form command makes of the screen, over the task list `tasks`: the
      key bindings of normal mode (main.rs) and the `App` methods they call, the field
      and priority cycling of editing mode, and the text input. */
  function ScreenStep(cmd: Command, s: Screen, tasks: seq<Task>, ev: KeyEvent, now: int): Screen
    requires FormOk(s.form)
  {
    match cmd
    case LeaveSplash => s.(view := Dashboard)
    case ToggleHelp => s.(help := !s.help)
    case CycleView => s.(view := NextView(s.view))
    case NextItem =>
      if s.view == Dashboard then s.(sel := NextIndex(s.sel, |tasks|))
      else if s.view == Kanban then s.(kanban := KanbanNext(s.kanban, tasks))
      else s
    case PreviousItem =>
      if s.view == Dashboard then s.(sel := PrevIndex(s.sel, |tasks|))
      else if s.view == Kanban then s.(kanban := KanbanPrev(s.kanban, tasks))
      else s
    case NextColumn => s.(kanban := s.kanban.(focusedCol := NextCol(s.kanban.focusedCol)))
    case PreviousColumn => s.(kanban := s.kanban.(focusedCol := PrevCol(s.kanban.focusedCol)))
    case ToggleTimer => s.(focus := Timer.Toggle(s.focus, now))
    case ResetTimer => s.(focus := Timer.Reset(s.focus))
    case ToggleInspector => if InspectorFlips(s, tasks) then s.(inspecting := !s.inspecting) else s
    case CloseInspector =>
      if s.inspecting && InspectorFlips(s, tasks) then s.(inspecting := false) else s
    case NewForm => s.(editing := None, form := DefaultForm(), mode := Editing)
    case StartEditing =>
      if s.view == Dashboard && s.sel.Some? && s.sel.value < |tasks| then
        s.(editing := Some(tasks[s.sel.value].id), form := Prefill(tasks[s.sel.value]), mode := Editing)
      else s
    case StartSearch => s.(mode := Searching)
    case StopEditing => s.(mode := Normal)
    case EndSearch => s.(mode := Normal)
    case NextFormField => s.(form := s.form.(activeField := NextField(s.form.activeField)))
    case PreviousFormField => s.(form := s.form.(activeField := PrevField(s.form.activeField)))
    case PriorityDown => s.(form := s.form.(priority := PriorityLeft(s.form.priority)))
    case PriorityUp => s.(form := s.form.(priority := PriorityRight(s.form.priority)))
    case FieldInput => s.(form := FieldKey(s.form, ev))
    case _ => s
  }

  /** State `s` back in normal mode. */
  function ToNormal(s: State): State {
    s.(screen := s.screen.(mode := Normal))
  }

  /** Enter in the form, from `s0` to `s`: `save_task` and then normal mode. */
  predicate Saved(s0: State, s: State, now: int, freshId: string) {
    TaskSaved(ToNormal(s0), s, now, freshId)
  }

  /** A query command from `s0` to `s`: the query is edited, the store is left alone and
      the selection is clamped to the reloaded list. */
  predicate QueryEdited(cmd: Command, s0: State, s: State)
    requires QueryCommand(cmd)
  {
    s == s0.(query := EditQuery(s0.query, cmd), tasks := s.tasks,
             screen := s0.screen.(sel := ClampSelection(s0.screen.sel, |s.tasks|)))
  }

  /** What command `cmd`, for key `ev` at instant `now`, does to state `s0` when it leaves
      state `s`. The tasks of `s` after a command that reloads are the ones the invariant
      of the application determines. */
  predicate Effect(cmd: Command, ev: KeyEvent, now: int, freshId: string, s0: State, s: State)
    requires FormOk(s0.screen.form)
  {
    match cmd
    case Ignore => s == s0
    case Quit => s == s0
    case Nothing => s == s0
    case ToggleStatus => StatusToggled(s0, s, now)
    case DeleteTask => TaskDeleted(s0, s)
    case Save => Saved(s0, s, now, freshId)
    case SearchPop => QueryEdited(cmd, s0, s)
    case SearchPush(_) => QueryEdited(cmd, s0, s)
    case _ => s == s0.(screen := ScreenStep(cmd, s0.screen, s0.tasks, ev, now))
  }

  /** The state `on_tick` leaves at instant `now`. */
  function Ticked(s: State, now: int): State {
    s.(screen := s.screen.(focus := Timer.SteadyTick(s.screen.focus, now)))
  }

  /** A view or form command changes the screen only, as `ScreenStep` says. */
  lemma LocalEffect(cmd: Command, ev: KeyEvent, now: int, freshId: string, s0: State, s: State)
    requires ViewCommand(cmd) || FormCommand(cmd)
    requires FormOk(s0.screen.form) && s == s0.(screen := ScreenStep(cmd, s0.screen, s.tasks, ev, now))
    ensures Effect(cmd, ev, now, freshId, s0, s)
  {
  }

  /** Esc in the form and Enter or Esc on the search line only return to normal mode: the
      draft, the task being edited and the query are kept. */
  lemma LeavingKeepsDraft(cmd: Command, ev: KeyEvent, now: int, freshId: string, s0: State, s: State)
    requires cmd == StopEditing || cmd == EndSearch
    requires FormOk(s0.screen.form) && Effect(cmd, ev, now, freshId, s0, s)
    ensures s == s0.(screen := s0.screen.(mode := Normal))
  {
  }

  /** Only the store commands write to the store: every other command leaves the table
      and the profile as they were. */
  lemma OnlyStoreCommandsWrite(cmd: Command, ev: KeyEvent, now: int, freshId: string, s0: State, s: State)
    requires !StoreCommand(cmd)
    requires FormOk(s0.screen.form) && Effect(cmd, ev, now, freshId, s0, s)
    ensures s.rows == s0.rows && s.profile == s0.profile
  {
  }

  /** On the search line no key touches the store, the form, the task being edited or the
      view. */
  lemma SearchModeKeys(view: View, field: FormField, ev: KeyEvent, now: int, freshId: string, s0: State, s: State)
    requires view != Splash
    requires FormOk(s0.screen.form) && Effect(Route(Searching, view, field, ev), ev, now, freshId, s0, s)
    ensures s.rows == s0.rows && s.profile == s0.profile
    ensures s.screen.form == s0.screen.form && s.screen.editing == s0.screen.editing
    ensures s.screen.view == s0.screen.view
  {
    var cmd := Route(Searching, view, field, ev);
    assert cmd.Ignore? || cmd.Quit? || cmd.EndSearch? || cmd.SearchPop? || cmd.SearchPush? || cmd.Nothing?;
    if cmd.SearchPop? || cmd.SearchPush? {
      assert QueryEdited(cmd, s0, s);
    } else if cmd.EndSearch? {
      assert s == s0.(screen := s0.screen.(mode := Normal));
    } else {
      assert s == s0;
    }
  }

  /** A character typed on the search line and erased again gives back the query, and the
      store is untouched. */
  lemma {:induction false} SearchPushThenPop(c: char, ev1: KeyEvent, ev2: KeyEvent, now: int, freshId: string,
                                             s0: State, s1: State, s2: State)
    requires FormOk(s0.screen.form) && Effect(SearchPush(c), ev1, now, freshId, s0, s1)
    requires Effect(SearchPop, ev2, now, freshId, s1, s2)
    ensures s2.query == s0.query && s2.rows == s0.rows && s2.profile == s0.profile
  {
    var q := s0.query + [c];
    assert s1.query == q;
    assert DropLast(q) == q[..|q| - 1];
    assert q[..|q| - 1] == s0.query;
  }

  /** While the form is open, no key can put anything but digits into a reward field made
      of digits: the field refuses other characters, and a save puts back the default. */
  lemma EditingKeepsXpNumeric(view: View, ev: KeyEvent, now: int, freshId: string, s0: State, s: State)
    requires FormOk(s0.screen.form) && DigitLines(s0.screen.form.xp)
    requires Effect(Route(Editing, view, s0.screen.form.activeField, ev), ev, now, freshId, s0, s)
    ensures DigitLines(s.screen.form.xp)
  {
    var cmd := Route(Editing, view, s0.screen.form.activeField, ev);
    assert cmd.Ignore? || cmd.Quit? || cmd.LeaveSplash? || cmd.StopEditing? || cmd.NextFormField?
      || cmd.PreviousFormField? || cmd.PriorityDown? || cmd.PriorityUp? || cmd.Save? || cmd.FieldInput?;
    if cmd.Save? {
      DefaultXpIsNumeric();
      SavedForm(ToNormal(s0), s, now, freshId);
      assert DigitLines(s.screen.form.xp);
    } else if cmd.FieldInput? {
      assert s == s0.(screen := ScreenStep(cmd, s0.screen, s0.tasks, ev, now));
      FieldKeyKeepsXpNumeric(s0.screen.form, ev);
      assert s.screen.form == FieldKey(s0.screen.form, ev);
    } else if cmd.Ignore? || cmd.Quit? {
      assert s == s0;
    } else {
      assert s == s0.(screen := ScreenStep(cmd, s0.screen, s0.tasks, ev, now));
      assert s.screen.form.xp == s0.screen.form.xp;
    }
  }

  /** Deleting the selected task removes every row with its identifier and keeps every
      other row. */
  lemma DeleteRemovesSelected(ev: KeyEvent, now: int, freshId: string, s0: State, s: State)
    requires s0.screen.view == Dashboard && s0.screen.sel.Some? && s0.screen.sel.value < |s0.tasks|
    requires FormOk(s0.screen.form) && Effect(DeleteTask, ev, now, freshId, s0, s)
    ensures var id := s0.tasks[s0.screen.sel.value].id;
      !HasId(s.rows, id) && forall x :: x in s.rows <==> x in s0.rows && x.id != id
  {
    RemoveIdSpec(s0.rows, s0.tasks[s0.screen.sel.value].id);
  }

  /** 'e' on the dashboard with a task selected opens that task in the form. */
  lemma StartEditingOpens(ev: KeyEvent, now: int, freshId: string, s0: State, s1: State)
    requires s0.screen.view == Dashboard && s0.screen.sel.Some? && s0.screen.sel.value < |s0.tasks|
    requires FormOk(s0.screen.form) && Effect(StartEditing, ev, now, freshId, s0, s1)
    ensures var t := s0.tasks[s0.screen.sel.value];
      s1 == s0.(screen := s0.screen.(editing := Some(t.id), form := Prefill(t), mode := Editing))
  {
  }

  /** Enter in the form is a save followed by normal mode. */
  lemma SaveIsSaved(ev: KeyEvent, now: int, freshId: string, s0: State, s: State)
    requires FormOk(s0.screen.form) && Effect(Save, ev, now, freshId, s0, s)
    ensures TaskSaved(ToNormal(s0), s, now, freshId)
  {
  }

  /** Opening the selected task in the form and saving it straight away writes the task's
      own content back to it, when its texts are as a save leaves them. */
  lemma EditThenSaveWritesBack(ev1: KeyEvent, ev2: KeyEvent, now1: int, now2: int, freshId: string,
                               s0: State, s1: State, s2: State)
    requires s0.screen.view == Dashboard && s0.screen.sel.Some? && s0.screen.sel.value < |s0.tasks|
    requires var t := s0.tasks[s0.screen.sel.value];
      t.title != [] && IsTrimmed(t.title) && IsTrimmed(t.description) && '\r' !in t.description
      && I32Min <= t.xpReward <= I32Max && (t.dueDate.Some? ==> 0 <= t.dueDate.value.year <= 9999)
    requires FormOk(s0.screen.form) && Effect(StartEditing, ev1, now1, freshId, s0, s1)
    requires Effect(Save, ev2, now2, freshId, s1, s2)
    ensures var t := s0.tasks[s0.screen.sel.value];
      s2.rows == SetContent(s0.rows, t.id, t.title, t.description, t.priority, t.dueDate)
      && s2.screen.mode == Normal && s2.screen.editing == None
  {
    var t := s0.tasks[s0.screen.sel.value];
    StartEditingOpens(ev1, now1, freshId, s0, s1);
    PrefillThenSubmit(t);
    SaveIsSaved(ev2, now2, freshId, s1, s2);
    SavedEdit(ToNormal(s1), s2, now2, freshId);
  }

  // ---------------------------------------------------------------------------
  // Running the commands

  /** The view commands that move a cursor. */
  predicate CursorCommand(cmd: Command) {
    cmd.NextItem? || cmd.PreviousItem? || cmd.NextColumn? || cmd.PreviousColumn?
  }

  /** Runs a view command. */
  method RunView(app: App, cmd: Command, ev: KeyEvent, now: int)
    requires ViewCommand(cmd) && app.LocalOk() && SelectionOk(app.tableSel, |app.tasks|)
    modifies app`tableSel, app`currentView, app`focus, app`kanban, app`isInspecting, app`showHelp
    ensures app.LocalOk() && SelectionOk(app.tableSel, |app.tasks|)
    ensures ScreenOf(app) == ScreenStep(cmd, old(ScreenOf(app)), app.tasks, ev, now)
    ensures unchanged(app.db) && unchanged(app`tasks, app`searchQuery, app`userProfile, app`stats)
  {
    if CursorCommand(cmd) {
      RunCursor(app, cmd, ev, now);
    } else {
      RunPanel(app, cmd, ev, now);
    }
  }

  /** Runs a command that moves the dashboard selection, a kanban cursor or the kanban
      focus. */
  method RunCursor(app: App, cmd: Command, ev: KeyEvent, now: int)
    requires CursorCommand(cmd) && app.LocalOk() && SelectionOk(app.tableSel, |app.tasks|)
    modifies app`tableSel, app`currentView, app`focus, app`kanban, app`isInspecting, app`showHelp
    ensures app.LocalOk() && SelectionOk(app.tableSel, |app.tasks|)
    ensures ScreenOf(app) == ScreenStep(cmd, old(ScreenOf(app)), app.tasks, ev, now)
    ensures unchanged(app.db) && unchanged(app`tasks, app`searchQuery, app`userProfile, app`stats)
  {
    match cmd {
      case NextItem => app.NextItem();
      case PreviousItem => app.PreviousItem();
      case NextColumn => app.NextKanbanCol();
      case PreviousColumn => app.PrevKanbanCol();
    }
  }

  /** Runs a view command that does not move a cursor: the splash, the help, the view
      cycle, the countdown and the inspector. */
  method RunPanel(app: App, cmd: Command, ev: KeyEvent, now: int)
    requires ViewCommand(cmd) && !CursorCommand(cmd) && app.LocalOk() && SelectionOk(app.tableSel, |app.tasks|)
    modifies app`tableSel, app`currentView, app`focus, app`kanban, app`isInspecting, app`showHelp
    ensures app.LocalOk() && SelectionOk(app.tableSel, |app.tasks|)
    ensures ScreenOf(app) == ScreenStep(cmd, old(ScreenOf(app)), app.tasks, ev, now)
    ensures unchanged(app.db) && unchanged(app`tasks, app`searchQuery, app`userProfile, app`stats)
  {
    match cmd {
      case LeaveSplash => app.currentView := Dashboard;
      case ToggleHelp => app.showHelp := !app.showHelp;
      case CycleView => app.CycleView();
      case ToggleTimer => app.ToggleTimer(now);
      case ResetTimer => app.ResetTimer();
      case ToggleInspector => app.ToggleInspector();
      case CloseInspector =>
        if app.isInspecting {
          app.ToggleInspector();
        }
    }
  }

  /** Runs a command that opens or leaves the form or the search line. */
  method RunMode(app: App, cmd: Command, ev: KeyEvent, now: int)
    requires ModeCommand(cmd) && app.LocalOk()
    modifies app`inputMode, app`taskForm, app`editingTaskId
    ensures app.LocalOk()
    ensures ScreenOf(app) == ScreenStep(cmd, old(ScreenOf(app)), app.tasks, ev, now)
    ensures unchanged(app.db) && unchanged(app`tasks, app`searchQuery, app`userProfile, app`stats)
  {
    match cmd {
      case NewForm =>
        app.editingTaskId := None;
        app.taskForm := DefaultForm();
        app.inputMode := Editing;
      case StartEditing => app.StartEditing();
      case StartSearch => app.inputMode := Searching;
      case StopEditing => app.inputMode := Normal;
      case EndSearch => app.inputMode := Normal;
    }
  }

  /** Runs a command that edits the form. */
  method RunField(app: App, cmd: Command, ev: KeyEvent, now: int)
    requires FieldCommand(cmd) && app.LocalOk()
    modifies app`taskForm
    ensures app.LocalOk()
    ensures ScreenOf(app) == ScreenStep(cmd, old(ScreenOf(app)), app.tasks, ev, now)
    ensures unchanged(app.db) && unchanged(app`tasks, app`searchQuery, app`userProfile, app`stats)
  {
    match cmd {
      case NextFormField => app.taskForm := app.taskForm.(activeField := NextField(app.taskForm.activeField));
      case PreviousFormField => app.taskForm := app.taskForm.(activeField := PrevField(app.taskForm.activeField));
      case PriorityDown => app.taskForm := app.taskForm.(priority := PriorityLeft(app.taskForm.priority));
      case PriorityUp => app.taskForm := app.taskForm.(priority := PriorityRight(app.taskForm.priority));
      case FieldInput => app.taskForm := FieldKey(app.taskForm, ev);
    }
  }

  /** Runs a command that goes through the store. */
  method RunStore(app: App, cmd: Command, ev: KeyEvent, now: int, freshId: string)
    requires StoreCommand(cmd) && app.Valid()
    modifies app`tasks, app`userProfile, app`stats, app`tableSel, app`editingTaskId, app`taskForm
    modifies app`inputMode, app.db`rows, app.db`profile
    ensures app.Valid()
    ensures Effect(cmd, ev, now, freshId, old(StateOf(app)), StateOf(app))
  {
    match cmd {
      case ToggleStatus => RunToggle(app, cmd, ev, now, freshId);
      case DeleteTask => RunDelete(app, cmd, ev, now, freshId);
      case Save => RunSave(app, cmd, ev, now, freshId);
    }
  }

  /** Space in normal mode: `toggle_status`. */
  method RunToggle(app: App, cmd: Command, ev: KeyEvent, now: int, freshId: string)
    requires cmd == ToggleStatus && app.Valid()
    modifies app`tasks, app`userProfile, app`stats, app`tableSel, app.db`rows, app.db`profile
    ensures app.Valid()
    ensures Effect(cmd, ev, now, freshId, old(StateOf(app)), StateOf(app))
  {
    app.ToggleStatus(now);
  }

  /** 'd' or Delete in normal mode: `delete_current_task`. */
  method RunDelete(app: App, cmd: Command, ev: KeyEvent, now: int, freshId: string)
    requires cmd == DeleteTask && app.Valid()
    modifies app`tasks, app`userProfile, app`stats, app`tableSel, app.db`rows
    ensures app.Valid()
    ensures Effect(cmd, ev, now, freshId, old(StateOf(app)), StateOf(app))
  {
    app.DeleteCurrentTask();
  }

  /** Enter in the form: saving, which always returns to normal mode, even when the title
      is blank or the store refuses the new task. */
  method RunSave(app: App, cmd: Command, ev: KeyEvent, now: int, freshId: string)
    requires cmd == Save && app.Valid()
    modifies app`tasks, app`userProfile, app`stats, app`tableSel, app`editingTaskId, app`taskForm
    modifies app`inputMode, app.db`rows
    ensures app.Valid() && app.inputMode == Normal
    ensures Saved(old(StateOf(app)), StateOf(app), now, freshId)
    ensures Effect(cmd, ev, now, freshId, old(StateOf(app)), StateOf(app))
  {
    // `save_task` neither reads nor writes the input mode, so the mode may be set first
    app.inputMode := Normal;
    var _ := app.SaveTask(now, freshId);
  }

  /** The search query after a query command. */
  function EditQuery(query: string, cmd: Command): (r: string)
    requires QueryCommand(cmd)
    ensures cmd.SearchPush? ==> r == query + [cmd.c]
    ensures cmd.SearchPop? ==> |r| == if query == [] then 0 else |query| - 1
    ensures cmd.SearchPop? ==> r == query[..|r|]
  {
    if cmd.SearchPop? then DropLast(query) else query + [cmd.c]
  }

  /** Runs a query command: the query changes, then the screen is reloaded with it. */
  method RunSearch(app: App, cmd: Command)
    requires QueryCommand(cmd) && app.StoreOk() && app.LocalOk()
    modifies app`tasks, app`userProfile, app`stats, app`tableSel, app`searchQuery
    ensures app.Valid()
    ensures app.searchQuery == EditQuery(old(app.searchQuery), cmd)
    ensures QueryEdited(cmd, old(StateOf(app)), StateOf(app))
  {
    app.searchQuery := EditQuery(app.searchQuery, cmd);
    app.RefreshState();
  }

  /** Runs a screen command. It leaves the store, the query and the task list alone, so
      what is on screen stays in step with the store. */
  method RunLocal(app: App, cmd: Command, ev: KeyEvent, now: int)
    requires (ViewCommand(cmd) || FormCommand(cmd)) && app.Valid()
    modifies app`inputMode, app`taskForm, app`tableSel, app`currentView, app`focus, app`kanban
    modifies app`isInspecting, app`editingTaskId, app`showHelp
    ensures app.Valid()
    ensures StateOf(app) == old(StateOf(app)).(screen := ScreenStep(cmd, old(ScreenOf(app)), app.tasks, ev, now))
  {
    if ViewCommand(cmd) {
      RunView(app, cmd, ev, now);
    } else if ModeCommand(cmd) {
      RunMode(app, cmd, ev, now);
    } else {
      RunField(app, cmd, ev, now);
    }
  }

  /** Runs a command that touches the store or the search query. */
  method RunReload(app: App, cmd: Command, ev: KeyEvent, now: int, freshId: string)
    requires Reloads(cmd) && app.Valid()
    modifies app`tasks, app`userProfile, app`stats, app`tableSel, app`editingTaskId, app`taskForm
    modifies app`searchQuery, app`inputMode, app.db`rows, app.db`profile
    ensures app.Valid()
    ensures Effect(cmd, ev, now, freshId, old(StateOf(app)), StateOf(app))
  {
    if QueryCommand(cmd) {
      RunSearch(app, cmd);
    } else {
      RunStore(app, cmd, ev, now, freshId);
    }
  }

  /** Runs any command; quitting, ignored keys and unbound keys change nothing, and only
      the commands that reload touch the store, the query and the task list. */
  method Execute(app: App, cmd: Command, ev: KeyEvent, now: int, freshId: string)
    requires app.Valid()
    modifies app, app.db
    ensures app.Valid()
    ensures Effect(cmd, ev, now, freshId, old(StateOf(app)), StateOf(app))
    ensures cmd == Ignore || cmd == Quit || cmd == Nothing ==> unchanged(app, app.db)
    ensures !Reloads(cmd) ==> app.db.rows == old(app.db.rows) && app.tasks == old(app.tasks)
                              && app.searchQuery == old(app.searchQuery)
  {
    if cmd == Ignore || cmd == Quit || cmd == Nothing {
      return;
    }
    if Reloads(cmd) {
      RunReload(app, cmd, ev, now, freshId);
    } else {
      RunLocal(app, cmd, ev, now);
      LocalEffect(cmd, ev, now, freshId, old(StateOf(app)), StateOf(app));
    }
  }

  /** One key event of `run_app`, at instant `now`, with `freshId` as the identifier of a
      task created by it. The result says whether the application quits, and the state
      changes as the routed command says; a key that is not a press changes nothing. */
  method HandleKey(app: App, ev: KeyEvent, now: int, freshId: string) returns (quit: bool)
    requires app.Valid()
    modifies app, app.db
    ensures app.Valid()
    ensures quit <==> Route(old(app.inputMode), old(app.currentView), old(app.taskForm.activeField), ev) == Quit
    ensures Effect(Route(old(app.inputMode), old(app.currentView), old(app.taskForm.activeField), ev),
                   ev, now, freshId, old(StateOf(app)), StateOf(app))
    ensures ev.kind != Press ==> unchanged(app, app.db)
  {
    var cmd := Route(app.inputMode, app.currentView, app.taskForm.activeField, ev);
    quit := cmd == Quit;
    Execute(app, cmd, ev, now, freshId);
  }

  /** One round of the loop at instant `now`: the timer ticks, then the key that arrived
      within the polling interval, if any, is handled on the ticked state. */
  method Step(app: App, ev: Option<KeyEvent>, now: int, freshId: string) returns (quit: bool)
    requires app.Valid()
    modifies app, app.db
    ensures app.Valid()
    ensures ev.None? ==> !quit && StateOf(app) == Ticked(old(StateOf(app)), now)
    ensures ev.Some? ==> (quit <==> Route(old(app.inputMode), old(app.currentView),
                                         old(app.taskForm.activeField), ev.value) == Quit)
    ensures ev.Some? ==> Effect(Route(old(app.inputMode), old(app.currentView), old(app.taskForm.activeField), ev.value),
                                ev.value, now, freshId, Ticked(old(StateOf(app)), now), StateOf(app))
  {
    app.OnTick(now);
    quit := false;
    if ev.Some? {
      quit := HandleKey(app, ev.value, now, freshId);
    }
  }
}
