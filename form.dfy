/**
 * The task form: its five fields, how it is pre-filled from an existing task,
 * and how a submission is read back out of it.
 */
module Form {
  import opened Wrappers
  import opened Text
  import opened Dates
  import opened Models
  import opened TextArea

  datatype FormField = Title | Priority | Xp | DueDate | Description

  datatype TaskForm = TaskForm(
    title: Area,
    description: Area,
    priority: TaskPriority,
    xp: Area,
    dueDate: Area,
    activeField: FormField)

  predicate FormOk(f: TaskForm) {
    AreaOk(f.title) && AreaOk(f.description) && AreaOk(f.xp) && AreaOk(f.dueDate)
  }

  /** `TaskForm::default`: empty fields except an XP of "10" with the cursor after it,
      medium priority, the title active. */
  function DefaultForm(): (f: TaskForm)
    ensures FormOk(f)
  {
    TaskForm(EmptyArea, EmptyArea, Medium, Area(["10"], 0, 2), EmptyArea, Title)
  }

  /** The XP field of the default form is what `insert_str("10")` makes of an empty text
      area: the text "10" with the cursor after it. */
  lemma DefaultXpInserted()
    ensures DefaultForm().xp == InsertText(EmptyArea, "10")
    ensures Content(DefaultForm().xp) == "10"
  {
    var xp := InsertText(EmptyArea, "10");
    assert xp.lines == [""][0 := "" + "10" + ""];
    assert "" + "10" + "" == "10";
  }

  /** Tab: Title, Priority, XP, due date, description, and round again. */
  function NextField(f: FormField): FormField {
    match f
    case Title => Priority
    case Priority => Xp
    case Xp => DueDate
    case DueDate => Description
    case Description => Title
  }

  /** BackTab: the same round the other way. */
  function PrevField(f: FormField): FormField {
    match f
    case Title => Description
    case Priority => Title
    case Xp => Priority
    case DueDate => Xp
    case Description => DueDate
  }

  /** BackTab undoes Tab and Tab undoes BackTab; five Tabs visit every field and
      come back. */
  lemma FieldCycle(f: FormField)
    ensures PrevField(NextField(f)) == f && NextField(PrevField(f)) == f
    ensures NextField(NextField(NextField(NextField(NextField(f))))) == f
    ensures NextField(f) != f && NextField(NextField(f)) != f
    ensures NextField(NextField(NextField(f))) != f && NextField(NextField(NextField(NextField(f)))) != f
  {
  }

  /** Left on the priority field: High, Medium, Low, and round again. */
  function PriorityLeft(p: TaskPriority): TaskPriority {
    match p
    case High => Medium
    case Medium => Low
    case Low => High
  }

  /** Right on the priority field: Low, Medium, High, and round again. */
  function PriorityRight(p: TaskPriority): TaskPriority {
    match p
    case High => Low
    case Medium => High
    case Low => Medium
  }

  /** Left and Right undo each other, and three of either come back. */
  lemma PriorityCycle(p: TaskPriority)
    ensures PriorityRight(PriorityLeft(p)) == p && PriorityLeft(PriorityRight(p)) == p
    ensures PriorityLeft(PriorityLeft(PriorityLeft(p))) == p
    ensures PriorityLeft(p) != p && PriorityRight(p) != p
  {
  }

  /** What `start_editing` writes into the form for a task: the title as one line, the
      description split into its lines, the priority, the reward in decimal and the due
      date as "YYYY-MM-DD" (empty without one); every cursor at the start, the title active. */
  function Prefill(t: Task): (f: TaskForm)
    ensures FormOk(f)
    ensures f.title.lines == [t.title] && f.priority == t.priority && f.activeField == Title
    ensures f.description == NewArea(Lines(t.description))
    ensures f.xp.lines == [IntToString(t.xpReward)]
    ensures f.dueDate.lines == [if t.dueDate.Some? then FormatDate(t.dueDate.value) else ""]
    ensures f.title.row == 0 && f.title.col == 0 && f.xp.row == 0 && f.xp.col == 0
    ensures f.dueDate.row == 0 && f.dueDate.col == 0
  {
    TaskForm(
      NewArea([t.title]),
      NewArea(Lines(t.description)),
      t.priority,
      NewArea([IntToString(t.xpReward)]),
      NewArea([if t.dueDate.Some? then FormatDate(t.dueDate.value) else ""]),
      Title)
  }

  /** The values `save_task` reads out of the form. */
  datatype Draft = Draft(title: string, description: string, priority: TaskPriority, xpReward: int, dueDate: Option<CalendarDate>)

  /** The XP field: its lines run together and trimmed, parsed as an `i32`, 10 when that fails. */
  function XpOf(xp: Area): (n: int)
    ensures I32Min <= n <= I32Max
    ensures var s := Trim(Join(xp.lines, ""));
      (ParseI32(s).Some? ==> n == ParseI32(s).value) && (ParseI32(s).None? ==> n == 10)
  {
    ParseI32(Trim(Join(xp.lines, ""))).GetOr(10)
  }

  /** The due-date field: no date when it is blank or does not name a day as "YYYY-MM-DD". */
  function DueDateOf(due: Area): (d: Option<CalendarDate>)
    ensures var s := Trim(Join(due.lines, ""));
      (AllWhitespace(Join(due.lines, "")) ==> d == None) && (d.Some? ==> FormatDate(d.value) == s)
    ensures var s := Trim(Join(due.lines, "")); s != [] ==> d == ParseDate(s)
  {
    var s := Trim(Join(due.lines, ""));
    if s == [] then None
    else
      var d := ParseDate(s);
      assert d.Some? ==> FormatDate(d.value) == s by {
        if d.Some? { ParseThenFormat(s); }
      }
      d
  }

  /** `save_task`'s reading of the form: nothing when the title is blank; otherwise the
      title lines joined with spaces and trimmed, the description lines joined with line
      breaks and trimmed, the priority, the reward and the due date. */
  function Submit(f: TaskForm): (r: Option<Draft>)
    ensures r.None? <==> AllWhitespace(Join(f.title.lines, ""))
    ensures r.Some? ==> r.value.title == Trim(Join(f.title.lines, " "))
    ensures r.Some? ==> r.value.description == Trim(Join(f.description.lines, "\n"))
    ensures r.Some? ==> r.value.priority == f.priority
    ensures r.Some? ==> r.value.xpReward == XpOf(f.xp) && r.value.dueDate == DueDateOf(f.dueDate)
  {
    if Trim(Join(f.title.lines, "")) == [] then None
    else
      Some(Draft(Trim(Join(f.title.lines, " ")), Trim(Join(f.description.lines, "\n")), f.priority,
                 XpOf(f.xp), DueDateOf(f.dueDate)))
  }

  /** The blank test on the title lines run together agrees with the title built from
      them with spaces. */
  lemma BlankTestsAgree(lines: seq<string>)
    ensures AllWhitespace(Join(lines, "")) <==> AllWhitespace(Join(lines, " "))
  {
    assert IsWhitespace(" "[0]);
    JoinAllWhitespace(lines, "");
    JoinAllWhitespace(lines, " ");
  }

  /** A submitted title is never empty and has no surrounding whitespace. */
  lemma SubmittedTitleNonEmpty(f: TaskForm)
    requires Submit(f).Some?
    ensures Submit(f).value.title != [] && IsTrimmed(Submit(f).value.title)
  {
    BlankTestsAgree(f.title.lines);
  }

  /** The default form has a blank title, so saving it creates nothing. */
  lemma DefaultFormSubmitsNothing()
    ensures Submit(DefaultForm()) == None
  {
  }

  lemma TitleRoundTrip(title: string)
    requires title != [] && IsTrimmed(title)
    ensures !AllWhitespace(Join(NewArea([title]).lines, ""))
    ensures Trim(Join(NewArea([title]).lines, " ")) == title
  {
    assert !IsWhitespace(title[0]);
  }

  lemma DescriptionRoundTrip(description: string)
    requires IsTrimmed(description) && '\r' !in description
    ensures Trim(Join(NewArea(Lines(description)).lines, "\n")) == description
  {
    assert description == [] || description[|description| - 1] != '\n' by {
      assert IsWhitespace('\n');
    }
    JoinLines(description);
    if Lines(description) == [] {
      assert Join([""], "\n") == "";
    }
  }

  lemma XpRoundTrip(n: int)
    requires I32Min <= n <= I32Max
    ensures XpOf(NewArea([IntToString(n)])) == n
  {
    var xs := IntToString(n);
    ParseInt32OfToString(n);
    assert xs != [] && !IsWhitespace(xs[0]) && !IsWhitespace(xs[|xs| - 1]);
  }

  lemma DueDateRoundTrip(due: Option<CalendarDate>)
    requires due.Some? ==> 0 <= due.value.year <= 9999
    ensures DueDateOf(NewArea([if due.Some? then FormatDate(due.value) else ""])) == due
  {
    if due.Some? {
      var ds := FormatDate(due.value);
      FormatThenParse(due.value);
      assert |ds| == 10 && !IsWhitespace(ds[0]) && !IsWhitespace(ds[9]);
    }
  }

  /** Editing a task and saving without a change gives back its title, description,
      priority, reward and due date, when the task's texts are as a save leaves them. */
  lemma PrefillThenSubmit(t: Task)
    requires t.title != [] && IsTrimmed(t.title)
    requires IsTrimmed(t.description) && '\r' !in t.description
    requires I32Min <= t.xpReward <= I32Max
    requires t.dueDate.Some? ==> 0 <= t.dueDate.value.year <= 9999
    ensures Submit(Prefill(t)) == Some(Draft(t.title, t.description, t.priority, t.xpReward, t.dueDate))
  {
    TitleRoundTrip(t.title);
    DescriptionRoundTrip(t.description);
    XpRoundTrip(t.xpReward);
    DueDateRoundTrip(t.dueDate);
  }
}
