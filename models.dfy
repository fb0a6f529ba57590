/**
 * The records of the task tracker: a task's workflow status and priority,
 * the task itself, and the single gamification profile.
 */
module Models {
  import opened Wrappers
  import opened Dates

  datatype TaskStatus = Todo | Doing | Done

  datatype TaskPriority = Low | Medium | High

  /** One unit of work. Instants are milliseconds since 1970-01-01 UTC; the due date is the calendar
      day whose last second (23:59:59 UTC) the task is due at. */
  datatype Task = Task(
    id: string,
    title: string,
    description: string,
    status: TaskStatus,
    priority: TaskPriority,
    xpReward: int,
    dueDate: Option<CalendarDate>,
    createdAt: int,
    completedAt: Option<int>)

  datatype UserProfile = UserProfile(id: int, level: int, currentXp: int, nextLevelXp: int)

  /** The three texts a status is stored as. */
  predicate IsStatusText(s: string) {
    s == "TODO" || s == "DOING" || s == "DONE"
  }

  /** `Display` (and so `ToSql`) of a status. */
  function StatusText(s: TaskStatus): (r: string)
    ensures IsStatusText(r)
  {
    match s
    case Todo => "TODO"
    case Doing => "DOING"
    case Done => "DONE"
  }

  /** `FromSql` of a status: the three stored texts and nothing else. */
  function StatusFromSql(text: string): (r: Option<TaskStatus>)
    ensures r.Some? <==> IsStatusText(text)
    ensures r.Some? ==> StatusText(r.value) == text
  {
    if text == "TODO" then Some(Todo)
    else if text == "DOING" then Some(Doing)
    else if text == "DONE" then Some(Done)
    else None
  }

  /** Decoding what `Display` wrote gives the status back. */
  lemma StatusRoundTrip(s: TaskStatus)
    ensures StatusFromSql(StatusText(s)) == Some(s)
  {
  }

  /** Distinct statuses are stored as distinct texts. */
  lemma StatusTextInjective(a: TaskStatus, b: TaskStatus)
    ensures StatusText(a) == StatusText(b) ==> a == b
  {
  }

  /** The invariant every task is meant to keep: it has a completion time exactly when it is done. */
  predicate CompletionConsistent(t: Task) {
    t.completedAt.Some? <==> t.status == Done
  }

  /** `Task::new`: a fresh task, not started and not completed. The identifier
      and the creation instant, which the source draws from a UUID generator and
      the clock, are given by the caller. */
  function NewTask(id: string, title: string, description: string, priority: TaskPriority,
                   xp: int, dueDate: Option<CalendarDate>, now: int): (t: Task)
    ensures t.id == id && t.title == title && t.description == description
    ensures t.priority == priority && t.xpReward == xp && t.dueDate == dueDate
    ensures t.status == Todo && t.completedAt == None && t.createdAt == now
    ensures CompletionConsistent(t)
  {
    Task(id, title, description, Todo, priority, xp, dueDate, now, None)
  }

  /** `UserProfile::default`. */
  function DefaultProfile(): (p: UserProfile)
    ensures p.id == 1 && p.level == 1
    ensures 0 <= p.currentXp < p.nextLevelXp
  {
    UserProfile(1, 1, 0, 100)
  }
}
