/**
 * The task store: the `tasks` table, the single `user_profile` row, and the
 * queries the application runs on them. The embedded database is replaced by
 * a sequence of rows kept newest first, the order in which every listing
 * returns them.
 */
module Store {
  import opened Wrappers
  import opened Text
  import opened Dates
  import opened Models

  /** One row of the `tasks` table. The status column holds the text `ToSql` wrote. */
  datatype Row = Row(
    id: string,
    title: string,
    description: string,
    status: string,
    priority: TaskPriority,
    xpReward: int,
    dueDate: Option<CalendarDate>,
    createdAt: int,
    completedAt: Option<int>)

  /** The values the profile row is seeded with when the database is created. */
  const SeedProfile: UserProfile := UserProfile(1, 1, 0, 100)

  /** The status text the completion queries compare with, as written in their WHERE clauses. */
  const SourceDoneLiteral: string := "Done"

  /** The text a done task is actually stored with. */
  const StoredDone: string := StatusText(Done)

  /** The default profile is the row the database is seeded with. */
  lemma DefaultProfileIsSeed()
    ensures DefaultProfile() == SeedProfile
  {
  }

  // ---------------------------------------------------------------------------
  // Rows and tasks

  /** The row `create_task` inserts: `completed_at` is not among its columns, so it starts out NULL. */
  function InsertedRow(t: Task): (r: Row)
    ensures r.id == t.id && r.title == t.title && r.description == t.description
    ensures r.priority == t.priority && r.xpReward == t.xpReward && r.dueDate == t.dueDate
    ensures r.createdAt == t.createdAt
    ensures r.status == StatusText(t.status) && r.completedAt == None
  {
    Row(t.id, t.title, t.description, StatusText(t.status), t.priority, t.xpReward, t.dueDate, t.createdAt, None)
  }

  /** One row as `get_all_tasks` maps it to a task; None when `FromSql` rejects its status. */
  function DecodeRow(r: Row): (t: Option<Task>)
    ensures t.Some? <==> IsStatusText(r.status)
    ensures t.Some? ==> StatusText(t.value.status) == r.status
    ensures t.Some? ==> t.value.id == r.id && t.value.title == r.title && t.value.description == r.description
    ensures t.Some? ==> t.value.priority == r.priority && t.value.xpReward == r.xpReward && t.value.dueDate == r.dueDate
    ensures t.Some? ==> t.value.createdAt == r.createdAt && t.value.completedAt == r.completedAt
  {
    match StatusFromSql(r.status)
    case None => None
    case Some(s) => Some(Task(r.id, r.title, r.description, s, r.priority, r.xpReward, r.dueDate, r.createdAt, r.completedAt))
  }

  /** A task without a completion time, inserted and read back, is the same task. */
  lemma InsertedRowRoundTrip(t: Task)
    requires t.completedAt == None
    ensures DecodeRow(InsertedRow(t)) == Some(t)
  {
    StatusRoundTrip(t.status);
  }

  predicate StatusesReadable(rows: seq<Row>) {
    forall k :: 0 <= k < |rows| ==> IsStatusText(rows[k].status)
  }

  lemma StatusesReadableCons(rows: seq<Row>)
    requires rows != []
    ensures StatusesReadable(rows) <==> IsStatusText(rows[0].status) && StatusesReadable(rows[1..])
  {
    if IsStatusText(rows[0].status) && StatusesReadable(rows[1..]) {
      forall k | 0 <= k < |rows| ensures IsStatusText(rows[k].status) {
        if k > 0 { assert rows[k] == rows[1..][k - 1]; }
      }
    }
    if StatusesReadable(rows) {
      forall k | 0 <= k < |rows[1..]| ensures IsStatusText(rows[1..][k].status) {
        assert rows[1..][k] == rows[k + 1];
      }
    }
  }

  /** All rows mapped to tasks; None as soon as one of them does not decode. */
  function DecodeRows(rows: seq<Row>): (ts: Option<seq<Task>>)
    ensures ts.Some? <==> StatusesReadable(rows)
    ensures ts.Some? ==> |ts.value| == |rows|
  {
    if rows == [] then Some([])
    else
      var head := DecodeRow(rows[0]);
      var rest := DecodeRows(rows[1..]);
      StatusesReadableCons(rows);
      if head.Some? && rest.Some? then Some([head.value] + rest.value) else None
  }

  /** Decoding the table decodes each row at its own position. */
  lemma {:induction false} DecodeRowsAt(rows: seq<Row>)
    requires StatusesReadable(rows)
    ensures forall k :: 0 <= k < |rows| ==> DecodeRow(rows[k]) == Some(DecodeRows(rows).value[k])
  {
    if rows != [] {
      StatusesReadableCons(rows);
      DecodeRowsAt(rows[1..]);
      var ts := DecodeRows(rows).value;
      var rest := DecodeRows(rows[1..]).value;
      assert ts == [DecodeRow(rows[0]).value] + rest;
      assert forall k :: 1 <= k < |rows| ==> rows[k] == rows[1..][k - 1] && ts[k] == rest[k - 1];
    }
  }

  predicate NewestFirst(rows: seq<Row>) {
    forall i, j :: 0 <= i < j < |rows| ==> rows[i].createdAt >= rows[j].createdAt
  }

  predicate UniqueIds(rows: seq<Row>) {
    forall i, j :: 0 <= i < j < |rows| ==> rows[i].id != rows[j].id
  }

  predicate HasId(rows: seq<Row>, id: string) {
    exists k :: 0 <= k < |rows| && rows[k].id == id
  }

  /** A row has a completion time exactly when its status is the stored text for done. */
  predicate RowCompletionConsistent(r: Row) {
    r.completedAt.Some? <==> r.status == StoredDone
  }

  predicate AllCompletionConsistent(rows: seq<Row>) {
    forall k :: 0 <= k < |rows| ==> RowCompletionConsistent(rows[k])
  }

  /** Two row lists that agree position by position on identity and creation time. */
  predicate SameSkeleton(a: seq<Row>, b: seq<Row>) {
    |a| == |b| && forall k :: 0 <= k < |a| ==> a[k].id == b[k].id && a[k].createdAt == b[k].createdAt
  }

  /** An update that keeps every row's identity and creation time keeps the order and uniqueness. */
  lemma SameSkeletonKeepsOrder(a: seq<Row>, b: seq<Row>)
    requires SameSkeleton(a, b)
    ensures NewestFirst(a) ==> NewestFirst(b)
    ensures UniqueIds(a) ==> UniqueIds(b)
  {
  }

  // ---------------------------------------------------------------------------
  // The mutations

  /** What the head of a row list knows about the rest. */
  lemma HeadAndTail(rows: seq<Row>, id: string)
    requires rows != []
    ensures forall x :: x in rows <==> x == rows[0] || x in rows[1..]
    ensures NewestFirst(rows) ==> NewestFirst(rows[1..]) && forall x :: x in rows[1..] ==> rows[0].createdAt >= x.createdAt
    ensures UniqueIds(rows) ==> UniqueIds(rows[1..]) && forall x :: x in rows[1..] ==> x.id != rows[0].id
    ensures !HasId(rows, id) <==> rows[0].id != id && !HasId(rows[1..], id)
  {
    assert forall k :: 0 <= k < |rows[1..]| ==> rows[1..][k] == rows[k + 1];
    assert forall x :: x in rows[1..] ==> exists k :: 1 <= k < |rows| && rows[k] == x by {
      forall x | x in rows[1..] ensures exists k :: 1 <= k < |rows| && rows[k] == x {
        var k :| 0 <= k < |rows[1..]| && rows[1..][k] == x;
        assert rows[k + 1] == x;
      }
    }
    if !HasId(rows, id) {
      assert forall k :: 0 <= k < |rows[1..]| ==> rows[1..][k].id != id;
    }
    if rows[0].id != id && !HasId(rows[1..], id) {
      forall k | 0 <= k < |rows| ensures rows[k].id != id {
        if k > 0 { assert rows[k] == rows[1..][k - 1]; }
      }
    }
  }

  /** What a property of positions says about the members of a row list. */
  lemma MembersOf(rows: seq<Row>, id: string)
    ensures !HasId(rows, id) ==> forall x :: x in rows ==> x.id != id
    ensures rows != [] && NewestFirst(rows) ==> forall x :: x in rows ==> rows[0].createdAt >= x.createdAt
  {
  }

  /** Putting a row in front of a list keeps the order and uniqueness it dominates. */
  lemma ConsKeeps(h: Row, rest: seq<Row>)
    ensures NewestFirst(rest) && (forall x :: x in rest ==> h.createdAt >= x.createdAt) ==> NewestFirst([h] + rest)
    ensures UniqueIds(rest) && (forall x :: x in rest ==> x.id != h.id) ==> UniqueIds([h] + rest)
  {
    var res := [h] + rest;
    assert forall k :: 1 <= k < |res| ==> res[k] == rest[k - 1] && res[k] in rest;
  }

  /** Where `ORDER BY created_at DESC` places a new row: after every strictly newer row. */
  function InsertNewest(rows: seq<Row>, r: Row): (res: seq<Row>)
    ensures |res| == |rows| + 1
  {
    if rows == [] || rows[0].createdAt <= r.createdAt then [r] + rows
    else [rows[0]] + InsertNewest(rows[1..], r)
  }

  /** Inserting adds exactly the new row, keeps the listing order, and keeps the
      identifiers unique when the new one is fresh. */
  lemma {:induction false} InsertNewestSpec(rows: seq<Row>, r: Row)
    ensures forall x :: x in InsertNewest(rows, r) <==> x in rows || x == r
    ensures NewestFirst(rows) ==> NewestFirst(InsertNewest(rows, r))
    ensures UniqueIds(rows) && !HasId(rows, r.id) ==> UniqueIds(InsertNewest(rows, r))
  {
    if rows == [] || rows[0].createdAt <= r.createdAt {
      MembersOf(rows, r.id);
      ConsKeeps(r, rows);
    } else {
      var rest := InsertNewest(rows[1..], r);
      InsertNewestSpec(rows[1..], r);
      HeadAndTail(rows, r.id);
      ConsKeeps(rows[0], rest);
    }
  }

  /** `DELETE FROM tasks WHERE id = ?1`. */
  function RemoveId(rows: seq<Row>, id: string): (res: seq<Row>)
    ensures |res| <= |rows|
  {
    if rows == [] then []
    else if rows[0].id == id then RemoveId(rows[1..], id)
    else [rows[0]] + RemoveId(rows[1..], id)
  }

  /** Deleting removes exactly the rows with that identifier and changes nothing when
      there is none. */
  lemma {:induction false} RemoveIdMembers(rows: seq<Row>, id: string)
    ensures forall x :: x in RemoveId(rows, id) <==> x in rows && x.id != id
    ensures !HasId(rows, id) ==> RemoveId(rows, id) == rows
  {
    if rows != [] {
      RemoveIdMembers(rows[1..], id);
      assert forall x :: x in rows <==> x == rows[0] || x in rows[1..];
      if !HasId(rows, id) {
        assert rows[0].id != id;
        assert !HasId(rows[1..], id) by {
          forall k | 0 <= k < |rows[1..]| ensures rows[1..][k].id != id {
            assert rows[1..][k] == rows[k + 1];
          }
        }
        assert rows == [rows[0]] + rows[1..];
      }
    }
  }

  /** After deleting, no row has the identifier, and the listing order and the
      uniqueness of identifiers are kept. */
  lemma {:induction false} RemoveIdSpec(rows: seq<Row>, id: string)
    ensures forall x :: x in RemoveId(rows, id) <==> x in rows && x.id != id
    ensures !HasId(rows, id) ==> RemoveId(rows, id) == rows
    ensures !HasId(RemoveId(rows, id), id)
    ensures NewestFirst(rows) ==> NewestFirst(RemoveId(rows, id))
    ensures UniqueIds(rows) ==> UniqueIds(RemoveId(rows, id))
  {
    RemoveIdMembers(rows, id);
    var res := RemoveId(rows, id);
    assert !HasId(res, id) by {
      forall k | 0 <= k < |res| ensures res[k].id != id {
        assert res[k] in res;
      }
    }
    if rows != [] {
      var rest := RemoveId(rows[1..], id);
      RemoveIdSpec(rows[1..], id);
      if rows[0].id != id {
        HeadAndTail(rows, id);
        ConsKeeps(rows[0], rest);
      } else {
        RemoveIdOfTail(rows, id);
      }
    }
  }

  lemma RemoveIdOfTail(rows: seq<Row>, id: string)
    requires rows != [] && rows[0].id == id
    ensures NewestFirst(rows) ==> NewestFirst(rows[1..])
    ensures UniqueIds(rows) ==> UniqueIds(rows[1..])
  {
    assert forall k :: 0 <= k < |rows[1..]| ==> rows[1..][k] == rows[k + 1];
  }

  /** The row after `UPDATE tasks SET status = ?1, completed_at = ?2`. */
  function WithStatus(r: Row, status: TaskStatus, now: int): Row {
    r.(status := StatusText(status), completedAt := if status == Done then Some(now) else None)
  }

  /** `update_task_status`: the rows with identifier `id` take the new status and,
      exactly when it is done, the completion instant `now`; no other row changes. */
  function SetStatus(rows: seq<Row>, id: string, status: TaskStatus, now: int): (res: seq<Row>)
    ensures SameSkeleton(rows, res)
    ensures forall k :: 0 <= k < |rows| && rows[k].id != id ==> res[k] == rows[k]
    ensures forall k :: 0 <= k < |rows| && rows[k].id == id ==>
      res[k].status == StatusText(status)
      && (res[k].completedAt.Some? <==> status == Done)
      && (status == Done ==> res[k].completedAt == Some(now))
      && res[k].title == rows[k].title && res[k].description == rows[k].description
      && res[k].priority == rows[k].priority && res[k].xpReward == rows[k].xpReward
      && res[k].dueDate == rows[k].dueDate
  {
    if rows == [] then []
    else [if rows[0].id == id then WithStatus(rows[0], status, now) else rows[0]]
         + SetStatus(rows[1..], id, status, now)
  }

  /** The row after `UPDATE tasks SET title, description, priority, due_date`. */
  function WithContent(r: Row, title: string, description: string, priority: TaskPriority, dueDate: Option<CalendarDate>): Row {
    r.(title := title, description := description, priority := priority, dueDate := dueDate)
  }

  /** `update_task_content`: the rows with identifier `id` take the new title, description,
      priority and due date; their status, reward and instants stay, and no other row changes. */
  function SetContent(rows: seq<Row>, id: string, title: string, description: string,
                      priority: TaskPriority, dueDate: Option<CalendarDate>): (res: seq<Row>)
    ensures SameSkeleton(rows, res)
    ensures forall k :: 0 <= k < |rows| && rows[k].id != id ==> res[k] == rows[k]
    ensures forall k :: 0 <= k < |rows| && rows[k].id == id ==>
      res[k].title == title && res[k].description == description
      && res[k].priority == priority && res[k].dueDate == dueDate
      && res[k].status == rows[k].status && res[k].xpReward == rows[k].xpReward
      && res[k].completedAt == rows[k].completedAt
  {
    if rows == [] then []
    else [if rows[0].id == id then WithContent(rows[0], title, description, priority, dueDate) else rows[0]]
         + SetContent(rows[1..], id, title, description, priority, dueDate)
  }

  // ---------------------------------------------------------------------------
  // The profile

  /** `(n as f64 * 1.5) as i32`: exact in double precision for every 32-bit `n`,
      truncated toward zero, and saturated at the bounds of `i32` by the cast. */
  function GrowThreshold(n: int): int {
    var g := if n >= 0 then n * 3 / 2 else -((-n) * 3 / 2);
    if g > I32Max then I32Max else if g < I32Min then I32Min else g
  }

  /** `add_xp`: the award is added, and if that reaches the threshold there is one
      level-up (an `if`, not a loop) that spends the threshold and raises it by half. */
  function ProfileAfterXp(p: UserProfile, xp: int): (r: UserProfile)
    ensures r.id == p.id
    ensures r.level == p.level || r.level == p.level + 1
    ensures r.level == p.level + 1 <==> p.currentXp + xp >= p.nextLevelXp
    ensures r.level == p.level ==> r.currentXp == p.currentXp + xp && r.nextLevelXp == p.nextLevelXp
    ensures r.level == p.level + 1 ==>
      r.currentXp == p.currentXp + xp - p.nextLevelXp && r.nextLevelXp == GrowThreshold(p.nextLevelXp)
  {
    var gained := p.(currentXp := p.currentXp + xp);
    if gained.currentXp >= gained.nextLevelXp then
      gained.(currentXp := gained.currentXp - gained.nextLevelXp, level := gained.level + 1,
              nextLevelXp := GrowThreshold(gained.nextLevelXp))
    else gained
  }

  /** Progress within a level stays in [0, threshold) and the level never drops, as
      long as a single award is at most one threshold. */
  lemma AddXpKeepsProgressBounded(p: UserProfile, xp: int)
    requires 0 <= p.currentXp < p.nextLevelXp <= I32Max
    requires 0 <= xp <= p.nextLevelXp
    ensures var r := ProfileAfterXp(p, xp);
      0 <= r.currentXp < r.nextLevelXp <= I32Max && r.level >= p.level
  {
    var n := p.nextLevelXp;
    assert n * 3 / 2 >= n;
  }

  /** A larger award breaks that bound: an award takes at most one level, so the
      progress reaches the new threshold exactly when the award covers what was missing
      of the old threshold and all of the next one (from the seed profile, 250 points
      give level 2 with 150 points against a threshold of 150). */
  lemma SingleLevelUpLeavesExcess(p: UserProfile, xp: int)
    requires 0 <= p.currentXp < p.nextLevelXp <= I32Max
    ensures var r := ProfileAfterXp(p, xp);
      r.currentXp >= r.nextLevelXp <==> p.currentXp + xp >= p.nextLevelXp + GrowThreshold(p.nextLevelXp)
    ensures ProfileAfterXp(SeedProfile, 250) == UserProfile(1, 2, 150, 150)
  {
    assert GrowThreshold(p.nextLevelXp) >= p.nextLevelXp;
  }

  // ---------------------------------------------------------------------------
  // Completion statistics

  /** The calendar day (days since 1970-01-01, UTC) of an instant in milliseconds: what
      `substr(completed_at, 1, 10)` keeps of the stored timestamp. */
  function DayOf(t: int): int {
    t / 86400000
  }

  /** The WHERE clause of the completion queries, for the status text `doneText`. */
  predicate CompletedOn(r: Row, doneText: string, day: int) {
    r.status == doneText && r.completedAt.Some? && DayOf(r.completedAt.value) == day
  }

  predicate IsCompletionDay(rows: seq<Row>, doneText: string, day: int) {
    exists k :: 0 <= k < |rows| && CompletedOn(rows[k], doneText, day)
  }

  lemma CompletionDayCons(rows: seq<Row>, doneText: string)
    requires rows != []
    ensures forall d :: IsCompletionDay(rows, doneText, d) <==>
      CompletedOn(rows[0], doneText, d) || IsCompletionDay(rows[1..], doneText, d)
  {
    forall d ensures IsCompletionDay(rows, doneText, d) ==>
      CompletedOn(rows[0], doneText, d) || IsCompletionDay(rows[1..], doneText, d)
    {
      if IsCompletionDay(rows, doneText, d) {
        var k :| 0 <= k < |rows| && CompletedOn(rows[k], doneText, d);
        if k > 0 { assert rows[1..][k - 1] == rows[k]; }
      }
    }
    forall d ensures IsCompletionDay(rows[1..], doneText, d) ==> IsCompletionDay(rows, doneText, d) {
      if IsCompletionDay(rows[1..], doneText, d) {
        var k :| 0 <= k < |rows[1..]| && CompletedOn(rows[1..][k], doneText, d);
        assert rows[k + 1] == rows[1..][k];
      }
    }
    forall d ensures CompletedOn(rows[0], doneText, d) ==> IsCompletionDay(rows, doneText, d) {
    }
  }

  predicate StrictlyDescending(days: seq<int>) {
    forall i, j :: 0 <= i < j < |days| ==> days[i] > days[j]
  }

  lemma DescendingHead(days: seq<int>)
    requires StrictlyDescending(days)
    ensures days != [] ==> StrictlyDescending(days[1..]) && forall x :: x in days[1..] ==> x < days[0]
    ensures days != [] ==> forall x :: x in days <==> x == days[0] || x in days[1..]
    ensures forall x :: x in days ==> exists k :: 0 <= k < |days| && days[k] == x
  {
    if days != [] {
      assert forall k :: 0 <= k < |days[1..]| ==> days[1..][k] == days[k + 1];
    }
  }

  lemma DescendingCons(d: int, days: seq<int>)
    requires StrictlyDescending(days) && forall x :: x in days ==> x < d
    ensures StrictlyDescending([d] + days)
  {
    var res := [d] + days;
    assert forall k :: 1 <= k < |res| ==> res[k] == days[k - 1] && res[k] in days;
  }

  /** Adds a day to a strictly descending list of distinct days, in its place. */
  function InsertDay(days: seq<int>, d: int): (r: seq<int>)
    requires StrictlyDescending(days)
    ensures StrictlyDescending(r)
    ensures forall x :: x in r <==> x in days || x == d
  {
    if days == [] || d > days[0] then
      DescendingHead(days);
      DescendingCons(d, days);
      [d] + days
    else if d == days[0] then days
    else
      var rest := InsertDay(days[1..], d);
      DescendingHead(days);
      DescendingCons(days[0], rest);
      [days[0]] + rest
  }

  /** `SELECT DISTINCT day ... WHERE status = doneText AND completed_at IS NOT NULL
      ORDER BY day DESC`: every completion day once, latest first. */
  function CompletionDays(rows: seq<Row>, doneText: string): (days: seq<int>)
    ensures StrictlyDescending(days)
    ensures forall d :: d in days <==> IsCompletionDay(rows, doneText, d)
  {
    if rows == [] then []
    else
      var rest := CompletionDays(rows[1..], doneText);
      CompletionDayCons(rows, doneText);
      var r := rows[0];
      if r.status == doneText && r.completedAt.Some? then InsertDay(rest, DayOf(r.completedAt.value))
      else rest
  }

  /** `COUNT(*)` of one group: the rows completed on `day`. */
  function CountOn(rows: seq<Row>, doneText: string, day: int): (c: nat)
    ensures c <= |rows|
    ensures c > 0 <==> IsCompletionDay(rows, doneText, day)
  {
    if rows == [] then 0
    else
      CompletionDayCons(rows, doneText);
      (if CompletedOn(rows[0], doneText, day) then 1 else 0) + CountOn(rows[1..], doneText, day)
  }

  /** One `(day, count)` pair per day, in the order of the days. */
  function CountEach(rows: seq<Row>, doneText: string, days: seq<int>): (stats: seq<(int, nat)>)
    ensures |stats| == |days|
  {
    if days == [] then []
    else [(days[0], CountOn(rows, doneText, days[0]))] + CountEach(rows, doneText, days[1..])
  }

  lemma {:induction false} CountEachAt(rows: seq<Row>, doneText: string, days: seq<int>)
    ensures forall i :: 0 <= i < |days| ==> CountEach(rows, doneText, days)[i] == (days[i], CountOn(rows, doneText, days[i]))
  {
    if days != [] {
      CountEachAt(rows, doneText, days[1..]);
    }
  }

  /** `get_weekly_stats`: the completion days grouped with their counts, latest first,
      at most seven of them. */
  function WeeklyStats(rows: seq<Row>, doneText: string): (stats: seq<(int, nat)>)
    ensures |stats| <= 7
  {
    var days := CompletionDays(rows, doneText);
    CountEach(rows, doneText, if |days| < 7 then days else days[..7])
  }

  /** The statistics are the seven latest completion days or all of them when there are
      fewer, latest first, each with its exact count, which is at least one. */
  lemma WeeklyStatsSpec(rows: seq<Row>, doneText: string)
    ensures var stats := WeeklyStats(rows, doneText);
      && (forall i, j :: 0 <= i < j < |stats| ==> stats[i].0 > stats[j].0)
      && (forall i :: 0 <= i < |stats| ==>
            IsCompletionDay(rows, doneText, stats[i].0) && stats[i].1 == CountOn(rows, doneText, stats[i].0) && stats[i].1 >= 1)
      && (forall d :: IsCompletionDay(rows, doneText, d) && (forall i :: 0 <= i < |stats| ==> stats[i].0 != d) ==>
            |stats| == 7 && forall i :: 0 <= i < |stats| ==> stats[i].0 > d)
  {
    var days := CompletionDays(rows, doneText);
    var latest := if |days| < 7 then days else days[..7];
    WeeklyStatsFacts(rows, doneText, days, latest);
    var stats := WeeklyStats(rows, doneText);
    assert stats == CountEach(rows, doneText, latest);
    CountEachAt(rows, doneText, latest);
    forall d | d in latest ensures exists i :: 0 <= i < |stats| && stats[i].0 == d {
      var i :| 0 <= i < |latest| && latest[i] == d;
      assert stats[i].0 == d;
    }
  }

  lemma WeeklyStatsFacts(rows: seq<Row>, doneText: string, days: seq<int>, latest: seq<int>)
    requires days == CompletionDays(rows, doneText)
    requires latest == if |days| < 7 then days else days[..7]
    ensures |latest| <= 7
    ensures forall i, j :: 0 <= i < j < |latest| ==> latest[i] > latest[j]
    ensures forall i :: 0 <= i < |latest| ==> IsCompletionDay(rows, doneText, latest[i])
    ensures forall d :: IsCompletionDay(rows, doneText, d) && d !in latest ==>
      |latest| == 7 && forall i :: 0 <= i < |latest| ==> latest[i] > d
  {
    assert forall i :: 0 <= i < |latest| ==> latest[i] == days[i];
    forall i | 0 <= i < |latest| ensures IsCompletionDay(rows, doneText, latest[i]) {
      assert days[i] in days;
    }
    forall d | IsCompletionDay(rows, doneText, d) && d !in latest
      ensures |latest| == 7 && forall i :: 0 <= i < |latest| ==> latest[i] > d
    {
      assert d in days;
      var j :| 0 <= j < |days| && days[j] == d;
      assert j >= |latest|;
    }
  }


  /** The loop of `get_streak` over the distinct completion days, latest first: 0 when
      there are none or the latest is neither `today` nor the day before; otherwise the
      length of the run of consecutive days that starts at the latest. */
  method CountStreak(days: seq<int>, today: int) returns (streak: nat)
    requires StrictlyDescending(days)
    ensures streak <= |days|
    ensures streak == 0 <==> days == [] || (days[0] != today && days[0] != today - 1)
    ensures forall i :: 0 <= i < streak ==> days[i] == days[0] - i
    ensures 0 < streak < |days| ==> days[streak] != days[0] - streak
  {
    if days == [] {
      return 0;
    }
    if days[0] != today && days[0] != today - 1 {
      return 0;
    }
    streak := 0;
    var currentCheck := if days[0] == today then today else today - 1;
    var i := 0;
    while i < |days|
      invariant 0 <= i <= |days| && streak == i
      invariant currentCheck == days[0] - i
      invariant forall j :: 0 <= j < i ==> days[j] == days[0] - j
    {
      if days[i] == currentCheck {
        streak := streak + 1;
        currentCheck := currentCheck - 1;
      } else {
        break;
      }
      i := i + 1;
    }
  }

  /** The completion queries as written compare the status with "Done", a text no row
      carries (statuses are stored as "TODO", "DOING" and "DONE"): so they find no day,
      whatever the table holds. */
  lemma {:induction false} AsWrittenFindsNoDay(rows: seq<Row>)
    requires StatusesReadable(rows)
    ensures CompletionDays(rows, SourceDoneLiteral) == []
    ensures WeeklyStats(rows, SourceDoneLiteral) == []
  {
    if rows != [] {
      assert IsStatusText(rows[0].status);
      assert SourceDoneLiteral[1] == 'o';
      assert StatusesReadable(rows[1..]) by {
        forall k | 0 <= k < |rows[1..]| ensures IsStatusText(rows[1..][k].status) {
          assert rows[1..][k] == rows[k + 1];
        }
      }
      AsWrittenFindsNoDay(rows[1..]);
    }
  }

  /** A store holding one task completed at instant `c`: the queries as written report
      nothing, the corrected ones report its day with a count of one. */
  lemma AsWrittenMissesCompletedTask(r: Row, c: int)
    requires r.status == StoredDone && r.completedAt == Some(c)
    ensures WeeklyStats([r], SourceDoneLiteral) == []
    ensures WeeklyStats([r], StoredDone) == [(DayOf(c), 1)]
  {
    assert StatusesReadable([r]);
    AsWrittenFindsNoDay([r]);
    assert [r][1..] == [];
    assert CompletionDays([r], StoredDone) == [DayOf(c)];
    assert CountOn([r], StoredDone, DayOf(c)) == 1;
  }

  /** With the stored text for done, every completed row is counted on its day. */
  lemma CorrectedCountsEveryCompletion(rows: seq<Row>, k: nat)
    requires k < |rows| && rows[k].status == StoredDone && rows[k].completedAt.Some?
    ensures DayOf(rows[k].completedAt.value) in CompletionDays(rows, StoredDone)
    ensures CountOn(rows, StoredDone, DayOf(rows[k].completedAt.value)) >= 1
  {
    assert CompletedOn(rows[k], StoredDone, DayOf(rows[k].completedAt.value));
  }

  // ---------------------------------------------------------------------------
  // The store itself

  class Database {
    var rows: seq<Row>
    var profile: UserProfile

    /** What the table guarantees: readable statuses, one row per identifier (the
        primary key), and the order in which the rows are listed. */
    ghost predicate Valid()
      reads this`rows
    {
      StatusesReadable(rows) && UniqueIds(rows) && NewestFirst(rows)
    }

    /** Every row has a completion time exactly when it is done. */
    ghost predicate CompletionTracked()
      reads this`rows
    {
      AllCompletionConsistent(rows)
    }

    /** The tasks `get_all_tasks` returns. */
    ghost function Tasks(): seq<Task>
      reads this`rows
      requires Valid()
    {
      DecodeRows(rows).value
    }

    /** A freshly created database: no tasks and the seeded profile row. */
    constructor Init()
      ensures Valid() && CompletionTracked()
      ensures rows == [] && profile == SeedProfile
    {
      rows := [];
      profile := SeedProfile;
    }

    /** `create_task`. The insert fails, changing nothing, when a row with the same
        identifier exists (the primary key constraint). */
    method CreateTask(t: Task) returns (ok: bool)
      requires Valid()
      modifies this`rows
      ensures Valid()
      ensures ok <==> !HasId(old(rows), t.id)
      ensures ok ==> rows == InsertNewest(old(rows), InsertedRow(t))
      ensures !ok ==> rows == old(rows)
      ensures old(CompletionTracked()) && t.status != Done ==> CompletionTracked()
    {
      ok := true;
      var i := 0;
      while i < |rows|
        invariant 0 <= i <= |rows|
        invariant forall k :: 0 <= k < i ==> rows[k].id != t.id
      {
        if rows[i].id == t.id {
          ok := false;
          return;
        }
        i := i + 1;
      }
      var row := InsertedRow(t);
      StatusRoundTrip(t.status);
      InsertNewestSpec(rows, row);
      rows := InsertNewest(rows, row);
      assert forall x :: x in rows ==> x in old(rows) || x == row;
      assert forall k :: 0 <= k < |rows| ==> rows[k] in old(rows) || rows[k] == row;
      if old(CompletionTracked()) && t.status != Done {
        assert RowCompletionConsistent(row);
        forall k | 0 <= k < |rows| ensures RowCompletionConsistent(rows[k]) {
          if rows[k] != row {
            var j :| 0 <= j < |old(rows)| && old(rows)[j] == rows[k];
          }
        }
      }
    }

    /** `get_all_tasks`: every task, newest first. */
    method GetAllTasks() returns (ts: seq<Task>)
      requires Valid()
      ensures ts == Tasks()
      ensures |ts| == |rows|
      ensures forall i, j :: 0 <= i < j < |ts| ==> ts[i].createdAt >= ts[j].createdAt
      ensures CompletionTracked() ==> forall k :: 0 <= k < |ts| ==> CompletionConsistent(ts[k])
    {
      ts := DecodeRows(rows).value;
      DecodeRowsAt(rows);
      assert forall k :: 0 <= k < |ts| ==> ts[k].createdAt == rows[k].createdAt;
      if CompletionTracked() {
        forall k | 0 <= k < |ts| ensures CompletionConsistent(ts[k]) {
          assert RowCompletionConsistent(rows[k]);
          StatusTextInjective(ts[k].status, Done);
        }
      }
    }

    /** `update_task_status`, completing at instant `now` when the status is done. */
    method UpdateTaskStatus(id: string, status: TaskStatus, now: int)
      requires Valid()
      modifies this`rows
      ensures Valid()
      ensures rows == SetStatus(old(rows), id, status, now)
      ensures old(CompletionTracked()) ==> CompletionTracked()
    {
      var res := SetStatus(rows, id, status, now);
      SameSkeletonKeepsOrder(rows, res);
      assert StatusesReadable(res) by {
        forall k | 0 <= k < |res| ensures IsStatusText(res[k].status) {
          assert rows[k].id != id ==> res[k] == rows[k];
        }
      }
      if CompletionTracked() {
        forall k | 0 <= k < |res| ensures RowCompletionConsistent(res[k]) {
          if rows[k].id == id {
            StatusTextInjective(status, Done);
          } else {
            assert res[k] == rows[k];
            assert RowCompletionConsistent(rows[k]);
          }
        }
      }
      rows := res;
    }

    /** `delete_task`. */
    method DeleteTask(id: string)
      requires Valid()
      modifies this`rows
      ensures Valid()
      ensures rows == RemoveId(old(rows), id)
      ensures old(CompletionTracked()) ==> CompletionTracked()
    {
      var res := RemoveId(rows, id);
      RemoveIdSpec(rows, id);
      assert forall k :: 0 <= k < |res| ==> res[k] in rows;
      rows := res;
    }

    /** `update_task_content`. */
    method UpdateTaskContent(id: string, title: string, description: string,
                             priority: TaskPriority, dueDate: Option<CalendarDate>)
      requires Valid()
      modifies this`rows
      ensures Valid()
      ensures rows == SetContent(old(rows), id, title, description, priority, dueDate)
      ensures old(CompletionTracked()) ==> CompletionTracked()
    {
      var res := SetContent(rows, id, title, description, priority, dueDate);
      SameSkeletonKeepsOrder(rows, res);
      assert forall k :: 0 <= k < |res| ==> res[k].status == rows[k].status && res[k].completedAt == rows[k].completedAt;
      rows := res;
    }

    /** `get_user_profile`. */
    method GetUserProfile() returns (p: UserProfile)
      ensures p == profile
    {
      p := profile;
    }

    /** `add_xp`: reads the profile, awards `xp` with at most one level-up, writes it back. */
    method AddXp(xp: int)
      modifies this`profile
      ensures profile == ProfileAfterXp(old(profile), xp)
    {
      var p := profile;
      p := p.(currentXp := p.currentXp + xp);
      if p.currentXp >= p.nextLevelXp {
        p := p.(currentXp := p.currentXp - p.nextLevelXp, level := p.level + 1,
                nextLevelXp := GrowThreshold(p.nextLevelXp));
      }
      profile := p;
    }

    /** `get_weekly_stats`, with the status compared against the text done tasks are
        stored with. */
    method GetWeeklyStats() returns (stats: seq<(int, nat)>)
      ensures stats == WeeklyStats(rows, StoredDone)
    {
      stats := WeeklyStats(rows, StoredDone);
    }

    /** `get_streak` for the calendar day `today`, with the status compared against the
        text done tasks are stored with. */
    method GetStreak(today: int) returns (streak: nat)
      ensures var days := CompletionDays(rows, StoredDone);
        && streak <= |days|
        && (streak == 0 <==> days == [] || (days[0] != today && days[0] != today - 1))
        && (forall i :: 0 <= i < streak ==> days[i] == days[0] - i)
        && (0 < streak < |days| ==> days[streak] != days[0] - streak)
    {
      var days := CompletionDays(rows, StoredDone);
      streak := CountStreak(days, today);
    }
  }
}
