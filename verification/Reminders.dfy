/**
 * Due-date reminders: the cron tick that creates them, the queue, and the
 * worker that delivers them with up to three attempts. Times are milliseconds
 * of one clock.
 */
module Reminders {
  import opened Common
  import opened TaskStore

  type ReminderId = nat

  const HOUR: int := 3600000
  const MAX_ATTEMPTS: nat := 3
  const MILESTONES: seq<int> := [24, 12, 6, 1]

  datatype ReminderStatus = PENDING | SENT | FAILED
  datatype Reminder = Reminder(taskId: TaskId, scheduledAt: int, status: ReminderStatus)

  /** The queued job; `attempts` and `done` are the queue's own record of it, `queuedAt` its time of birth. */
  datatype Job = Job(
    taskId: TaskId, userId: UserId, milestone: int, dueDate: int, queuedAt: int, attempts: nat, done: bool)

  /** `notifications` lists, for each notification row stored by the worker, the reminder it was for. */
  datatype Board = Board(
    reminders: map<ReminderId, Reminder>, nextId: ReminderId, jobs: map<ReminderId, Job>,
    notifications: seq<ReminderId>, removed: set<TaskId>)

  const EMPTY_BOARD := Board(map[], 0, map[], [], {})

  // ------------------------------------------------------------ the scheduler

  /** The rows of the window query for one milestone. */
  predicate IsDue(t: Task, now: int, hours: int) {
    && t.deletedAt.None? && t.status != DONE && t.assignedTo.Some?
    && t.dueDate.Some? && now + (hours - 1) * HOUR <= t.dueDate.value <= now + hours * HOUR
  }

  function DueTasks(tasks: Table, order: seq<TaskId>, now: int, hours: int): (due: seq<Task>)
    ensures forall t <- due :: IsDue(t, now, hours)
  {
    if order == [] then []
    else
      (if order[0] in tasks && IsDue(tasks[order[0]], now, hours) then [tasks[order[0]]] else [])
      + DueTasks(tasks, order[1..], now, hours)
  }

  function For(b: Board, task: TaskId, due: int): set<ReminderId> {
    set r | r in b.reminders && b.reminders[r].taskId == task && b.reminders[r].scheduledAt == due
  }

  /** One turn of the inner loop: any reminder for this due date, whatever its milestone, suppresses a new one. */
  function Remind(b: Board, t: Task, now: int, hours: int): Board
    requires IsDue(t, now, hours)
  {
    if |For(b, t.id, t.dueDate.value)| == 0 then
      b.(reminders := b.reminders[b.nextId := Reminder(t.id, t.dueDate.value, PENDING)],
         jobs := b.jobs[b.nextId := Job(t.id, t.assignedTo.value, hours, t.dueDate.value, now, 0, false)],
         nextId := b.nextId + 1)
    else b
  }

  function RemindAll(b: Board, due: seq<Task>, now: int, hours: int): Board
    requires forall t <- due :: IsDue(t, now, hours)
    decreases due
  {
    if due == [] then b
    else
      assert due[0] in due;
      RemindAll(Remind(b, due[0], now, hours), due[1..], now, hours)
  }

  function Tick(b: Board, tasks: Table, order: seq<TaskId>, now: int, milestones: seq<int>): Board
    decreases milestones
  {
    if milestones == [] then b
    else Tick(RemindAll(b, DueTasks(tasks, order, now, milestones[0]), now, milestones[0]),
              tasks, order, now, milestones[1..])
  }

  // ------------------------------------------------------------ the worker

  datatype Delivery = NotStored | StoredThenFailed | Delivered

  /** How the calls of one attempt turn out. */
  datatype Attempt = Attempt(taskFound: bool, delivery: Delivery, sentOk: bool, failedOk: bool)

  /** `update({ id }, { status })`: no effect on a row that is gone. */
  function WithStatus(b: Board, r: ReminderId, status: ReminderStatus): Board {
    if r in b.reminders then b.(reminders := b.reminders[r := b.reminders[r].(status := status)]) else b
  }

  function Caught(b: Board, r: ReminderId, a: Attempt): (Board, bool) {
    (if a.failedOk then WithStatus(b, r, FAILED) else b, false)
  }

  /** One run of the processor; the flag says whether it returned normally. */
  function Process(b: Board, r: ReminderId, a: Attempt): (Board, bool) {
    if !a.taskFound || a.delivery.NotStored? then Caught(b, r, a)
    else
      var b' := b.(notifications := b.notifications + [r]);
      if a.delivery.StoredThenFailed? || !a.sentOk then Caught(b', r, a)
      else (WithStatus(b', r, SENT), true)
  }

  /** The queue runs a job until it succeeds or has used up its attempts. */
  predicate Runnable(b: Board, r: ReminderId) {
    r in b.jobs && !b.jobs[r].done && b.jobs[r].attempts < MAX_ATTEMPTS
  }

  function RunJob(b: Board, r: ReminderId, a: Attempt): Board
    requires Runnable(b, r)
  {
    var (b', ok) := Process(b, r, a);
    b'.(jobs := b.jobs[r := b.jobs[r].(attempts := b.jobs[r].attempts + 1, done := ok)])
  }

  // ------------------------------------------------------------ runs

  datatype Event =
    | TickEvent(now: int, tasks: Table, order: seq<TaskId>)
    | AttemptEvent(r: ReminderId, attempt: Attempt)
    | RemoveTask(task: TaskId)          // a cascade deletes the task for good, and its reminders with it

  predicate Legal(b: Board, e: Event) {
    match e
    case TickEvent(_, tasks, order) =>
      && (forall id :: id in tasks ==> tasks[id].id == id && id !in b.removed)
      && (forall id :: id in tasks ==> id in order)
    case AttemptEvent(r, _) => Runnable(b, r)
    case RemoveTask(_) => true
  }

  function Step(b: Board, e: Event): Board
    requires Legal(b, e)
  {
    match e
    case TickEvent(now, tasks, order) => Tick(b, tasks, order, now, MILESTONES)
    case AttemptEvent(r, a) => RunJob(b, r, a)
    case RemoveTask(task) =>
      b.(reminders := map r | r in b.reminders && b.reminders[r].taskId != task :: b.reminders[r],
         removed := b.removed + {task})
  }

  predicate LegalRun(b: Board, es: seq<Event>)
    decreases es
  {
    es == [] || (Legal(b, es[0]) && LegalRun(Step(b, es[0]), es[1..]))
  }

  function Exec(b: Board, es: seq<Event>): Board
    requires LegalRun(b, es)
    decreases es
  {
    if es == [] then b else Exec(Step(b, es[0]), es[1..])
  }

  function Stored(notifications: seq<ReminderId>, r: ReminderId): nat {
    multiset(notifications)[r]
  }

  ghost predicate JobValid(b: Board, r: ReminderId)
    requires r in b.jobs
  {
    var j := b.jobs[r];
    && r < b.nextId
    && Stored(b.notifications, r) <= j.attempts <= MAX_ATTEMPTS
    && (j.done ==> Stored(b.notifications, r) >= 1)
    && (j.milestone - 1) * HOUR <= j.dueDate - j.queuedAt <= j.milestone * HOUR
    && (r in b.reminders || j.taskId in b.removed)
  }

  ghost predicate ReminderValid(b: Board, r: ReminderId)
    requires r in b.reminders
  {
    && r in b.jobs && b.reminders[r].taskId == b.jobs[r].taskId && b.reminders[r].scheduledAt == b.jobs[r].dueDate
    && (b.reminders[r].status == SENT ==> b.jobs[r].done)
    && (b.jobs[r].attempts == 0 ==> b.reminders[r].status == PENDING)
  }

  /** Two jobs never serve the same due date of the same task. */
  ghost predicate OnePerDueDate(b: Board) {
    forall r, r' :: r in b.jobs && r' in b.jobs && r != r' ==>
      !(b.jobs[r].taskId == b.jobs[r'].taskId && b.jobs[r].dueDate == b.jobs[r'].dueDate)
  }

  ghost predicate Inv(b: Board) {
    && (forall r :: r in b.jobs ==> JobValid(b, r))
    && (forall r :: r in b.reminders ==> ReminderValid(b, r))
    && (forall r <- b.notifications :: r < b.nextId)
    && OnePerDueDate(b)
  }

  lemma RemindKeepsInv(b: Board, t: Task, now: int, hours: int)
    requires Inv(b) && IsDue(t, now, hours) && t.id !in b.removed
    ensures Inv(Remind(b, t, now, hours))
    ensures For(Remind(b, t, now, hours), t.id, t.dueDate.value) != {}
  {
    var b', due := Remind(b, t, now, hours), t.dueDate.value;
    if For(b, t.id, due) == {} {
      assert b.nextId in For(b', t.id, due);
      assert b.nextId !in b.notifications;
      assert Stored(b.notifications, b.nextId) == 0;
      forall r | r in b.jobs
        ensures !(b.jobs[r].taskId == t.id && b.jobs[r].dueDate == due)
      {
        assert JobValid(b, r);
        assert r !in For(b, t.id, due);
      }
    }
  }

  /** Reminders are never dropped or changed by a tick. */
  ghost predicate Extends(b: Board, b': Board) {
    && b'.removed == b.removed && b'.notifications == b.notifications
    && (forall r :: r in b.reminders ==> r in b'.reminders && b'.reminders[r] == b.reminders[r])
    && (forall r :: r in b.jobs ==> r in b'.jobs && b'.jobs[r] == b.jobs[r])
  }

  lemma RemindExtends(b: Board, t: Task, now: int, hours: int)
    requires Inv(b) && IsDue(t, now, hours)
    ensures Extends(b, Remind(b, t, now, hours))
  {
    assert forall r :: r in b.jobs ==> JobValid(b, r);
    assert forall r :: r in b.reminders ==> ReminderValid(b, r);
  }

  lemma ExtendsTransitive(a: Board, b: Board, c: Board)
    requires Extends(a, b) && Extends(b, c)
    ensures Extends(a, c)
  {
  }

  lemma {:induction false} RemindAllKeepsInv(b: Board, due: seq<Task>, now: int, hours: int)
    requires Inv(b) && forall t <- due :: IsDue(t, now, hours) && t.id !in b.removed
    ensures Inv(RemindAll(b, due, now, hours)) && Extends(b, RemindAll(b, due, now, hours))
    decreases due
  {
    if due != [] {
      assert due[0] in due && forall t <- due[1..] :: t in due;
      var b1 := Remind(b, due[0], now, hours);
      RemindKeepsInv(b, due[0], now, hours);
      RemindExtends(b, due[0], now, hours);
      RemindAllKeepsInv(b1, due[1..], now, hours);
      ExtendsTransitive(b, b1, RemindAll(b1, due[1..], now, hours));
    }
  }

  lemma {:induction false} RemindAllReminds(b: Board, due: seq<Task>, now: int, hours: int, t: Task)
    requires Inv(b) && (forall t <- due :: IsDue(t, now, hours) && t.id !in b.removed) && t in due
    ensures For(RemindAll(b, due, now, hours), t.id, t.dueDate.value) != {}
    decreases due
  {
    assert due[0] in due && forall t <- due[1..] :: t in due;
    var b1 := Remind(b, due[0], now, hours);
    RemindKeepsInv(b, due[0], now, hours);
    if t == due[0] {
      RemindAllKeepsInv(b1, due[1..], now, hours);
      ForSurvives(b1, RemindAll(b1, due[1..], now, hours), t.id, t.dueDate.value);
    } else {
      assert due == [due[0]] + due[1..];
      RemindAllReminds(b1, due[1..], now, hours, t);
    }
  }

  lemma ForSurvives(b: Board, b': Board, task: TaskId, due: int)
    requires Extends(b, b') && For(b, task, due) != {}
    ensures For(b', task, due) != {}
  {
    var r :| r in For(b, task, due);
    assert r in For(b', task, due);
  }

  lemma {:induction false} DueTasksComplete(tasks: Table, order: seq<TaskId>, now: int, hours: int, id: TaskId)
    requires id in tasks && id in order && IsDue(tasks[id], now, hours)
    ensures tasks[id] in DueTasks(tasks, order, now, hours)
    decreases order
  {
    if order[0] != id {
      DueTasksComplete(tasks, order[1..], now, hours, id);
    }
  }

  lemma {:induction false} DueTasksFrom(tasks: Table, order: seq<TaskId>, now: int, hours: int)
    ensures forall t <- DueTasks(tasks, order, now, hours) :: exists id :: id in tasks && tasks[id] == t
    decreases order
  {
    if order != [] {
      DueTasksFrom(tasks, order[1..], now, hours);
    }
  }

  lemma {:induction false} TickKeepsInv(b: Board, tasks: Table, order: seq<TaskId>, now: int, milestones: seq<int>)
    requires Inv(b) && Legal(b, TickEvent(now, tasks, order))
    ensures var b' := Tick(b, tasks, order, now, milestones);
      && Inv(b') && Extends(b, b')
      && (forall h, id :: h in milestones && id in tasks && IsDue(tasks[id], now, h) ==>
            For(b', id, tasks[id].dueDate.value) != {})
    decreases milestones
  {
    if milestones != [] {
      var h := milestones[0];
      var due := DueTasks(tasks, order, now, h);
      DueTasksFrom(tasks, order, now, h);
      RemindAllKeepsInv(b, due, now, h);
      var b1 := RemindAll(b, due, now, h);
      TickKeepsInv(b1, tasks, order, now, milestones[1..]);
      var b' := Tick(b1, tasks, order, now, milestones[1..]);
      assert milestones == [h] + milestones[1..];
      forall id | id in tasks && IsDue(tasks[id], now, h)
        ensures For(b', id, tasks[id].dueDate.value) != {}
      {
        DueTasksComplete(tasks, order, now, h, id);
        RemindAllReminds(b, due, now, h, tasks[id]);
        ForSurvives(b1, b', id, tasks[id].dueDate.value);
      }
    }
  }

  /** Every call of the attempt went through. */
  predicate Succeeds(a: Attempt) {
    a.taskFound && a.delivery == Delivered && a.sentOk
  }

  /** A notification row was stored, whether or not the attempt went on from there. */
  predicate Notified(a: Attempt) {
    a.taskFound && a.delivery != NotStored
  }

  /**
   * What one attempt leaves of the board. The job is done, and an existing reminder SENT, exactly when every
   * call went through; otherwise the reminder is FAILED if that can be written. One notification is added
   * exactly when one was stored. Nothing else moves.
   */
  lemma AttemptEffect(b: Board, r: ReminderId, a: Attempt)
    requires Runnable(b, r)
    ensures var b', job := RunJob(b, r, a), b.jobs[r];
      && b'.nextId == b.nextId && b'.removed == b.removed && b'.reminders.Keys == b.reminders.Keys
      && r in b'.jobs && b'.jobs == b.jobs[r := job.(attempts := job.attempts + 1, done := b'.jobs[r].done)]
      && (b'.jobs[r].done <==> Succeeds(a))
      && b'.notifications == (if Notified(a) then b.notifications + [r] else b.notifications)
      && (b'.jobs[r].done ==> b'.notifications == b.notifications + [r])
      && (forall x :: x in b.reminders && x != r ==> b'.reminders[x] == b.reminders[x])
      && (r in b.reminders ==> b'.reminders[r] == b.reminders[r].(status :=
            if Succeeds(a) then SENT else if a.failedOk then FAILED else b.reminders[r].status))
      && (r in b.reminders && b'.reminders[r].status == SENT ==> b'.jobs[r].done || b.reminders[r].status == SENT)
  {
  }

  lemma AttemptKeepsInv(b: Board, r: ReminderId, a: Attempt)
    requires Inv(b) && Runnable(b, r)
    ensures Inv(RunJob(b, r, a))
  {
    AttemptEffect(b, r, a);
    EffectKeepsInv(b, RunJob(b, r, a), r);
  }

  lemma EffectKeepsInv(b: Board, b': Board, r: ReminderId)
    requires Inv(b) && Runnable(b, r) && r in b'.jobs
    requires b'.nextId == b.nextId && b'.removed == b.removed && b'.reminders.Keys == b.reminders.Keys
    requires b'.jobs == b.jobs[r := b.jobs[r].(attempts := b.jobs[r].attempts + 1, done := b'.jobs[r].done)]
    requires b'.notifications == b.notifications || b'.notifications == b.notifications + [r]
    requires b'.jobs[r].done ==> b'.notifications == b.notifications + [r]
    requires forall x :: x in b.reminders && x != r ==> b'.reminders[x] == b.reminders[x]
    requires r in b.reminders ==> b'.reminders[r] == b.reminders[r].(status := b'.reminders[r].status)
    requires r in b.reminders && b'.reminders[r].status == SENT ==> b'.jobs[r].done || b.reminders[r].status == SENT
    ensures Inv(b')
  {
    assert JobValid(b, r);
    forall x | x in b'.jobs
      ensures JobValid(b', x)
    {
      assert JobValid(b, x);
      assert Stored(b'.notifications, x) == Stored(b.notifications, x)
          + (if x == r && b'.notifications != b.notifications then 1 else 0);
    }
    forall x | x in b'.reminders
      ensures ReminderValid(b', x)
    {
      assert ReminderValid(b, x);
    }
  }

  lemma StepKeepsInv(b: Board, e: Event)
    requires Inv(b) && Legal(b, e)
    ensures Inv(Step(b, e))
  {
    match e
    case TickEvent(now, tasks, order) => TickKeepsInv(b, tasks, order, now, MILESTONES);
    case AttemptEvent(r, a) => AttemptKeepsInv(b, r, a);
    case RemoveTask(task) =>
      var b' := Step(b, e);
      forall r | r in b'.jobs
        ensures JobValid(b', r)
      {
        assert JobValid(b, r);
      }
      forall r | r in b'.reminders
        ensures ReminderValid(b', r)
      {
        assert ReminderValid(b, r);
      }
  }

  lemma {:induction false} RunKeepsInv(b: Board, es: seq<Event>)
    requires Inv(b) && LegalRun(b, es)
    ensures Inv(Exec(b, es))
    decreases es
  {
    if es != [] {
      StepKeepsInv(b, es[0]);
      RunKeepsInv(Step(b, es[0]), es[1..]);
    }
  }

  // ------------------------------------------------------------ when there is a reminder

  /** A live, unfinished, assigned task with this due date. */
  predicate Awaits(t: Task, due: int) {
    t.deletedAt == None && t.status != DONE && t.assignedTo != None && t.dueDate == Some(due)
  }

  /** The time left lies within the hour before 23, 11, 5 or 0 hours to go. */
  predicate InWindow(left: int) {
    || 23 * HOUR <= left <= 24 * HOUR || 11 * HOUR <= left <= 12 * HOUR
    || 5 * HOUR <= left <= 6 * HOUR || 0 <= left <= HOUR
  }

  /** A tick that finds the task waiting for its due date, inside the window of some milestone. */
  predicate Hits(e: Event, id: TaskId, due: int) {
    e.TickEvent? && id in e.tasks && Awaits(e.tasks[id], due) && InWindow(due - e.now)
  }

  lemma WindowsAreMilestones(t: Task, now: int, due: int)
    requires t.dueDate == Some(due)
    ensures Awaits(t, due) && InWindow(due - now) <==> exists h <- MILESTONES :: IsDue(t, now, h)
  {
    if Awaits(t, due) && InWindow(due - now) {
      var left := due - now;
      var i := if 23 * HOUR <= left <= 24 * HOUR then 0 else if 11 * HOUR <= left <= 12 * HOUR then 1
               else if 5 * HOUR <= left <= 6 * HOUR then 2 else 3;
      assert IsDue(t, now, MILESTONES[i]) && MILESTONES[i] in MILESTONES;
    }
  }

  /** The job serves this tick: it names a waiting task of the tick's table, its assignee and a fitting milestone. */
  predicate Serves(j: Job, e: Event) {
    && e.TickEvent? && j.taskId in e.tasks && Awaits(e.tasks[j.taskId], j.dueDate)
    && e.tasks[j.taskId].assignedTo == Some(j.userId)
    && j.queuedAt == e.now && j.milestone in {24, 12, 6, 1}
    && (j.milestone - 1) * HOUR <= j.dueDate - e.now <= j.milestone * HOUR
  }

  lemma {:induction false} RemindAllQueues(b: Board, due: seq<Task>, e: Event, hours: int)
    requires e.TickEvent? && hours in {24, 12, 6, 1}
    requires forall t <- due :: IsDue(t, e.now, hours) && t.id in e.tasks && e.tasks[t.id] == t
    ensures var b' := RemindAll(b, due, e.now, hours);
      forall r :: r in b'.jobs ==>
        (r in b.jobs && b'.jobs[r] == b.jobs[r])
        || (Serves(b'.jobs[r], e) && b'.jobs[r].attempts == 0 && !b'.jobs[r].done)
    decreases due
  {
    if due != [] {
      assert due[0] in due && forall t <- due[1..] :: t in due;
      RemindAllQueues(Remind(b, due[0], e.now, hours), due[1..], e, hours);
    }
  }

  /** Every job a tick adds is new, and addressed to the assignee of a waiting task of that tick's table. */
  lemma {:induction false} TickQueues(b: Board, e: Event, milestones: seq<int>)
    requires e.TickEvent? && Legal(b, e) && forall h <- milestones :: h in {24, 12, 6, 1}
    ensures var b' := Tick(b, e.tasks, e.order, e.now, milestones);
      forall r :: r in b'.jobs ==>
        (r in b.jobs && b'.jobs[r] == b.jobs[r])
        || (Serves(b'.jobs[r], e) && b'.jobs[r].attempts == 0 && !b'.jobs[r].done)
    decreases milestones
  {
    if milestones != [] {
      var h := milestones[0];
      assert h in milestones && forall x <- milestones[1..] :: x in milestones;
      var rows := DueTasks(e.tasks, e.order, e.now, h);
      DueTasksFrom(e.tasks, e.order, e.now, h);
      RemindAllQueues(b, rows, e, h);
      RemindAllKeepsRemoved(b, rows, e.now, h);
      TickQueues(RemindAll(b, rows, e.now, h), e, milestones[1..]);
    }
  }

  /** What was queued for a job never changes. */
  predicate SameOrder(j: Job, j': Job) {
    j' == j.(attempts := j'.attempts, done := j'.done)
  }

  lemma StepQueues(b: Board, e: Event, r: ReminderId)
    requires Legal(b, e) && r in Step(b, e).jobs
    ensures (r in b.jobs && SameOrder(b.jobs[r], Step(b, e).jobs[r])) || Serves(Step(b, e).jobs[r], e)
    ensures r !in b.jobs ==> Step(b, e).jobs[r].attempts == 0 && !Step(b, e).jobs[r].done
  {
    if e.TickEvent? {
      TickQueues(b, e, MILESTONES);
    } else if e.AttemptEvent? {
      AttemptEffect(b, e.r, e.attempt);
    }
  }

  lemma {:induction false} RunQueues(b: Board, es: seq<Event>, r: ReminderId)
    requires LegalRun(b, es) && r in Exec(b, es).jobs
    ensures var j := Exec(b, es).jobs[r];
      (r in b.jobs && SameOrder(b.jobs[r], j)) || exists e <- es :: Serves(j, e)
    decreases es
  {
    if es != [] {
      var b1 := Step(b, es[0]);
      assert es[0] in es && forall e <- es[1..] :: e in es;
      RunQueues(b1, es[1..], r);
      if r in b1.jobs && SameOrder(b1.jobs[r], Exec(b, es).jobs[r]) {
        StepQueues(b, es[0], r);
      }
    }
  }

  /** In every run: each job was queued by a tick, for the assignee that tick found on a waiting task. */
  lemma JobsServeAssignees(es: seq<Event>, r: ReminderId)
    requires LegalRun(EMPTY_BOARD, es) && r in Exec(EMPTY_BOARD, es).jobs
    ensures exists e <- es :: Serves(Exec(EMPTY_BOARD, es).jobs[r], e)
  {
    RunQueues(EMPTY_BOARD, es, r);
  }

  lemma {:induction false} RemindAllOnlyDue(
    b: Board, due: seq<Task>, now: int, hours: int, id: TaskId, scheduledAt: int)
    requires forall t <- due :: IsDue(t, now, hours) && !(t.id == id && t.dueDate == Some(scheduledAt))
    requires For(b, id, scheduledAt) == {} && forall r :: r in b.reminders ==> r < b.nextId
    ensures For(RemindAll(b, due, now, hours), id, scheduledAt) == {}
    ensures var b' := RemindAll(b, due, now, hours); forall r :: r in b'.reminders ==> r < b'.nextId
    decreases due
  {
    if due != [] {
      assert due[0] in due && forall t <- due[1..] :: t in due;
      var b1 := Remind(b, due[0], now, hours);
      forall r | r in b1.reminders
        ensures r !in For(b1, id, scheduledAt)
      {
        assert r !in For(b, id, scheduledAt);
      }
      RemindAllOnlyDue(b1, due[1..], now, hours, id, scheduledAt);
    }
  }

  lemma {:induction false} TickRemindsOnlyDue(
    b: Board, tasks: Table, order: seq<TaskId>, now: int, milestones: seq<int>, id: TaskId, due: int)
    requires Legal(b, TickEvent(now, tasks, order))
    requires For(b, id, due) == {} && forall r :: r in b.reminders ==> r < b.nextId
    requires id in tasks && tasks[id].dueDate == Some(due) ==> forall h <- milestones :: !IsDue(tasks[id], now, h)
    ensures For(Tick(b, tasks, order, now, milestones), id, due) == {}
    decreases milestones
  {
    if milestones != [] {
      var h := milestones[0];
      assert h in milestones && forall x <- milestones[1..] :: x in milestones;
      var rows := DueTasks(tasks, order, now, h);
      DueTasksFrom(tasks, order, now, h);
      RemindAllOnlyDue(b, rows, now, h, id, due);
      assert RemindAll(b, rows, now, h).removed == b.removed by {
        RemindAllKeepsRemoved(b, rows, now, h);
      }
      TickRemindsOnlyDue(RemindAll(b, rows, now, h), tasks, order, now, milestones[1..], id, due);
    }
  }

  lemma {:induction false} RemindAllKeepsRemoved(b: Board, due: seq<Task>, now: int, hours: int)
    requires forall t <- due :: IsDue(t, now, hours)
    ensures RemindAll(b, due, now, hours).removed == b.removed
    decreases due
  {
    if due != [] {
      assert due[0] in due && forall t <- due[1..] :: t in due;
      RemindAllKeepsRemoved(Remind(b, due[0], now, hours), due[1..], now, hours);
    }
  }

  lemma StepKeepsReminder(b: Board, e: Event, id: TaskId, due: int)
    requires Inv(b) && Legal(b, e) && e != RemoveTask(id) && For(b, id, due) != {}
    ensures For(Step(b, e), id, due) != {}
  {
    match e
    case TickEvent(now, tasks, order) =>
      TickKeepsInv(b, tasks, order, now, MILESTONES);
      ForSurvives(b, Step(b, e), id, due);
    case AttemptEvent(r, a) =>
      AttemptEffect(b, r, a);
      var x :| x in For(b, id, due);
      assert x in For(Step(b, e), id, due);
    case RemoveTask(_) =>
      var x :| x in For(b, id, due);
      assert x in For(Step(b, e), id, due);
  }

  /** Attempts and removals create no reminder. */
  lemma QuietStepRemindsNobody(b: Board, e: Event, id: TaskId, due: int)
    requires Legal(b, e) && !e.TickEvent? && For(b, id, due) == {}
    ensures For(Step(b, e), id, due) == {}
  {
    var b' := Step(b, e);
    if e.AttemptEvent? {
      AttemptEffect(b, e.r, e.attempt);
    }
    forall r | r in b'.reminders
      ensures r !in For(b', id, due)
    {
      assert r !in For(b, id, due);
    }
  }

  lemma StepRemindsIffHit(b: Board, e: Event, id: TaskId, due: int)
    requires Inv(b) && Legal(b, e) && e != RemoveTask(id)
    ensures For(Step(b, e), id, due) != {} <==> For(b, id, due) != {} || Hits(e, id, due)
  {
    if e.TickEvent? && id in e.tasks && e.tasks[id].dueDate == Some(due) {
      WindowsAreMilestones(e.tasks[id], e.now, due);
    }
    if For(b, id, due) != {} {
      StepKeepsReminder(b, e, id, due);
    } else if !e.TickEvent? {
      QuietStepRemindsNobody(b, e, id, due);
    } else if Hits(e, id, due) {
      TickKeepsInv(b, e.tasks, e.order, e.now, MILESTONES);
    } else {
      assert forall r :: r in b.reminders ==> ReminderValid(b, r) && JobValid(b, r);
      TickRemindsOnlyDue(b, e.tasks, e.order, e.now, MILESTONES, id, due);
    }
  }

  /** The exact condition, for every run in which the task is not removed: some tick met it inside a window. */
  lemma {:induction false} RemindedIffHit(b: Board, es: seq<Event>, id: TaskId, due: int)
    requires Inv(b) && LegalRun(b, es) && RemoveTask(id) !in es
    ensures For(Exec(b, es), id, due) != {} <==> For(b, id, due) != {} || exists e <- es :: Hits(e, id, due)
    decreases es
  {
    if es != [] {
      assert es[0] in es && forall e <- es[1..] :: e in es;
      assert forall e <- es :: e == es[0] || e in es[1..];
      StepKeepsInv(b, es[0]);
      StepRemindsIffHit(b, es[0], id, due);
      RemindedIffHit(Step(b, es[0]), es[1..], id, due);
    }
  }

  /** Ticks follow one another within `gap`; `previous` is the time of the last one before the run. */
  predicate TicksWithin(es: seq<Event>, previous: int, gap: int)
    decreases es
  {
    es == [] ||
    (if es[0].TickEvent? then previous <= es[0].now <= previous + gap && TicksWithin(es[1..], es[0].now, gap)
     else TicksWithin(es[1..], previous, gap))
  }

  function LastTick(es: seq<Event>, previous: int): int
    decreases es
  {
    if es == [] then previous else LastTick(es[1..], if es[0].TickEvent? then es[0].now else previous)
  }

  /** At every tick of its last hour the task is live, assigned, unfinished and due at `due`; it is never removed. */
  ghost predicate StaysDue(es: seq<Event>, id: TaskId, due: int) {
    forall e <- es ::
      && e != RemoveTask(id)
      && (e.TickEvent? && due - HOUR <= e.now <= due ==> id in e.tasks && Awaits(e.tasks[id], due))
  }

  /** The ticks begin by the due date and go on until it has passed. */
  predicate SpansDueDate(es: seq<Event>, due: int, gap: int) {
    && es != [] && es[0].TickEvent? && es[0].now <= due
    && TicksWithin(es, es[0].now, gap) && LastTick(es, es[0].now) >= due
  }

  /** A tick in the last hour hits the one-hour window. */
  lemma LastHourHits(es: seq<Event>, e: Event, id: TaskId, due: int)
    requires StaysDue(es, id, due) && e in es && e.TickEvent? && due - HOUR <= e.now <= due
    ensures Hits(e, id, due)
  {
  }

  lemma {:induction false} FrequentTicksHit(es: seq<Event>, previous: int, gap: int, id: TaskId, due: int)
    requires StaysDue(es, id, due) && gap <= HOUR + 1
    requires TicksWithin(es, previous, gap) && previous < due - HOUR && LastTick(es, previous) >= due
    ensures exists e <- es :: Hits(e, id, due)
    decreases es
  {
    var e := es[0];
    assert e in es && forall x <- es[1..] :: x in es;
    if e.TickEvent? && due - HOUR <= e.now {
      LastHourHits(es, e, id, due);
    } else {
      FrequentTicksHit(es[1..], if e.TickEvent? then e.now else previous, gap, id, due);
    }
  }

  lemma SpanningTicksHit(es: seq<Event>, gap: int, id: TaskId, due: int)
    requires StaysDue(es, id, due) && SpansDueDate(es, due, gap) && gap <= HOUR + 1
    ensures exists e <- es :: Hits(e, id, due)
  {
    if due - HOUR <= es[0].now {
      LastHourHits(es, es[0], id, due);
    } else {
      FrequentTicksHit(es, es[0].now, gap, id, due);
    }
  }

  lemma ReminderIsUnique(b: Board, r: ReminderId, id: TaskId, due: int)
    requires Inv(b) && r in For(b, id, due)
    ensures For(b, id, due) == {r} && r in b.jobs
    ensures b.jobs[r].taskId == id && b.jobs[r].dueDate == due && JobValid(b, r)
    ensures forall r' :: r' in b.jobs && b.jobs[r'].taskId == id && b.jobs[r'].dueDate == due ==> r' == r
  {
    assert ReminderValid(b, r);
    forall r' | r' in For(b, id, due)
      ensures r' == r
    {
      assert ReminderValid(b, r');
    }
  }

  /**
   * If ticks span the due date and are at most an hour and a millisecond apart, a task that stays due through
   * its last hour has exactly one reminder for that due date by then, over all ticks and milestones, and
   * exactly one job; the job was queued by a tick for the assignee it found, when the time left fitted the
   * milestone's window.
   */
  lemma ExactlyOneReminder(es: seq<Event>, gap: int, id: TaskId, due: int)
    requires LegalRun(EMPTY_BOARD, es) && StaysDue(es, id, due) && SpansDueDate(es, due, gap)
    requires gap <= HOUR + 1
    ensures var b := Exec(EMPTY_BOARD, es);
      exists r ::
        && For(b, id, due) == {r} && r in b.jobs
        && (forall r' :: r' in b.jobs && b.jobs[r'].taskId == id && b.jobs[r'].dueDate == due ==> r' == r)
        && exists e <- es :: Serves(b.jobs[r], e)
  {
    RunKeepsInv(EMPTY_BOARD, es);
    SpanningTicksHit(es, gap, id, due);
    RemindedIffHit(EMPTY_BOARD, es, id, due);
    var r :| r in For(Exec(EMPTY_BOARD, es), id, due);
    ReminderIsUnique(Exec(EMPTY_BOARD, es), r, id, due);
    JobsServeAssignees(es, r);
  }

  /** Just before the last hour, and any time after the due date, the task is in no window. */
  lemma OutsideWindows(t: Task, due: int, now: int)
    requires t.dueDate == Some(due) && (now == due - HOUR - 1 || now > due)
    ensures !InWindow(due - now)
  {
  }

  lemma TwoTicksAreLegal(tasks: Table, order: seq<TaskId>, first: int, second: int)
    requires forall id :: id in tasks ==> tasks[id].id == id && id in order
    ensures LegalRun(EMPTY_BOARD, [TickEvent(first, tasks, order), TickEvent(second, tasks, order)])
  {
    var es := [TickEvent(first, tasks, order), TickEvent(second, tasks, order)];
    TickKeepsInv(EMPTY_BOARD, tasks, order, first, MILESTONES);
    assert es[1..] == [es[1]] && es[1..][1..] == [];
    assert LegalRun(Step(EMPTY_BOARD, es[0]), es[1..]);
  }

  /** Two ticks, one on either side of the last hour. */
  lemma MissingTicks(t: Task, due: int, gap: int) returns (es: seq<Event>)
    requires Awaits(t, due) && gap > HOUR + 1
    ensures LegalRun(EMPTY_BOARD, es) && StaysDue(es, t.id, due) && SpansDueDate(es, due, gap)
    ensures RemoveTask(t.id) !in es && forall e <- es :: !Hits(e, t.id, due)
  {
    var tasks: Table := map[t.id := t];
    var first := due - HOUR - 1;
    es := [TickEvent(first, tasks, [t.id]), TickEvent(first + gap, tasks, [t.id])];
    TwoTicksAreLegal(tasks, [t.id], first, first + gap);
    OutsideWindows(t, due, first);
    OutsideWindows(t, due, first + gap);
    TwoTicksSpan(es[0], es[1], due, gap);
    TwoTicksMiss(es[0], es[1], t.id, due);
  }

  lemma TwoTicksMiss(e: Event, e': Event, id: TaskId, due: int)
    requires e.TickEvent? && e'.TickEvent? && !InWindow(due - e.now) && !InWindow(due - e'.now)
    ensures StaysDue([e, e'], id, due) && RemoveTask(id) !in [e, e']
    ensures forall x <- [e, e'] :: !Hits(x, id, due)
  {
  }

  lemma TwoTicksSpan(e: Event, e': Event, due: int, gap: int)
    requires e.TickEvent? && e'.TickEvent? && e.now <= due <= e'.now == e.now + gap && 0 <= gap
    ensures SpansDueDate([e, e'], due, gap)
  {
    assert [e, e'][1..] == [e'] && [e'][1..] == [];
    assert TicksWithin([], e'.now, gap) && LastTick([], e'.now) == e'.now;
    assert TicksWithin([e'], e.now, gap) && LastTick([e'], e.now) == e'.now;
    assert TicksWithin([e, e'], e.now, gap) && LastTick([e, e'], e.now) == e'.now;
  }

  /** The bound on the gap is tight: with any wider one, some ticks on either side of the last hour miss it. */
  lemma SlowTicksMiss(t: Task, due: int, gap: int)
    requires Awaits(t, due) && gap > HOUR + 1
    ensures exists es: seq<Event> ::
      && LegalRun(EMPTY_BOARD, es) && StaysDue(es, t.id, due) && SpansDueDate(es, due, gap)
      && For(Exec(EMPTY_BOARD, es), t.id, due) == {}
  {
    var es := MissingTicks(t, due, gap);
    RemindedIffHit(EMPTY_BOARD, es, t.id, due);
  }

  /** In every reachable state, at most one reminder and one job per task and due date, whatever the milestones. */
  lemma AtMostOneReminder(es: seq<Event>, id: TaskId, due: int)
    requires LegalRun(EMPTY_BOARD, es)
    ensures var b := Exec(EMPTY_BOARD, es);
      && |For(b, id, due)| <= 1
      && OnePerDueDate(b)
  {
    RunKeepsInv(EMPTY_BOARD, es);
    var b := Exec(EMPTY_BOARD, es);
    if For(b, id, due) != {} {
      var r :| r in For(b, id, due);
      ReminderIsUnique(b, r, id, due);
    }
  }

  /** A removed task takes its reminders along, none comes back, and no other task's reminder is touched. */
  lemma RemovalIsFinal(b: Board, id: TaskId, es: seq<Event>, due: int)
    requires Inv(b) && LegalRun(Step(b, RemoveTask(id)), es)
    ensures For(Exec(Step(b, RemoveTask(id)), es), id, due) == {}
    ensures forall r :: r in b.reminders && b.reminders[r].taskId != id ==>
      r in Step(b, RemoveTask(id)).reminders && Step(b, RemoveTask(id)).reminders[r] == b.reminders[r]
  {
    var b1 := Step(b, RemoveTask(id));
    StepKeepsInv(b, RemoveTask(id));
    forall r | r in b1.reminders
      ensures r !in For(b1, id, due)
    {
    }
    NoneForRemoved(b1, es, id, due);
  }

  lemma {:induction false} NoneForRemoved(b: Board, es: seq<Event>, id: TaskId, due: int)
    requires Inv(b) && LegalRun(b, es) && id in b.removed && For(b, id, due) == {}
    ensures For(Exec(b, es), id, due) == {}
    decreases es
  {
    if es != [] {
      var e := es[0];
      StepKeepsInv(b, e);
      if e.TickEvent? {
        TickKeepsInv(b, e.tasks, e.order, e.now, MILESTONES);
        assert forall r :: r in b.reminders ==> ReminderValid(b, r) && JobValid(b, r);
        TickRemindsOnlyDue(b, e.tasks, e.order, e.now, MILESTONES, id, due);
      } else {
        QuietStepRemindsNobody(b, e, id, due);
      }
      NoneForRemoved(Step(b, e), es[1..], id, due);
    }
  }

  // ------------------------------------------------------------ delivery

  /** Across all attempts: a SENT reminder has a stored notification, and no reminder ever causes more than three. */
  lemma NotificationBounds(es: seq<Event>, r: ReminderId)
    requires LegalRun(EMPTY_BOARD, es)
    ensures var b := Exec(EMPTY_BOARD, es);
      && Stored(b.notifications, r) <= MAX_ATTEMPTS
      && (r in b.reminders && b.reminders[r].status == SENT ==> Stored(b.notifications, r) >= 1)
  {
    RunKeepsInv(EMPTY_BOARD, es);
    var b := Exec(EMPTY_BOARD, es);
    if r in b.jobs {
      assert JobValid(b, r);
    } else {
      NoJobNoNotification(EMPTY_BOARD, es, r);
    }
    if r in b.reminders {
      assert ReminderValid(b, r);
    }
  }

  lemma {:induction false} NoJobNoNotification(b: Board, es: seq<Event>, r: ReminderId)
    requires Inv(b) && LegalRun(b, es) && r !in Exec(b, es).jobs && r !in multiset(b.notifications)
    ensures r !in multiset(Exec(b, es).notifications)
    decreases es
  {
    if es != [] {
      StepKeepsInv(b, es[0]);
      var b1 := Step(b, es[0]);
      JobsStay(b1, es[1..], r);
      if es[0].TickEvent? {
        TickKeepsInv(b, es[0].tasks, es[0].order, es[0].now, MILESTONES);
      }
      NoJobNoNotification(b1, es[1..], r);
    }
  }

  lemma {:induction false} JobsStay(b: Board, es: seq<Event>, r: ReminderId)
    requires Inv(b) && LegalRun(b, es)
    ensures r in b.jobs ==> r in Exec(b, es).jobs
    decreases es
  {
    if es != [] {
      StepKeepsInv(b, es[0]);
      if es[0].TickEvent? {
        TickKeepsInv(b, es[0].tasks, es[0].order, es[0].now, MILESTONES);
      }
      JobsStay(Step(b, es[0]), es[1..], r);
    }
  }

  /** Once SENT, always SENT, for as long as the row exists. */
  lemma {:induction false} SentIsFinal(b: Board, es: seq<Event>, r: ReminderId)
    requires Inv(b) && LegalRun(b, es) && r in b.reminders && b.reminders[r].status == SENT
    ensures var b' := Exec(b, es); r in b'.reminders ==> b'.reminders[r].status == SENT
    decreases es
  {
    if es != [] {
      var b1 := Step(b, es[0]);
      assert ReminderValid(b, r);
      StepKeepsInv(b, es[0]);
      if es[0].TickEvent? {
        TickKeepsInv(b, es[0].tasks, es[0].order, es[0].now, MILESTONES);
      }
      if r in b1.reminders {
        SentIsFinal(b1, es[1..], r);
      } else {
        GoneStaysGone(b1, es[1..], r);
      }
    }
  }

  lemma {:induction false} GoneStaysGone(b: Board, es: seq<Event>, r: ReminderId)
    requires Inv(b) && LegalRun(b, es) && r !in b.reminders && r < b.nextId
    ensures r !in Exec(b, es).reminders
    decreases es
  {
    if es != [] {
      StepKeepsInv(b, es[0]);
      if es[0].TickEvent? {
        TickAddsOnlyNew(b, es[0].tasks, es[0].order, es[0].now, MILESTONES, r);
      }
      GoneStaysGone(Step(b, es[0]), es[1..], r);
    }
  }

  lemma {:induction false} TickAddsOnlyNew(
    b: Board, tasks: Table, order: seq<TaskId>, now: int, milestones: seq<int>, r: ReminderId)
    requires r !in b.reminders && r < b.nextId
    ensures var b' := Tick(b, tasks, order, now, milestones); r !in b'.reminders && b'.nextId >= b.nextId
    decreases milestones
  {
    if milestones != [] {
      var due := DueTasks(tasks, order, now, milestones[0]);
      RemindAllAddsOnlyNew(b, due, now, milestones[0], r);
      TickAddsOnlyNew(RemindAll(b, due, now, milestones[0]), tasks, order, now, milestones[1..], r);
    }
  }

  lemma {:induction false} RemindAllAddsOnlyNew(b: Board, due: seq<Task>, now: int, hours: int, r: ReminderId)
    requires (forall t <- due :: IsDue(t, now, hours)) && r !in b.reminders && r < b.nextId
    ensures var b' := RemindAll(b, due, now, hours); r !in b'.reminders && b'.nextId >= b.nextId
    decreases due
  {
    if due != [] {
      assert due[0] in due && forall t <- due[1..] :: t in due;
      RemindAllAddsOnlyNew(Remind(b, due[0], now, hours), due[1..], now, hours, r);
    }
  }

  /** The attempts of one job, in the order they were made. */
  function AttemptsOf(es: seq<Event>, r: ReminderId): seq<Attempt> {
    if es == [] then []
    else (if es[0].AttemptEvent? && es[0].r == r then [es[0].attempt] else []) + AttemptsOf(es[1..], r)
  }

  function CountNotified(attempts: seq<Attempt>): nat {
    if attempts == [] then 0 else (if Notified(attempts[0]) then 1 else 0) + CountNotified(attempts[1..])
  }

  function Tries(b: Board, r: ReminderId): nat { if r in b.jobs then b.jobs[r].attempts else 0 }

  predicate Done(b: Board, r: ReminderId) { r in b.jobs && b.jobs[r].done }

  /** What one event adds to the record of a job. */
  lemma StepRecord(b: Board, e: Event, r: ReminderId)
    requires Inv(b) && Legal(b, e)
    ensures var b', attempts := Step(b, e), AttemptsOf([e], r);
      && Tries(b', r) == Tries(b, r) + |attempts|
      && (Done(b', r) <==> Done(b, r) || exists a <- attempts :: Succeeds(a))
      && (Done(b, r) ==> attempts == [])
      && Stored(b'.notifications, r) == Stored(b.notifications, r) + CountNotified(attempts)
  {
    assert [e][1..] == [];
    match e
    case TickEvent(now, tasks, order) =>
      TickKeepsInv(b, tasks, order, now, MILESTONES);
      TickQueues(b, e, MILESTONES);
    case AttemptEvent(x, a) =>
      AttemptEffect(b, x, a);
      if x == r {
        assert AttemptsOf([e], r) == [a] && [a][1..] == [] && a in [a];
      }
    case RemoveTask(_) =>
  }

  lemma AttemptsSplit(es: seq<Event>, r: ReminderId)
    requires es != []
    ensures AttemptsOf(es, r) == AttemptsOf([es[0]], r) + AttemptsOf(es[1..], r)
    ensures |AttemptsOf([es[0]], r)| <= 1
  {
    assert [es[0]][1..] == [];
  }

  lemma RecordsJoin(first: seq<Attempt>, rest: seq<Attempt>)
    requires |first| <= 1
    ensures CountNotified(first + rest) == CountNotified(first) + CountNotified(rest)
    ensures forall a :: a in first + rest <==> a in first || a in rest
    ensures (forall a <- first :: !Succeeds(a)) || rest == [] ==>
      (forall i :: 0 <= i < |rest| - 1 ==> !Succeeds(rest[i])) ==>
      (forall i :: 0 <= i < |first + rest| - 1 ==> !Succeeds((first + rest)[i]))
  {
    if first == [] {
      assert first + rest == rest;
    } else {
      assert first == [first[0]] && (first + rest)[1..] == rest && first[1..] == [];
      assert first[0] in first;
    }
  }

  lemma {:induction false} RunRecord(b: Board, es: seq<Event>, r: ReminderId)
    requires Inv(b) && LegalRun(b, es)
    ensures var b', attempts := Exec(b, es), AttemptsOf(es, r);
      && Tries(b', r) == Tries(b, r) + |attempts|
      && (Done(b', r) <==> Done(b, r) || exists a <- attempts :: Succeeds(a))
      && (Done(b, r) ==> attempts == [])
      && (forall i :: 0 <= i < |attempts| - 1 ==> !Succeeds(attempts[i]))
      && Stored(b'.notifications, r) == Stored(b.notifications, r) + CountNotified(attempts)
    decreases es
  {
    if es != [] {
      var b1 := Step(b, es[0]);
      var first, rest := AttemptsOf([es[0]], r), AttemptsOf(es[1..], r);
      StepKeepsInv(b, es[0]);
      StepRecord(b, es[0], r);
      RunRecord(b1, es[1..], r);
      AttemptsSplit(es, r);
      RecordsJoin(first, rest);
    }
  }

  /**
   * The whole life of a job: it is done exactly when one of its attempts went through, and that one is its
   * last; it is tried at most three times; each attempt that stored a notification counts once.
   */
  lemma DeliveryRecord(es: seq<Event>, r: ReminderId)
    requires LegalRun(EMPTY_BOARD, es) && r in Exec(EMPTY_BOARD, es).jobs
    ensures var b, attempts := Exec(EMPTY_BOARD, es), AttemptsOf(es, r);
      && b.jobs[r].attempts == |attempts| <= 3
      && (b.jobs[r].done <==> exists a <- attempts :: Succeeds(a))
      && (forall i :: 0 <= i < |attempts| - 1 ==> !Succeeds(attempts[i]))
      && Stored(b.notifications, r) == CountNotified(attempts)
  {
    RunKeepsInv(EMPTY_BOARD, es);
    RunRecord(EMPTY_BOARD, es, r);
    assert JobValid(Exec(EMPTY_BOARD, es), r);
  }

  /** The status tells the outcome of the attempts made so far. */
  ghost predicate StatusTells(b: Board) {
    forall r :: r in b.reminders ==>
      && r in b.jobs
      && b.reminders[r].status == if b.jobs[r].attempts == 0 then PENDING else if b.jobs[r].done then SENT else FAILED
  }

  lemma {:induction false} RemindAllStatus(b: Board, due: seq<Task>, now: int, hours: int)
    requires StatusTells(b) && (forall t <- due :: IsDue(t, now, hours))
    ensures StatusTells(RemindAll(b, due, now, hours))
    decreases due
  {
    if due != [] {
      assert due[0] in due && forall t <- due[1..] :: t in due;
      RemindAllStatus(Remind(b, due[0], now, hours), due[1..], now, hours);
    }
  }

  lemma {:induction false} TickStatus(b: Board, tasks: Table, order: seq<TaskId>, now: int, milestones: seq<int>)
    requires StatusTells(b)
    ensures StatusTells(Tick(b, tasks, order, now, milestones))
    decreases milestones
  {
    if milestones != [] {
      var due := DueTasks(tasks, order, now, milestones[0]);
      RemindAllStatus(b, due, now, milestones[0]);
      TickStatus(RemindAll(b, due, now, milestones[0]), tasks, order, now, milestones[1..]);
    }
  }

  /**
   * While the FAILED write of the catch path succeeds, a reminder is PENDING before its first attempt, SENT after
   * a successful one and FAILED after a failed one; so a finished job leaves SENT or FAILED by its last attempt.
   */
  lemma {:induction false} StatusFollowsLastAttempt(b: Board, es: seq<Event>)
    requires Inv(b) && StatusTells(b) && LegalRun(b, es)
    requires forall e <- es :: e.AttemptEvent? ==> e.attempt.failedOk
    ensures StatusTells(Exec(b, es))
    decreases es
  {
    if es != [] {
      assert es[0] in es && forall e <- es[1..] :: e in es;
      var b1 := Step(b, es[0]);
      StepKeepsInv(b, es[0]);
      if es[0].TickEvent? {
        TickStatus(b, es[0].tasks, es[0].order, es[0].now, MILESTONES);
      }
      StatusFollowsLastAttempt(b1, es[1..]);
    }
  }
}
