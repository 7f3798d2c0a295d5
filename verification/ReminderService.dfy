/** The cron tick and the worker as code over the stored reminders and the job queue. */
module ReminderServices {
  import opened TaskStore
  import opened Reminders

  class ReminderStore {
    var reminders: map<ReminderId, Reminder>
    var nextId: ReminderId
    var jobs: map<ReminderId, Job>
    var notifications: seq<ReminderId>
    var removed: set<TaskId>

    function State(): Board
      reads this
    {
      Board(reminders, nextId, jobs, notifications, removed)
    }

    constructor ()
      ensures State() == EMPTY_BOARD
    {
      reminders, nextId, jobs, notifications, removed := map[], 0, map[], [], {};
    }

    method SetStatus(r: ReminderId, status: ReminderStatus)
      modifies this`reminders
      ensures State() == WithStatus(old(State()), r, status)
    {
      if r in reminders {
        reminders := reminders[r := reminders[r].(status := status)];
      }
    }
  }

  class SchedulerService {
    const store: ReminderStore

    constructor (store: ReminderStore)
      ensures this.store == store
    {
      this.store := store;
    }

    /** The body of the inner loop for one due task. */
    method RemindOne(task: Task, now: int, hours: int)
      requires IsDue(task, now, hours)
      modifies store
      ensures store.State() == Remind(old(store.State()), task, now, hours)
    {
      var reminderCount := |For(store.State(), task.id, task.dueDate.value)|;
      if reminderCount == 0 {
        var id := store.nextId;
        store.nextId := id + 1;
        store.reminders := store.reminders[id := Reminder(task.id, task.dueDate.value, PENDING)];
        store.jobs := store.jobs[id :=
          Job(task.id, task.assignedTo.value, hours, task.dueDate.value, now, 0, false)];
      }
    }

    method RemindDue(due: seq<Task>, now: int, hours: int)
      requires forall t <- due :: IsDue(t, now, hours)
      modifies store
      ensures store.State() == RemindAll(old(store.State()), due, now, hours)
    {
      var i := 0;
      while i < |due|
        invariant 0 <= i <= |due|
        invariant forall t <- due[i..] :: IsDue(t, now, hours)
        invariant RemindAll(store.State(), due[i..], now, hours) == RemindAll(old(store.State()), due, now, hours)
      {
        assert due[i..][0] == due[i] && due[i] in due[i..] && due[i..][1..] == due[i + 1..];
        RemindOne(due[i], now, hours);
        i := i + 1;
      }
    }

    /** Nested loops over milestones and due tasks, inserting rows and pushing jobs. */
    method CheckDueTasks(tasks: Table, order: seq<TaskId>, now: int)
      requires Inv(store.State()) && Reminders.Legal(store.State(), TickEvent(now, tasks, order))
      modifies store
      ensures store.State() == Reminders.Step(old(store.State()), TickEvent(now, tasks, order))
      ensures Inv(store.State())
    {
      StepKeepsInv(store.State(), TickEvent(now, tasks, order));
      var m := 0;
      while m < |MILESTONES|
        invariant 0 <= m <= |MILESTONES|
        invariant Tick(store.State(), tasks, order, now, MILESTONES[m..])
               == Tick(old(store.State()), tasks, order, now, MILESTONES)
      {
        var hours := MILESTONES[m];
        var due := DueTasks(tasks, order, now, hours);
        assert MILESTONES[m..][0] == hours && MILESTONES[m..][1..] == MILESTONES[m + 1..];
        RemindDue(due, now, hours);
        m := m + 1;
      }
    }
  }

  class ReminderWorker {
    const store: ReminderStore

    constructor (store: ReminderStore)
      ensures this.store == store
    {
      this.store := store;
    }

    /** One attempt; `ok` is false when the processor throws. */
    method DoProcess(r: ReminderId, a: Attempt) returns (ok: bool)
      modifies store`reminders, store`notifications
      ensures (store.State(), ok) == Process(old(store.State()), r, a)
    {
      ok := false;
      if a.taskFound {
        if !a.delivery.NotStored? {
          store.notifications := store.notifications + [r];
        }
        if a.delivery.Delivered? && a.sentOk {
          store.SetStatus(r, SENT);
          return true;
        }
      }
      if a.failedOk {
        store.SetStatus(r, FAILED);
      }
    }
  }
}
