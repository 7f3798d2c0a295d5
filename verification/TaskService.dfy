/** The task service as an object over its table, its activity queue and the cache. */
module TaskServices {
  import opened Common
  import opened TaskKeys
  import opened Paging
  import opened TaskStore
  import opened TaskCache
  import opened TaskAnswers
  import CacheStore
  import Staleness

  class TaskService {
    const cacheService: CacheStore.CacheService<Cached>
    var tasks: Table
    var activityQueue: seq<Activity>

    /** The abstract state a handler running at time `now` works on. */
    function State(now: int): Store
      reads this, cacheService
    {
      Store(Plain(tasks, activityQueue), CacheStore.Live(cacheService.store, now))
    }

    constructor ()
      ensures fresh(cacheService)
      ensures forall now :: State(now) == EMPTY_STORE
    {
      cacheService := new CacheStore.CacheService<Cached>();
      tasks := map[];
      activityQueue := [];
    }

    /** Between two handlers the state moves by an expiry event of the runs proved transparent, and by nothing else. */
    lemma TimePasses(engine: Engine, now: int, later: int)
      requires now <= later
      ensures exists keys: set<string> :: State(later) == CachedStep(engine, State(now), ExpiryEvent(keys)).0
    {
      CacheStore.TimeOnlyExpires(cacheService.store, now, later);
      var keys := State(now).cache.Keys - State(later).cache.Keys;
      assert State(later) == CachedStep(engine, State(now), ExpiryEvent(keys)).0;
    }

    method Save(task: Task, now: int) returns (saved: Task)
      modifies this`tasks
      ensures saved == Saved(old(tasks), task, now)
      ensures tasks == old(tasks)[task.id := saved]
    {
      if task.id in tasks {
        var row := tasks[task.id];
        saved := if task.(version := row.version) == row then row
                 else task.(version := row.version + 1, updatedAt := now);
      } else {
        saved := task.(version := 1);
      }
      tasks := tasks[task.id := saved];
    }

    method LogActivity(a: Activity, io: Io)
      modifies this`activityQueue
      ensures activityQueue == Logged(old(activityQueue), a, io)
    {
      if io.logOk {
        activityQueue := activityQueue + [a];
      }
    }

    method DropKey(key: string, now: int)
      modifies cacheService
      ensures CacheStore.Live(cacheService.store, now) == CacheStore.Live(old(cacheService.store), now) - {key}
    {
      cacheService.Del(key, true);
    }

    method DropPattern(pattern: string, now: int)
      modifies cacheService
      ensures CacheStore.Live(cacheService.store, now)
           == CacheStore.Without(CacheStore.Live(old(cacheService.store), now), pattern)
    {
      var batches := cacheService.Scan(pattern);
      cacheService.DelPattern(pattern, batches, |batches|);
    }

    method StoreFor300(key: string, value: Cached, now: int)
      modifies cacheService
      ensures cacheService.store == old(cacheService.store)[key := CacheStore.Entry(value, now + Staleness.TTL)]
      ensures CacheStore.Live(cacheService.store, now) == CacheStore.Live(old(cacheService.store), now)[key := value]
    {
      cacheService.Set(key, value, 300, now, true);
    }

    method DoFindById(id: TaskId, w: string, now: int) returns (r: Result<Task, TaskError>)
      modifies cacheService
      ensures (State(now), r) == FindById(old(State(now)), id, w)
      ensures cacheService.store == old(cacheService.store) ||
        (r.Ok? && cacheService.store
                  == old(cacheService.store)[TaskKey(id) := CacheStore.Entry(TaskEntry(r.value), now + Staleness.TTL)])
    {
      var cacheKey := TaskKey(id);
      var cached := cacheService.Get(cacheKey, now, true);
      if cached.Some? && cached.value.TaskEntry? && cached.value.task.workspaceId == w {
        return Ok(cached.value.task);
      }
      var task := Lookup(tasks, id, w);
      if task.Err? {
        return Err(NotFound);
      }
      StoreFor300(cacheKey, TaskEntry(task.value), now);
      r := task;
    }

    method DoGetTasks(engine: Engine, w: string, p: string, q: Query, now: int) returns (result: Page)
      modifies cacheService
      ensures (State(now), result) == GetTasks(engine, old(State(now)), w, p, q)
      ensures cacheService.store == old(cacheService.store) ||
        cacheService.store
        == old(cacheService.store)[ListKey(w, p, q) := CacheStore.Entry(PageEntry(result), now + Staleness.TTL)]
      ensures Sorts(engine) && Coherent(engine, old(State(now))) && CleanId(w) && CleanId(p) && Sane(q) ==>
        Listed(engine, tasks, w, p, q, result)
    {
      if Sorts(engine) && Coherent(engine, State(now)) && CleanId(w) && CleanId(p) && Sane(q) {
        GetTasksIsList(engine, State(now), w, p, q);
        ListAnswers(engine, tasks, w, p, q);
      }
      var cacheKey := ListKey(w, p, q);
      var cached := cacheService.Get(cacheKey, now, true);
      if cached.Some? && cached.value.PageEntry? {
        return cached.value.list;
      }
      var m := MeaningOf(q);
      var sorted := engine.order(Rows(engine, tasks, w, p, m), m.sortField, m.sortOrder);
      var items, total := PageOf(sorted, m.page, m.limit), |sorted|;
      result := Page(items, total, m.page, m.limit, TotalPages(total, m.limit));
      StoreFor300(cacheKey, PageEntry(result), now);
    }

    method DoCreateTask(w: string, p: string, user: UserId, dto: CreateDto, id: TaskId, now: int, io: Io)
      returns (r: Result<Task, TaskError>)
      requires id !in tasks
      modifies this`tasks, this`activityQueue, cacheService
      ensures (State(now), r) == CreateTask(old(State(now)), w, p, user, dto, id, now, io)
    {
      var priority := Truthy(dto.priority);
      var task := Task(id, w, p, dto.parentTaskId, dto.title, dto.description, TODO,
                       if priority.Some? then priority.value else "MEDIUM",
                       dto.assignedTo, dto.dueDate, user, None, dto.labels, dto.attachments, 1, None, now, now);
      if !io.saveOk || (dto.parentTaskId.Some? && dto.parentTaskId.value !in tasks) {
        return Err(DatabaseFailure);
      }
      var saved := Save(task, now);
      DropPattern(ListPattern(w, p), now);
      LogActivity(Activity(id, TASK_CREATED, user), io);
      if dto.assignedTo.Some? && !io.notifyOk {
        return Err(NotificationFailure);
      }
      r := Ok(saved);
    }

    method ApplyFields(t: Task, dto: UpdateDto) returns (task: Task)
      ensures task == t.(
        title := OrKeep(dto.title, t.title), description := OrKeep(dto.description, t.description),
        status := OrKeep(dto.status, t.status), priority := OrKeep(dto.priority, t.priority),
        dueDate := OrKeep(dto.dueDate, t.dueDate), labels := OrKeep(dto.labels, t.labels),
        attachments := OrKeep(dto.attachments, t.attachments))
    {
      task := t;
      if dto.title.Some? { task := task.(title := dto.title.value); }
      if dto.description.Some? { task := task.(description := dto.description.value); }
      if dto.status.Some? { task := task.(status := dto.status.value); }
      if dto.priority.Some? { task := task.(priority := dto.priority.value); }
      if dto.dueDate.Some? { task := task.(dueDate := dto.dueDate.value); }
      if dto.labels.Some? { task := task.(labels := dto.labels.value); }
      if dto.attachments.Some? { task := task.(attachments := dto.attachments.value); }
    }

    /** The field assignments of an update, one by one on the fetched object. */
    method ApplyDto(t: Task, dto: UpdateDto, now: int)
      returns (task: Task, taskCompleted: bool, assigneeChanged: bool)
      ensures task == Patch(t, dto, now)
      ensures taskCompleted == Completes(t, dto) && assigneeChanged == Reassigns(t, dto)
    {
      task, taskCompleted, assigneeChanged := t, false, false;
      if dto.status == Some(DONE) && task.status != DONE {
        task := task.(completedAt := Some(now));
        taskCompleted := true;
      } else if dto.status.Some? && dto.status != Some(DONE) {
        task := task.(completedAt := None);
      }
      if dto.assignedTo.Some? && dto.assignedTo.value != task.assignedTo {
        task := task.(assignedTo := dto.assignedTo.value);
        assigneeChanged := true;
      }
      task := ApplyFields(task, dto);
    }

    /** Activity first, then the notification, whose failure surfaces although everything is saved. */
    method Announce(id: TaskId, task: Task, taskCompleted: bool, assigneeChanged: bool, user: UserId, io: Io)
      returns (delivered: bool)
      modifies this`activityQueue
      ensures var action := if taskCompleted then TASK_COMPLETED
                            else if assigneeChanged && task.assignedTo.Some? then TASK_ASSIGNED else TASK_UPDATED;
        && activityQueue == Logged(old(activityQueue), Activity(id, action, user), io)
        && (delivered <==>
              (io.notifyOk || action == TASK_UPDATED || (action == TASK_COMPLETED && task.createdBy == user)))
    {
      if taskCompleted {
        LogActivity(Activity(id, TASK_COMPLETED, user), io);
        if task.createdBy != user && !io.notifyOk {
          return false;
        }
      } else if assigneeChanged && task.assignedTo.Some? {
        LogActivity(Activity(id, TASK_ASSIGNED, user), io);
        if !io.notifyOk {
          return false;
        }
      } else {
        LogActivity(Activity(id, TASK_UPDATED, user), io);
      }
      delivered := true;
    }

    method DoUpdateTask(id: TaskId, w: string, user: UserId, dto: UpdateDto, now: int, io: Io)
      returns (r: Result<Task, TaskError>)
      modifies this`tasks, this`activityQueue, cacheService
      ensures (State(now), r) == UpdateTask(old(State(now)), id, w, user, dto, now, io)
      ensures r.Ok? ==> r.value.id in tasks && r.value == tasks[r.value.id]
    {
      var found := DoFindById(id, w, now);
      if found.Err? {
        return found;
      }
      var task := found.value;
      if dto.version.Some? && task.version != dto.version.value {
        return Err(Conflict);
      }

      var patched, taskCompleted, assigneeChanged := ApplyDto(task, dto, now);
      task := patched;

      if !io.saveOk {
        return Err(DatabaseFailure);
      }
      var saved := Save(task, now);
      DropKey(TaskKey(id), now);
      DropPattern(ListPattern(w, task.projectId), now);

      var delivered := Announce(id, task, taskCompleted, assigneeChanged, user, io);
      if !delivered {
        return Err(NotificationFailure);
      }
      r := Ok(saved);
    }

    method DoDeleteTask(id: TaskId, w: string, user: UserId, now: int, io: Io) returns (r: Result<(), TaskError>)
      modifies this`tasks, this`activityQueue, cacheService
      ensures (State(now), r) == DeleteTask(old(State(now)), id, w, user, now, io)
    {
      var found := DoFindById(id, w, now);
      if found.Err? {
        return Err(found.error);
      }
      var task := found.value;
      if !io.saveOk {
        return Err(DatabaseFailure);
      }
      if task.id in tasks {
        var row := tasks[task.id];
        tasks := tasks[task.id := row.(deletedAt := Some(now), version := row.version + 1, updatedAt := now)];
      }
      DropKey(TaskKey(id), now);
      DropPattern(ListPattern(w, task.projectId), now);
      LogActivity(Activity(id, TASK_DELETED, user), io);
      r := Ok(());
    }
  }
}
