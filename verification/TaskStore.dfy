/**
 * The task table and what each handler of the task service does to it when
 * every read goes straight to the database: the reference against which the
 * cached service is proved.
 */
module TaskStore {
  import opened Common
  import opened TaskKeys
  import opened Paging

  type TaskId = string
  type UserId = string

  datatype Status = TODO | IN_PROGRESS | BLOCKED | DONE

  datatype Task = Task(
    id: TaskId, workspaceId: string, projectId: string, parentTaskId: Option<TaskId>,
    title: string, description: Option<string>, status: Status, priority: string,
    assignedTo: Option<UserId>, dueDate: Option<int>, createdBy: UserId, completedAt: Option<int>,
    labels: seq<string>, attachments: seq<string>,
    version: nat, deletedAt: Option<int>, createdAt: int, updatedAt: int)

  type Table = map<TaskId, Task>

  datatype Page = Page(items: seq<Task>, total: nat, page: nat, limit: nat, totalPages: nat)

  datatype ActivityAction = TASK_CREATED | TASK_UPDATED | TASK_COMPLETED | TASK_ASSIGNED | TASK_DELETED
  datatype Activity = Activity(taskId: TaskId, action: ActivityAction, performedBy: UserId)

  datatype CreateDto = CreateDto(
    title: string, description: Option<string>, parentTaskId: Option<TaskId>, priority: Option<string>,
    assignedTo: Option<UserId>, dueDate: Option<int>, labels: seq<string>, attachments: seq<string>)

  /** `None` is an absent field; for nullable columns `Some(None)` is an explicit null. */
  datatype UpdateDto = UpdateDto(
    title: Option<string>, description: Option<Option<string>>, status: Option<Status>, priority: Option<string>,
    assignedTo: Option<Option<UserId>>, dueDate: Option<Option<int>>, labels: Option<seq<string>>,
    attachments: Option<seq<string>>, version: Option<int>)

  datatype TaskError = NotFound | Conflict | DatabaseFailure | NotificationFailure

  /** Which of the calls a handler depends on succeed. */
  datatype Io = Io(saveOk: bool, logOk: bool, notifyOk: bool)

  /** The two things left to the database: full-text matching, and the order of a result set. */
  datatype Engine = Engine(
    search: (string, string, Option<string>) -> bool,
    order: (set<Task>, SortField, SortOrder) -> seq<Task>)

  /** The engine returns each row of a result set once. */
  ghost predicate Sorts(engine: Engine) {
    forall rows: set<Task>, f: SortField, o: SortOrder ::
      var sorted := engine.order(rows, f, o);
      NoDup(sorted) && forall t :: t in sorted <==> t in rows
  }

  // ------------------------------------------------------------ reading

  predicate Live(db: Table, id: TaskId) {
    id in db && db[id].deletedAt.None?
  }

  /** The row `findOne({ id, workspaceId })` returns; soft-deleted rows are invisible. */
  function Lookup(db: Table, id: TaskId, workspaceId: string): Result<Task, TaskError> {
    if Live(db, id) && db[id].workspaceId == workspaceId then Ok(db[id]) else Err(NotFound)
  }

  function StatusText(s: Status): string {
    match s
    case TODO => "TODO"
    case IN_PROGRESS => "IN_PROGRESS"
    case BLOCKED => "BLOCKED"
    case DONE => "DONE"
  }

  predicate Selected(engine: Engine, t: Task, w: string, p: string, m: Meaning) {
    && t.workspaceId == w && t.projectId == p && t.deletedAt.None?
    && (m.status.Some? ==> StatusText(t.status) == m.status.value)
    && (m.priority.Some? ==> t.priority == m.priority.value)
    && (m.assignedTo.Some? ==> t.assignedTo == m.assignedTo)
    && (m.search.Some? ==> engine.search(m.search.value, t.title, t.description))
  }

  function Rows(engine: Engine, db: Table, w: string, p: string, m: Meaning): set<Task> {
    set id | id in db && Selected(engine, db[id], w, p, m) :: db[id]
  }

  function ListTasks(engine: Engine, db: Table, w: string, p: string, q: Query): Page {
    var m := MeaningOf(q);
    var sorted := engine.order(Rows(engine, db, w, p, m), m.sortField, m.sortOrder);
    Page(PageOf(sorted, m.page, m.limit), |sorted|, m.page, m.limit, TotalPages(|sorted|, m.limit))
  }

  // ------------------------------------------------------------ writing

  function OrKeep<T>(given: Option<T>, current: T): T {
    if given.Some? then given.value else current
  }

  predicate Completes(task: Task, dto: UpdateDto) {
    dto.status == Some(DONE) && task.status != DONE
  }

  /** The requested changes on a copy of the task. */
  function Patch(task: Task, dto: UpdateDto, now: int): Task {
    task.(
      completedAt :=
        if Completes(task, dto) then Some(now)
        else if dto.status.Some? && dto.status != Some(DONE) then None
        else task.completedAt,
      assignedTo := OrKeep(dto.assignedTo, task.assignedTo),
      title := OrKeep(dto.title, task.title),
      description := OrKeep(dto.description, task.description),
      status := OrKeep(dto.status, task.status),
      priority := OrKeep(dto.priority, task.priority),
      dueDate := OrKeep(dto.dueDate, task.dueDate),
      labels := OrKeep(dto.labels, task.labels),
      attachments := OrKeep(dto.attachments, task.attachments))
  }

  /**
   * The mapper's `save` of a modified copy: the stored row takes over the copy's columns, and its
   * version advances by one if that changes anything. A copy without a row is inserted.
   */
  function Saved(db: Table, copy: Task, now: int): Task {
    if copy.id in db then
      if copy.(version := db[copy.id].version) == db[copy.id] then db[copy.id]
      else copy.(version := db[copy.id].version + 1, updatedAt := now)
    else copy.(version := 1)
  }

  /** Database and activity queue. */
  datatype Plain = Plain(db: Table, activities: seq<Activity>)

  function Logged(activities: seq<Activity>, a: Activity, io: Io): seq<Activity> {
    if io.logOk then activities + [a] else activities
  }

  function NewTask(w: string, p: string, user: UserId, dto: CreateDto, id: TaskId, now: int): Task {
    Task(id, w, p, dto.parentTaskId, dto.title, dto.description, TODO,
         OrKeep(Truthy(dto.priority), "MEDIUM"), dto.assignedTo, dto.dueDate, user, None,
         dto.labels, dto.attachments, 1, None, now, now)
  }

  /** The foreign key on the parent: any stored row will do, in whatever workspace, deleted softly or not. */
  predicate ParentExists(db: Table, dto: CreateDto) {
    dto.parentTaskId.Some? ==> dto.parentTaskId.value in db
  }

  function Create(s: Plain, w: string, p: string, user: UserId, dto: CreateDto, id: TaskId, now: int, io: Io)
    : (Plain, Result<Task, TaskError>)
  {
    if !io.saveOk || !ParentExists(s.db, dto) then (s, Err(DatabaseFailure))
    else
      var task := NewTask(w, p, user, dto, id, now);
      (Plain(s.db[id := task], Logged(s.activities, Activity(id, TASK_CREATED, user), io)),
       if dto.assignedTo.Some? && !io.notifyOk then Err(NotificationFailure) else Ok(task))
  }

  predicate Reassigns(task: Task, dto: UpdateDto) {
    dto.assignedTo.Some? && dto.assignedTo.value != task.assignedTo
  }

  function UpdateAction(task: Task, dto: UpdateDto): ActivityAction {
    if Completes(task, dto) then TASK_COMPLETED
    else if Reassigns(task, dto) && dto.assignedTo.value.Some? then TASK_ASSIGNED
    else TASK_UPDATED
  }

  predicate Notifies(task: Task, dto: UpdateDto, user: UserId) {
    match UpdateAction(task, dto)
    case TASK_COMPLETED => task.createdBy != user
    case TASK_ASSIGNED => true
    case _ => false
  }

  predicate VersionAccepted(task: Task, dto: UpdateDto) {
    dto.version.Some? ==> dto.version.value == task.version
  }

  /** An update that works on `copy`, wherever that copy came from. */
  function UpdateWith(s: Plain, id: TaskId, copy: Task, user: UserId, dto: UpdateDto, now: int, io: Io)
    : (Plain, Result<Task, TaskError>)
  {
    if !VersionAccepted(copy, dto) then (s, Err(Conflict))
    else if !io.saveOk then (s, Err(DatabaseFailure))
    else
      var saved := Saved(s.db, Patch(copy, dto, now), now);
      (Plain(s.db[copy.id := saved], Logged(s.activities, Activity(id, UpdateAction(copy, dto), user), io)),
       if Notifies(copy, dto, user) && !io.notifyOk then Err(NotificationFailure) else Ok(saved))
  }

  function Update(s: Plain, id: TaskId, w: string, user: UserId, dto: UpdateDto, now: int, io: Io)
    : (Plain, Result<Task, TaskError>)
  {
    var found := Lookup(s.db, id, w);
    if found.Err? then (s, found) else UpdateWith(s, id, found.value, user, dto, now, io)
  }

  function SoftRemoved(db: Table, id: TaskId, now: int): Table {
    if id in db then db[id := db[id].(deletedAt := Some(now), version := db[id].version + 1, updatedAt := now)] else db
  }

  function DeleteWith(s: Plain, id: TaskId, copy: Task, user: UserId, now: int, io: Io)
    : (Plain, Result<(), TaskError>)
  {
    if !io.saveOk then (s, Err(DatabaseFailure))
    else (Plain(SoftRemoved(s.db, copy.id, now), Logged(s.activities, Activity(id, TASK_DELETED, user), io)), Ok(()))
  }

  function Delete(s: Plain, id: TaskId, w: string, user: UserId, now: int, io: Io): (Plain, Result<(), TaskError>) {
    var found := Lookup(s.db, id, w);
    if found.Err? then (s, Err(found.error)) else DeleteWith(s, id, found.value, user, now, io)
  }

  // ------------------------------------------------------------ runs

  datatype Event =
    | CreateEvent(w: string, p: string, user: UserId, create: CreateDto, newId: TaskId, now: int, io: Io)
    | ListEvent(w: string, p: string, q: Query)
    | GetEvent(id: TaskId, w: string)
    | UpdateEvent(id: TaskId, w: string, user: UserId, update: UpdateDto, now: int, io: Io)
    | DeleteEvent(id: TaskId, w: string, user: UserId, now: int, io: Io)
    | ExpiryEvent(keys: set<string>)

  datatype Response = TaskIs(task: Result<Task, TaskError>) | ListIs(list: Page)
                    | Removed(result: Result<(), TaskError>) | Silent

  function Step(engine: Engine, s: Plain, e: Event): (Plain, Response) {
    match e
    case CreateEvent(w, p, user, dto, id, now, io) =>
      var (s', r) := Create(s, w, p, user, dto, id, now, io); (s', TaskIs(r))
    case ListEvent(w, p, q) => (s, ListIs(ListTasks(engine, s.db, w, p, q)))
    case GetEvent(id, w) => (s, TaskIs(Lookup(s.db, id, w)))
    case UpdateEvent(id, w, user, dto, now, io) =>
      var (s', r) := Update(s, id, w, user, dto, now, io); (s', TaskIs(r))
    case DeleteEvent(id, w, user, now, io) =>
      var (s', r) := Delete(s, id, w, user, now, io); (s', Removed(r))
    case ExpiryEvent(_) => (s, Silent)
  }

  /** Generated ids are new. */
  predicate Legal(s: Plain, e: Event) {
    e.CreateEvent? ==> e.newId !in s.db
  }

  predicate LegalRun(engine: Engine, s: Plain, es: seq<Event>)
    decreases es
  {
    es == [] || (Legal(s, es[0]) && LegalRun(engine, Step(engine, s, es[0]).0, es[1..]))
  }

  function Exec(engine: Engine, s: Plain, es: seq<Event>): Plain
    decreases es
  {
    if es == [] then s else Exec(engine, Step(engine, s, es[0]).0, es[1..])
  }

  ghost predicate Valid(s: Plain) {
    forall id :: id in s.db ==>
      && s.db[id].id == id
      && (s.db[id].completedAt.Some? <==> s.db[id].status == DONE)
  }

  lemma StepKeepsValid(engine: Engine, s: Plain, e: Event)
    requires Valid(s) && Legal(s, e)
    ensures Valid(Step(engine, s, e).0)
    ensures s.db.Keys <= Step(engine, s, e).0.db.Keys
  {
  }

  lemma {:induction false} RunKeepsValid(engine: Engine, s: Plain, es: seq<Event>)
    requires Valid(s) && LegalRun(engine, s, es)
    ensures Valid(Exec(engine, s, es))
    decreases es
  {
    if es != [] {
      StepKeepsValid(engine, s, es[0]);
      RunKeepsValid(engine, Step(engine, s, es[0]).0, es[1..]);
    }
  }

  // ------------------------------------------------------------ optimistic locking

  predicate Touches(e: Event, id: TaskId, v: int) {
    e.UpdateEvent? && e.id == id && e.update.version == Some(v)
  }

  /** An update carrying version `v` that changes the row saw exactly version `v`, built on its content and ends it. */
  lemma ConditionalUpdate(engine: Engine, s: Plain, e: Event, id: TaskId, v: int)
    requires Valid(s) && Touches(e, id, v) && Step(engine, s, e).0.db != s.db
    ensures Live(s.db, id) && s.db[id].version == v
    ensures Step(engine, s, e).0.db
         == s.db[id := Patch(s.db[id], e.update, e.now).(version := v + 1, updatedAt := e.now)]
  {
  }

  lemma VersionsGrow(engine: Engine, s: Plain, e: Event, id: TaskId)
    requires Valid(s) && Legal(s, e) && id in s.db
    ensures var s' := Step(engine, s, e).0;
      && id in s'.db && s.db[id].version <= s'.db[id].version
      && (s'.db[id] != s.db[id] ==> s.db[id].version < s'.db[id].version)
  {
  }

  /** How many updates carrying version `v` of task `id` changed its row during the run. */
  function EffectiveUpdates(engine: Engine, s: Plain, es: seq<Event>, id: TaskId, v: int): nat
    decreases es
  {
    if es == [] then 0
    else
      var s' := Step(engine, s, es[0]).0;
      (if Touches(es[0], id, v) && s'.db != s.db then 1 else 0) + EffectiveUpdates(engine, s', es[1..], id, v)
  }

  /** Of any number of updates carrying the same version, at most one takes effect. */
  lemma {:induction false} NoLostUpdate(engine: Engine, s: Plain, es: seq<Event>, id: TaskId, v: int)
    requires Valid(s) && LegalRun(engine, s, es)
    ensures EffectiveUpdates(engine, s, es, id, v) <= if id in s.db && s.db[id].version > v then 0 else 1
    decreases es
  {
    if es != [] {
      var s' := Step(engine, s, es[0]).0;
      StepKeepsValid(engine, s, es[0]);
      NoLostUpdate(engine, s', es[1..], id, v);
      if id in s.db {
        VersionsGrow(engine, s, es[0], id);
      }
      if Touches(es[0], id, v) && s'.db != s.db {
        ConditionalUpdate(engine, s, es[0], id, v);
      }
    }
  }

  /** The handler got as far as saving: it answers with the task, or throws when notifying. */
  predicate Accepts(r: Result<Task, TaskError>) {
    r.Ok? || r == Err(NotificationFailure)
  }

  /** Equal except for the two columns that every save advances. */
  predicate SameContent(a: Task, b: Task) {
    a.(version := b.version, updatedAt := b.updatedAt) == b
  }

  const NO_CHANGE := UpdateDto(None, None, None, None, None, None, None, None, None)
  const ALL_OK := Io(true, true, true)

  /**
   * What the check and the save, taken apart, guarantee. A save works on a copy read earlier, from the
   * cache or before another handler's save: every accepted update amounts to the request applied to the
   * stored row iff the copy still has the row's content.
   */
  lemma SaveBuildsOnRowIff(s: Plain, id: TaskId, copy: Task)
    requires id in s.db && copy.id == id
    ensures (forall user, dto: UpdateDto, now, io :: Accepts(UpdateWith(s, id, copy, user, dto, now, io).1) ==>
               SameContent(UpdateWith(s, id, copy, user, dto, now, io).0.db[id], Patch(s.db[id], dto, now)))
      <==> SameContent(copy, s.db[id])
  {
    var row := s.db[id];
    assert Accepts(UpdateWith(s, id, copy, "", NO_CHANGE, 0, ALL_OK).1);
    assert Patch(copy, NO_CHANGE, 0) == copy && Patch(row, NO_CHANGE, 0) == row;
    forall user, dto: UpdateDto, now, io |
      SameContent(copy, row) && Accepts(UpdateWith(s, id, copy, user, dto, now, io).1)
      ensures SameContent(UpdateWith(s, id, copy, user, dto, now, io).0.db[id], Patch(row, dto, now))
    {
      assert SameContent(Patch(copy, dto, now), Patch(row, dto, now));
    }
  }

  // ------------------------------------------------------------ completion

  /** The step moves task `id` into DONE. */
  predicate Enters(s: Plain, s': Plain, id: TaskId) {
    id in s'.db && s'.db[id].status == DONE && (id in s.db ==> s.db[id].status != DONE)
  }

  function Time(e: Event): int {
    match e
    case CreateEvent(_, _, _, _, _, now, _) => now
    case UpdateEvent(_, _, _, _, now, _) => now
    case DeleteEvent(_, _, _, now, _) => now
    case _ => 0
  }

  /** Times of the entries of task `id` into DONE during the run. */
  function DoneTimes(engine: Engine, s: Plain, es: seq<Event>, id: TaskId): seq<int>
    decreases es
  {
    if es == [] then []
    else
      var s' := Step(engine, s, es[0]).0;
      (if Enters(s, s', id) then [Time(es[0])] else []) + DoneTimes(engine, s', es[1..], id)
  }

  function Completions(activities: seq<Activity>, id: TaskId): nat {
    if activities == [] then 0
    else
      (if activities[0].taskId == id && activities[0].action == TASK_COMPLETED then 1 else 0)
      + Completions(activities[1..], id)
  }

  lemma {:induction false} CompletionsAppend(activities: seq<Activity>, a: Activity, id: TaskId)
    ensures Completions(activities + [a], id)
         == Completions(activities, id) + (if a.taskId == id && a.action == TASK_COMPLETED then 1 else 0)
    decreases activities
  {
    if activities != [] {
      CompletionsAppend(activities[1..], a, id);
      assert (activities + [a])[1..] == activities[1..] + [a];
    } else {
      assert activities + [a] == [a];
    }
  }

  predicate Logs(e: Event) {
    match e
    case CreateEvent(_, _, _, _, _, _, io) => io.logOk
    case UpdateEvent(_, _, _, _, _, io) => io.logOk
    case DeleteEvent(_, _, _, _, io) => io.logOk
    case _ => true
  }

  lemma StepCompletion(engine: Engine, s: Plain, e: Event, id: TaskId)
    requires Valid(s) && Legal(s, e) && Logs(e)
    ensures var s' := Step(engine, s, e).0;
      && Completions(s'.activities, id) == Completions(s.activities, id) + (if Enters(s, s', id) then 1 else 0)
      && (id in s'.db && s'.db[id].status == DONE ==>
            s'.db[id].completedAt == if Enters(s, s', id) then Some(Time(e)) else s.db[id].completedAt)
  {
    var s' := Step(engine, s, e).0;
    if s'.activities != s.activities {
      assert s'.activities == s.activities + [s'.activities[|s.activities|]];
      CompletionsAppend(s.activities, s'.activities[|s.activities|], id);
    }
  }

  /**
   * Over every run with successful enqueues: as many TASK_COMPLETED entries as entries into DONE, and a
   * task that is DONE carries the time of the latest one.
   */
  lemma {:induction false} CompletionLedger(engine: Engine, s: Plain, es: seq<Event>, id: TaskId)
    requires Valid(s) && LegalRun(engine, s, es) && forall e <- es :: Logs(e)
    ensures var s', times := Exec(engine, s, es), DoneTimes(engine, s, es, id);
      && Completions(s'.activities, id) == Completions(s.activities, id) + |times|
      && (id in s'.db ==> (s'.db[id].completedAt.Some? <==> s'.db[id].status == DONE))
      && (id in s'.db && s'.db[id].status == DONE ==>
            s'.db[id].completedAt ==
              if times != [] then Some(times[|times| - 1])
              else if id in s.db then s.db[id].completedAt else None)
      && (id in s'.db && s'.db[id].status == DONE && times == [] ==> id in s.db && s.db[id].status == DONE)
    decreases es
  {
    if es != [] {
      assert es[0] in es;
      var s1 := Step(engine, s, es[0]).0;
      StepKeepsValid(engine, s, es[0]);
      StepCompletion(engine, s, es[0], id);
      assert forall e <- es[1..] :: e in es;
      CompletionLedger(engine, s1, es[1..], id);
    }
  }

  /** A save that goes through logs exactly one activity, whose kind tells what the update did. */
  lemma SavedUpdateLogsOnce(s: Plain, id: TaskId, w: string, user: UserId, dto: UpdateDto, now: int, io: Io)
    requires Valid(s) && io.logOk
    ensures var (s', r) := Update(s, id, w, user, dto, now, io);
      var accepted := Lookup(s.db, id, w).Ok? && io.saveOk
        && (dto.version.None? || dto.version.value == s.db[id].version);
      && (accepted <==> s'.activities != s.activities)
      && (accepted ==>
            && |s'.activities| == |s.activities| + 1 && s.activities <= s'.activities
            && var a := s'.activities[|s.activities|];
            && a.taskId == id && a.performedBy == user
            && (a.action == TASK_COMPLETED <==> s.db[id].status != DONE && s'.db[id].status == DONE)
            && (a.action == TASK_ASSIGNED <==>
                  (!(s.db[id].status != DONE && s'.db[id].status == DONE)
                   && s'.db[id].assignedTo != s.db[id].assignedTo && s'.db[id].assignedTo.Some?)))
  {
  }

  // ------------------------------------------------------------ what an update means

  /** Both requests name no common field. */
  predicate Disjoint(a: UpdateDto, b: UpdateDto) {
    && (a.title.None? || b.title.None?) && (a.description.None? || b.description.None?)
    && (a.status.None? || b.status.None?) && (a.priority.None? || b.priority.None?)
    && (a.assignedTo.None? || b.assignedTo.None?) && (a.dueDate.None? || b.dueDate.None?)
    && (a.labels.None? || b.labels.None?) && (a.attachments.None? || b.attachments.None?)
  }

  /** Requests on different fields may be applied in either order. */
  lemma DisjointPatchesCommute(t: Task, a: UpdateDto, b: UpdateDto, now: int, now': int)
    requires Disjoint(a, b)
    ensures Patch(Patch(t, a, now), b, now') == Patch(Patch(t, b, now'), a, now)
  {
  }

  /** The request already holds of the task: every field it names has the value it names. */
  predicate Satisfied(t: Task, dto: UpdateDto) {
    && (dto.title.Some? ==> t.title == dto.title.value)
    && (dto.description.Some? ==> t.description == dto.description.value)
    && (dto.status.Some? ==> t.status == dto.status.value)
    && (dto.priority.Some? ==> t.priority == dto.priority.value)
    && (dto.assignedTo.Some? ==> t.assignedTo == dto.assignedTo.value)
    && (dto.dueDate.Some? ==> t.dueDate == dto.dueDate.value)
    && (dto.labels.Some? ==> t.labels == dto.labels.value)
    && (dto.attachments.Some? ==> t.attachments == dto.attachments.value)
  }

  lemma PatchSatisfies(t: Task, dto: UpdateDto, now: int)
    requires t.completedAt.Some? <==> t.status == DONE
    ensures Satisfied(Patch(t, dto, now), dto)
    ensures Patch(t, dto, now) == t <==> Satisfied(t, dto)
  {
    if Satisfied(t, dto) {
      var u := Patch(t, dto, now);
      assert u.title == t.title && u.description == t.description && u.status == t.status;
      assert u.priority == t.priority && u.assignedTo == t.assignedTo && u.dueDate == t.dueDate;
      assert u.labels == t.labels && u.attachments == t.attachments && u.completedAt == t.completedAt;
    }
  }

  /** The saved row is the patched copy up to bookkeeping, and is the old row exactly when the patch is. */
  lemma SavedPatch(db: Table, t: Task, dto: UpdateDto, now: int)
    requires t.id in db && db[t.id] == t
    ensures var row := Saved(db, Patch(t, dto, now), now);
      && row == Patch(t, dto, now).(version := row.version, updatedAt := row.updatedAt)
      && (row == t <==> Patch(t, dto, now) == t)
      && row.version == (if row == t then t.version else t.version + 1)
  {
  }

  /**
   * An accepted update establishes what it asks for; it leaves row and version alone exactly when that held
   * already, so repeating an update without a version changes nothing more.
   */
  lemma UpdateEstablishesRequest(
    s: Plain, id: TaskId, w: string, user: UserId, dto: UpdateDto, now: int, io: Io, now': int)
    requires Valid(s) && io.saveOk && Lookup(s.db, id, w).Ok? && VersionAccepted(s.db[id], dto)
    ensures var db' := Update(s, id, w, user, dto, now, io).0.db;
      && Satisfied(db'[id], dto)
      && (db' == s.db <==> Satisfied(s.db[id], dto))
      && Saved(db', Patch(db'[id], dto, now'), now') == db'[id]
      && db' == s.db[id := db'[id]]
  {
    var t := s.db[id];
    PatchSatisfies(t, dto, now);
    SavedPatch(s.db, t, dto, now);
    var db' := Update(s, id, w, user, dto, now, io).0.db;
    var row := Saved(s.db, Patch(t, dto, now), now);
    assert db' == s.db[id := row] && db'[id] == row;
    PatchSatisfies(row, dto, now');
    SavedPatch(db', row, dto, now');
  }

  /** Whoever asks, these columns of a row never change once it exists. */
  lemma FixedColumns(engine: Engine, s: Plain, e: Event, id: TaskId)
    requires Valid(s) && Legal(s, e) && id in s.db
    ensures var db' := Step(engine, s, e).0.db;
      && id in db' && db'[id].id == id
      && db'[id].parentTaskId == s.db[id].parentTaskId && db'[id].createdBy == s.db[id].createdBy
      && db'[id].workspaceId == s.db[id].workspaceId && db'[id].projectId == s.db[id].projectId
      && db'[id].createdAt == s.db[id].createdAt
      && (!e.DeleteEvent? ==> db'[id].deletedAt == s.db[id].deletedAt)
  {
  }

  /** The unfiltered list is the disjoint union of the four status lists, and shows only live tasks of the project. */
  lemma StatusListsPartition(engine: Engine, db: Table, w: string, p: string, m: Meaning)
    requires m.status.None?
    ensures forall t :: t in Rows(engine, db, w, p, m) ==>
      t.workspaceId == w && t.projectId == p && t.deletedAt.None?
    ensures forall st: Status, t ::
      t in Rows(engine, db, w, p, m.(status := Some(StatusText(st))))
      <==> t in Rows(engine, db, w, p, m) && t.status == st
  {
    assert "TODO"[0] == 'T' && "IN_PROGRESS"[0] == 'I' && "BLOCKED"[0] == 'B' && "DONE"[0] == 'D';
    forall st: Status, t
      ensures t in Rows(engine, db, w, p, m.(status := Some(StatusText(st))))
         <==> t in Rows(engine, db, w, p, m) && t.status == st
    {
      var m' := m.(status := Some(StatusText(st)));
      if t in Rows(engine, db, w, p, m') {
        var id :| id in db && Selected(engine, db[id], w, p, m') && t == db[id];
        assert Selected(engine, db[id], w, p, m);
      }
      if t in Rows(engine, db, w, p, m) && t.status == st {
        var id :| id in db && Selected(engine, db[id], w, p, m) && t == db[id];
        assert Selected(engine, db[id], w, p, m');
      }
    }
  }

  // ------------------------------------------------------------ writes seen by later reads

  /** A write to one row replaces at most that row in any list of the project. */
  lemma RowsAfterWrite(engine: Engine, db: Table, t: Task, w: string, p: string, m: Meaning)
    requires (forall id :: id in db ==> db[id].id == id)
    ensures Rows(engine, db[t.id := t], w, p, m)
         == Rows(engine, db, w, p, m) - (if t.id in db then {db[t.id]} else {})
            + (if Selected(engine, t, w, p, m) then {t} else {})
  {
    var db' := db[t.id := t];
    forall x
      ensures x in Rows(engine, db', w, p, m) <==>
        x in Rows(engine, db, w, p, m) - (if t.id in db then {db[t.id]} else {})
             + (if Selected(engine, t, w, p, m) then {t} else {})
    {
      if x in Rows(engine, db', w, p, m) {
        var id :| id in db' && Selected(engine, db'[id], w, p, m) && x == db'[id];
        if id != t.id {
          assert db[id] == x && x.id != t.id;
        }
      }
      if x in Rows(engine, db, w, p, m) && !(t.id in db && x == db[t.id]) {
        var id :| id in db && Selected(engine, db[id], w, p, m) && x == db[id];
        assert id != t.id && db'[id] == x;
      }
      if x == t && Selected(engine, t, w, p, m) {
        assert db'[t.id] == x;
      }
    }
  }

  /** A created task can be fetched with what was asked for, and joins exactly the lists whose filters it meets. */
  lemma CreatedTaskIsServed(
    engine: Engine, s: Plain, w: string, p: string, user: UserId, dto: CreateDto, id: TaskId, now: int, io: Io,
    m: Meaning)
    requires Valid(s) && id !in s.db && io.saveOk && ParentExists(s.db, dto)
    ensures var (s', r) := Create(s, w, p, user, dto, id, now, io);
      var found := Lookup(s'.db, id, w);
      && found.Ok?
      && var t := found.value;
      && t.title == dto.title && t.description == dto.description && t.parentTaskId == dto.parentTaskId
      && t.assignedTo == dto.assignedTo && t.dueDate == dto.dueDate && t.labels == dto.labels
      && t.attachments == dto.attachments && t.createdBy == user && t.projectId == p && t.createdAt == now
      && t.priority == (if dto.priority.Some? && dto.priority.value != "" then dto.priority.value else "MEDIUM")
      && t.status == TODO && t.version == 1
      && (r == Ok(t) || (r == Err(NotificationFailure) && dto.assignedTo.Some? && !io.notifyOk))
      && Rows(engine, s'.db, w, p, m)
         == Rows(engine, s.db, w, p, m) + (if Selected(engine, t, w, p, m) then {t} else {})
  {
    RowsAfterWrite(engine, s.db, NewTask(w, p, user, dto, id, now), w, p, m);
  }

  /** A deleted task is not found any more and leaves every list; nothing else leaves or joins. */
  lemma DeletedTaskIsGone(
    engine: Engine, s: Plain, id: TaskId, w: string, user: UserId, now: int, io: Io, w': string, p: string, m: Meaning)
    requires Valid(s) && io.saveOk && Lookup(s.db, id, w).Ok?
    ensures var s' := Delete(s, id, w, user, now, io).0;
      && Lookup(s'.db, id, w') == Err(NotFound)
      && Delete(s', id, w', user, now, io) == (s', Err(NotFound))
      && Rows(engine, s'.db, w', p, m) == Rows(engine, s.db, w', p, m) - {s.db[id]}
  {
    var s' := Delete(s, id, w, user, now, io).0;
    assert s'.db == s.db[id := s'.db[id]];
    RowsAfterWrite(engine, s.db, s'.db[id], w', p, m);
  }
}
