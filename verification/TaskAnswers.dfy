/**
 * What the callers of the task service are answered, in terms of the columns
 * of the rows and the fields of the request alone: for the service without a
 * cache, and for the cached one after any run.
 */
module TaskAnswers {
  import opened Common
  import opened TaskKeys
  import opened Paging
  import opened TaskStore
  import opened TaskCache

  predicate IsVisible(db: Table, id: TaskId, w: string) {
    id in db && db[id].deletedAt == None && db[id].workspaceId == w
  }

  predicate Got(db: Table, id: TaskId, w: string, r: Result<Task, TaskError>) {
    r == if IsVisible(db, id, w) then Ok(db[id]) else Err(NotFound)
  }

  // ------------------------------------------------------------ lists

  /** The query names a value for this filter; the empty string names none. */
  predicate Names(filter: Option<string>) {
    filter.Some? && filter.value != ""
  }

  predicate HasStatus(t: Task, text: string) {
    || (text == "TODO" && t.status == TODO) || (text == "IN_PROGRESS" && t.status == IN_PROGRESS)
    || (text == "BLOCKED" && t.status == BLOCKED) || (text == "DONE" && t.status == DONE)
  }

  /** A live row of the project that meets every filter the query names. */
  predicate Wanted(engine: Engine, t: Task, w: string, p: string, q: Query) {
    && t.workspaceId == w && t.projectId == p && t.deletedAt == None
    && (Names(q.status) ==> HasStatus(t, q.status.value))
    && (Names(q.priority) ==> t.priority == q.priority.value)
    && (Names(q.assignedTo) ==> t.assignedTo == Some(q.assignedTo.value))
    && (Names(q.search) ==> engine.search(q.search.value, t.title, t.description))
  }

  function WantedRows(engine: Engine, db: Table, w: string, p: string, q: Query): set<Task> {
    set id | id in db && Wanted(engine, db[id], w, p, q) :: db[id]
  }

  function SortColumn(q: Query): SortField {
    if q.sortBy == Some("title") then Title else if q.sortBy == Some("dueDate") then DueDate else CreatedAt
  }

  /** The rows wanted, each once, in the order asked for. */
  ghost predicate Arranges(engine: Engine, sorted: seq<Task>, wanted: set<Task>, q: Query) {
    && sorted == engine.order(wanted, SortColumn(q), if q.sortOrder == Some(ASC) then ASC else DESC)
    && NoDup(sorted) && |sorted| == |wanted| && (forall t :: t in sorted <==> t in wanted)
  }

  /** So many pages hold all rows, and one page less does not. */
  predicate JustCovers(pages: nat, limit: nat, total: nat) {
    total <= pages * limit < total + limit
  }

  /** The rows from number `(page - 1) * limit` up to `page * limit`, as far as there are any. */
  predicate IsPage(items: seq<Task>, rows: seq<Task>, page: nat, limit: nat)
    requires page >= 1
  {
    MulMonotone(page - 1, page, limit);
    items == rows[Min((page - 1) * limit, |rows|)..Min(page * limit, |rows|)]
  }

  ghost predicate Listed(engine: Engine, db: Table, w: string, p: string, q: Query, list: Page) {
    var wanted := WantedRows(engine, db, w, p, q);
    && list.total == |wanted|
    && list.page == (if q.page.Some? && q.page.value > 0 then q.page.value else 1)
    && list.limit == (if q.limit.Some? && q.limit.value > 0 then q.limit.value else 10)
    && JustCovers(list.totalPages, list.limit, list.total)
    && exists sorted ::
         Arranges(engine, sorted, wanted, q) && IsPage(list.items, sorted, list.page, list.limit)
  }

  lemma StatusTextIsName(t: Task, text: string)
    ensures StatusText(t.status) == text <==> HasStatus(t, text)
  {
    assert "TODO"[0] == 'T' && "IN_PROGRESS"[0] == 'I' && "BLOCKED"[0] == 'B' && "DONE"[0] == 'D';
  }

  lemma SelectedIsWanted(engine: Engine, t: Task, w: string, p: string, q: Query)
    ensures Selected(engine, t, w, p, MeaningOf(q)) <==> Wanted(engine, t, w, p, q)
  {
    if Names(q.status) {
      StatusTextIsName(t, q.status.value);
    }
  }

  lemma RowsAreWanted(engine: Engine, db: Table, w: string, p: string, q: Query)
    ensures Rows(engine, db, w, p, MeaningOf(q)) == WantedRows(engine, db, w, p, q)
  {
    forall id | id in db
      ensures Selected(engine, db[id], w, p, MeaningOf(q)) <==> Wanted(engine, db[id], w, p, q)
    {
      SelectedIsWanted(engine, db[id], w, p, q);
    }
  }

  lemma {:induction false} NoDupCount<T>(s: seq<T>, elements: set<T>)
    requires NoDup(s) && forall t :: t in s <==> t in elements
    ensures |s| == |elements|
    decreases s
  {
    if s == [] {
      assert elements == {};
    } else {
      var n := |s| - 1;
      assert s == s[..n] + [s[n]];
      NoDupCount(s[..n], elements - {s[n]});
    }
  }

  lemma PageCountBounds(total: nat, limit: nat)
    requires limit >= 1
    ensures JustCovers(TotalPages(total, limit), limit, total)
  {
    var pages := TotalPages(total, limit);
    PageCountCovers(total, limit, 1);
    if pages >= 1 {
      PageCountCovers(total, limit, pages);
      assert pages * limit == (pages - 1) * limit + limit;
    }
  }

  lemma PageOfIsPage(rows: seq<Task>, page: nat, limit: nat)
    requires page >= 1 && limit >= 1
    ensures IsPage(PageOf(rows, page, limit), rows, page, limit)
  {
    assert page * limit == (page - 1) * limit + limit;
  }

  lemma OrderedRowsArrange(engine: Engine, wanted: set<Task>, q: Query)
    requires Sorts(engine)
    ensures Arranges(engine, engine.order(wanted, MeaningOf(q).sortField, MeaningOf(q).sortOrder), wanted, q)
  {
    var m := MeaningOf(q);
    var sorted := engine.order(wanted, m.sortField, m.sortOrder);
    assert NoDup(sorted) && forall t :: t in sorted <==> t in wanted;
    NoDupCount(sorted, wanted);
    assert "title"[0] == 't' && "dueDate"[0] == 'd';
    assert m.sortField == SortColumn(q);
    assert m.sortOrder == if q.sortOrder == Some(ASC) then ASC else DESC;
  }

  /** A list holds one page of exactly the rows the query asks for, and counts them all. */
  lemma ListAnswers(engine: Engine, db: Table, w: string, p: string, q: Query)
    requires Sorts(engine)
    ensures Listed(engine, db, w, p, q, ListTasks(engine, db, w, p, q))
  {
    var m, wanted := MeaningOf(q), WantedRows(engine, db, w, p, q);
    RowsAreWanted(engine, db, w, p, q);
    OrderedRowsArrange(engine, wanted, q);
    var sorted := engine.order(wanted, m.sortField, m.sortOrder);
    PageCountBounds(|sorted|, m.limit);
    PageOfIsPage(sorted, m.page, m.limit);
  }

  // ------------------------------------------------------------ writes

  predicate Keeps(s: Plain, s': Plain, id: TaskId) {
    id in s'.db && s'.db == s.db[id := s'.db[id]]
  }

  /** The activity reaches the log unless the queue refuses it. */
  predicate Reports(s: Plain, s': Plain, a: Activity, io: Io) {
    s'.activities == if io.logOk then s.activities + [a] else s.activities
  }

  predicate NewRow(t: Task, e: Event)
    requires e.CreateEvent?
  {
    var dto := e.create;
    && t.id == e.newId && t.workspaceId == e.w && t.projectId == e.p && t.parentTaskId == dto.parentTaskId
    && t.title == dto.title && t.description == dto.description
    && t.priority == (if Names(dto.priority) then dto.priority.value else "MEDIUM")
    && t.status == TODO && t.completedAt == None && t.deletedAt == None && t.version == 1
    && t.assignedTo == dto.assignedTo && t.dueDate == dto.dueDate && t.createdBy == e.user
    && t.labels == dto.labels && t.attachments == dto.attachments && t.createdAt == t.updatedAt == e.now
  }

  ghost predicate Created(s: Plain, e: Event, s': Plain, r: Result<Task, TaskError>)
    requires e.CreateEvent?
  {
    if e.io.saveOk && (e.create.parentTaskId == None || e.create.parentTaskId.value in s.db) then
      && Keeps(s, s', e.newId) && NewRow(s'.db[e.newId], e)
      && Reports(s, s', Activity(e.newId, TASK_CREATED, e.user), e.io)
      && r == if e.create.assignedTo != None && !e.io.notifyOk then Err(NotificationFailure) else Ok(s'.db[e.newId])
    else
      r == Err(DatabaseFailure) && s' == s
  }

  predicate Conflicts(row: Task, dto: UpdateDto) {
    dto.version.Some? && dto.version.value != row.version
  }

  /** The update moves the task into DONE. */
  predicate Finishes(row: Task, dto: UpdateDto) {
    dto.status == Some(DONE) && row.status != DONE
  }

  /** The update hands the task to somebody else. */
  predicate Assigns(row: Task, dto: UpdateDto) {
    dto.assignedTo.Some? && dto.assignedTo.value.Some? && dto.assignedTo.value != row.assignedTo
  }

  /** Somebody has to be told: the creator of a task another user finished, or its new assignee. */
  predicate Tells(row: Task, dto: UpdateDto, user: UserId) {
    if Finishes(row, dto) then row.createdBy != user else Assigns(row, dto)
  }

  /** Each field the request names has its value, every other one is as before. */
  predicate Applied(row: Task, row': Task, dto: UpdateDto, now: int) {
    && row'.title == (match dto.title case Some(x) => x case None => row.title)
    && row'.description == (match dto.description case Some(x) => x case None => row.description)
    && row'.status == (match dto.status case Some(x) => x case None => row.status)
    && row'.priority == (match dto.priority case Some(x) => x case None => row.priority)
    && row'.assignedTo == (match dto.assignedTo case Some(x) => x case None => row.assignedTo)
    && row'.dueDate == (match dto.dueDate case Some(x) => x case None => row.dueDate)
    && row'.labels == (match dto.labels case Some(x) => x case None => row.labels)
    && row'.attachments == (match dto.attachments case Some(x) => x case None => row.attachments)
    && row'.completedAt
       == (if Finishes(row, dto) then Some(now) else if row'.status == DONE then row.completedAt else None)
    && row'.id == row.id && row'.workspaceId == row.workspaceId && row'.projectId == row.projectId
    && row'.parentTaskId == row.parentTaskId && row'.createdBy == row.createdBy
    && row'.createdAt == row.createdAt && row'.deletedAt == row.deletedAt
    && (row' == row || (row'.version == row.version + 1 && row'.updatedAt == now))
  }

  predicate Updated(s: Plain, e: Event, s': Plain, r: Result<Task, TaskError>)
    requires e.UpdateEvent?
  {
    if !IsVisible(s.db, e.id, e.w) then r == Err(NotFound) && s' == s
    else if Conflicts(s.db[e.id], e.update) then r == Err(Conflict) && s' == s
    else if !e.io.saveOk then r == Err(DatabaseFailure) && s' == s
    else
      var row := s.db[e.id];
      && Keeps(s, s', e.id) && Applied(row, s'.db[e.id], e.update, e.now)
      && Reports(s, s', Activity(e.id, if Finishes(row, e.update) then TASK_COMPLETED
                                       else if Assigns(row, e.update) then TASK_ASSIGNED
                                       else TASK_UPDATED, e.user), e.io)
      && r == if Tells(row, e.update, e.user) && !e.io.notifyOk then Err(NotificationFailure) else Ok(s'.db[e.id])
  }

  predicate Deleted(s: Plain, e: Event, s': Plain, r: Result<(), TaskError>)
    requires e.DeleteEvent?
  {
    if !IsVisible(s.db, e.id, e.w) then r == Err(NotFound) && s' == s
    else if !e.io.saveOk then r == Err(DatabaseFailure) && s' == s
    else
      && r == Ok(()) && Keeps(s, s', e.id)
      && s'.db[e.id] == s.db[e.id].(deletedAt := Some(e.now), version := s.db[e.id].version + 1, updatedAt := e.now)
      && Reports(s, s', Activity(e.id, TASK_DELETED, e.user), e.io)
  }

  /** The right answer to any request, and what it leaves behind. */
  ghost predicate Answered(engine: Engine, s: Plain, e: Event, s': Plain, response: Response) {
    match e
    case CreateEvent(_, _, _, _, _, _, _) => response.TaskIs? && Created(s, e, s', response.task)
    case ListEvent(w, p, q) => response.ListIs? && Listed(engine, s.db, w, p, q, response.list) && s' == s
    case GetEvent(id, w) => response.TaskIs? && Got(s.db, id, w, response.task) && s' == s
    case UpdateEvent(_, _, _, _, _, _) => response.TaskIs? && Updated(s, e, s', response.task)
    case DeleteEvent(_, _, _, _, _) => response.Removed? && Deleted(s, e, s', response.result)
    case ExpiryEvent(_) => response.Silent? && s' == s
  }

  lemma CreateAnswers(engine: Engine, s: Plain, e: Event)
    requires Valid(s) && Legal(s, e) && e.CreateEvent?
    ensures var (s', response) := Step(engine, s, e);
      response.TaskIs? && Created(s, e, s', response.task)
  {
  }

  lemma SavedPatchApplies(db: Table, row: Task, dto: UpdateDto, now: int)
    requires row.id in db && db[row.id] == row && (row.completedAt.Some? <==> row.status == DONE)
    ensures Applied(row, Saved(db, Patch(row, dto, now), now), dto, now)
  {
  }

  lemma UpdateAnswers(engine: Engine, s: Plain, e: Event)
    requires Valid(s) && e.UpdateEvent?
    ensures var (s', response) := Step(engine, s, e);
      response.TaskIs? && Updated(s, e, s', response.task)
  {
    if IsVisible(s.db, e.id, e.w) {
      SavedPatchApplies(s.db, s.db[e.id], e.update, e.now);
    }
  }

  lemma DeleteAnswers(engine: Engine, s: Plain, e: Event)
    requires Valid(s) && e.DeleteEvent?
    ensures var (s', response) := Step(engine, s, e);
      response.Removed? && Deleted(s, e, s', response.result)
  {
  }

  lemma StepAnswers(engine: Engine, s: Plain, e: Event)
    requires Sorts(engine) && Valid(s) && Legal(s, e)
    ensures var (s', response) := Step(engine, s, e);
      Answered(engine, s, e, s', response)
  {
    match e
    case CreateEvent(_, _, _, _, _, _, _) => CreateAnswers(engine, s, e);
    case ListEvent(w, p, q) => ListAnswers(engine, s.db, w, p, q);
    case UpdateEvent(_, _, _, _, _, _) => UpdateAnswers(engine, s, e);
    case DeleteEvent(_, _, _, _, _) => DeleteAnswers(engine, s, e);
    case _ =>
  }

  /** After any run, the service with the cache gives the right answer to the next request. */
  lemma CachedAnswers(engine: Engine, es: seq<Event>, e: Event)
    requires Sorts(engine) && LegalRun(engine, EMPTY_STORE.plain, es) && forall x <- es :: Admissible(x)
    requires Admissible(e) && Legal(CachedRun(engine, EMPTY_STORE, es).0.plain, e)
    ensures var s := CachedRun(engine, EMPTY_STORE, es).0;
      var (s', response) := CachedStep(engine, s, e);
      Answered(engine, s.plain, e, s'.plain, response)
  {
    var s := CachedRun(engine, EMPTY_STORE, es).0;
    CacheIsTransparent(engine, EMPTY_STORE, es);
    PlainRunIsExec(engine, EMPTY_STORE.plain, es);
    RunKeepsValid(engine, EMPTY_STORE.plain, es);
    StepIsTransparent(engine, s, e);
    StepAnswers(engine, s.plain, e);
  }
}
