/**
 * The task service as it runs: every read goes through the cache, every write
 * drops one task key and one project's list keys. With handlers as atomic
 * steps and a working cache it answers exactly like the service without one.
 */
module TaskCache {
  import opened Common
  import opened TaskKeys
  import opened Paging
  import opened TaskStore
  import CacheStore

  datatype Cached = TaskEntry(task: Task) | PageEntry(list: Page)

  datatype Store = Store(plain: Plain, cache: map<string, Cached>)

  function FindById(s: Store, id: TaskId, w: string): (Store, Result<Task, TaskError>) {
    var key := TaskKey(id);
    if key in s.cache && s.cache[key].TaskEntry? && s.cache[key].task.workspaceId == w then
      (s, Ok(s.cache[key].task))
    else
      var found := Lookup(s.plain.db, id, w);
      (if found.Ok? then s.(cache := s.cache[key := TaskEntry(found.value)]) else s, found)
  }

  function GetTasks(engine: Engine, s: Store, w: string, p: string, q: Query): (Store, Page) {
    var key := ListKey(w, p, q);
    if key in s.cache && s.cache[key].PageEntry? then (s, s.cache[key].list)
    else
      var page := ListTasks(engine, s.plain.db, w, p, q);
      (s.(cache := s.cache[key := PageEntry(page)]), page)
  }

  function CreateTask(s: Store, w: string, p: string, user: UserId, dto: CreateDto, id: TaskId, now: int, io: Io)
    : (Store, Result<Task, TaskError>)
  {
    var (plain, r) := Create(s.plain, w, p, user, dto, id, now, io);
    if r == Err(DatabaseFailure) then (s, r)
    else (Store(plain, CacheStore.Without(s.cache, ListPattern(w, p))), r)
  }

  function UpdateTask(s: Store, id: TaskId, w: string, user: UserId, dto: UpdateDto, now: int, io: Io)
    : (Store, Result<Task, TaskError>)
  {
    var (s1, found) := FindById(s, id, w);
    if found.Err? then (s1, found)
    else
      var (plain, r) := UpdateWith(s1.plain, id, found.value, user, dto, now, io);
      if r == Err(Conflict) || r == Err(DatabaseFailure) then (s1, r)
      else (Store(plain, CacheStore.Without(s1.cache - {TaskKey(id)}, ListPattern(w, found.value.projectId))), r)
  }

  function DeleteTask(s: Store, id: TaskId, w: string, user: UserId, now: int, io: Io)
    : (Store, Result<(), TaskError>)
  {
    var (s1, found) := FindById(s, id, w);
    if found.Err? then (s1, Err(found.error))
    else
      var (plain, r) := DeleteWith(s1.plain, id, found.value, user, now, io);
      if r.Err? then (s1, r)
      else (Store(plain, CacheStore.Without(s1.cache - {TaskKey(id)}, ListPattern(w, found.value.projectId))), r)
  }

  function CachedStep(engine: Engine, s: Store, e: Event): (Store, Response) {
    match e
    case CreateEvent(w, p, user, dto, id, now, io) =>
      var (s', r) := CreateTask(s, w, p, user, dto, id, now, io); (s', TaskIs(r))
    case ListEvent(w, p, q) =>
      var (s', list) := GetTasks(engine, s, w, p, q); (s', ListIs(list))
    case GetEvent(id, w) =>
      var (s', r) := FindById(s, id, w); (s', TaskIs(r))
    case UpdateEvent(id, w, user, dto, now, io) =>
      var (s', r) := UpdateTask(s, id, w, user, dto, now, io); (s', TaskIs(r))
    case DeleteEvent(id, w, user, now, io) =>
      var (s', r) := DeleteTask(s, id, w, user, now, io); (s', Removed(r))
    case ExpiryEvent(keys) => (s.(cache := s.cache - keys), Silent)
  }

  // ------------------------------------------------------------ coherence

  /** Ids are clean, and list queries can be read back from their keys. */
  predicate Admissible(e: Event) {
    match e
    case CreateEvent(w, p, _, _, _, _, _) => CleanId(w) && CleanId(p)
    case ListEvent(w, p, q) => CleanId(w) && CleanId(p) && Sane(q)
    case _ => true
  }

  ghost predicate CleanRows(db: Table) {
    forall id :: id in db ==> db[id].id == id && CleanId(db[id].workspaceId) && CleanId(db[id].projectId)
  }

  ghost predicate TasksCoherent(db: Table, cache: map<string, Cached>) {
    forall id: TaskId :: TaskKey(id) in cache ==> Live(db, id) && cache[TaskKey(id)] == TaskEntry(db[id])
  }

  ghost predicate ListsCoherent(engine: Engine, db: Table, cache: map<string, Cached>) {
    forall w, p, q :: CleanId(w) && CleanId(p) && Sane(q) && ListKey(w, p, q) in cache ==>
      cache[ListKey(w, p, q)] == PageEntry(ListTasks(engine, db, w, p, q))
  }

  ghost predicate Coherent(engine: Engine, s: Store) {
    CleanRows(s.plain.db) && TasksCoherent(s.plain.db, s.cache) && ListsCoherent(engine, s.plain.db, s.cache)
  }

  /** A change to one task of project (w, p) leaves the lists of every other project as they were. */
  lemma OtherListsUnchanged(engine: Engine, db: Table, t: Task, w: string, p: string, q: Query)
    requires t.id in db ==> db[t.id].workspaceId == t.workspaceId && db[t.id].projectId == t.projectId
    requires w != t.workspaceId || p != t.projectId
    ensures ListTasks(engine, db[t.id := t], w, p, q) == ListTasks(engine, db, w, p, q)
  {
    var m, db' := MeaningOf(q), db[t.id := t];
    forall x
      ensures x in Rows(engine, db', w, p, m) <==> x in Rows(engine, db, w, p, m)
    {
      if x in Rows(engine, db', w, p, m) {
        var id :| id in db' && Selected(engine, db'[id], w, p, m) && x == db'[id];
        assert id != t.id && db[id] == x;
      }
      if x in Rows(engine, db, w, p, m) {
        var id :| id in db && Selected(engine, db[id], w, p, m) && x == db[id];
        assert id != t.id && db'[id] == x;
      }
    }
    assert Rows(engine, db', w, p, m) == Rows(engine, db, w, p, m);
  }

  /** Writing one row and dropping its keys: what is left in the cache is still right. */
  lemma WriteKeepsCoherence(
    engine: Engine, db: Table, cache: map<string, Cached>, t: Task, cache': map<string, Cached>)
    requires Coherent(engine, Store(Plain(db, []), cache))
    requires CleanId(t.workspaceId) && CleanId(t.projectId)
    requires t.id in db ==> db[t.id].workspaceId == t.workspaceId && db[t.id].projectId == t.projectId
    requires cache' == CacheStore.Without(cache - {TaskKey(t.id)}, ListPattern(t.workspaceId, t.projectId))
    ensures Coherent(engine, Store(Plain(db[t.id := t], []), cache'))
  {
    var db' := db[t.id := t];
    forall id: TaskId | TaskKey(id) in cache'
      ensures Live(db', id) && cache'[TaskKey(id)] == TaskEntry(db'[id])
    {
      assert id != t.id;
    }
    forall w, p, q | CleanId(w) && CleanId(p) && Sane(q) && ListKey(w, p, q) in cache'
      ensures cache'[ListKey(w, p, q)] == PageEntry(ListTasks(engine, db', w, p, q))
    {
      PatternHitsExactlyOwnLists(t.workspaceId, t.projectId, w, p, q);
      OtherListsUnchanged(engine, db, t, w, p, q);
    }
  }

  lemma FindByIdIsLookup(engine: Engine, s: Store, id: TaskId, w: string)
    requires Coherent(engine, s)
    ensures var (s', r) := FindById(s, id, w);
      && r == Lookup(s.plain.db, id, w)
      && s'.plain == s.plain && Coherent(engine, s')
  {
    var (s', r) := FindById(s, id, w);
    if s'.cache != s.cache {
      forall id': TaskId | TaskKey(id') in s'.cache
        ensures Live(s.plain.db, id') && s'.cache[TaskKey(id')] == TaskEntry(s.plain.db[id'])
      {
        TaskKeysAreDistinct(id, id', w, "", DEFAULT_QUERY);
      }
      forall w', p, q | CleanId(w') && CleanId(p) && Sane(q) && ListKey(w', p, q) in s'.cache
        ensures s'.cache[ListKey(w', p, q)] == PageEntry(ListTasks(engine, s.plain.db, w', p, q))
      {
        TaskKeysAreDistinct(id, id, w', p, q);
      }
    }
  }

  lemma GetTasksIsList(engine: Engine, s: Store, w: string, p: string, q: Query)
    requires Coherent(engine, s) && CleanId(w) && CleanId(p) && Sane(q)
    ensures var (s', list) := GetTasks(engine, s, w, p, q);
      && list == ListTasks(engine, s.plain.db, w, p, q)
      && s'.plain == s.plain && Coherent(engine, s')
  {
    var (s', list) := GetTasks(engine, s, w, p, q);
    forall id: TaskId | TaskKey(id) in s'.cache
      ensures Live(s.plain.db, id) && s'.cache[TaskKey(id)] == TaskEntry(s.plain.db[id])
    {
      TaskKeysAreDistinct(id, id, w, p, q);
    }
    forall w', p', q' | CleanId(w') && CleanId(p') && Sane(q') && ListKey(w', p', q') in s'.cache
      ensures s'.cache[ListKey(w', p', q')] == PageEntry(ListTasks(engine, s.plain.db, w', p', q'))
    {
      if ListKey(w', p', q') == ListKey(w, p, q) {
        SaneKeysAreExact(w, p, q, w', p', q');
      }
    }
  }

  lemma CreateIsTransparent(engine: Engine, s: Store, e: Event)
    requires Coherent(engine, s) && e.CreateEvent? && Admissible(e) && Legal(s.plain, e)
    ensures var (s', r) := CachedStep(engine, s, e);
      (s'.plain, r) == Step(engine, s.plain, e) && Coherent(engine, s')
  {
    var (s', r) := CachedStep(engine, s, e);
    if s'.plain.db != s.plain.db {
      var t := NewTask(e.w, e.p, e.user, e.create, e.newId, e.now);
      assert TaskKey(t.id) !in s.cache;
      assert s.cache - {TaskKey(t.id)} == s.cache;
      WriteKeepsCoherence(engine, s.plain.db, s.cache, t, s'.cache);
    }
  }

  lemma UpdateIsTransparent(
    engine: Engine, s: Store, id: TaskId, w: string, user: UserId, dto: UpdateDto, now: int, io: Io)
    requires Coherent(engine, s)
    ensures var (s', r) := UpdateTask(s, id, w, user, dto, now, io);
      (s'.plain, r) == Update(s.plain, id, w, user, dto, now, io) && Coherent(engine, s')
  {
    FindByIdIsLookup(engine, s, id, w);
    var (s1, found) := FindById(s, id, w);
    if found.Ok? && VersionAccepted(found.value, dto) && io.saveOk {
      var s' := UpdateTask(s, id, w, user, dto, now, io).0;
      var t := Saved(s.plain.db, Patch(found.value, dto, now), now);
      WriteKeepsCoherence(engine, s1.plain.db, s1.cache, t, s'.cache);
    }
  }

  lemma DeleteIsTransparent(engine: Engine, s: Store, id: TaskId, w: string, user: UserId, now: int, io: Io)
    requires Coherent(engine, s)
    ensures var (s', r) := DeleteTask(s, id, w, user, now, io);
      (s'.plain, r) == Delete(s.plain, id, w, user, now, io) && Coherent(engine, s')
  {
    FindByIdIsLookup(engine, s, id, w);
    var (s1, found) := FindById(s, id, w);
    if found.Ok? && io.saveOk {
      var s' := DeleteTask(s, id, w, user, now, io).0;
      WriteKeepsCoherence(engine, s1.plain.db, s1.cache, s'.plain.db[id], s'.cache);
    }
  }

  lemma StepIsTransparent(engine: Engine, s: Store, e: Event)
    requires Coherent(engine, s) && Admissible(e) && Legal(s.plain, e)
    ensures var (s', r) := CachedStep(engine, s, e);
      (s'.plain, r) == Step(engine, s.plain, e) && Coherent(engine, s')
  {
    match e
    case CreateEvent(_, _, _, _, _, _, _) => CreateIsTransparent(engine, s, e);
    case ListEvent(w, p, q) => GetTasksIsList(engine, s, w, p, q);
    case GetEvent(id, w) => FindByIdIsLookup(engine, s, id, w);
    case ExpiryEvent(keys) =>
    case UpdateEvent(id, w, user, dto, now, io) => UpdateIsTransparent(engine, s, id, w, user, dto, now, io);
    case DeleteEvent(id, w, user, now, io) => DeleteIsTransparent(engine, s, id, w, user, now, io);
  }

  // ------------------------------------------------------------ the cache is used

  /** Once a task or page was read, reading it again does not ask the database: whatever it holds, the answer stays. */
  lemma SecondReadIsCached(engine: Engine, s: Store, db: Plain, id: TaskId, w: string, p: string, q: Query)
    ensures var (s1, r) := FindById(s, id, w);
      r.Ok? ==> FindById(s1.(plain := db), id, w) == (s1.(plain := db), r)
    ensures var (s1, list) := GetTasks(engine, s, w, p, q);
      GetTasks(engine, s1.(plain := db), w, p, q) == (s1.(plain := db), list)
  {
  }

  /** A write drops no other task's entry, and the pages of no other project. */
  lemma WritesSpareOthers(engine: Engine, s: Store, e: Event, id: TaskId, w: string, p: string, q: Query)
    requires Coherent(engine, s) && Admissible(e) && CleanId(w) && CleanId(p)
    requires e.CreateEvent? || e.UpdateEvent? || e.DeleteEvent?
    ensures var s' := CachedStep(engine, s, e).0;
      TaskKey(id) in s.cache && (e.CreateEvent? || id != e.id) ==>
        TaskKey(id) in s'.cache && s'.cache[TaskKey(id)] == s.cache[TaskKey(id)]
    ensures var s' := CachedStep(engine, s, e).0;
      ListKey(w, p, q) in s.cache && !WritesTo(s.plain.db, e, w, p) ==>
        ListKey(w, p, q) in s'.cache && s'.cache[ListKey(w, p, q)] == s.cache[ListKey(w, p, q)]
  {
    if e.CreateEvent? {
      TaskKeysAreDistinct(id, id, e.w, e.p, q);
      PatternHitsExactlyOwnLists(e.w, e.p, w, p, q);
    } else {
      FindByIdIsLookup(engine, s, e.id, e.w);
      TaskKeysAreDistinct(id, e.id, w, p, q);
      TaskKeysAreDistinct(e.id, id, w, p, q);
      if Lookup(s.plain.db, e.id, e.w).Ok? {
        var row := s.plain.db[e.id];
        TaskKeysAreDistinct(id, e.id, e.w, row.projectId, q);
        PatternHitsExactlyOwnLists(e.w, row.projectId, w, p, q);
      }
    }
  }

  /** The event writes a row of this project. */
  predicate WritesTo(db: Table, e: Event, w: string, p: string)
    requires e.CreateEvent? || e.UpdateEvent? || e.DeleteEvent?
  {
    e.w == w && (if e.CreateEvent? then e.p == p else e.id in db && db[e.id].projectId == p)
  }

  // ------------------------------------------------------------ the cache is invisible

  function CachedRun(engine: Engine, s: Store, es: seq<Event>): (Store, seq<Response>)
    decreases es
  {
    if es == [] then (s, [])
    else
      var (s1, r) := CachedStep(engine, s, es[0]);
      var (s2, rs) := CachedRun(engine, s1, es[1..]);
      (s2, [r] + rs)
  }

  function PlainRun(engine: Engine, s: Plain, es: seq<Event>): (Plain, seq<Response>)
    decreases es
  {
    if es == [] then (s, [])
    else
      var (s1, r) := Step(engine, s, es[0]);
      var (s2, rs) := PlainRun(engine, s1, es[1..]);
      (s2, [r] + rs)
  }

  /**
   * Every run of create, list, get, update, delete and expiry gives the same responses, rows and
   * activities with the cache as without it, and leaves every cached entry equal to what the database holds.
   */
  lemma {:induction false} CacheIsTransparent(engine: Engine, s: Store, es: seq<Event>)
    requires Coherent(engine, s) && LegalRun(engine, s.plain, es) && forall e <- es :: Admissible(e)
    ensures var (s', rs) := CachedRun(engine, s, es);
      (s'.plain, rs) == PlainRun(engine, s.plain, es) && Coherent(engine, s')
    decreases es
  {
    if es != [] {
      assert es[0] in es;
      StepIsTransparent(engine, s, es[0]);
      assert forall e <- es[1..] :: e in es;
      CacheIsTransparent(engine, CachedStep(engine, s, es[0]).0, es[1..]);
    }
  }

  lemma {:induction false} PlainRunIsExec(engine: Engine, s: Plain, es: seq<Event>)
    ensures PlainRun(engine, s, es).0 == Exec(engine, s, es)
    decreases es
  {
    if es != [] {
      PlainRunIsExec(engine, Step(engine, s, es[0]).0, es[1..]);
    }
  }

  const EMPTY_STORE := Store(Plain(map[], []), map[])

  /** From an empty store: each cached task is its live row, each cached list page a fresh evaluation of its query. */
  lemma ReachableIsCoherent(engine: Engine, es: seq<Event>)
    requires LegalRun(engine, EMPTY_STORE.plain, es) && forall e <- es :: Admissible(e)
    ensures var s' := CachedRun(engine, EMPTY_STORE, es).0;
      TasksCoherent(s'.plain.db, s'.cache) && ListsCoherent(engine, s'.plain.db, s'.cache)
  {
    CacheIsTransparent(engine, EMPTY_STORE, es);
  }

  // ------------------------------------------------------------ locking through the cache

  /** Whether the update changes the stored row of `id`. */
  predicate Changes(engine: Engine, s: Store, e: Event, id: TaskId) {
    var db' := CachedStep(engine, s, e).0.plain.db;
    id in db' && (id in s.plain.db ==> db'[id] != s.plain.db[id])
  }

  function EffectiveCachedUpdates(engine: Engine, s: Store, es: seq<Event>, id: TaskId, v: int): nat
    decreases es
  {
    if es == [] then 0
    else
      (if Touches(es[0], id, v) && Changes(engine, s, es[0], id) then 1 else 0)
      + EffectiveCachedUpdates(engine, CachedStep(engine, s, es[0]).0, es[1..], id, v)
  }

  lemma {:induction false} EffectiveUpdatesAgree(engine: Engine, s: Store, es: seq<Event>, id: TaskId, v: int)
    requires Coherent(engine, s) && LegalRun(engine, s.plain, es) && forall e <- es :: Admissible(e)
    ensures EffectiveCachedUpdates(engine, s, es, id, v) <= EffectiveUpdates(engine, s.plain, es, id, v)
    decreases es
  {
    if es != [] {
      assert es[0] in es;
      StepIsTransparent(engine, s, es[0]);
      assert forall e <- es[1..] :: e in es;
      EffectiveUpdatesAgree(engine, CachedStep(engine, s, es[0]).0, es[1..], id, v);
    }
  }

  /** The version check reads a possibly cached copy, and still at most one update per version takes effect. */
  lemma NoLostUpdateThroughCache(engine: Engine, es: seq<Event>, id: TaskId, v: int)
    requires LegalRun(engine, EMPTY_STORE.plain, es) && forall e <- es :: Admissible(e)
    ensures EffectiveCachedUpdates(engine, EMPTY_STORE, es, id, v) <= 1
  {
    EffectiveUpdatesAgree(engine, EMPTY_STORE, es, id, v);
    NoLostUpdate(engine, EMPTY_STORE.plain, es, id, v);
  }

  /** An update through the cache that changes a row saw exactly its version and was computed from its content. */
  lemma CachedConditionalUpdate(engine: Engine, es: seq<Event>, e: Event, id: TaskId, v: int)
    requires LegalRun(engine, EMPTY_STORE.plain, es) && forall e <- es :: Admissible(e)
    requires Touches(e, id, v)
    requires var s := CachedRun(engine, EMPTY_STORE, es).0;
      CachedStep(engine, s, e).0.plain.db != s.plain.db
    ensures var db := CachedRun(engine, EMPTY_STORE, es).0.plain.db;
      && Live(db, id) && db[id].version == v
      && CachedStep(engine, CachedRun(engine, EMPTY_STORE, es).0, e).0.plain.db
         == db[id := Patch(db[id], e.update, e.now).(version := v + 1, updatedAt := e.now)]
  {
    var s := CachedRun(engine, EMPTY_STORE, es).0;
    CacheIsTransparent(engine, EMPTY_STORE, es);
    PlainRunIsExec(engine, EMPTY_STORE.plain, es);
    RunKeepsValid(engine, EMPTY_STORE.plain, es);
    UpdateIsTransparent(engine, s, id, e.w, e.user, e.update, e.now, e.io);
    ConditionalUpdate(engine, s.plain, e, id, v);
  }

  /** In any store, coherent or not: every accepted version is the row's version iff the copy served has it. */
  lemma VersionCheckSoundIff(s: Store, id: TaskId, w: string)
    requires id in s.plain.db && FindById(s, id, w).1.Ok? && FindById(s, id, w).1.value.id == id
    ensures (forall user, dto: UpdateDto, now, io ::
               dto.version.Some? && Accepts(UpdateTask(s, id, w, user, dto, now, io).1) ==>
                 dto.version.value == s.plain.db[id].version)
      <==> FindById(s, id, w).1.value.version == s.plain.db[id].version
  {
    var dto := NO_CHANGE.(version := Some(FindById(s, id, w).1.value.version));
    assert Accepts(UpdateTask(s, id, w, "", dto, 0, ALL_OK).1);
  }

  /**
   * In any store: every accepted update leaves the row as the request applied to the stored row, so that
   * nothing another update wrote is undone, iff the copy served has the row's content.
   */
  lemma UpdateBuildsOnRowIff(s: Store, id: TaskId, w: string)
    requires id in s.plain.db && FindById(s, id, w).1.Ok? && FindById(s, id, w).1.value.id == id
    ensures (forall user, dto: UpdateDto, now, io :: Accepts(UpdateTask(s, id, w, user, dto, now, io).1) ==>
               SameContent(UpdateTask(s, id, w, user, dto, now, io).0.plain.db[id],
                           Patch(s.plain.db[id], dto, now)))
      <==> SameContent(FindById(s, id, w).1.value, s.plain.db[id])
  {
    var copy := FindById(s, id, w).1.value;
    SaveBuildsOnRowIff(s.plain, id, copy);
    forall user, dto: UpdateDto, now, io
      ensures UpdateTask(s, id, w, user, dto, now, io).1 == UpdateWith(s.plain, id, copy, user, dto, now, io).1
      ensures UpdateTask(s, id, w, user, dto, now, io).0.plain == UpdateWith(s.plain, id, copy, user, dto, now, io).0
    {
    }
    assert Accepts(UpdateTask(s, id, w, "", NO_CHANGE, 0, ALL_OK).1);
    assert Patch(copy, NO_CHANGE, 0) == copy;
  }

  /** A cached copy outlives its row: updating it stores the task anew as version 1, with the columns of the copy. */
  lemma UpdateRestoresGoneRow(
    s: Store, id: TaskId, w: string, user: UserId, dto: UpdateDto, now: int, io: Io)
    requires id !in s.plain.db && FindById(s, id, w).1.Ok? && FindById(s, id, w).1.value.id == id
    requires Accepts(UpdateTask(s, id, w, user, dto, now, io).1)
    ensures var (s', r) := UpdateTask(s, id, w, user, dto, now, io);
      && id in s'.plain.db && s'.plain.db[id].version == 1 && s'.plain.db - {id} == s.plain.db
      && SameContent(s'.plain.db[id], Patch(FindById(s, id, w).1.value, dto, now))
      && (r.Ok? ==> r.value == s'.plain.db[id])
  {
    var s' := UpdateTask(s, id, w, user, dto, now, io).0;
    assert s'.plain.db - {id} == s.plain.db;
  }

  /**
   * A lost update: the first update saves a title but its invalidation fails (the entry stays), so a second
   * update carrying the same version is accepted and writes the old title back.
   */
  lemma FailedInvalidationLosesUpdate(w: string, p: string)
    ensures var io, id := Io(true, true, true), "t";
      var row := NewTask(w, p, "u", CreateDto("old", None, None, None, None, None, [], []), id, 0);
      var keep := NO_CHANGE.(version := Some(1));
      var s := Store(Plain(map[id := row], []), map[TaskKey(id) := TaskEntry(row)]);
      var first := UpdateTask(s, id, w, "u", keep.(title := Some("new")), 1, io);
      var stale := Store(first.0.plain, s.cache);
      var second := UpdateTask(stale, id, w, "v", keep.(priority := Some("HIGH")), 2, io);
      && first.1.Ok? && first.0.plain.db[id].title == "new" && first.0.plain.db[id].version == 2
      && second.1.Ok? && second.0.plain.db[id].title == "old" && second.0.plain.db[id].version == 3
  {
    var io, id := Io(true, true, true), "t";
    var row := NewTask(w, p, "u", CreateDto("old", None, None, None, None, None, [], []), id, 0);
    assert row.title == "old" && "old" != "new";
  }

  // ------------------------------------------------------------ inadmissible queries

  /** Listing with the filter word "all" first makes the plain list come back empty although the project has a task. */
  lemma SentinelPoisonsList(engine: Engine, w: string, p: string)
    requires Sorts(engine)
    ensures var row := NewTask(w, p, "u", CreateDto("a", None, None, None, None, None, [], []), "t", 0);
      var s0 := Store(Plain(map["t" := row], []), map[]);
      var s1 := GetTasks(engine, s0, w, p, DEFAULT_QUERY.(status := Some("all"))).0;
      && GetTasks(engine, s1, w, p, DEFAULT_QUERY).1.total == 0
      && ListTasks(engine, s0.plain.db, w, p, DEFAULT_QUERY).total == 1
  {
    var row := NewTask(w, p, "u", CreateDto("a", None, None, None, None, None, [], []), "t", 0);
    var db: Table := map["t" := row];
    SentinelCollision(w, p);
    var q := DEFAULT_QUERY.(status := Some("all"));
    var m, m' := MeaningOf(q), MeaningOf(DEFAULT_QUERY);
    assert StatusText(row.status) == "TODO" && "TODO"[0] != "all"[0];
    assert Rows(engine, db, w, p, m) == {};
    assert db["t"] == row && Selected(engine, row, w, p, m');
    assert Rows(engine, db, w, p, m') == {row};
    NoDupPermutation(engine.order({}, m.sortField, m.sortOrder), []);
    NoDupPermutation(engine.order({row}, m'.sortField, m'.sortOrder), [row]);
    assert |multiset(engine.order({row}, m'.sortField, m'.sortOrder))| == 1;
  }

  /** Walking through all pages of an unchanged list shows each selected task exactly once. */
  lemma PagesShowEachTaskOnce(engine: Engine, db: Table, w: string, p: string, q: Query)
    requires Sorts(engine)
    ensures var m := MeaningOf(q);
      var sorted := engine.order(Rows(engine, db, w, p, m), m.sortField, m.sortOrder);
      var total := ListTasks(engine, db, w, p, q).totalPages;
      && NoDup(FirstPages(sorted, m.limit, total))
      && (forall t :: t in FirstPages(sorted, m.limit, total) <==> t in Rows(engine, db, w, p, m))
      && (forall k: nat :: 1 <= k ==>
            ListTasks(engine, db, w, p, q.(page := Some(k))).items == PageOf(sorted, k, m.limit))
  {
    var m := MeaningOf(q);
    var sorted := engine.order(Rows(engine, db, w, p, m), m.sortField, m.sortOrder);
    PagesPartitionRows(sorted, m.limit);
    forall k: nat | 1 <= k
      ensures ListTasks(engine, db, w, p, q.(page := Some(k))).items == PageOf(sorted, k, m.limit)
    {
      var mk := MeaningOf(q.(page := Some(k)));
      assert mk == m.(page := k);
      assert Rows(engine, db, w, p, mk) == Rows(engine, db, w, p, m);
    }
  }
}
