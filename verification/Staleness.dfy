/**
 * Bounded staleness. Database writes (cascades included), database reads,
 * cache fills, expiry and invalidations are separate steps in any interleaving,
 * and any invalidation may be missing. Only the time to live is relied upon.
 */
module Staleness {
  import opened Common
  import opened TaskKeys
  import opened TaskStore
  import opened TaskCache
  import CacheStore

  const TTL: int := 300

  datatype Request = TaskRequest(id: TaskId, w: string) | ListRequest(w: string, p: string, q: Query)

  function KeyOf(r: Request): string {
    match r
    case TaskRequest(id, _) => TaskKey(id)
    case ListRequest(w, p, q) => ListKey(w, p, q)
  }

  predicate Clean(r: Request) {
    r.ListRequest? ==> CleanId(r.w) && CleanId(r.p) && Sane(r.q)
  }

  /** What the database answers; a missing task yields nothing that could be cached. */
  function Answer(engine: Engine, db: Table, r: Request): Option<Cached> {
    match r
    case TaskRequest(id, w) =>
      var found := Lookup(db, id, w);
      if found.Ok? then Some(TaskEntry(found.value)) else None
    case ListRequest(w, p, q) => Some(PageEntry(ListTasks(engine, db, w, p, q)))
  }

  /** A handler between its database read and its cache write. */
  datatype Load = Load(request: Request, value: Cached, readAt: int)

  datatype World = World(
    now: int,
    db: Table,
    past: set<(int, Table)>,     // every content the database had, with the instant
    cache: map<string, CacheStore.Entry<Cached>>,
    loads: set<Load>)

  datatype Action =
    | Wait(seconds: nat)
    | Write(db: Table)
    | Read(request: Request)
    | Fill(load: Load)
    | Abandon(load: Load)
    | Invalidate(keys: set<string>)

  /** `delay` bounds the time between a handler's read and its fill. */
  ghost predicate Possible(engine: Engine, delay: nat, s: World, a: Action) {
    match a
    case Read(request) => Clean(request) && Answer(engine, s.db, request).Some?
    case Fill(load) => load in s.loads && s.now <= load.readAt + delay
    case _ => true
  }

  ghost function Apply(engine: Engine, delay: nat, s: World, a: Action): World
    requires Possible(engine, delay, s, a)
  {
    match a
    case Wait(seconds) => s.(now := s.now + seconds, past := s.past + {(s.now + seconds, s.db)})
    case Write(db) => s.(db := db, past := s.past + {(s.now, db)})
    case Read(request) => s.(loads := s.loads + {Load(request, Answer(engine, s.db, request).value, s.now)})
    case Fill(load) =>
      s.(loads := s.loads - {load}, cache := s.cache[KeyOf(load.request) := CacheStore.Entry(load.value, s.now + TTL)])
    case Abandon(load) => s.(loads := s.loads - {load})
    case Invalidate(keys) => s.(cache := s.cache - keys)
  }

  ghost predicate PossibleRun(engine: Engine, delay: nat, s: World, run: seq<Action>)
    decreases run
  {
    run == [] ||
    (Possible(engine, delay, s, run[0]) && PossibleRun(engine, delay, Apply(engine, delay, s, run[0]), run[1..]))
  }

  ghost function After(engine: Engine, delay: nat, s: World, run: seq<Action>): World
    requires PossibleRun(engine, delay, s, run)
    decreases run
  {
    if run == [] then s else After(engine, delay, Apply(engine, delay, s, run[0]), run[1..])
  }

  ghost predicate Initial(s: World) {
    s.past == {(s.now, s.db)} && s.cache == map[] && s.loads == {}
  }

  /** The database gave this value as the answer to this request at instant `t`. */
  ghost predicate Held(engine: Engine, s: World, r: Request, value: Cached, t: int) {
    exists db :: (t, db) in s.past && Answer(engine, db, r) == Some(value)
  }

  ghost predicate Sourced(engine: Engine, delay: nat, s: World, key: string) {
    key in s.cache && exists r, t ::
      && KeyOf(r) == key && Clean(r) && Held(engine, s, r, s.cache[key].value, t)
      && t <= s.now && s.cache[key].expiresAt <= t + delay + TTL
  }

  ghost predicate Inv(engine: Engine, delay: nat, s: World) {
    && (s.now, s.db) in s.past
    && (forall l :: l in s.loads ==>
          Clean(l.request) && l.readAt <= s.now && Held(engine, s, l.request, l.value, l.readAt))
    && (forall key :: key in s.cache ==> Sourced(engine, delay, s, key))
  }

  lemma StepKeepsInv(engine: Engine, delay: nat, s: World, a: Action)
    requires Inv(engine, delay, s) && Possible(engine, delay, s, a)
    ensures Inv(engine, delay, Apply(engine, delay, s, a))
  {
    var s' := Apply(engine, delay, s, a);
    forall r, value, t | Held(engine, s, r, value, t)
      ensures Held(engine, s', r, value, t)
    {
      var db :| (t, db) in s.past && Answer(engine, db, r) == Some(value);
      assert (t, db) in s'.past;
    }
    if a.Read? {
      assert Held(engine, s', a.request, Answer(engine, s.db, a.request).value, s.now);
    }
    forall key | key in s'.cache
      ensures Sourced(engine, delay, s', key)
    {
      if a.Fill? && key == KeyOf(a.load.request) {
        assert Held(engine, s', a.load.request, a.load.value, a.load.readAt);
      } else {
        assert Sourced(engine, delay, s, key);
        var r, t :| KeyOf(r) == key && Clean(r) && Held(engine, s, r, s.cache[key].value, t)
          && t <= s.now && s.cache[key].expiresAt <= t + delay + TTL;
        assert Held(engine, s', r, s'.cache[key].value, t);
      }
    }
  }

  lemma {:induction false} RunKeepsInv(engine: Engine, delay: nat, s: World, run: seq<Action>)
    requires Inv(engine, delay, s) && PossibleRun(engine, delay, s, run)
    ensures Inv(engine, delay, After(engine, delay, s, run))
    decreases run
  {
    if run != [] {
      StepKeepsInv(engine, delay, s, run[0]);
      RunKeepsInv(engine, delay, Apply(engine, delay, s, run[0]), run[1..]);
    }
  }

  /** What a handler sees when it starts now. */
  function View(s: World): Store {
    Store(Plain(s.db, []), CacheStore.Live(s.cache, s.now))
  }

  /** A value cached under a request's key, and fit to be served for it, answers that request too. */
  lemma SameKeySameAnswer(engine: Engine, db: Table, r: Request, r': Request, value: Cached)
    requires Clean(r) && Clean(r') && KeyOf(r) == KeyOf(r')
    requires Answer(engine, db, r) == Some(value)
    requires r'.TaskRequest? ==> value.TaskEntry? && value.task.workspaceId == r'.w
    ensures Answer(engine, db, r') == Some(value)
  {
    if r.ListRequest? && r'.ListRequest? {
      SaneKeysAreExact(r.w, r.p, r.q, r'.w, r'.p, r'.q);
    } else if r.TaskRequest? && r'.TaskRequest? {
      TaskKeysAreDistinct(r.id, r'.id, "", "", DEFAULT_QUERY);
    } else if r.TaskRequest? {
      TaskKeysAreDistinct(r.id, r.id, r'.w, r'.p, r'.q);
    } else {
      TaskKeysAreDistinct(r'.id, r'.id, r.w, r.p, r.q);
    }
  }

  lemma CacheHitHeld(engine: Engine, delay: nat, s: World, r: Request)
    requires Inv(engine, delay, s) && Clean(r) && KeyOf(r) in View(s).cache
    requires var value := View(s).cache[KeyOf(r)];
      r.TaskRequest? ==> value.TaskEntry? && value.task.workspaceId == r.w
    ensures exists t :: s.now - (TTL + delay) < t <= s.now && Held(engine, s, r, View(s).cache[KeyOf(r)], t)
  {
    var key := KeyOf(r);
    assert Sourced(engine, delay, s, key);
    var r0, t :| KeyOf(r0) == key && Clean(r0) && Held(engine, s, r0, s.cache[key].value, t)
      && t <= s.now && s.cache[key].expiresAt <= t + delay + TTL;
    var db :| (t, db) in s.past && Answer(engine, db, r0) == Some(s.cache[key].value);
    SameKeySameAnswer(engine, db, r0, r, s.cache[key].value);
    assert Held(engine, s, r, View(s).cache[key], t);
  }

  /** Some content the database had less than the time to live plus the delay ago. */
  ghost predicate Recent(delay: nat, s: World, t: int, db: Table) {
    s.now - (TTL + delay) < t <= s.now && (t, db) in s.past
  }

  ghost predicate ServesRecentTask(delay: nat, s: World, id: TaskId, w: string) {
    exists t, db :: Recent(delay, s, t, db) && FindById(View(s), id, w).1 == Lookup(db, id, w)
  }

  ghost predicate ServesRecentList(engine: Engine, delay: nat, s: World, w: string, p: string, q: Query) {
    exists t, db :: Recent(delay, s, t, db) && GetTasks(engine, View(s), w, p, q).1 == ListTasks(engine, db, w, p, q)
  }

  lemma TaskServedIsRecent(engine: Engine, delay: nat, s: World, id: TaskId, w: string)
    requires Inv(engine, delay, s)
    ensures ServesRecentTask(delay, s, id, w)
  {
    var r, view := TaskRequest(id, w), View(s);
    if KeyOf(r) in view.cache && view.cache[KeyOf(r)].TaskEntry? && view.cache[KeyOf(r)].task.workspaceId == w {
      CacheHitHeld(engine, delay, s, r);
      var t :| s.now - (TTL + delay) < t <= s.now && Held(engine, s, r, view.cache[KeyOf(r)], t);
      var db :| (t, db) in s.past && Answer(engine, db, r) == Some(view.cache[KeyOf(r)]);
      assert Recent(delay, s, t, db) && FindById(view, id, w).1 == Lookup(db, id, w);
    } else {
      assert Recent(delay, s, s.now, s.db);
    }
  }

  lemma ListServedIsRecent(engine: Engine, delay: nat, s: World, w: string, p: string, q: Query)
    requires Inv(engine, delay, s) && CleanId(w) && CleanId(p) && Sane(q)
    ensures ServesRecentList(engine, delay, s, w, p, q)
  {
    var r, view := ListRequest(w, p, q), View(s);
    if KeyOf(r) in view.cache {
      CacheHitHeld(engine, delay, s, r);
      var t :| s.now - (TTL + delay) < t <= s.now && Held(engine, s, r, view.cache[KeyOf(r)], t);
      var db :| (t, db) in s.past && Answer(engine, db, r) == Some(view.cache[KeyOf(r)]);
      assert Recent(delay, s, t, db) && GetTasks(engine, view, w, p, q).1 == ListTasks(engine, db, w, p, q);
    } else {
      assert Recent(delay, s, s.now, s.db);
    }
  }

  /**
   * In every run: whatever a handler serves, task or list, is what the database held at some instant less
   * than the time to live plus the read-to-fill delay ago.
   */
  lemma ServedIsRecent(
    engine: Engine, delay: nat, s0: World, run: seq<Action>, id: TaskId, w: string, p: string, q: Query)
    requires Initial(s0) && PossibleRun(engine, delay, s0, run)
    requires CleanId(w) && CleanId(p) && Sane(q)
    ensures var s := After(engine, delay, s0, run);
      ServesRecentTask(delay, s, id, w) && ServesRecentList(engine, delay, s, w, p, q)
  {
    RunKeepsInv(engine, delay, s0, run);
    TaskServedIsRecent(engine, delay, After(engine, delay, s0, run), id, w);
    ListServedIsRecent(engine, delay, After(engine, delay, s0, run), w, p, q);
  }

  /** The bound is attained: a row removed by a cascade right after it was read is still served 299 s + delay later. */
  lemma BoundIsTight(engine: Engine, delay: nat, row: Task)
    requires row.deletedAt.None?
    ensures exists s0, run ::
      && Initial(s0) && PossibleRun(engine, delay, s0, run)
      && var s := After(engine, delay, s0, run);
      && FindById(View(s), row.id, row.workspaceId).1 == Ok(row)
      && forall t, db :: (t, db) in s.past && s.now - (TTL + delay) + 1 < t ==> db == map[]
  {
    var r := TaskRequest(row.id, row.workspaceId);
    var db: Table := map[row.id := row];
    var s0 := World(0, db, {(0, db)}, map[], {});
    var load := Load(r, TaskEntry(row), 0);
    assert Answer(engine, db, r) == Some(TaskEntry(row));
    var s1 := Apply(engine, delay, s0, Read(r));
    var s2 := Apply(engine, delay, s1, Write(map[]));
    var s3 := Apply(engine, delay, s2, Wait(delay));
    var s4 := Apply(engine, delay, s3, Fill(load));
    var s5 := Apply(engine, delay, s4, Wait(TTL - 1));
    var run := [Read(r), Write(map[]), Wait(delay), Fill(load), Wait(TTL - 1)];
    Prepend(engine, delay, s4, run[4], []);
    Prepend(engine, delay, s3, run[3], [run[4]] + []);
    Prepend(engine, delay, s2, run[2], [run[3]] + ([run[4]] + []));
    Prepend(engine, delay, s1, run[1], [run[2]] + ([run[3]] + ([run[4]] + [])));
    Prepend(engine, delay, s0, run[0], [run[1]] + ([run[2]] + ([run[3]] + ([run[4]] + []))));
    assert run == [run[0]] + ([run[1]] + ([run[2]] + ([run[3]] + ([run[4]] + []))));
    assert KeyOf(r) in View(s5).cache && View(s5).cache[KeyOf(r)] == TaskEntry(row);
  }

  lemma Prepend(engine: Engine, delay: nat, s: World, a: Action, rest: seq<Action>)
    requires Possible(engine, delay, s, a) && PossibleRun(engine, delay, Apply(engine, delay, s, a), rest)
    ensures PossibleRun(engine, delay, s, [a] + rest)
    ensures After(engine, delay, s, [a] + rest) == After(engine, delay, Apply(engine, delay, s, a), rest)
  {
    assert ([a] + rest)[1..] == rest;
  }
}
