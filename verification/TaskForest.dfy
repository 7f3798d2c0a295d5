/**
 * The shape of the task table over every run: parents are given at creation,
 * guarded by a foreign key, and rows disappear only together with everything
 * below them.
 */
module TaskForest {
  import opened Common
  import opened TaskStore
  import H = Hierarchy

  /** `born` numbers the rows in the order of their creation; the program does not store it. */
  datatype Forest = Forest(plain: Plain, born: map<TaskId, nat>, clock: nat)

  datatype Change =
    | Handler(event: Event)
    | Cascade(seeds: set<TaskId>)   // a project or workspace is removed: its rows go, and all rows below them

  const EMPTY_FOREST := Forest(Plain(map[], []), map[], 0)

  function AllRows(f: Forest): H.Graph {
    H.Graph(map id | id in f.plain.db :: f.plain.db[id].parentTaskId, f.born, f.clock)
  }

  ghost predicate Inv(f: Forest) {
    && Valid(f.plain)
    && H.Ranked(AllRows(f))
    && (forall id :: id in f.plain.db && f.plain.db[id].parentTaskId.Some? ==>
          f.plain.db[id].parentTaskId.value in f.plain.db)
  }

  ghost predicate Possible(f: Forest, c: Change) {
    c.Handler? ==> Legal(f.plain, c.event)
  }

  /** A cascade is defined along ranked links; `RunKeepsInv` shows that there are no others. */
  ghost function Apply(engine: Engine, f: Forest, c: Change): Forest
    requires Possible(f, c)
  {
    match c
    case Handler(e) =>
      var plain := Step(engine, f.plain, e).0;
      if e.CreateEvent? && e.newId in plain.db
      then Forest(plain, f.born[e.newId := f.clock], f.clock + 1)
      else f.(plain := plain)
    case Cascade(seeds) =>
      if !H.Ranked(AllRows(f)) then f
      else f.(plain := f.plain.(db := map id | id in f.plain.db && !H.Below(AllRows(f), seeds, id) :: f.plain.db[id]))
  }

  /** A new row whose parent exists is born last. */
  lemma InsertKeepsInv(f: Forest, plain: Plain, id: TaskId)
    requires Inv(f) && Valid(plain) && id !in f.plain.db && id in plain.db
    requires plain.db == f.plain.db[id := plain.db[id]]
    requires plain.db[id].parentTaskId.Some? ==> plain.db[id].parentTaskId.value in f.plain.db
    ensures Inv(Forest(plain, f.born[id := f.clock], f.clock + 1))
  {
    var f' := Forest(plain, f.born[id := f.clock], f.clock + 1);
    var g, g' := AllRows(f), AllRows(f');
    forall x, p | H.IsChild(g', x, p) && p in g'.parent
      ensures g'.rank[p] < g'.rank[x]
    {
      if x in f.plain.db {
        assert H.IsChild(g, x, p) && p in g.parent;
      } else {
        assert p in g.parent;
      }
    }
    assert forall x :: x in g'.parent ==> x in g'.rank && g'.rank[x] < g'.bound;
  }

  lemma CreateInserts(engine: Engine, s: Plain, e: Event)
    requires Valid(s) && Legal(s, e) && e.CreateEvent?
    ensures var plain := Step(engine, s, e).0;
      if e.newId in plain.db then
        && plain.db == s.db[e.newId := plain.db[e.newId]]
        && (plain.db[e.newId].parentTaskId.Some? ==> plain.db[e.newId].parentTaskId.value in s.db)
      else plain == s
  {
  }

  lemma CreateBears(engine: Engine, f: Forest, e: Event)
    requires Legal(f.plain, e) && e.CreateEvent?
    ensures var plain := Step(engine, f.plain, e).0;
      Apply(engine, f, Handler(e)) == if e.newId in plain.db
        then Forest(plain, f.born[e.newId := f.clock], f.clock + 1)
        else f.(plain := plain)
  {
  }

  lemma CreateKeepsInv(engine: Engine, f: Forest, e: Event)
    requires Inv(f) && Legal(f.plain, e) && e.CreateEvent?
    ensures Inv(Apply(engine, f, Handler(e)))
  {
    var plain, f' := Step(engine, f.plain, e).0, Apply(engine, f, Handler(e));
    StepKeepsValid(engine, f.plain, e);
    CreateInserts(engine, f.plain, e);
    CreateBears(engine, f, e);
    BirthKeepsInv(f, plain, e.newId, f');
  }

  lemma BirthKeepsInv(f: Forest, plain: Plain, id: TaskId, f': Forest)
    requires Inv(f) && Valid(plain) && id !in f.plain.db
    requires if id in plain.db then
        && plain.db == f.plain.db[id := plain.db[id]]
        && (plain.db[id].parentTaskId.Some? ==> plain.db[id].parentTaskId.value in f.plain.db)
        && f' == Forest(plain, f.born[id := f.clock], f.clock + 1)
      else
        plain == f.plain && f' == f.(plain := plain)
    ensures Inv(f')
  {
    if id in plain.db {
      InsertKeepsInv(f, plain, id);
    }
  }

  /** The forest depends only on which rows there are and on their parents. */
  lemma SameLinksKeepInv(f: Forest, plain: Plain)
    requires Inv(f) && Valid(plain) && plain.db.Keys == f.plain.db.Keys
    requires forall id :: id in f.plain.db ==> plain.db[id].parentTaskId == f.plain.db[id].parentTaskId
    ensures Inv(f.(plain := plain)) && AllRows(f.(plain := plain)) == AllRows(f)
  {
    assert AllRows(f.(plain := plain)).parent == AllRows(f).parent;
  }

  lemma ChangeKeepsInv(engine: Engine, f: Forest, e: Event)
    requires Inv(f) && Legal(f.plain, e) && !e.CreateEvent?
    ensures Inv(Apply(engine, f, Handler(e)))
  {
    StepKeepsValid(engine, f.plain, e);
    var plain := Step(engine, f.plain, e).0;
    forall id | id in f.plain.db
      ensures plain.db[id].parentTaskId == f.plain.db[id].parentTaskId
    {
      FixedColumns(engine, f.plain, e, id);
    }
    OnlyCreateAdds(engine, f.plain, e);
    SameLinksKeepInv(f, plain);
  }

  lemma OnlyCreateAdds(engine: Engine, s: Plain, e: Event)
    requires Valid(s) && !e.CreateEvent?
    ensures Step(engine, s, e).0.db.Keys == s.db.Keys
  {
  }

  /** What survives a cascade still has its parent: had the parent gone, the row would have gone with it. */
  lemma CascadeKeepsInv(engine: Engine, f: Forest, seeds: set<TaskId>)
    requires Inv(f)
    ensures Inv(Apply(engine, f, Cascade(seeds)))
  {
    var g, f' := AllRows(f), Apply(engine, f, Cascade(seeds));
    forall id | id in f'.plain.db && f'.plain.db[id].parentTaskId.Some?
      ensures f'.plain.db[id].parentTaskId.value in f'.plain.db
    {
      assert H.Up(g, id) == f.plain.db[id].parentTaskId;
    }
  }

  lemma StepKeepsInv(engine: Engine, f: Forest, c: Change)
    requires Inv(f) && Possible(f, c)
    ensures Inv(Apply(engine, f, c))
  {
    match c
    case Handler(e) =>
      if e.CreateEvent? {
        CreateKeepsInv(engine, f, e);
      } else {
        ChangeKeepsInv(engine, f, e);
      }
    case Cascade(seeds) => CascadeKeepsInv(engine, f, seeds);
  }

  ghost predicate PossibleRun(engine: Engine, f: Forest, cs: seq<Change>)
    decreases cs
  {
    cs == [] || (Possible(f, cs[0]) && PossibleRun(engine, Apply(engine, f, cs[0]), cs[1..]))
  }

  ghost function After(engine: Engine, f: Forest, cs: seq<Change>): Forest
    requires PossibleRun(engine, f, cs)
    decreases cs
  {
    if cs == [] then f else After(engine, Apply(engine, f, cs[0]), cs[1..])
  }

  lemma {:induction false} RunKeepsInv(engine: Engine, f: Forest, cs: seq<Change>)
    requires Inv(f) && PossibleRun(engine, f, cs)
    ensures Inv(After(engine, f, cs))
    decreases cs
  {
    if cs != [] {
      StepKeepsInv(engine, f, cs[0]);
      RunKeepsInv(engine, Apply(engine, f, cs[0]), cs[1..]);
    }
  }

  /** The `k`-th parent, following the stored column. */
  function Climb(db: Table, id: TaskId, k: nat): Option<TaskId>
    decreases k
  {
    if k == 0 then Some(id)
    else if id in db && db[id].parentTaskId.Some? then Climb(db, db[id].parentTaskId.value, k - 1)
    else None
  }

  lemma {:induction false} ClimbGoesBack(f: Forest, id: TaskId, k: nat)
    requires Inv(f) && id in f.plain.db && Climb(f.plain.db, id, k).Some?
    ensures var a := Climb(f.plain.db, id, k).value;
      a in f.plain.db && f.born[a] + k <= f.born[id]
    decreases k
  {
    if k > 0 {
      var p := f.plain.db[id].parentTaskId.value;
      assert H.IsChild(AllRows(f), id, p) && p in AllRows(f).parent;
      ClimbGoesBack(f, p, k - 1);
    }
  }

  /** The row or one of its ancestors, at whatever distance, is among `seeds`. */
  ghost predicate Under(db: Table, id: TaskId, seeds: set<TaskId>) {
    exists k: nat :: Climb(db, id, k).Some? && Climb(db, id, k).value in seeds
  }

  lemma UnderStep(db: Table, id: TaskId, seeds: set<TaskId>)
    requires id in db
    ensures Under(db, id, seeds) <==>
      id in seeds || (db[id].parentTaskId.Some? && Under(db, db[id].parentTaskId.value, seeds))
  {
    if Under(db, id, seeds) {
      var k: nat :| Climb(db, id, k).Some? && Climb(db, id, k).value in seeds;
      if k > 0 {
        assert Climb(db, id, k) == Climb(db, db[id].parentTaskId.value, k - 1);
      }
    }
    if id in seeds {
      assert Climb(db, id, 0) == Some(id);
    } else if db[id].parentTaskId.Some? && Under(db, db[id].parentTaskId.value, seeds) {
      var p := db[id].parentTaskId.value;
      var k: nat :| Climb(db, p, k).Some? && Climb(db, p, k).value in seeds;
      assert Climb(db, id, k + 1) == Climb(db, p, k);
    }
  }

  lemma {:induction false} BelowIsUnder(f: Forest, seeds: set<TaskId>, id: TaskId)
    requires Inv(f) && id in f.plain.db
    ensures H.Below(AllRows(f), seeds, id) <==> Under(f.plain.db, id, seeds)
    decreases if id in f.born then f.born[id] else 0
  {
    UnderStep(f.plain.db, id, seeds);
    if f.plain.db[id].parentTaskId.Some? {
      var p := f.plain.db[id].parentTaskId.value;
      assert H.Up(AllRows(f), id) == Some(p) && H.IsChild(AllRows(f), id, p);
      BelowIsUnder(f, seeds, p);
    }
  }

  /** A cascade removes a row exactly when the row or one of its ancestors is removed, and changes no other row. */
  lemma CascadeExact(engine: Engine, f: Forest, seeds: set<TaskId>, id: TaskId)
    requires Inv(f) && id in f.plain.db
    ensures var db, db' := f.plain.db, Apply(engine, f, Cascade(seeds)).plain.db;
      && (id !in db' <==> Under(db, id, seeds))
      && (id in db' ==> db'[id] == db[id])
  {
    BelowIsUnder(f, seeds, id);
  }

  /** Every reachable table, after soft deletes and cascades too: no dangling parent, and no row is its own ancestor. */
  lemma ReachableTablesAreForests(engine: Engine, cs: seq<Change>, id: TaskId, k: nat)
    requires PossibleRun(engine, EMPTY_FOREST, cs)
    ensures var f := After(engine, EMPTY_FOREST, cs);
      && Inv(f)
      && (id in f.plain.db && Climb(f.plain.db, id, k).Some? ==>
            var a := Climb(f.plain.db, id, k).value;
            a in f.plain.db && (k > 0 ==> a != id) && f.born[a] + k <= f.born[id])
  {
    RunKeepsInv(engine, EMPTY_FOREST, cs);
    var f := After(engine, EMPTY_FOREST, cs);
    if id in f.plain.db && Climb(f.plain.db, id, k).Some? {
      ClimbGoesBack(f, id, k);
    }
  }

  /** No step moves a surviving row to another parent. */
  lemma ParentsNeverChange(engine: Engine, f: Forest, c: Change, id: TaskId)
    requires Inv(f) && Possible(f, c) && id in f.plain.db && id in Apply(engine, f, c).plain.db
    ensures Apply(engine, f, c).plain.db[id].parentTaskId == f.plain.db[id].parentTaskId
    ensures Apply(engine, f, c).born[id] == f.born[id]
  {
  }

  ghost predicate OlderParents(db: Table) {
    forall id, p :: id in db && p in db && db[id].parentTaskId == Some(p) ==> db[p].createdAt < db[id].createdAt
  }

  lemma CreateOlderParents(engine: Engine, s: Plain, e: Event)
    requires Valid(s) && Legal(s, e) && e.CreateEvent? && OlderParents(s.db)
    requires forall id :: id in s.db ==> s.db[id].createdAt < e.now && s.db[id].parentTaskId != Some(e.newId)
    ensures OlderParents(Step(engine, s, e).0.db)
  {
  }

  /** Creation times that increase from insert to insert make every parent older than its children. */
  lemma OlderParentsKept(engine: Engine, f: Forest, c: Change)
    requires Inv(f) && Possible(f, c) && OlderParents(f.plain.db)
    requires c.Handler? && c.event.CreateEvent? ==>
      forall id :: id in f.plain.db ==> f.plain.db[id].createdAt < c.event.now
    ensures OlderParents(Apply(engine, f, c).plain.db)
  {
    if c.Handler? && c.event.CreateEvent? {
      CreateOlderParents(engine, f.plain, c.event);
    } else if c.Handler? {
      OnlyCreateAdds(engine, f.plain, c.event);
      forall id | id in f.plain.db {
        FixedColumns(engine, f.plain, c.event, id);
      }
    }
  }
}
