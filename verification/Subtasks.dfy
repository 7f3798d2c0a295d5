/** The subtask queries over a reachable task table. */
module Subtasks {
  import opened Common
  import opened TaskStore
  import opened TaskForest
  import H = Hierarchy

  /** The rows a query sees: soft-deleted ones are filtered out at every step. */
  function LiveRows(f: Forest): H.Graph {
    H.Graph(map id | id in f.plain.db && f.plain.db[id].deletedAt.None? :: f.plain.db[id].parentTaskId, f.born, f.clock)
  }

  lemma LiveRowsRanked(f: Forest)
    requires Inv(f)
    ensures H.Ranked(LiveRows(f))
  {
    var g := LiveRows(f);
    forall x, p | H.IsChild(g, x, p) && p in g.parent
      ensures g.rank[p] < g.rank[x]
    {
      assert H.IsChild(AllRows(f), x, p) && p in AllRows(f).parent;
    }
  }

  predicate Visible(f: Forest, id: TaskId, w: string) {
    Live(f.plain.db, id) && f.plain.db[id].workspaceId == w
  }

  /** Rows of the query behind the tree, the task itself included. */
  function TreeRows(f: Forest, order: seq<TaskId>, id: TaskId): seq<TaskId>
    requires Inv(f) && H.Enumerates(order, LiveRows(f)) && Live(f.plain.db, id)
  {
    LiveRowsRanked(f);
    H.Recursive(LiveRows(f), order, [id], f.born[id])
  }

  function InWorkspace(f: Forest, ids: seq<TaskId>, w: string): seq<TaskId>
    requires forall x <- ids :: x in f.plain.db
  {
    if ids == [] then []
    else
      assert ids[0] in ids;
      (if f.plain.db[ids[0]].workspaceId == w then [ids[0]] else []) + InWorkspace(f, ids[1..], w)
  }

  lemma {:induction false} InWorkspaceSpec(f: Forest, ids: seq<TaskId>, w: string)
    requires forall x <- ids :: x in f.plain.db
    ensures forall x :: x in InWorkspace(f, ids, w) <==> x in ids && f.plain.db[x].workspaceId == w
    ensures NoDup(ids) ==> NoDup(InWorkspace(f, ids, w))
    decreases ids
  {
    if ids != [] {
      assert ids[0] in ids;
      InWorkspaceSpec(f, ids[1..], w);
      assert ids == [ids[0]] + ids[1..];
      if NoDup(ids) {
        assert forall x <- ids[1..] :: x != ids[0];
        NoDupConcat(if f.plain.db[ids[0]].workspaceId == w then [ids[0]] else [], InWorkspace(f, ids[1..], w));
      }
    }
  }

  /** The direct subtasks the descendant query starts from: only these are filtered by workspace. */
  function DirectSubtasks(f: Forest, order: seq<TaskId>, id: TaskId, w: string): (r: seq<TaskId>)
    requires Inv(f) && H.Enumerates(order, LiveRows(f)) && Live(f.plain.db, id)
    ensures forall x <- r :: x in LiveRows(f).parent && LiveRows(f).rank[x] >= f.born[id] + 1
  {
    DirectSubtasksAreChildren(f, order, id, w);
    InWorkspace(f, H.Children(LiveRows(f), order, id), w)
  }

  lemma DirectSubtasksAreChildren(f: Forest, order: seq<TaskId>, id: TaskId, w: string)
    requires Inv(f) && H.Enumerates(order, LiveRows(f)) && Live(f.plain.db, id)
    ensures var children := H.Children(LiveRows(f), order, id);
      && (forall x <- children :: x in f.plain.db)
      && NoDup(InWorkspace(f, children, w))
      && (forall x :: x in InWorkspace(f, children, w) <==>
            H.IsChild(LiveRows(f), x, id) && f.plain.db[x].workspaceId == w)
      && (forall x <- InWorkspace(f, children, w) ::
            x in LiveRows(f).parent && x in f.born && f.born[x] >= f.born[id] + 1)
  {
    LiveRowsRanked(f);
    H.ChildrenSpec(LiveRows(f), order, id);
    InWorkspaceSpec(f, H.Children(LiveRows(f), order, id), w);
  }

  /** Rows of the descendant query, before its ORDER BY. */
  function DescendantRows(f: Forest, order: seq<TaskId>, id: TaskId, w: string): seq<TaskId>
    requires Inv(f) && H.Enumerates(order, LiveRows(f)) && Live(f.plain.db, id)
  {
    LiveRowsRanked(f);
    H.Recursive(LiveRows(f), order, DirectSubtasks(f, order, id, w), f.born[id] + 1)
  }

  /** A live row all of whose links up to `top` are live. */
  ghost predicate Descends(f: Forest, top: TaskId, x: TaskId)
    requires Inv(f)
  {
    LiveRowsRanked(f);
    H.Below(LiveRows(f), {top}, x)
  }

  /** `top` is reached from `x` by following `k` parent links from live row to live row. */
  predicate LivePath(db: Table, x: TaskId, top: TaskId, k: nat)
    decreases k
  {
    && x in db && db[x].deletedAt == None
    && if k == 0 then x == top
       else db[x].parentTaskId.Some? && LivePath(db, db[x].parentTaskId.value, top, k - 1)
  }

  ghost predicate HasLivePath(db: Table, x: TaskId, top: TaskId) {
    exists k: nat :: LivePath(db, x, top, k)
  }

  lemma LivePathStep(db: Table, x: TaskId, top: TaskId)
    ensures HasLivePath(db, x, top) <==>
      x in db && db[x].deletedAt == None
      && (x == top || (db[x].parentTaskId.Some? && HasLivePath(db, db[x].parentTaskId.value, top)))
  {
    if HasLivePath(db, x, top) {
      var k: nat :| LivePath(db, x, top, k);
      if k > 0 {
        assert LivePath(db, db[x].parentTaskId.value, top, k - 1);
      }
    }
    if x in db && db[x].deletedAt == None {
      if x == top {
        assert LivePath(db, x, top, 0);
      } else if db[x].parentTaskId.Some? && HasLivePath(db, db[x].parentTaskId.value, top) {
        var k: nat :| LivePath(db, db[x].parentTaskId.value, top, k);
        assert LivePath(db, x, top, k + 1);
      }
    }
  }

  lemma {:induction false} DescendsIsLivePath(f: Forest, top: TaskId, x: TaskId)
    requires Inv(f)
    ensures Descends(f, top, x) <==> HasLivePath(f.plain.db, x, top)
    decreases if x in f.born then f.born[x] else 0
  {
    LiveRowsRanked(f);
    LivePathStep(f.plain.db, x, top);
    if x in f.plain.db && f.plain.db[x].parentTaskId.Some? {
      var p := f.plain.db[x].parentTaskId.value;
      LivePathStep(f.plain.db, p, top);
      if H.Up(LiveRows(f), x).Some? {
        assert H.IsChild(LiveRows(f), x, p);
        DescendsIsLivePath(f, top, p);
      }
    }
  }

  /** The recursive query behind the tree: exactly the live rows reachable through live parents, each once. */
  lemma TreeRowsExact(f: Forest, order: seq<TaskId>, id: TaskId)
    requires Inv(f) && H.Enumerates(order, LiveRows(f)) && Live(f.plain.db, id)
    ensures NoDup(TreeRows(f, order, id))
    ensures forall x :: x in TreeRows(f, order, id) <==> Descends(f, id, x)
  {
    LiveRowsRanked(f);
    H.RecursiveIsBelow(LiveRows(f), order, [id], f.born[id], H.Depth(LiveRows(f), id));
    assert H.Elements([id]) == {id};
  }

  lemma DirectSubtasksSpec(f: Forest, order: seq<TaskId>, id: TaskId, w: string)
    requires Inv(f) && H.Enumerates(order, LiveRows(f)) && Live(f.plain.db, id)
    ensures H.Ranked(LiveRows(f)) && NoDup(DirectSubtasks(f, order, id, w))
    ensures forall x :: x in DirectSubtasks(f, order, id, w) <==>
      H.IsChild(LiveRows(f), x, id) && f.plain.db[x].workspaceId == w
    ensures forall x <- DirectSubtasks(f, order, id, w) ::
      H.Depth(LiveRows(f), x) == H.Depth(LiveRows(f), id) + 1
  {
    LiveRowsRanked(f);
    DirectSubtasksAreChildren(f, order, id, w);
    var g := LiveRows(f);
    forall x <- DirectSubtasks(f, order, id, w)
      ensures H.Depth(g, x) == H.Depth(g, id) + 1
    {
      assert H.IsChild(g, x, id) && H.Up(g, x) == Some(id);
    }
  }

  lemma QueryStart(f: Forest, order: seq<TaskId>, id: TaskId, w: string)
    returns (g: H.Graph, start: seq<TaskId>, level: nat, d: nat)
    requires Inv(f) && H.Enumerates(order, LiveRows(f)) && Live(f.plain.db, id)
    ensures g == LiveRows(f) && H.Ranked(g) && level == f.born[id] + 1
    ensures start == DirectSubtasks(f, order, id, w) && NoDup(start)
    ensures forall x <- start :: x in g.parent && g.rank[x] >= level && H.Depth(g, x) == d
  {
    DirectSubtasksSpec(f, order, id, w);
    g, start, level, d := LiveRows(f), DirectSubtasks(f, order, id, w), f.born[id] + 1, H.Depth(LiveRows(f), id) + 1;
  }

  lemma QueryRows(f: Forest, order: seq<TaskId>, id: TaskId, w: string, g: H.Graph, start: seq<TaskId>, level: nat)
    requires Inv(f) && H.Enumerates(order, LiveRows(f)) && Live(f.plain.db, id)
    requires g == LiveRows(f) && H.Ranked(g) && start == DirectSubtasks(f, order, id, w) && level == f.born[id] + 1
    requires forall x <- start :: x in g.parent && g.rank[x] >= level
    ensures DescendantRows(f, order, id, w) == H.Recursive(g, order, start, level)
  {
  }

  lemma DescendantRowsExact(f: Forest, order: seq<TaskId>, id: TaskId, w: string)
    requires Inv(f) && H.Enumerates(order, LiveRows(f)) && Live(f.plain.db, id)
    ensures H.Ranked(LiveRows(f))
    ensures NoDup(DescendantRows(f, order, id, w))
    ensures forall x :: x in DescendantRows(f, order, id, w) <==>
      H.Below(LiveRows(f), H.Elements(DirectSubtasks(f, order, id, w)), x)
  {
    var g, start, level, d := QueryStart(f, order, id, w);
    var rows := DescendantRows(f, order, id, w);
    assert rows == H.Recursive(g, order, start, level) by {
      QueryRows(f, order, id, w, g, start, level);
    }
    H.RecursiveIsBelow(g, order, start, level, d);
    forall x
      ensures x in rows <==> H.Below(g, H.Elements(start), x)
    {
    }
  }

  lemma TreeRowsSplit(f: Forest, order: seq<TaskId>, id: TaskId, x: TaskId)
    requires Inv(f) && H.Enumerates(order, LiveRows(f)) && Live(f.plain.db, id)
    ensures H.Ranked(LiveRows(f))
    ensures x in TreeRows(f, order, id) <==>
      x == id || H.Below(LiveRows(f), H.Elements(H.Children(LiveRows(f), order, id)), x)
  {
    TreeRowsExact(f, order, id);
    LiveRowsRanked(f);
    H.BelowOne(LiveRows(f), order, id, x);
  }

  /** Of the rows as deep as the direct subtasks, the descendant query returns just the ones it starts from. */
  lemma ListedAtDepth(f: Forest, order: seq<TaskId>, id: TaskId, w: string, x: TaskId)
    requires Inv(f) && H.Enumerates(order, LiveRows(f)) && Live(f.plain.db, id)
    requires x in DescendantRows(f, order, id, w)
    ensures x != id && (H.IsChild(LiveRows(f), x, id) ==> f.plain.db[x].workspaceId == w)
  {
    DirectSubtasksSpec(f, order, id, w);
    DescendantRowsExact(f, order, id, w);
    var g := LiveRows(f);
    H.BelowIsDeeper(g, H.Elements(DirectSubtasks(f, order, id, w)), H.Depth(g, id) + 1, x);
    if H.IsChild(g, x, id) {
      assert H.Up(g, x) == Some(id);
    }
  }

  lemma NoForeignSubtask(f: Forest, order: seq<TaskId>, id: TaskId, w: string)
    requires Inv(f) && H.Enumerates(order, LiveRows(f)) && Live(f.plain.db, id)
    requires forall c :: H.IsChild(LiveRows(f), c, id) ==> f.plain.db[c].workspaceId == w
    ensures multiset(TreeRows(f, order, id)) == multiset{id} + multiset(DescendantRows(f, order, id, w))
  {
    var g, tree, listed := LiveRows(f), TreeRows(f, order, id), DescendantRows(f, order, id, w);
    TreeRowsExact(f, order, id);
    DescendantRowsExact(f, order, id, w);
    DirectSubtasksSpec(f, order, id, w);
    H.ChildrenSpec(g, order, id);
    assert H.Elements(DirectSubtasks(f, order, id, w)) == H.Elements(H.Children(g, order, id));
    forall x
      ensures x in tree <==> x in [id] + listed
      ensures x in listed ==> x != id
    {
      TreeRowsSplit(f, order, id, x);
      if x in listed {
        ListedAtDepth(f, order, id, w, x);
      }
    }
    NoDupConcat([id], listed);
    NoDupPermutation(tree, [id] + listed);
    assert multiset([id] + listed) == multiset{id} + multiset(listed);
  }

  /** The tree without its root and the descendant list are the same rows exactly when no direct subtask is foreign. */
  lemma DescendantsAreTreeIffSameWorkspace(f: Forest, order: seq<TaskId>, id: TaskId, w: string)
    requires Inv(f) && H.Enumerates(order, LiveRows(f)) && Live(f.plain.db, id)
    ensures multiset(TreeRows(f, order, id)) == multiset{id} + multiset(DescendantRows(f, order, id, w))
      <==> forall c :: H.IsChild(LiveRows(f), c, id) ==> f.plain.db[c].workspaceId == w
  {
    if forall c :: H.IsChild(LiveRows(f), c, id) ==> f.plain.db[c].workspaceId == w {
      NoForeignSubtask(f, order, id, w);
    } else {
      var c :| H.IsChild(LiveRows(f), c, id) && f.plain.db[c].workspaceId != w;
      var tree, listed := TreeRows(f, order, id), DescendantRows(f, order, id, w);
      LiveRowsRanked(f);
      H.BelowOne(LiveRows(f), order, id, c);
      H.ChildrenSpec(LiveRows(f), order, id);
      TreeRowsSplit(f, order, id, c);
      assert c in tree;
      if c in listed {
        ListedAtDepth(f, order, id, w, c);
      }
      assert c != id by {
        assert LiveRows(f).rank[id] < LiveRows(f).rank[c];
      }
      assert c in multiset(tree) && c !in multiset{id} + multiset(listed);
    }
  }

  /** Ordered by creation time, the descendant list puts every parent before its children if parents are older. */
  lemma ListedParentsFirst(f: Forest, order: seq<TaskId>, id: TaskId, w: string, listed: seq<TaskId>, i: nat, j: nat)
    requires Inv(f) && H.Enumerates(order, LiveRows(f)) && Live(f.plain.db, id) && OlderParents(f.plain.db)
    requires multiset(listed) == multiset(DescendantRows(f, order, id, w))
    requires forall x <- listed :: x in f.plain.db
    requires forall a, b :: 0 <= a < b < |listed| ==>
      f.plain.db[listed[a]].createdAt <= f.plain.db[listed[b]].createdAt
    requires i < |listed| && j < |listed| && f.plain.db[listed[i]].parentTaskId == Some(listed[j])
    ensures j < i
  {
    assert listed[i] in listed && listed[j] in listed;
    assert f.plain.db[listed[j]].createdAt < f.plain.db[listed[i]].createdAt;
  }

  /**
   * The ancestor query joins on the parent column in the same direction as the other two, so with a live
   * parent it returns the parent's whole subtree: the task itself is always in it, its grandparent never.
   */
  lemma AncestorQueryWalksDown(f: Forest, order: seq<TaskId>, id: TaskId)
    requires Inv(f) && H.Enumerates(order, LiveRows(f)) && Live(f.plain.db, id)
    requires f.plain.db[id].parentTaskId.Some? && Live(f.plain.db, f.plain.db[id].parentTaskId.value)
    ensures var p := f.plain.db[id].parentTaskId.value;
      var rows := TreeRows(f, order, p);
      && (forall x :: x in rows <==> Descends(f, p, x))
      && id in rows
      && (f.plain.db[p].parentTaskId.Some? ==> f.plain.db[p].parentTaskId.value !in rows)
  {
    LiveRowsRanked(f);
    var g, p := LiveRows(f), f.plain.db[id].parentTaskId.value;
    TreeRowsExact(f, order, p);
    assert H.Up(g, id) == Some(p);
    assert H.Below(g, {p}, p);
    if f.plain.db[p].parentTaskId.Some? {
      var top := f.plain.db[p].parentTaskId.value;
      assert top in g.parent ==> H.Up(g, p) == Some(top);
      if H.Below(g, {p}, top) {
        H.BelowIsDeeper(g, {p}, H.Depth(g, p), top);
      }
    }
  }

  // ------------------------------------------------------------ how handlers change trees

  /** Creating a task adds it to exactly the trees that contain its parent. */
  lemma CreateGrowsTrees(engine: Engine, f: Forest, e: Event, top: TaskId, x: TaskId)
    requires Inv(f) && e.CreateEvent? && Legal(f.plain, e) && Live(f.plain.db, top)
    requires e.newId in Apply(engine, f, Handler(e)).plain.db
    ensures var f' := Apply(engine, f, Handler(e));
      && Inv(f')
      && (Descends(f', top, x) <==>
            if x == e.newId then e.create.parentTaskId.Some? && Descends(f, top, e.create.parentTaskId.value)
            else Descends(f, top, x))
  {
    StepKeepsInv(engine, f, Handler(e));
    var f' := Apply(engine, f, Handler(e));
    var g, g' := LiveRows(f), LiveRows(f');
    LiveRowsRanked(f);
    LiveRowsRanked(f');
    assert g'.parent == g.parent[e.newId := e.create.parentTaskId];
    H.AddRow(g, g', e.newId, e.create.parentTaskId, top, x);
  }

  lemma HiddenRow(f: Forest, plain: Plain, id: TaskId)
    requires id in f.plain.db && id in plain.db && plain.db[id].deletedAt.Some?
    requires plain.db == f.plain.db[id := plain.db[id]]
    ensures LiveRows(f.(plain := plain)) == LiveRows(f).(parent := LiveRows(f).parent - {id})
  {
    assert LiveRows(f.(plain := plain)).parent == LiveRows(f).parent - {id};
  }

  lemma DeleteHidesRow(engine: Engine, f: Forest, e: Event)
    requires Inv(f) && e.DeleteEvent? && e.io.saveOk && Visible(f, e.id, e.w)
    ensures LiveRows(Apply(engine, f, Handler(e))) == LiveRows(f).(parent := LiveRows(f).parent - {e.id})
  {
    var plain := Delete(f.plain, e.id, e.w, e.user, e.now, e.io).0;
    assert plain.db == SoftRemoved(f.plain.db, e.id, e.now);
    HiddenRow(f, plain, e.id);
  }

  /** Deleting a task takes its whole subtree out of every tree above it, although the subtasks stay live rows. */
  lemma DeleteHidesSubtree(engine: Engine, f: Forest, e: Event, top: TaskId, x: TaskId)
    requires Inv(f) && e.DeleteEvent? && e.io.saveOk && Visible(f, e.id, e.w)
    ensures var f' := Apply(engine, f, Handler(e));
      && Inv(f')
      && (x in LiveRows(f').parent <==> x in LiveRows(f).parent && x != e.id)
      && (Descends(f', top, x) <==> Descends(f, top, x) && !(Descends(f, top, e.id) && Descends(f, e.id, x)))
  {
    DeleteHidesRow(engine, f, e);
    StepKeepsInv(engine, f, Handler(e));
    var f' := Apply(engine, f, Handler(e));
    LiveRowsRanked(f);
    LiveRowsRanked(f');
    H.HideRow(LiveRows(f), LiveRows(f'), e.id, top, x);
  }

  lemma SameLiveRows(f: Forest, plain: Plain)
    requires plain.db.Keys == f.plain.db.Keys
    requires forall id :: id in f.plain.db ==>
      plain.db[id].parentTaskId == f.plain.db[id].parentTaskId && plain.db[id].deletedAt == f.plain.db[id].deletedAt
    ensures LiveRows(f.(plain := plain)) == LiveRows(f)
  {
    assert LiveRows(f.(plain := plain)).parent == LiveRows(f).parent;
  }

  /** Updates never move a task: every tree stays as it is. */
  lemma UpdateKeepsTrees(engine: Engine, f: Forest, e: Event, top: TaskId, x: TaskId)
    requires Inv(f) && e.UpdateEvent?
    ensures var f' := Apply(engine, f, Handler(e));
      Inv(f') && (Descends(f', top, x) <==> Descends(f, top, x))
  {
    StepKeepsInv(engine, f, Handler(e));
    var plain := Step(engine, f.plain, e).0;
    forall id | id in f.plain.db
      ensures plain.db[id].parentTaskId == f.plain.db[id].parentTaskId
      ensures plain.db[id].deletedAt == f.plain.db[id].deletedAt
    {
      FixedColumns(engine, f.plain, e, id);
    }
    OnlyCreateAdds(engine, f.plain, e);
    SameLiveRows(f, plain);
  }
}
