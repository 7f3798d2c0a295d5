/** The subtask service: recursive query and tree builder together. */
module SubtaskServices {
  import opened Common
  import opened TaskStore
  import TaskAnswers
  import opened TaskForest
  import opened Subtasks
  import opened TreeBuilder
  import H = Hierarchy

  /** The selected columns of a row. */
  function RowFor(t: Task): TaskRow {
    TaskRow(t.id, t.parentTaskId, t.title, t.description, StatusText(t.status), t.priority, t.assignedTo, t.dueDate,
            t.createdAt)
  }

  /** A node's row shows the task column by column. */
  predicate Shows(row: TaskRow, t: Task) {
    && row.id == t.id && row.parentTaskId == t.parentTaskId && row.title == t.title
    && row.description == t.description && TaskAnswers.HasStatus(t, row.status) && row.priority == t.priority
    && row.assignedTo == t.assignedTo && row.dueDate == t.dueDate && row.createdAt == t.createdAt
  }

  /** Every object of the tree shows the task whose place it takes. */
  ghost predicate ShowsAll(db: Table, n: TaskNode, t: H.Tree, heap: set<TaskNode>)
    reads heap
    decreases t
  {
    && n in heap && t.id in db && Shows(n.row, db[t.id])
    && |n.subTasks| == |t.children|
    && forall i :: 0 <= i < |t.children| ==> ShowsAll(db, n.subTasks[i], t.children[i], heap)
  }

  lemma {:induction false} RepresentationShows(
    db: Table, ids: seq<TaskId>, n: TaskNode, t: H.Tree, heap: set<TaskNode>)
    requires NoDup(ids) && forall x <- ids :: x in db && db[x].id == x
    requires Represents(FlatRows(db, ids), n, t, heap)
    ensures ShowsAll(db, n, t, heap)
    decreases t
  {
    FlatKeys(db, ids);
    TaskAnswers.StatusTextIsName(db[t.id], n.row.status);
    forall i | 0 <= i < |t.children|
      ensures ShowsAll(db, n.subTasks[i], t.children[i], heap)
    {
      RepresentationShows(db, ids, n.subTasks[i], t.children[i], heap);
    }
  }

  function FlatRows(db: Table, ids: seq<TaskId>): seq<TaskRow>
    requires forall x <- ids :: x in db
  {
    seq(|ids|, i requires 0 <= i < |ids| => RowFor(db[ids[i]]))
  }

  lemma {:induction false} FlatKeys(db: Table, ids: seq<TaskId>)
    requires NoDup(ids) && forall x <- ids :: x in db && db[x].id == x
    ensures Keys(FlatRows(db, ids)) == ids
    ensures forall x <- ids :: RowOf(FlatRows(db, ids), x) == RowFor(db[x])
    decreases ids
  {
    if ids != [] {
      var n := |ids| - 1;
      FlatKeys(db, ids[..n]);
      assert FlatRows(db, ids)[..n] == FlatRows(db, ids[..n]);
      assert ids == ids[..n] + [ids[n]];
      assert ids[n] !in ids[..n];
      assert FlatRows(db, ids)[n].id == ids[n];
    }
  }

  ghost function RowGraph(f: Forest, ids: seq<TaskId>): H.Graph
    requires forall x <- ids :: x in f.plain.db
  {
    GraphOf(FlatRows(f.plain.db, ids), f.born, f.clock)
  }

  lemma RowGraphRanked(f: Forest, ids: seq<TaskId>)
    requires Inv(f) && NoDup(ids) && forall x <- ids :: x in f.plain.db
    ensures H.Ranked(RowGraph(f, ids)) && H.Enumerates(ids, RowGraph(f, ids))
    ensures Keys(FlatRows(f.plain.db, ids)) == ids
    ensures RowGraph(f, ids).parent.Keys == H.Elements(ids)
    ensures forall x <- ids :: RowGraph(f, ids).parent[x] == f.plain.db[x].parentTaskId
  {
    FlatKeys(f.plain.db, ids);
    var g' := RowGraph(f, ids);
    forall x, p | H.IsChild(g', x, p) && p in g'.parent
      ensures g'.rank[p] < g'.rank[x]
    {
      assert H.IsChild(AllRows(f), x, p) && p in AllRows(f).parent;
    }
  }

  /** What the tree of a task is, in terms of the table alone. */
  ghost predicate IsTaskTree(f: Forest, top: TaskId, t: H.Tree)
    requires Inv(f)
  {
    && t.id == top
    && NoDup(H.Preorder(t))
    && (forall x :: x in H.Preorder(t) <==> Descends(f, top, x))
    && (forall p, c :: (p, c) in H.Links(t) <==> Descends(f, top, p) && H.IsChild(LiveRows(f), c, p))
  }

  lemma TreeOfRows(f: Forest, order: seq<TaskId>, id: TaskId)
    requires Inv(f) && H.Enumerates(order, LiveRows(f)) && Live(f.plain.db, id)
    ensures var ids := TreeRows(f, order, id);
      && NoDup(ids) && (forall x <- ids :: x in f.plain.db) && id in ids
      && H.Ranked(RowGraph(f, ids)) && Keys(FlatRows(f.plain.db, ids)) == ids
      && id in RowGraph(f, ids).parent
      && IsTaskTree(f, id, H.TreeOf(RowGraph(f, ids), ids, id, f.born[id]))
      && multiset(H.Preorder(H.TreeOf(RowGraph(f, ids), ids, id, f.born[id]))) == multiset(ids)
  {
    LiveRowsRanked(f);
    TreeRowsExact(f, order, id);
    var g, ids := LiveRows(f), TreeRows(f, order, id);
    assert H.Below(g, {id}, id);
    forall x <- ids
      ensures x in g.parent
    {
      assert H.Below(g, {id}, x);
    }
    RowGraphRanked(f, ids);
    assert forall x :: x in RowGraph(f, ids).parent <==> x in ids;
    H.PartTree(g, RowGraph(f, ids), ids, id, f.born[id]);
  }

  /**
   * The tree endpoint: 404 exactly for a task that is not visible in the workspace; otherwise freshly linked
   * objects forming the finite tree of all live rows below the task, each once, each under its parent.
   */
  method GetTaskTree(f: Forest, order: seq<TaskId>, id: TaskId, w: string)
    returns (r: Result<TaskNode, TaskError>, ghost tree: H.Tree, ghost heap: set<TaskNode>)
    requires Inv(f) && H.Enumerates(order, LiveRows(f))
    ensures r == Err(NotFound) <==> !TaskAnswers.IsVisible(f.plain.db, id, w)
    ensures r.Ok? ==>
      && IsTaskTree(f, id, tree)
      && (forall n <- heap :: fresh(n))
      && (forall x <- TreeRows(f, order, id) :: x in f.plain.db)
      && Represents(FlatRows(f.plain.db, TreeRows(f, order, id)), r.value, tree, heap)
      && ShowsAll(f.plain.db, r.value, tree, heap)
  {
    tree, heap := H.Node(id, []), {};
    if !(Live(f.plain.db, id) && f.plain.db[id].workspaceId == w) {
      return Err(NotFound), tree, heap;
    }
    TreeOfRows(f, order, id);
    var ids := TreeRows(f, order, id);
    var flat := FlatRows(f.plain.db, ids);
    var root: TaskNode?;
    ghost var nodes;
    root, nodes, heap := BuildTree(flat, id);
    tree := H.TreeOf(RowGraph(f, ids), ids, id, f.born[id]);
    LinkedIsTree(flat, nodes, heap, RowGraph(f, ids), id, f.born[id]);
    RepresentationShows(f.plain.db, ids, root, tree, heap);
    r := Ok(root);
  }
}
