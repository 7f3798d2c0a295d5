/** `buildTree`: node objects linked in place, from the flat rows of the recursive query. */
module TreeBuilder {
  import opened Common
  import H = Hierarchy

  type Id = H.Id

  datatype TaskRow = TaskRow(
    id: Id, parentTaskId: Option<Id>, title: string, description: Option<string>, status: string,
    priority: string, assignedTo: Option<string>, dueDate: Option<int>, createdAt: int)

  class TaskNode {
    const row: TaskRow
    var subTasks: seq<TaskNode>

    constructor (row: TaskRow)
      ensures this.row == row && subTasks == []
    {
      this.row := row;
      subTasks := [];
    }
  }

  /** Keys of the map filled from the rows, in insertion order: a repeated id keeps its first place. */
  function Keys(flat: seq<TaskRow>): seq<Id> {
    if flat == [] then []
    else
      var n := |flat| - 1;
      var before := Keys(flat[..n]);
      if flat[n].id in before then before else before + [flat[n].id]
  }

  /** The row a key ends up with: the last one of that id. */
  function RowOf(flat: seq<TaskRow>, id: Id): TaskRow
    requires id in Keys(flat)
  {
    var n := |flat| - 1;
    if flat[n].id == id then flat[n] else RowOf(flat[..n], id)
  }

  function ParentLinks(flat: seq<TaskRow>): map<Id, Option<Id>> {
    map id | id in Keys(flat) :: RowOf(flat, id).parentTaskId
  }

  function GraphOf(flat: seq<TaskRow>, rank: map<Id, nat>, bound: nat): H.Graph {
    H.Graph(ParentLinks(flat), rank, bound)
  }

  lemma {:induction false} KeysSpec(flat: seq<TaskRow>)
    ensures NoDup(Keys(flat))
    ensures forall id :: id in Keys(flat) <==> exists r <- flat :: r.id == id
    decreases flat
  {
    if flat != [] {
      var n := |flat| - 1;
      KeysSpec(flat[..n]);
      assert flat == flat[..n] + [flat[n]];
      if flat[n].id !in Keys(flat[..n]) {
        NoDupConcat(Keys(flat[..n]), [flat[n].id]);
      }
    }
  }

  /** The first row with this id is number `k`. */
  predicate FirstAt(flat: seq<TaskRow>, id: Id, k: nat) {
    k < |flat| && flat[k].id == id && forall m :: 0 <= m < k ==> flat[m].id != id
  }

  lemma FirstExtends(flat: seq<TaskRow>, id: Id, k: nat)
    requires flat != [] && FirstAt(flat[..|flat| - 1], id, k)
    ensures FirstAt(flat, id, k)
  {
    assert forall m :: 0 <= m <= k ==> flat[..|flat| - 1][m] == flat[m];
  }

  /** The keys stand in the order in which their first rows do. */
  lemma {:induction false} KeysInFirstSeenOrder(flat: seq<TaskRow>, i: nat, j: nat)
    requires i < j < |Keys(flat)|
    ensures exists k: nat, l: nat :: k < l && FirstAt(flat, Keys(flat)[i], k) && FirstAt(flat, Keys(flat)[j], l)
    decreases flat
  {
    var n := |flat| - 1;
    var before := Keys(flat[..n]);
    assert Keys(flat) == before || Keys(flat) == before + [flat[n].id];
    if j < |before| {
      KeysInFirstSeenOrder(flat[..n], i, j);
      var k: nat, l: nat :| k < l && FirstAt(flat[..n], before[i], k) && FirstAt(flat[..n], before[j], l);
      FirstExtends(flat, before[i], k);
      FirstExtends(flat, before[j], l);
      assert Keys(flat)[i] == before[i] && Keys(flat)[j] == before[j];
    } else {
      KeyHasFirst(flat[..n], before[i]);
      var k: nat :| FirstAt(flat[..n], before[i], k);
      KeysSpec(flat[..n]);
      assert forall m :: 0 <= m < n ==> flat[m] in flat[..n];
      FirstExtends(flat, before[i], k);
      assert Keys(flat)[i] == before[i] && FirstAt(flat, Keys(flat)[j], n);
    }
  }

  lemma {:induction false} KeyHasFirst(flat: seq<TaskRow>, id: Id)
    requires id in Keys(flat)
    ensures exists k: nat :: FirstAt(flat, id, k)
    decreases flat
  {
    var n := |flat| - 1;
    if id in Keys(flat[..n]) {
      KeyHasFirst(flat[..n], id);
      var k: nat :| FirstAt(flat[..n], id, k);
      assert FirstAt(flat, id, k);
    } else {
      KeysSpec(flat[..n]);
      assert forall m :: 0 <= m < n ==> flat[m] in flat[..n];
      assert FirstAt(flat, id, n);
    }
  }

  predicate LastAt(flat: seq<TaskRow>, id: Id, k: nat) {
    k < |flat| && flat[k].id == id && forall m :: k < m < |flat| ==> flat[m].id != id
  }

  /** Of several rows with one id the last one counts. */
  lemma {:induction false} RowOfIsLast(flat: seq<TaskRow>, id: Id)
    requires id in Keys(flat)
    ensures exists k: nat :: LastAt(flat, id, k) && flat[k] == RowOf(flat, id)
    decreases flat
  {
    var n := |flat| - 1;
    if flat[n].id == id {
      assert LastAt(flat, id, n);
    } else {
      RowOfIsLast(flat[..n], id);
      var k: nat :| LastAt(flat[..n], id, k) && flat[..n][k] == RowOf(flat[..n], id);
      assert LastAt(flat, id, k) && flat[k] == RowOf(flat, id);
    }
  }

  ghost function NodesOf(nodes: map<Id, TaskNode>, ids: seq<Id>): seq<TaskNode>
    requires forall x <- ids :: x in nodes
  {
    seq(|ids|, i requires 0 <= i < |ids| => nodes[ids[i]])
  }

  /** One object of the heap per key, and no object under two keys. */
  ghost predicate OneNodeEach(flat: seq<TaskRow>, nodes: map<Id, TaskNode>, heap: set<TaskNode>) {
    && (forall id :: id in nodes <==> id in Keys(flat))
    && (forall id :: id in nodes ==> nodes[id] in heap && nodes[id].row == RowOf(flat, id))
    && (forall a, b :: a in nodes && b in nodes && a != b ==> nodes[a] != nodes[b])
  }

  /** The keys among `order` whose row names `p` as parent. */
  function ChildKeys(flat: seq<TaskRow>, order: seq<Id>, p: Id): (r: seq<Id>)
    ensures forall x <- r :: x in Keys(flat)
  {
    H.ChildrenSpec(H.Graph(ParentLinks(flat), map[], 0), order, p);
    H.Children(H.Graph(ParentLinks(flat), map[], 0), order, p)
  }

  lemma {:induction false} ChildKeysAppend(flat: seq<TaskRow>, order: seq<Id>, x: Id, p: Id)
    ensures ChildKeys(flat, order + [x], p)
         == ChildKeys(flat, order, p) + (if H.IsChild(H.Graph(ParentLinks(flat), map[], 0), x, p) then [x] else [])
    decreases order
  {
    if order == [] {
      assert order + [x] == [x];
    } else {
      ChildKeysAppend(flat, order[1..], x, p);
      assert (order + [x])[1..] == order[1..] + [x];
    }
  }

  ghost predicate LinkedAt(flat: seq<TaskRow>, nodes: map<Id, TaskNode>, heap: set<TaskNode>, order: seq<Id>, p: Id)
    requires OneNodeEach(flat, nodes, heap) && p in nodes
    reads nodes[p]
  {
    nodes[p].subTasks == NodesOf(nodes, ChildKeys(flat, order, p))
  }

  /** Each object's children are the objects of the rows that name it, in key order. */
  ghost predicate Linked(flat: seq<TaskRow>, nodes: map<Id, TaskNode>, heap: set<TaskNode>, order: seq<Id>)
    requires OneNodeEach(flat, nodes, heap)
    reads heap
  {
    forall p :: p in nodes ==> LinkedAt(flat, nodes, heap, order, p)
  }

  lemma NodesOfAppend(nodes: map<Id, TaskNode>, ids: seq<Id>, x: Id)
    requires x in nodes && forall y <- ids :: y in nodes
    ensures NodesOf(nodes, ids + [x]) == NodesOf(nodes, ids) + [nodes[x]]
  {
  }

  method FillMap(flat: seq<TaskRow>)
    returns (taskMap: map<Id, TaskNode>, keys: seq<Id>, ghost heap: set<TaskNode>)
    ensures keys == Keys(flat) && OneNodeEach(flat, taskMap, heap)
    ensures fresh(heap) && forall id :: id in taskMap ==> taskMap[id].subTasks == []
  {
    heap := {};
    taskMap := map[];
    keys := [];
    var i := 0;
    while i < |flat|
      invariant 0 <= i <= |flat|
      invariant keys == Keys(flat[..i]) && OneNodeEach(flat[..i], taskMap, heap)
      invariant fresh(heap) && forall id :: id in taskMap ==> taskMap[id].subTasks == []
    {
      var task := flat[i];
      assert flat[..i + 1][..i] == flat[..i];
      var node := new TaskNode(task);
      if task.id !in taskMap {
        keys := keys + [task.id];
      }
      taskMap := taskMap[task.id := node];
      heap := heap + {node};
      i := i + 1;
    }
    assert flat[..i] == flat;
  }

  lemma NextChild(flat: seq<TaskRow>, nodes: map<Id, TaskNode>, heap: set<TaskNode>, keys: seq<Id>, j: nat, p: Id)
    requires OneNodeEach(flat, nodes, heap) && j < |keys| && keys[j] in nodes && p in nodes
    ensures ChildKeys(flat, keys[..j + 1], p)
         == ChildKeys(flat, keys[..j], p) + (if nodes[keys[j]].row.parentTaskId == Some(p) then [keys[j]] else [])
  {
    assert keys[..j + 1] == keys[..j] + [keys[j]];
    ChildKeysAppend(flat, keys[..j], keys[j], p);
  }

  /** The body of the linking loop: task `j` is pushed onto its parent's list, if the parent is there. */
  method Attach(ghost flat: seq<TaskRow>, taskMap: map<Id, TaskNode>, ghost heap: set<TaskNode>, keys: seq<Id>, j: nat)
    requires OneNodeEach(flat, taskMap, heap) && j < |keys| && keys[j] in taskMap
    requires Linked(flat, taskMap, heap, keys[..j])
    modifies heap
    ensures Linked(flat, taskMap, heap, keys[..j + 1])
  {
    var task := taskMap[keys[j]];
    var parent := task.row.parentTaskId;
    if parent.Some? && parent.value in taskMap {
      var parentNode := taskMap[parent.value];
      assert LinkedAt(flat, taskMap, heap, keys[..j], parent.value);
      NextChild(flat, taskMap, heap, keys, j, parent.value);
      NodesOfAppend(taskMap, ChildKeys(flat, keys[..j], parent.value), keys[j]);
      parentNode.subTasks := parentNode.subTasks + [task];
    }
    forall p | p in taskMap
      ensures LinkedAt(flat, taskMap, heap, keys[..j + 1], p)
    {
      NextChild(flat, taskMap, heap, keys, j, p);
      assert old(LinkedAt(flat, taskMap, heap, keys[..j], p));
    }
  }

  /** The linking loop over the map's entries, which also picks out the root. */
  method LinkAll(
    ghost flat: seq<TaskRow>, taskMap: map<Id, TaskNode>, ghost heap: set<TaskNode>, keys: seq<Id>, rootId: Id)
    returns (root: TaskNode?)
    requires OneNodeEach(flat, taskMap, heap) && (forall k <- keys :: k in taskMap)
    requires Linked(flat, taskMap, heap, [])
    modifies heap
    ensures Linked(flat, taskMap, heap, keys)
    ensures root == if rootId in keys then taskMap[rootId] else null
  {
    root := null;
    var j := 0;
    assert keys[..0] == [];
    while j < |keys|
      invariant 0 <= j <= |keys|
      invariant Linked(flat, taskMap, heap, keys[..j])
      invariant root == if rootId in keys[..j] then taskMap[rootId] else null
    {
      assert keys[j] in keys && keys[..j + 1] == keys[..j] + [keys[j]];
      if keys[j] == rootId {
        root := taskMap[keys[j]];
      }
      Attach(flat, taskMap, heap, keys, j);
      j := j + 1;
    }
    assert keys[..j] == keys;
  }

  /**
   * For any rows whatsoever: fresh objects, one per id; each ends up with exactly the objects whose row names it
   * as parent, in row order; the result is the object of `rootId`, or null when no row has that id.
   */
  method BuildTree(flat: seq<TaskRow>, rootId: Id)
    returns (root: TaskNode?, ghost nodes: map<Id, TaskNode>, ghost heap: set<TaskNode>)
    ensures fresh(heap) && OneNodeEach(flat, nodes, heap) && Linked(flat, nodes, heap, Keys(flat))
    ensures root == if rootId in nodes then nodes[rootId] else null
  {
    var taskMap, keys;
    taskMap, keys, heap := FillMap(flat);
    root := LinkAll(flat, taskMap, heap, keys, rootId);
    nodes := taskMap;
  }

  // ------------------------------------------------------------ the objects form the tree

  /** The object graph below `n` is the finite tree `t`, node for node. */
  ghost predicate Represents(flat: seq<TaskRow>, n: TaskNode, t: H.Tree, heap: set<TaskNode>)
    reads heap
    decreases t
  {
    && n in heap && t.id in Keys(flat) && n.row == RowOf(flat, t.id) && n.row.id == t.id
    && |n.subTasks| == |t.children|
    && forall i :: 0 <= i < |t.children| ==> Represents(flat, n.subTasks[i], t.children[i], heap)
  }

  lemma {:induction false} RowOfId(flat: seq<TaskRow>, id: Id)
    requires id in Keys(flat)
    ensures RowOf(flat, id).id == id && RowOf(flat, id) in flat
    decreases flat
  {
    var n := |flat| - 1;
    if flat[n].id != id {
      RowOfId(flat[..n], id);
      assert flat[..n] <= flat;
    }
  }

  lemma {:induction false} SameChildren(g: H.Graph, g': H.Graph, order: seq<Id>, p: Id)
    requires g.parent == g'.parent
    ensures H.Children(g, order, p) == H.Children(g', order, p)
    decreases order
  {
    if order != [] {
      SameChildren(g, g', order[1..], p);
    }
  }

  /** The objects listed under a node, in terms of the graph of the rows. */
  lemma LinkedChildren(flat: seq<TaskRow>, nodes: map<Id, TaskNode>, heap: set<TaskNode>, g: H.Graph, id: Id)
    requires OneNodeEach(flat, nodes, heap) && Linked(flat, nodes, heap, Keys(flat)) && id in nodes
    requires g.parent == ParentLinks(flat)
    ensures var cs := H.Children(g, Keys(flat), id);
      |nodes[id].subTasks| == |cs|
      && forall i :: 0 <= i < |cs| ==> cs[i] in nodes && nodes[id].subTasks[i] == nodes[cs[i]]
  {
    SameChildren(g, H.Graph(ParentLinks(flat), map[], 0), Keys(flat), id);
    assert LinkedAt(flat, nodes, heap, Keys(flat), id);
    var cs := ChildKeys(flat, Keys(flat), id);
    assert forall i :: 0 <= i < |cs| ==> cs[i] in cs;
  }

  lemma RepresentsNode(flat: seq<TaskRow>, n: TaskNode, t: H.Tree, heap: set<TaskNode>)
    requires n in heap && t.id in Keys(flat) && n.row == RowOf(flat, t.id) && |n.subTasks| == |t.children|
    requires forall i :: 0 <= i < |t.children| ==> Represents(flat, n.subTasks[i], t.children[i], heap)
    ensures Represents(flat, n, t, heap)
  {
    RowOfId(flat, t.id);
  }

  /** When the parent links are acyclic, the linked objects are the tree of the rows. */
  lemma {:induction false} LinkedIsTree(
    flat: seq<TaskRow>, nodes: map<Id, TaskNode>, heap: set<TaskNode>, g: H.Graph, id: Id, level: nat)
    requires OneNodeEach(flat, nodes, heap) && Linked(flat, nodes, heap, Keys(flat))
    requires g.parent == ParentLinks(flat) && H.Ranked(g) && id in nodes && g.rank[id] >= level
    ensures Represents(flat, nodes[id], H.TreeOf(g, Keys(flat), id, level), heap)
    decreases g.bound - level, 1
  {
    var n, t := nodes[id], H.TreeOf(g, Keys(flat), id, level);
    H.TreeChildren(g, Keys(flat), id, level);
    LinkedChildren(flat, nodes, heap, g, id);
    forall i: nat | i < |t.children|
      ensures Represents(flat, n.subTasks[i], t.children[i], heap)
    {
      ChildIsTree(flat, nodes, heap, g, id, level, i);
    }
    RepresentsNode(flat, n, t, heap);
  }

  lemma ChildAt(
    flat: seq<TaskRow>, nodes: map<Id, TaskNode>, heap: set<TaskNode>, g: H.Graph, id: Id, level: nat, i: nat)
    returns (c: Id)
    requires OneNodeEach(flat, nodes, heap) && Linked(flat, nodes, heap, Keys(flat))
    requires g.parent == ParentLinks(flat) && H.Ranked(g) && id in nodes && g.rank[id] >= level
    requires i < |nodes[id].subTasks| && i < |H.TreeOf(g, Keys(flat), id, level).children|
    ensures c in nodes && c in g.rank && g.rank[c] >= level + 1 && level < g.bound
    ensures nodes[id].subTasks[i] == nodes[c]
    ensures H.TreeOf(g, Keys(flat), id, level).children[i] == H.TreeOf(g, Keys(flat), c, level + 1)
  {
    H.TreeChildren(g, Keys(flat), id, level);
    LinkedChildren(flat, nodes, heap, g, id);
    c := H.Children(g, Keys(flat), id)[i];
  }

  lemma {:induction false} ChildIsTree(
    flat: seq<TaskRow>, nodes: map<Id, TaskNode>, heap: set<TaskNode>, g: H.Graph, id: Id, level: nat, i: nat)
    requires OneNodeEach(flat, nodes, heap) && Linked(flat, nodes, heap, Keys(flat))
    requires g.parent == ParentLinks(flat) && H.Ranked(g) && id in nodes && g.rank[id] >= level
    requires i < |nodes[id].subTasks| && i < |H.TreeOf(g, Keys(flat), id, level).children|
    ensures Represents(flat, nodes[id].subTasks[i], H.TreeOf(g, Keys(flat), id, level).children[i], heap)
    decreases g.bound - level, 0
  {
    var c := ChildAt(flat, nodes, heap, g, id, level, i);
    LinkedIsTree(flat, nodes, heap, g, c, level + 1);
  }
}
