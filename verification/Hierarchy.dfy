/**
 * Parent links, the recursive query over them and the tree they form. Nodes
 * are ids; a graph holds only the rows a query can see, so a link may lead
 * out of it.
 */
module Hierarchy {
  import opened Common

  type Id = string

  datatype Graph = Graph(parent: map<Id, Option<Id>>, rank: map<Id, nat>, bound: nat)

  predicate IsChild(g: Graph, x: Id, p: Id) {
    x in g.parent && g.parent[x] == Some(p)
  }

  /** Ranks grow from parent to child: this is what makes the links a forest. */
  ghost predicate Ranked(g: Graph) {
    && (forall x :: x in g.parent ==> x in g.rank && g.rank[x] < g.bound)
    && (forall x, p :: IsChild(g, x, p) && p in g.parent ==> g.rank[p] < g.rank[x])
  }

  /** The rows in some order, each once. */
  ghost predicate Enumerates(order: seq<Id>, g: Graph) {
    NoDup(order) && forall x :: x in order <==> x in g.parent
  }

  ghost function Up(g: Graph, x: Id): Option<Id> {
    if x in g.parent && g.parent[x].Some? && g.parent[x].value in g.parent then g.parent[x] else None
  }

  /** `x` is in `from` or has an ancestor there, all links staying inside the graph. */
  ghost predicate Below(g: Graph, from: set<Id>, x: Id)
    requires Ranked(g)
    decreases if x in g.rank then g.rank[x] else 0
  {
    x in g.parent && (x in from || (Up(g, x).Some? && Below(g, from, Up(g, x).value)))
  }

  ghost function Depth(g: Graph, x: Id): nat
    requires Ranked(g)
    decreases if x in g.rank then g.rank[x] else 0
  {
    if Up(g, x).Some? then 1 + Depth(g, Up(g, x).value) else 0
  }

  // ------------------------------------------------------------ children and joins

  function Children(g: Graph, order: seq<Id>, p: Id): seq<Id> {
    if order == [] then []
    else (if IsChild(g, order[0], p) then [order[0]] else []) + Children(g, order[1..], p)
  }

  lemma {:induction false} ChildrenSpec(g: Graph, order: seq<Id>, p: Id)
    ensures forall x :: x in Children(g, order, p) <==> x in order && IsChild(g, x, p)
    ensures NoDup(order) ==> NoDup(Children(g, order, p))
    decreases order
  {
    if order != [] {
      ChildrenSpec(g, order[1..], p);
      assert order == [order[0]] + order[1..];
      if NoDup(order) {
        assert forall x <- order[1..] :: x != order[0];
        NoDupConcat(if IsChild(g, order[0], p) then [order[0]] else [], Children(g, order[1..], p));
      }
    }
  }

  /** One step of the recursive term: the visible rows joined with the working table on the parent column. */
  function Joined(g: Graph, order: seq<Id>, working: seq<Id>): seq<Id> {
    if working == [] then [] else Children(g, order, working[0]) + Joined(g, order, working[1..])
  }

  lemma {:induction false} JoinedSpec(g: Graph, order: seq<Id>, working: seq<Id>)
    ensures forall x :: x in Joined(g, order, working) <==>
      x in order && x in g.parent && g.parent[x].Some? && g.parent[x].value in working
    ensures NoDup(order) && NoDup(working) ==> NoDup(Joined(g, order, working))
    decreases working
  {
    if working != [] {
      ChildrenSpec(g, order, working[0]);
      JoinedSpec(g, order, working[1..]);
      assert working == [working[0]] + working[1..];
      if NoDup(order) && NoDup(working) {
        assert forall w <- working[1..] :: w != working[0];
        NoDupConcat(Children(g, order, working[0]), Joined(g, order, working[1..]));
      }
    }
  }

  /**
   * WITH RECURSIVE ... UNION ALL: the working table is added to the result and replaced by its join until it
   * is empty. `level` bounds the ranks in the working table from below, which is why the evaluation ends.
   */
  function Recursive(g: Graph, order: seq<Id>, working: seq<Id>, level: nat): seq<Id>
    requires Ranked(g) && Enumerates(order, g)
    requires forall w <- working :: w in g.parent && g.rank[w] >= level
    decreases g.bound - level
  {
    if working == [] then []
    else
      JoinedSpec(g, order, working);
      assert working[0] in working;
      working + Recursive(g, order, Joined(g, order, working), level + 1)
  }

  lemma {:induction false} BelowStep(g: Graph, order: seq<Id>, working: seq<Id>, x: Id)
    requires Ranked(g) && Enumerates(order, g)
    requires forall w <- working :: w in g.parent
    ensures Below(g, Elements(working), x) <==>
      x in working || Below(g, Elements(Joined(g, order, working)), x)
    decreases if x in g.rank then g.rank[x] else 0
  {
    JoinedSpec(g, order, working);
    if Up(g, x).Some? {
      BelowStep(g, order, working, Up(g, x).value);
    }
  }

  function Elements(s: seq<Id>): set<Id> {
    set x | x in s
  }

  lemma {:induction false} BelowIsDeeper(g: Graph, from: set<Id>, d: nat, x: Id)
    requires Ranked(g) && Below(g, from, x)
    requires forall f :: f in from && f in g.parent ==> Depth(g, f) == d
    ensures Depth(g, x) >= d
    ensures Depth(g, x) == d ==> x in from
    decreases if x in g.rank then g.rank[x] else 0
  {
    if x !in from {
      BelowIsDeeper(g, from, d, Up(g, x).value);
    }
  }

  /** The query returns exactly the rows below its starting rows, each once although UNION ALL keeps duplicates. */
  lemma {:induction false} RecursiveIsBelow(g: Graph, order: seq<Id>, working: seq<Id>, level: nat, d: nat)
    requires Ranked(g) && Enumerates(order, g) && NoDup(working)
    requires forall w <- working :: w in g.parent && g.rank[w] >= level && Depth(g, w) == d
    ensures var rows := Recursive(g, order, working, level);
      NoDup(rows) && forall x :: x in rows <==> Below(g, Elements(working), x)
    decreases g.bound - level
  {
    var rows := Recursive(g, order, working, level);
    if working == [] {
      forall x
        ensures !Below(g, {}, x)
      {
        NothingBelowNothing(g, x);
      }
      assert Elements(working) == {};
    } else {
      assert working[0] in working;
      JoinedSpec(g, order, working);
      var next := Joined(g, order, working);
      RecursiveIsBelow(g, order, next, level + 1, d + 1);
      var rest := Recursive(g, order, next, level + 1);
      forall x
        ensures x in rows <==> Below(g, Elements(working), x)
        ensures x in rest ==> x !in working
      {
        BelowStep(g, order, working, x);
        if x in rest {
          BelowIsDeeper(g, Elements(next), d + 1, x);
        }
      }
      NoDupConcat(working, rest);
    }
  }

  lemma {:induction false} NothingBelowNothing(g: Graph, x: Id)
    requires Ranked(g)
    ensures !Below(g, {}, x)
    decreases if x in g.rank then g.rank[x] else 0
  {
    if Up(g, x).Some? {
      NothingBelowNothing(g, Up(g, x).value);
    }
  }

  // ------------------------------------------------------------ trees

  datatype Tree = Node(id: Id, children: seq<Tree>)

  /** The tree over the graph below `id`: children are the rows naming it as parent, in row order. */
  ghost function TreeOf(g: Graph, order: seq<Id>, id: Id, level: nat): Tree
    requires Ranked(g) && id in g.parent && g.rank[id] >= level
    decreases g.bound - level, 0
  {
    ChildrenSpec(g, order, id);
    Node(id, TreesOf(g, order, Children(g, order, id), level + 1))
  }

  ghost function TreesOf(g: Graph, order: seq<Id>, ids: seq<Id>, level: nat): (ts: seq<Tree>)
    requires Ranked(g) && forall x <- ids :: x in g.parent && g.rank[x] >= level
    requires level <= g.bound
    ensures |ts| == |ids|
    decreases g.bound - level, |ids| + 1
  {
    if ids == [] then []
    else
      assert ids[0] in ids;
      [TreeOf(g, order, ids[0], level)] + TreesOf(g, order, ids[1..], level)
  }

  lemma {:induction false} TreeAt(g: Graph, order: seq<Id>, ids: seq<Id>, level: nat, i: nat)
    requires Ranked(g) && level <= g.bound && i < |ids| && forall x <- ids :: x in g.parent && g.rank[x] >= level
    ensures ids[i] in g.parent && g.rank[ids[i]] >= level
    ensures TreesOf(g, order, ids, level)[i] == TreeOf(g, order, ids[i], level)
    decreases ids
  {
    assert ids[0] in ids;
    if i > 0 {
      TreeAt(g, order, ids[1..], level, i - 1);
    }
  }

  lemma TreeChildren(g: Graph, order: seq<Id>, id: Id, level: nat)
    requires Ranked(g) && id in g.parent && g.rank[id] >= level
    ensures var t, cs := TreeOf(g, order, id, level), Children(g, order, id);
      && t.id == id && |t.children| == |cs|
      && forall i :: 0 <= i < |cs| ==>
           cs[i] in g.parent && g.rank[cs[i]] >= level + 1 && t.children[i] == TreeOf(g, order, cs[i], level + 1)
  {
    ChildrenSpec(g, order, id);
    var cs := Children(g, order, id);
    forall i | 0 <= i < |cs|
      ensures cs[i] in g.parent && g.rank[cs[i]] >= level + 1
      ensures TreesOf(g, order, cs, level + 1)[i] == TreeOf(g, order, cs[i], level + 1)
    {
      TreeAt(g, order, cs, level + 1, i);
    }
  }

  function Preorder(t: Tree): seq<Id> {
    [t.id] + PreorderAll(t.children)
  }

  function PreorderAll(ts: seq<Tree>): seq<Id> {
    if ts == [] then [] else Preorder(ts[0]) + PreorderAll(ts[1..])
  }

  lemma {:induction false} BelowOne(g: Graph, order: seq<Id>, id: Id, x: Id)
    requires Ranked(g) && Enumerates(order, g) && id in g.parent
    ensures Below(g, {id}, x) <==> x == id || Below(g, Elements(Children(g, order, id)), x)
  {
    BelowStep(g, order, [id], x);
    assert Elements([id]) == {id};
    assert [id][1..] == [];
    assert Joined(g, order, [id]) == Children(g, order, id) + [] == Children(g, order, id);
  }

  lemma {:induction false} BelowUnion(g: Graph, a: set<Id>, b: set<Id>, x: Id)
    requires Ranked(g)
    ensures Below(g, a + b, x) <==> Below(g, a, x) || Below(g, b, x)
    decreases if x in g.rank then g.rank[x] else 0
  {
    if Up(g, x).Some? {
      BelowUnion(g, a, b, Up(g, x).value);
    }
  }

  /** Starting rows of equal depth have nothing in common below them. */
  lemma {:induction false} BelowDisjoint(g: Graph, a: set<Id>, b: set<Id>, d: nat, x: Id)
    requires Ranked(g) && a !! b
    requires forall y :: y in a + b && y in g.parent ==> Depth(g, y) == d
    ensures !(Below(g, a, x) && Below(g, b, x))
    decreases if x in g.rank then g.rank[x] else 0
  {
    if Below(g, a, x) && Below(g, b, x) {
      BelowIsDeeper(g, a, d, x);
      BelowIsDeeper(g, b, d, x);
      if Up(g, x).Some? {
        BelowDisjoint(g, a, b, d, Up(g, x).value);
      }
    }
  }

  /** The preorder of the tree lists exactly the rows below its root, each once. */
  lemma {:induction false} PreorderIsBelow(g: Graph, order: seq<Id>, id: Id, level: nat)
    requires Ranked(g) && Enumerates(order, g) && id in g.parent && g.rank[id] >= level
    ensures var listed := Preorder(TreeOf(g, order, id, level));
      NoDup(listed) && forall x :: x in listed <==> Below(g, {id}, x)
    decreases g.bound - level, 0
  {
    ChildrenSpec(g, order, id);
    var cs := Children(g, order, id);
    PreorderAllIsBelow(g, order, cs, level + 1, Depth(g, id) + 1);
    var rest := PreorderAll(TreesOf(g, order, cs, level + 1));
    forall x
      ensures x in [id] + rest <==> Below(g, {id}, x)
      ensures x in rest ==> x != id
    {
      BelowOne(g, order, id, x);
      if x in rest {
        BelowIsDeeper(g, Elements(cs), Depth(g, id) + 1, x);
      }
    }
    NoDupConcat([id], rest);
  }

  lemma {:induction false} PreorderAllIsBelow(g: Graph, order: seq<Id>, ids: seq<Id>, level: nat, d: nat)
    requires Ranked(g) && Enumerates(order, g) && NoDup(ids) && level <= g.bound
    requires forall x <- ids :: x in g.parent && g.rank[x] >= level && Depth(g, x) == d
    ensures var listed := PreorderAll(TreesOf(g, order, ids, level));
      NoDup(listed) && forall x :: x in listed <==> Below(g, Elements(ids), x)
    decreases g.bound - level, |ids| + 1
  {
    if ids == [] {
      forall x
        ensures !Below(g, {}, x)
      {
        NothingBelowNothing(g, x);
      }
      assert Elements(ids) == {};
    } else {
      assert ids[0] in ids;
      PreorderIsBelow(g, order, ids[0], level);
      PreorderAllIsBelow(g, order, ids[1..], level, d);
      var first := Preorder(TreeOf(g, order, ids[0], level));
      var rest := PreorderAll(TreesOf(g, order, ids[1..], level));
      var a, b := {ids[0]}, Elements(ids[1..]);
      assert TreesOf(g, order, ids, level)[1..] == TreesOf(g, order, ids[1..], level);
      assert Elements(ids) == a + b by {
        assert ids == [ids[0]] + ids[1..];
      }
      forall x
        ensures x in first + rest <==> Below(g, Elements(ids), x)
        ensures x in first ==> x !in rest
      {
        BelowUnion(g, a, b, x);
        BelowDisjoint(g, a, b, d, x);
      }
      NoDupConcat(first, rest);
    }
  }

  // ------------------------------------------------------------ links of a tree

  function Links(t: Tree): set<(Id, Id)>
    decreases t
  {
    LinksAll(t.id, t.children)
  }

  /** The (parent, child) pairs of the trees hung under `p`. */
  function LinksAll(p: Id, ts: seq<Tree>): set<(Id, Id)>
    decreases ts
  {
    if ts == [] then {} else {(p, ts[0].id)} + Links(ts[0]) + LinksAll(p, ts[1..])
  }

  function Roots(ts: seq<Tree>): seq<Id> {
    if ts == [] then [] else [ts[0].id] + Roots(ts[1..])
  }

  lemma {:induction false} RootsOfTrees(g: Graph, order: seq<Id>, ids: seq<Id>, level: nat)
    requires Ranked(g) && level <= g.bound && forall x <- ids :: x in g.parent && g.rank[x] >= level
    ensures Roots(TreesOf(g, order, ids, level)) == ids
    decreases ids
  {
    if ids != [] {
      assert ids[0] in ids;
      assert TreesOf(g, order, ids, level)[1..] == TreesOf(g, order, ids[1..], level);
      RootsOfTrees(g, order, ids[1..], level);
    }
  }

  /**
   * Every node hangs under exactly the row its parent column names, and nothing else hangs there. The
   * right-hand side does not mention the row order, so neither do the links of the tree.
   */
  lemma {:induction false} TreeLinksAreParents(g: Graph, order: seq<Id>, id: Id, level: nat)
    requires Ranked(g) && Enumerates(order, g) && id in g.parent && g.rank[id] >= level
    ensures forall p, c :: (p, c) in Links(TreeOf(g, order, id, level)) <==> Below(g, {id}, p) && IsChild(g, c, p)
    decreases g.bound - level, 0
  {
    ChildrenSpec(g, order, id);
    var cs := Children(g, order, id);
    TreesLinksAreParents(g, order, id, cs, level + 1);
    forall p, c
      ensures (p, c) in Links(TreeOf(g, order, id, level)) <==> Below(g, {id}, p) && IsChild(g, c, p)
    {
      BelowOne(g, order, id, p);
    }
  }

  lemma {:induction false} TreesLinksAreParents(g: Graph, order: seq<Id>, top: Id, ids: seq<Id>, level: nat)
    requires Ranked(g) && Enumerates(order, g) && level <= g.bound
    requires forall x <- ids :: IsChild(g, x, top) && g.rank[x] >= level
    ensures forall p, c :: (p, c) in LinksAll(top, TreesOf(g, order, ids, level)) <==>
      (p == top && c in ids) || (Below(g, Elements(ids), p) && IsChild(g, c, p))
    decreases g.bound - level, |ids| + 1
  {
    if ids == [] {
      assert Elements(ids) == {};
      forall p
        ensures !Below(g, {}, p)
      {
        NothingBelowNothing(g, p);
      }
    } else {
      assert ids[0] in ids;
      TreeLinksAreParents(g, order, ids[0], level);
      TreesLinksAreParents(g, order, top, ids[1..], level);
      assert TreesOf(g, order, ids, level)[1..] == TreesOf(g, order, ids[1..], level);
      assert ids == [ids[0]] + ids[1..];
      assert Elements(ids) == {ids[0]} + Elements(ids[1..]);
      forall p
        ensures Below(g, Elements(ids), p) <==> Below(g, {ids[0]}, p) || Below(g, Elements(ids[1..]), p)
      {
        BelowUnion(g, {ids[0]}, Elements(ids[1..]), p);
      }
    }
  }

  lemma SameLinks(g: Graph, order: seq<Id>, order': seq<Id>, id: Id, level: nat)
    requires Ranked(g) && Enumerates(order, g) && Enumerates(order', g) && id in g.parent && g.rank[id] >= level
    ensures Links(TreeOf(g, order, id, level)) == Links(TreeOf(g, order', id, level))
  {
    TreeLinksAreParents(g, order, id, level);
    TreeLinksAreParents(g, order', id, level);
    var a, b := Links(TreeOf(g, order, id, level)), Links(TreeOf(g, order', id, level));
    forall link
      ensures link in a <==> link in b
    {
      var (p, c) := link;
      assert (p, c) in a <==> (p, c) in b;
    }
  }

  /** At every node of the tree, the children are that row's subtasks in row order. */
  predicate InRowOrder(g: Graph, order: seq<Id>, t: Tree)
    decreases t
  {
    Roots(t.children) == Children(g, order, t.id) && AllInRowOrder(g, order, t.children)
  }

  predicate AllInRowOrder(g: Graph, order: seq<Id>, ts: seq<Tree>)
    decreases ts
  {
    ts == [] || (InRowOrder(g, order, ts[0]) && AllInRowOrder(g, order, ts[1..]))
  }

  lemma {:induction false} TreeIsInRowOrder(g: Graph, order: seq<Id>, id: Id, level: nat)
    requires Ranked(g) && id in g.parent && g.rank[id] >= level
    ensures InRowOrder(g, order, TreeOf(g, order, id, level))
    decreases g.bound - level, 0
  {
    ChildrenSpec(g, order, id);
    RootsOfTrees(g, order, Children(g, order, id), level + 1);
    TreesAreInRowOrder(g, order, Children(g, order, id), level + 1);
  }

  lemma {:induction false} TreesAreInRowOrder(g: Graph, order: seq<Id>, ids: seq<Id>, level: nat)
    requires Ranked(g) && level <= g.bound && forall x <- ids :: x in g.parent && g.rank[x] >= level
    ensures AllInRowOrder(g, order, TreesOf(g, order, ids, level))
    decreases g.bound - level, |ids| + 1
  {
    if ids != [] {
      assert ids[0] in ids;
      TreeIsInRowOrder(g, order, ids[0], level);
      TreesAreInRowOrder(g, order, ids[1..], level);
      assert TreesOf(g, order, ids, level)[1..] == TreesOf(g, order, ids[1..], level);
    }
  }

  /** Two row orders of the same rows give trees with the same nodes and links; only siblings may trade places. */
  lemma RowOrderOnlyOrdersSiblings(g: Graph, order: seq<Id>, order': seq<Id>, id: Id, level: nat)
    requires Ranked(g) && Enumerates(order, g) && Enumerates(order', g) && id in g.parent && g.rank[id] >= level
    ensures var t, t' := TreeOf(g, order, id, level), TreeOf(g, order', id, level);
      && t.id == t'.id == id
      && multiset(Preorder(t)) == multiset(Preorder(t'))
      && Links(t) == Links(t')
      && InRowOrder(g, order, t) && InRowOrder(g, order', t')
  {
    PreorderIsBelow(g, order, id, level);
    PreorderIsBelow(g, order', id, level);
    NoDupPermutation(Preorder(TreeOf(g, order, id, level)), Preorder(TreeOf(g, order', id, level)));
    SameLinks(g, order, order', id, level);
    TreeIsInRowOrder(g, order, id, level);
    TreeIsInRowOrder(g, order', id, level);
  }

  // ------------------------------------------------------------ the rows of one query

  /** `part` holds exactly the rows of `g` below `top`, with their links. */
  ghost predicate IsPart(g: Graph, part: Graph, top: Id) {
    && Ranked(g) && Ranked(part)
    && (forall x :: x in part.parent <==> Below(g, {top}, x))
    && (forall x :: x in part.parent ==> x in g.parent && part.parent[x] == g.parent[x])
  }

  lemma {:induction false} PartBelow(g: Graph, part: Graph, top: Id, x: Id)
    requires IsPart(g, part, top)
    ensures Below(part, {top}, x) <==> Below(g, {top}, x)
    decreases if x in g.rank then g.rank[x] else 0
  {
    if Below(g, {top}, x) && x != top {
      var p := Up(g, x).value;
      assert p in part.parent && Up(part, x) == Some(p);
      PartBelow(g, part, top, p);
    }
  }

  /** The tree built from just those rows is the tree of everything below `top`. */
  lemma PartTree(g: Graph, part: Graph, order: seq<Id>, top: Id, level: nat)
    requires IsPart(g, part, top) && Enumerates(order, part) && top in part.parent && part.rank[top] >= level
    ensures var t := TreeOf(part, order, top, level);
      && t.id == top && NoDup(Preorder(t)) && multiset(Preorder(t)) == multiset(order)
      && (forall x :: x in Preorder(t) <==> Below(g, {top}, x))
      && (forall p, c :: (p, c) in Links(t) <==> Below(g, {top}, p) && IsChild(g, c, p))
  {
    var t := TreeOf(part, order, top, level);
    forall x
      ensures Below(part, {top}, x) <==> Below(g, {top}, x)
    {
      PartBelow(g, part, top, x);
    }
    PreorderIsBelow(part, order, top, level);
    NoDupPermutation(Preorder(t), order);
    TreeLinksAreParents(part, order, top, level);
    forall p, c
      ensures Below(part, {top}, p) && IsChild(part, c, p) <==> Below(g, {top}, p) && IsChild(g, c, p)
    {
      if Below(g, {top}, p) && IsChild(g, c, p) {
        assert Up(g, c) == Some(p);
        assert Below(g, {top}, c);
      }
    }
  }

  // ------------------------------------------------------------ rows coming and going

  lemma {:induction false} BelowRank(g: Graph, a: Id, x: Id)
    requires Ranked(g) && Below(g, {a}, x)
    ensures a in g.parent && (x == a || g.rank[a] < g.rank[x])
    decreases if x in g.rank then g.rank[x] else 0
  {
    if x != a {
      BelowRank(g, a, Up(g, x).value);
      assert IsChild(g, x, Up(g, x).value);
    }
  }

  /** Hiding one row cuts its whole subtree out of every tree that contains it, and touches no other tree. */
  lemma {:induction false} HideRow(g: Graph, g': Graph, id: Id, top: Id, x: Id)
    requires Ranked(g) && Ranked(g') && id in g.parent && g'.rank == g.rank && g'.parent == g.parent - {id}
    ensures Below(g', {top}, x) <==> Below(g, {top}, x) && !(Below(g, {top}, id) && Below(g, {id}, x))
    decreases if x in g.rank then g.rank[x] else 0
  {
    if x in g'.parent {
      if x == top {
        if Below(g, {top}, id) && Below(g, {id}, top) {
          BelowRank(g, top, id);
          BelowRank(g, id, top);
        }
      } else if Up(g, x).Some? && Up(g, x).value != id {
        assert Up(g', x) == Up(g, x);
        HideRow(g, g', id, top, Up(g, x).value);
      }
    }
  }

  /** A new row joins exactly the trees that contain its parent, and changes nothing else. */
  lemma {:induction false} AddRow(g: Graph, g': Graph, id: Id, parent: Option<Id>, top: Id, x: Id)
    requires Ranked(g) && Ranked(g') && id !in g.parent && g'.parent == g.parent[id := parent]
    requires forall y :: y in g.parent ==> g.parent[y] != Some(id) && g'.rank[y] == g.rank[y]
    requires parent != Some(id) && top in g.parent
    ensures Below(g', {top}, x) <==>
      if x == id then parent.Some? && Below(g, {top}, parent.value) else Below(g, {top}, x)
    decreases if x in g'.rank then g'.rank[x] else 0
  {
    if x == id {
      if parent.Some? && parent.value in g.parent {
        assert IsChild(g', id, parent.value);
        AddRow(g, g', id, parent, top, parent.value);
      }
    } else if Up(g, x).Some? {
      assert Up(g', x) == Up(g, x);
      assert IsChild(g', x, Up(g, x).value);
      AddRow(g, g', id, parent, top, Up(g, x).value);
    }
  }
}
