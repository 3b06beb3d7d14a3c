/** The block graph: nodes, the edges between them, and the check-then-set protocol for permissions. */
module BlockGraph {

  import opened Common
  import opened BlockPerm

  /** A BdrvChild without its masks; parent is None for users outside the graph. */
  datatype Edge = Edge(live: bool, parent: Option<nat>, bs: nat, role: Role)

  datatype Graph = Graph(nodes: seq<Node>, edges: seq<Edge>)

  /** Edge k is in the parents list of node n. */
  predicate IsParent(g: Graph, k: nat, n: nat) { k < |g.edges| && g.edges[k].live && g.edges[k].bs == n }

  /** Edge k is in the children list of node n. */
  predicate IsChild(g: Graph, k: nat, n: nat) { k < |g.edges| && g.edges[k].live && g.edges[k].parent == Some(n) }

  /** Only nodes with a bdrv_child_perm have children, and format drivers know only two roles. */
  ghost predicate EdgeOk(g: Graph, e: Edge) {
    && e.bs < |g.nodes|
    && (e.parent.Some? ==>
        && e.parent.value < |g.nodes| && PassesOn(g.nodes[e.parent.value].kind)
        && (g.nodes[e.parent.value].kind.Format? ==> !e.role.Other?))
  }

  ghost predicate GraphOk(g: Graph) {
    forall k :: 0 <= k < |g.edges| && g.edges[k].live ==> EdgeOk(g, g.edges[k])
  }

  /** The graph has no cycle: rank falls along every edge. */
  ghost predicate Ranked(g: Graph, rank: nat -> nat) {
    forall k :: 0 <= k < |g.edges| && g.edges[k].live && g.edges[k].parent.Some? ==>
      rank(g.edges[k].bs) < rank(g.edges[k].parent.value)
  }

  /** m can be reached from n. */
  ghost predicate Under(g: Graph, rank: nat -> nat, n: nat, m: nat)
    requires Ranked(g, rank)
    decreases rank(n)
  {
    n == m || exists k: nat :: IsChild(g, k, n) && Under(g, rank, g.edges[k].bs, m)
  }

  /** Edge k starts at a node that can be reached from n. */
  ghost predicate Below(g: Graph, rank: nat -> nat, n: nat, k: nat): (b: bool)
    requires Ranked(g, rank)
    ensures b ==> k < |g.edges| && g.edges[k].live && g.edges[k].parent.Some?
  {
    k < |g.edges| && g.edges[k].live && g.edges[k].parent.Some? && Under(g, rank, n, g.edges[k].parent.value)
  }

  lemma {:induction false} UnderRank(g: Graph, rank: nat -> nat, n: nat, m: nat)
    requires Ranked(g, rank) && Under(g, rank, n, m)
    ensures if m == n then true else rank(m) < rank(n)
    decreases rank(n)
  {
    if m != n {
      var k: nat :| IsChild(g, k, n) && Under(g, rank, g.edges[k].bs, m);
      UnderRank(g, rank, g.edges[k].bs, m);
    }
  }

  lemma {:induction false} UnderTrans(g: Graph, rank: nat -> nat, a: nat, b: nat, c: nat)
    requires Ranked(g, rank) && Under(g, rank, a, b) && Under(g, rank, b, c)
    ensures Under(g, rank, a, c)
    decreases rank(a)
  {
    if a != b {
      var k: nat :| IsChild(g, k, a) && Under(g, rank, g.edges[k].bs, b);
      UnderTrans(g, rank, g.edges[k].bs, b, c);
    }
  }

  lemma {:induction false} UnderEnd(g: Graph, rank: nat -> nat, n: nat, k: nat)
    requires Ranked(g, rank) && Below(g, rank, n, k)
    ensures Under(g, rank, n, g.edges[k].bs) && rank(g.edges[k].bs) < rank(n)
  {
    var p := g.edges[k].parent.value;
    assert IsChild(g, k, p) && Under(g, rank, g.edges[k].bs, g.edges[k].bs);
    UnderTrans(g, rank, n, p, g.edges[k].bs);
    UnderRank(g, rank, n, p);
  }

  /** A node reached from n is n or the end of an edge below n. */
  lemma {:induction false} UnderLast(g: Graph, rank: nat -> nat, n: nat, m: nat)
    requires Ranked(g, rank) && Under(g, rank, n, m) && m != n
    ensures exists k: nat :: Below(g, rank, n, k) && g.edges[k].bs == m
    decreases rank(n)
  {
    var c: nat :| IsChild(g, c, n) && Under(g, rank, g.edges[c].bs, m);
    assert Under(g, rank, n, n);
    if g.edges[c].bs == m {
      assert Below(g, rank, n, c);
    } else {
      UnderLast(g, rank, g.edges[c].bs, m);
      var k: nat :| Below(g, rank, g.edges[c].bs, k) && g.edges[k].bs == m;
      BelowChild(g, rank, n, c, k);
    }
  }

  /** What is below a child of n is below n. */
  lemma {:induction false} BelowChild(g: Graph, rank: nat -> nat, n: nat, c: nat, k: nat)
    requires Ranked(g, rank) && IsChild(g, c, n) && Below(g, rank, g.edges[c].bs, k)
    ensures Below(g, rank, n, k) && k != c
  {
    assert Under(g, rank, g.edges[c].bs, g.edges[c].bs);
    UnderTrans(g, rank, n, g.edges[c].bs, g.edges[k].parent.value);
    UnderRank(g, rank, g.edges[c].bs, g.edges[k].parent.value);
  }

  /** An edge below n starts at n or lies below one of its children. */
  lemma {:induction false} BelowSplit(g: Graph, rank: nat -> nat, n: nat, k: nat)
    requires Ranked(g, rank) && Below(g, rank, n, k) && !IsChild(g, k, n)
    ensures exists c: nat :: IsChild(g, c, n) && Below(g, rank, g.edges[c].bs, k)
  {
    var c: nat :| IsChild(g, c, n) && Under(g, rank, g.edges[c].bs, g.edges[k].parent.value);
    assert Below(g, rank, g.edges[c].bs, k);
  }

  /** Every node below n is reached from n by one path. */
  ghost predicate SinglePath(g: Graph, rank: nat -> nat, n: nat)
    requires Ranked(g, rank)
  {
    forall j: nat, k: nat :: Below(g, rank, n, j) && Below(g, rank, n, k) && g.edges[j].bs == g.edges[k].bs ==> j == k
  }

  /** Edge c is the only way from t into its node. */
  ghost predicate OnlyWay(g: Graph, rank: nat -> nat, t: nat, c: nat): (b: bool)
    requires Ranked(g, rank)
    ensures b ==> c < |g.edges| && g.edges[c].live && g.edges[c].parent.Some?
  {
    && Below(g, rank, t, c)
    && forall k: nat :: Below(g, rank, t, k) && g.edges[k].bs == g.edges[c].bs ==> k == c
  }

  /** Edge j ends a path from n that is, node by node, the only way from t. */
  ghost predicate OnlyPath(g: Graph, rank: nat -> nat, t: nat, n: nat, j: nat)
    requires Ranked(g, rank)
    decreases rank(n)
  {
    exists c: nat :: IsChild(g, c, n) && OnlyWay(g, rank, t, c) && (c == j || OnlyPath(g, rank, t, g.edges[c].bs, j))
  }

  lemma {:induction false} OnlyPathEnd(g: Graph, rank: nat -> nat, t: nat, n: nat, j: nat)
    requires Ranked(g, rank) && OnlyPath(g, rank, t, n, j)
    ensures OnlyWay(g, rank, t, j)
    decreases rank(n)
  {
    hide OnlyWay;
    var c: nat :| IsChild(g, c, n) && OnlyWay(g, rank, t, c) && (c == j || OnlyPath(g, rank, t, g.edges[c].bs, j));
    if c != j { OnlyPathEnd(g, rank, t, g.edges[c].bs, j); }
  }

  /** Node q is t, or not reached from t, or reached by one path with no doubly reached node on it. */
  ghost predicate Clear(g: Graph, rank: nat -> nat, t: nat, q: nat)
    requires Ranked(g, rank)
  {
    q == t || !Under(g, rank, t, q) || exists j: nat :: ReachedBy(g, rank, t, j, q)
  }

  ghost predicate ReachedBy(g: Graph, rank: nat -> nat, t: nat, j: nat, q: nat)
    requires Ranked(g, rank)
  {
    OnlyPath(g, rank, t, t, j) && j < |g.edges| && g.edges[j].bs == q
  }

  /** Where all nodes are reached by one path, every edge ends such a path ... */
  lemma {:induction false} SinglePathOnly(g: Graph, rank: nat -> nat, t: nat, n: nat, j: nat)
    requires Ranked(g, rank) && SinglePath(g, rank, t) && Under(g, rank, t, n) && Below(g, rank, n, j)
    ensures OnlyPath(g, rank, t, n, j)
    decreases rank(n)
  {
    hide SinglePath, Below;
    if IsChild(g, j, n) {
      SinglePathWay(g, rank, t, n, j);
    } else {
      BelowSplit(g, rank, n, j);
      var c: nat :| IsChild(g, c, n) && Below(g, rank, g.edges[c].bs, j);
      SinglePathWay(g, rank, t, n, c);
      UnderTrans(g, rank, t, n, g.edges[c].bs);
      SinglePathOnly(g, rank, t, g.edges[c].bs, j);
    }
  }

  lemma {:induction false} SinglePathWay(g: Graph, rank: nat -> nat, t: nat, n: nat, c: nat)
    requires Ranked(g, rank) && SinglePath(g, rank, t) && Under(g, rank, t, n) && IsChild(g, c, n)
    ensures OnlyWay(g, rank, t, c) && Under(g, rank, n, g.edges[c].bs)
  {
    assert Below(g, rank, t, c);
    assert Under(g, rank, g.edges[c].bs, g.edges[c].bs);
  }

  /** ... and every node is clear. */
  lemma {:induction false} SinglePathClear(g: Graph, rank: nat -> nat, t: nat, q: nat)
    requires Ranked(g, rank) && SinglePath(g, rank, t)
    ensures Clear(g, rank, t, q)
  {
    hide SinglePath, Below, OnlyPath;
    if q != t && Under(g, rank, t, q) {
      UnderLast(g, rank, t, q);
      var k: nat :| Below(g, rank, t, k) && g.edges[k].bs == q;
      assert Under(g, rank, t, t);
      SinglePathOnly(g, rank, t, t, k);
      assert ReachedBy(g, rank, t, k, q);
    }
  }

  // Cumulative masks

  /** m together with the masks of the parents of n that are not in skip. */
  ghost function Over(g: Graph, masks: seq<Masks>, n: nat, skip: set<nat>, m: Masks): Masks
    requires |masks| == |g.edges|
  {
    Masks(set p: Perm | p in m.perm || exists k: nat :: IsParent(g, k, n) && k !in skip && p in masks[k].perm,
          set p: Perm | p in m.shared && forall k: nat :: IsParent(g, k, n) && k !in skip ==> p in masks[k].shared)
  }

  /** bdrv_get_cumulative_perm. */
  ghost function Cumulative(g: Graph, masks: seq<Masks>, n: nat): Masks
    requires |masks| == |g.edges|
  {
    Over(g, masks, n, {}, Masks({}, ALL))
  }

  lemma {:induction false} InAll(p: Perm)
    ensures p in ALL
  {
  }

  /** Counting parent k by m instead of its own masks gives the cumulative masks after k was set to m. */
  lemma {:induction false} OverOne(g: Graph, masks: seq<Masks>, next: seq<Masks>, n: nat, k: nat, skip: set<nat>)
    requires |masks| == |next| == |g.edges| && IsParent(g, k, n) && k in skip
    requires forall f: nat :: IsParent(g, f, n) && f != k ==> f !in skip && next[f] == masks[f]
    ensures Over(g, masks, n, skip, next[k]) == Cumulative(g, next, n)
  {
    var a, b := Over(g, masks, n, skip, next[k]), Cumulative(g, next, n);
    forall p: Perm
      ensures p in a.perm <==> p in b.perm
      ensures p in a.shared <==> p in b.shared
    {
      InAll(p);
    }
  }

  lemma {:induction false} CumulativeSame(g: Graph, masks: seq<Masks>, next: seq<Masks>, n: nat)
    requires |masks| == |next| == |g.edges| && forall f: nat :: IsParent(g, f, n) ==> next[f] == masks[f]
    ensures Cumulative(g, masks, n) == Cumulative(g, next, n)
  {
    var a, b := Cumulative(g, masks, n), Cumulative(g, next, n);
    forall p: Perm
      ensures p in a.perm <==> p in b.perm
      ensures p in a.shared <==> p in b.shared
    {
    }
  }

  /** Looser parents make looser cumulative masks. */
  lemma {:induction false} CumulativeLooser(g: Graph, masks: seq<Masks>, next: seq<Masks>, n: nat)
    requires |masks| == |next| == |g.edges| && forall f: nat :: IsParent(g, f, n) ==> Looser(next[f], masks[f])
    ensures Looser(Cumulative(g, next, n), Cumulative(g, masks, n))
  {
  }
}
