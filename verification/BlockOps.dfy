/** The entry points of the block layer: attach, try to change permissions, detach. */
module BlockOps {

  import opened Common
  import opened BlockPerm
  import opened BlockGraph
  import opened BlockUpdate
  import opened BlockSet

  /** Every edge between nodes has what its parent's cumulative masks say. */
  ghost predicate AllDerived(g: Graph, masks: seq<Masks>)
    requires GraphOk(g) && |masks| == |g.edges|
  {
    forall k: nat :: k < |g.edges| && g.edges[k].live && g.edges[k].parent.Some? ==>
      DerivedFrom(g, masks, k, Cumulative(g, masks, g.edges[k].parent.value))
  }

  ghost predicate AllTolerant(g: Graph, masks: seq<Masks>)
    requires |masks| == |g.edges|
  {
    forall k: nat :: k < |g.edges| && g.edges[k].live ==> WriteUnchanged in masks[k].shared
  }

  ghost predicate AllFit(g: Graph, own: OwnCheck, masks: seq<Masks>)
    requires GraphOk(g) && |masks| == |g.edges|
  {
    forall k: nat :: k < |g.edges| && g.edges[k].live ==> Fits(g, own, masks, k)
  }

  /** Any two users of any node get along. */
  ghost predicate PairwiseCompatible(g: Graph, masks: seq<Masks>)
    requires |masks| == |g.edges|
  {
    forall n: nat, j: nat, k: nat :: IsParent(g, j, n) && IsParent(g, k, n) && j != k ==>
      masks[j].perm <= masks[k].shared
  }

  lemma {:induction false} FitIsCompatible(g: Graph, own: OwnCheck, masks: seq<Masks>)
    requires GraphOk(g) && |masks| == |g.edges| && AllFit(g, own, masks)
    ensures PairwiseCompatible(g, masks)
  {
    hide NodeRule, Cumulative;
    forall n: nat, j: nat, k: nat | IsParent(g, j, n) && IsParent(g, k, n) && j != k
      ensures masks[j].perm <= masks[k].shared
    {
      assert Fits(g, own, masks, j);
    }
  }

  // What the invariant means for filters and image formats

  /** Edge k is the one a format node uses with the given role. */
  predicate FormatEdge(g: Graph, k: nat, role: Role) {
    && k < |g.edges| && g.edges[k].live && g.edges[k].role == role && g.edges[k].parent.Some?
    && g.edges[k].parent.value < |g.nodes| && g.nodes[g.edges[k].parent.value].kind.Format?
  }

  /** No file is used by a writable image and by another active one at the same time, unless sharing is forced. */
  lemma {:induction false} NoTwoWriters(g: Graph, own: OwnCheck, masks: seq<Masks>, j: nat, k: nat)
    requires GraphOk(g) && |masks| == |g.edges| && AllDerived(g, masks) && AllFit(g, own, masks)
    requires FormatEdge(g, j, File) && FormatEdge(g, k, File) && j != k && g.edges[j].bs == g.edges[k].bs
    ensures
      || !g.nodes[g.edges[j].parent.value].writable
      || g.nodes[g.edges[k].parent.value].inactive
      || g.nodes[g.edges[j].bs].forceShare
  {
    hide Cumulative, NodeRule, ChildPerm;
    var p, q, child := g.nodes[g.edges[j].parent.value], g.nodes[g.edges[k].parent.value], g.nodes[g.edges[j].bs];
    assert Fits(g, own, masks, j);
    assert Compatible(masks[j], masks[k]);
    if p.writable && !q.inactive && !child.forceShare {
      FormatFileExclusive(p, q, child, Some(masks[j]), Some(masks[k]),
                          Cumulative(g, masks, g.edges[j].parent.value), Cumulative(g, masks, g.edges[k].parent.value));
    }
  }

  /** One more image on a backing file never conflicts with the images that use it already. */
  lemma {:induction false} BackingNeverRefused(g: Graph, masks: seq<Masks>, e: Edge, m: Masks)
    requires GraphOk(g) && |masks| == |g.edges| && AllDerived(g, masks) && EdgeOk(g, e) && NewMasks(g, masks, e, m)
    requires e.role.Backing? && e.parent.Some? && g.nodes[e.parent.value].kind.Format?
    requires forall f: nat :: IsParent(g, f, e.bs) ==> FormatEdge(g, f, Backing)
    ensures Admits(g, masks, e.bs, m, {})
  {
    hide Cumulative, ChildPerm;
    forall f: nat | IsParent(g, f, e.bs)
      ensures Compatible(m, masks[f])
    {
      var p := g.edges[f].parent.value;
      assert DerivedFrom(g, masks, f, Cumulative(g, masks, p));
      BackingAlwaysShared(g.nodes[e.parent.value], g.nodes[p], g.nodes[e.bs], None, Some(masks[f]),
                          Cumulative(g, masks, e.parent.value), Cumulative(g, masks, p));
    }
  }

  /** A filter guards its users: what they need and share of the data holds against other users of the filtered node. */
  lemma {:induction false} FilterGuards(g: Graph, own: OwnCheck, masks: seq<Masks>, u: nat, k: nat, f: nat)
    requires GraphOk(g) && |masks| == |g.edges| && AllDerived(g, masks) && AllFit(g, own, masks)
    requires k < |g.edges| && g.edges[k].live && g.edges[k].parent.Some? && IsParent(g, u, g.edges[k].parent.value)
    requires g.nodes[g.edges[k].parent.value].kind.Filter? && IsParent(g, f, g.edges[k].bs) && f != k
    ensures masks[u].perm * PASSTHROUGH <= masks[f].shared
    ensures !g.nodes[g.edges[k].bs].forceShare ==> masks[f].perm * PASSTHROUGH <= masks[u].shared
  {
    hide NodeRule;
    var p := g.edges[k].parent.value;
    var c := Cumulative(g, masks, p);
    assert Fits(g, own, masks, k) && Compatible(masks[k], masks[f]);
    assert masks[u].perm <= c.perm && c.shared <= masks[u].shared;
    assert DerivedFrom(g, masks, k, c);
  }

  /** The edges from i on. */
  ghost function From(g: Graph, i: nat): (s: set<nat>)
    ensures forall k: nat :: k in s <==> i <= k < |g.edges|
    decreases |g.edges| - i
  {
    if i >= |g.edges| then {} else {i} + From(g, i + 1)
  }

  lemma {:induction false} OverNone(g: Graph, masks: seq<Masks>, n: nat, skip: set<nat>, m: Masks)
    requires |masks| == |g.edges|
    ensures Over(g, masks, n, skip + From(g, 0), m) == m
  {
    var o := Over(g, masks, n, skip + From(g, 0), m);
    assert o.perm == m.perm && o.shared == m.shared;
  }

  lemma {:induction false} OverAll(g: Graph, masks: seq<Masks>, n: nat, skip: set<nat>, m: Masks)
    requires |masks| == |g.edges|
    ensures Over(g, masks, n, skip + From(g, |g.edges|), m) == Over(g, masks, n, skip, m)
  {
    assert skip + From(g, |g.edges|) == skip;
  }

  /** Taking one more edge into account. */
  lemma {:induction false} OverNext(g: Graph, masks: seq<Masks>, n: nat, skip: set<nat>, m: Masks, i: nat)
    requires |masks| == |g.edges| && i < |g.edges|
    ensures var a := Over(g, masks, n, skip + From(g, i), m);
      Over(g, masks, n, skip + From(g, i + 1), m) ==
      if IsParent(g, i, n) && i !in skip then Masks(a.perm + masks[i].perm, a.shared * masks[i].shared) else a
  {
    var a, b := Over(g, masks, n, skip + From(g, i), m), Over(g, masks, n, skip + From(g, i + 1), m);
    var c := if IsParent(g, i, n) && i !in skip then Masks(a.perm + masks[i].perm, a.shared * masks[i].shared) else a;
    assert forall k: nat :: k in skip + From(g, i) <==> k in skip + From(g, i + 1) || k == i;
    assert b.perm == c.perm;
    assert b.shared == c.shared;
  }

  lemma {:induction false} OverTolerant(g: Graph, masks: seq<Masks>, n: nat, skip: set<nat>, m: Masks)
    requires |masks| == |g.edges| && AllTolerant(g, masks) && WriteUnchanged in m.shared
    ensures WriteUnchanged in Over(g, masks, n, skip, m).shared
  {
  }

  // Changing the masks of an edge

  /** next is what comes of setting edge e to m. */
  ghost predicate Updated(g: Graph, rank: nat -> nat, masks: seq<Masks>, next: seq<Masks>, e: nat, m: Masks)
    requires GraphOk(g) && Ranked(g, rank) && |masks| == |next| == |g.edges| && e < |g.edges|
  {
    var b, mid := g.edges[e].bs, masks[e := m];
    OnlyBelow(g, rank, mid, next, b) && Settled(g, rank, mid, next, b, Cumulative(g, mid, b))
  }

  lemma {:induction false} UpdatedFacts(g: Graph, rank: nat -> nat, masks: seq<Masks>, next: seq<Masks>, e: nat,
                                        m: Masks)
    requires GraphOk(g) && Ranked(g, rank) && |masks| == |next| == |g.edges| && e < |g.edges|
    requires g.edges[e].live && Updated(g, rank, masks, next, e, m)
    ensures next[e] == m && OutsideSame(g, rank, masks, next, g.edges[e].bs)
    ensures forall f: nat :: IsParent(g, f, g.edges[e].bs) && f != e ==> next[f] == masks[f]
    ensures Settled(g, rank, masks, next, g.edges[e].bs, Cumulative(g, next, g.edges[e].bs))
    ensures Over(g, masks, g.edges[e].bs, {e}, m) == Cumulative(g, next, g.edges[e].bs)
  {
    hide Below, Cumulative, Put, Over;
    var b, mid := g.edges[e].bs, masks[e := m];
    RoundCumulative(g, rank, mid, next, b);
    if Below(g, rank, b, e) { UnderEnd(g, rank, b, e); }
    forall f: nat | IsParent(g, f, b)
      ensures next[f] == mid[f]
    {
      if Below(g, rank, b, f) { UnderEnd(g, rank, b, f); }
    }
    OverOne(g, masks, next, b, e, {e});
  }

  /** In any acyclic graph: after a successful check, edges into clear nodes fit if they did before. */
  lemma {:induction false} UpdateKeeps(g: Graph, rank: nat -> nat, own: OwnCheck, masks: seq<Masks>, next: seq<Masks>,
                                       e: nat, m: Masks, k: nat)
    requires GraphOk(g) && Ranked(g, rank) && |masks| == |next| == |g.edges| && e < |g.edges| && k < |g.edges|
    requires g.edges[e].live && Updated(g, rank, masks, next, e, m) && ChecksEdge(g, rank, own, masks, e, m, {})
    requires g.edges[k].live && Clear(g, rank, g.edges[e].bs, g.edges[k].bs) && (k == e || Fits(g, own, masks, k))
    ensures Fits(g, own, next, k)
  {
    hide Below, Cumulative, Put, Over, NodeRule, Updated, Settled, OutsideSame, Clear;
    var b := g.edges[e].bs;
    UpdatedFacts(g, rank, masks, next, e, m);
    assert {} + {e} == {e};
    assert Checks(g, rank, own, masks, b, Cumulative(g, next, b), {e});
    if g.edges[k].bs != b {
      FitsAfter(g, rank, own, masks, next, b, Cumulative(g, next, b), {e}, k);
    } else {
      UserFits(g, own, masks, next, e, m, k);
    }
  }

  /** What an accepted update of node b keeps. */
  ghost predicate ClearFits(g: Graph, rank: nat -> nat, own: OwnCheck, masks: seq<Masks>, next: seq<Masks>, b: nat)
    requires GraphOk(g) && Ranked(g, rank) && |masks| == |next| == |g.edges|
  {
    forall k: nat :: k < |g.edges| && g.edges[k].live && Clear(g, rank, b, g.edges[k].bs) && Fits(g, own, masks, k) ==>
      Fits(g, own, next, k)
  }

  lemma {:induction false} UpdateClearFits(g: Graph, rank: nat -> nat, own: OwnCheck, masks: seq<Masks>,
                                           next: seq<Masks>, e: nat, m: Masks)
    requires GraphOk(g) && Ranked(g, rank) && |masks| == |next| == |g.edges| && e < |g.edges|
    requires g.edges[e].live && Updated(g, rank, masks, next, e, m) && ChecksEdge(g, rank, own, masks, e, m, {})
    ensures ClearFits(g, rank, own, masks, next, g.edges[e].bs) && Fits(g, own, next, e)
  {
    hide Updated, ChecksEdge, Fits, Clear;
    forall k: nat | k < |g.edges| && g.edges[k].live && Clear(g, rank, g.edges[e].bs, g.edges[k].bs)
      && Fits(g, own, masks, k)
      ensures Fits(g, own, next, k)
    {
      UpdateKeeps(g, rank, own, masks, next, e, m, k);
    }
    assert Clear(g, rank, g.edges[e].bs, g.edges[e].bs) by { ClearTop(g, rank, g.edges[e].bs); }
    UpdateKeeps(g, rank, own, masks, next, e, m, e);
  }

  lemma {:induction false} ClearTop(g: Graph, rank: nat -> nat, b: nat)
    requires Ranked(g, rank)
    ensures Clear(g, rank, b, b)
  {
  }

  /** Where one path leads to each node, the check is exact: it succeeds if and only if everything fits afterwards. */
  lemma {:induction false} UpdateExact(g: Graph, rank: nat -> nat, own: OwnCheck, masks: seq<Masks>, next: seq<Masks>,
                                       e: nat, m: Masks)
    requires GraphOk(g) && Ranked(g, rank) && |masks| == |next| == |g.edges| && e < |g.edges|
    requires g.edges[e].live && SinglePath(g, rank, g.edges[e].bs)
    requires AllFit(g, own, masks) && Updated(g, rank, masks, next, e, m)
    ensures ChecksEdge(g, rank, own, masks, e, m, {}) <==> AllFit(g, own, next)
  {
    hide Below, Cumulative, Put, Over, NodeRule, Updated, Settled, OutsideSame, SinglePath, Checks, Clear;
    var b := g.edges[e].bs;
    UpdatedFacts(g, rank, masks, next, e, m);
    if ChecksEdge(g, rank, own, masks, e, m, {}) {
      forall k: nat | k < |g.edges| && g.edges[k].live
        ensures Fits(g, own, next, k)
      {
        SinglePathClear(g, rank, b, g.edges[k].bs);
        UpdateKeeps(g, rank, own, masks, next, e, m, k);
      }
    }
    if AllFit(g, own, next) {
      KeepsOthers(g, rank, masks, next, b, {e});
      CheckExact(g, rank, own, masks, next, b, Cumulative(g, next, b), {e});
      assert {} + {e} == {e};
      assert Fits(g, own, next, e);
    }
  }

  // Loosening an edge

  /** A looser mask is never refused, in any acyclic graph where what is below is in order. */
  lemma {:induction false} LooserNeverFails(g: Graph, rank: nat -> nat, own: OwnCheck, masks: seq<Masks>, e: nat,
                                            m: Masks)
    requires GraphOk(g) && Ranked(g, rank) && |masks| == |g.edges| && e < |g.edges| && g.edges[e].live && Monotone(own)
    requires InOrder(g, rank, own, masks, g.edges[e].bs, Cumulative(g, masks, g.edges[e].bs)) && Fits(g, own, masks, e)
    requires Looser(m, masks[e])
    ensures ChecksEdge(g, rank, own, masks, e, m, {})
  {
    hide Cumulative, NodeRule, Monotone, InOrder, Over;
    var b := g.edges[e].bs;
    OverLooser(g, masks, e, {}, m);
    LooseningChecks(g, rank, own, masks, b, Over(g, masks, b, {} + {e}, m), Cumulative(g, masks, b), {} + {e});
    assert Admits(g, masks, b, m, {} + {e});
  }

  lemma {:induction false} AllInOrder(g: Graph, rank: nat -> nat, own: OwnCheck, masks: seq<Masks>, b: nat)
    requires GraphOk(g) && Ranked(g, rank) && |masks| == |g.edges| && AllDerived(g, masks) && AllFit(g, own, masks)
    ensures InOrder(g, rank, own, masks, b, Cumulative(g, masks, b))
  {
    hide Cumulative, Fits, DerivedFrom, Below;
  }

  /** And afterwards every edge is looser and fits, again in any acyclic graph. */
  lemma {:induction false} LooserFits(g: Graph, rank: nat -> nat, own: OwnCheck, masks: seq<Masks>, next: seq<Masks>,
                                      e: nat, m: Masks)
    requires GraphOk(g) && Ranked(g, rank) && |masks| == |next| == |g.edges| && e < |g.edges| && g.edges[e].live
    requires Monotone(own) && AllFit(g, own, masks) && Looser(m, masks[e]) && Updated(g, rank, masks, next, e, m)
    requires InOrder(g, rank, own, masks, g.edges[e].bs, Cumulative(g, masks, g.edges[e].bs))
    ensures AllFit(g, own, next) && forall k: nat :: k < |g.edges| ==> Looser(next[k], masks[k])
  {
    hide Cumulative, NodeRule, Monotone, InOrder, Over, Settled, Below, Fits;
    var b := g.edges[e].bs;
    UpdatedFacts(g, rank, masks, next, e, m);
    var was, now := Cumulative(g, masks, b), Cumulative(g, next, b);
    assert forall f: nat :: IsParent(g, f, b) ==> Looser(next[f], masks[f]);
    CumulativeLooser(g, masks, next, b);
    forall k: nat | k < |g.edges| && !Below(g, rank, b, k)
      ensures Looser(next[k], masks[k])
    {
    }
    forall k: nat | k < |g.edges|
      ensures Looser(next[k], masks[k])
    {
      LooseningLoosens(g, rank, own, masks, next, b, now, was, k);
    }
    forall k: nat | k < |g.edges| && g.edges[k].live
      ensures Fits(g, own, next, k)
    {
      FitsLooser(g, own, masks, next, k);
    }
  }

  lemma {:induction false} UserFits(g: Graph, own: OwnCheck, masks: seq<Masks>, next: seq<Masks>, e: nat, m: Masks,
                                    k: nat)
    requires GraphOk(g) && |masks| == |next| == |g.edges| && e < |g.edges| && k < |g.edges|
    requires g.edges[e].live && g.edges[k].live && g.edges[k].bs == g.edges[e].bs
    requires k == e || Fits(g, own, masks, k)
    requires next[e] == m && forall f: nat :: IsParent(g, f, g.edges[e].bs) && f != e ==> next[f] == masks[f]
    requires Admits(g, masks, g.edges[e].bs, m, {e})
    requires NodeRule(g, own, g.edges[e].bs, Cumulative(g, next, g.edges[e].bs))
    ensures Fits(g, own, next, k)
  {
    hide Cumulative, NodeRule;
  }

  /** All edges between nodes but e have what their parents' cumulative masks say. */
  ghost predicate DerivedBut(g: Graph, masks: seq<Masks>, e: nat)
    requires GraphOk(g) && |masks| == |g.edges|
  {
    forall k: nat :: k < |g.edges| && g.edges[k].live && g.edges[k].parent.Some? && k != e ==>
      DerivedFrom(g, masks, k, Cumulative(g, masks, g.edges[k].parent.value))
  }

  lemma {:induction false} UpdateDerived(g: Graph, rank: nat -> nat, masks: seq<Masks>, next: seq<Masks>, e: nat,
                                         m: Masks)
    requires GraphOk(g) && Ranked(g, rank) && |masks| == |next| == |g.edges| && e < |g.edges|
    requires g.edges[e].live && Updated(g, rank, masks, next, e, m) && DerivedBut(g, masks, e)
    ensures DerivedBut(g, next, e)
  {
    hide Below, Cumulative, Put, Updated, DerivedFrom, Settled, OutsideSame;
    var b := g.edges[e].bs;
    UpdatedFacts(g, rank, masks, next, e, m);
    var was, now := Cumulative(g, masks, b), Cumulative(g, next, b);
    forall k: nat | k < |g.edges| && g.edges[k].live && g.edges[k].parent.Some? && k != e
      ensures DerivedFrom(g, next, k, Cumulative(g, next, g.edges[k].parent.value))
    {
      DerivedAfter(g, rank, masks, next, b, now, was, k);
    }
  }

  lemma {:induction false} UpdateTolerant(g: Graph, rank: nat -> nat, masks: seq<Masks>, next: seq<Masks>, e: nat,
                                          m: Masks)
    requires GraphOk(g) && Ranked(g, rank) && |masks| == |next| == |g.edges| && e < |g.edges|
    requires g.edges[e].live && Updated(g, rank, masks, next, e, m)
    requires AllTolerant(g, masks) && WriteUnchanged in m.shared
    ensures AllTolerant(g, next)
  {
    hide Below, Cumulative, Put, Updated, Settled, OutsideSame;
    var b := g.edges[e].bs;
    UpdatedFacts(g, rank, masks, next, e, m);
    NowTolerant(g, masks, next, e);
    forall k: nat | k < |g.edges| && g.edges[k].live
      ensures WriteUnchanged in next[k].shared
    {
      if g.edges[k].bs != b { TolerantAfter(g, rank, masks, next, b, Cumulative(g, next, b), k); }
    }
  }

  lemma {:induction false} NowTolerant(g: Graph, masks: seq<Masks>, next: seq<Masks>, e: nat)
    requires |masks| == |next| == |g.edges| && e < |g.edges| && AllTolerant(g, masks)
    requires WriteUnchanged in next[e].shared
    requires forall f: nat :: IsParent(g, f, g.edges[e].bs) && f != e ==> next[f] == masks[f]
    ensures WriteUnchanged in Cumulative(g, next, g.edges[e].bs).shared
  {
    InAll(WriteUnchanged);
  }

  // Why a single path is needed

  /** A filter (node 1) that uses the same node (0) through two edges, and a user of the filter. */
  ghost function Diamond(): Graph {
    var node := Node(Filter, true, false, false, false);
    Graph([node.(kind := Leaf), node],
          [Edge(true, Some(1), 0, Other), Edge(true, Some(1), 0, Other), Edge(true, None, 1, Other)])
  }

  ghost function Height(n: nat): nat { n }

  /** Nobody asks for anything. */
  ghost function Idle(): seq<Masks> { [Masks({}, ALL), Masks({}, ALL), Masks({}, ALL)] }

  /** The user writes and lets nobody else write; the filter passes that on twice. */
  ghost function Greedy(): Masks { Masks({Write}, ALL - {Write}) }

  ghost function AllGreedy(): seq<Masks> { [Greedy(), Greedy(), Greedy()] }

  lemma {:induction false} DiamondShape()
    ensures GraphOk(Diamond()) && Ranked(Diamond(), Height)
    ensures forall k: nat :: IsChild(Diamond(), k, 1) <==> k < 2
    ensures forall k: nat :: IsParent(Diamond(), k, 0) <==> k < 2
    ensures forall k: nat :: IsParent(Diamond(), k, 1) <==> k == 2
    ensures forall k: nat :: !IsChild(Diamond(), k, 0)
  {
    var g := Diamond();
    assert g.edges[0].parent == Some(1) && g.edges[1].parent == Some(1) && g.edges[2].parent == None;
    assert g.nodes[1].kind.Filter?;
  }

  lemma {:induction false} DiamondPut(k: nat, c: Masks)
    requires k < 2 && c == Masks({}, ALL)
    ensures GraphOk(Diamond()) && Put(Diamond(), k, c, Greedy()) == Greedy()
  {
    DiamondShape();
    var p := Put(Diamond(), k, c, Greedy());
    assert p.perm == {Write};
    assert p.shared == ALL - {Write};
  }

  /** Each path, checked against the other's old masks, passes. */
  lemma {:induction false} DiamondCheck(own: OwnCheck)
    ensures GraphOk(Diamond()) && Ranked(Diamond(), Height)
    ensures ChecksEdge(Diamond(), Height, own, Idle(), 2, Greedy(), {})
  {
    DiamondShape();
    var g, masks := Diamond(), Idle();
    var top := Over(g, masks, 1, {} + {2}, Greedy());
    assert top == Greedy() by {
      assert top.perm == Greedy().perm;
      assert top.shared == Greedy().shared;
    }
    forall k: nat | IsChild(g, k, 1)
      ensures ChecksEdge(g, Height, own, masks, k, Put(g, k, masks[k], Greedy()), {} + {2})
    {
      DiamondPut(k, masks[k]);
      var skip := {} + {2} + {k};
      assert Admits(g, masks, 0, Greedy(), skip);
      assert Checks(g, Height, own, masks, 0, Over(g, masks, 0, skip, Greedy()), skip);
    }
  }

  lemma {:induction false} DiamondUnder(m: nat)
    requires Ranked(Diamond(), Height)
    ensures Under(Diamond(), Height, 1, m) <==> m < 2
  {
    DiamondShape();
    var g := Diamond();
    assert IsChild(g, 0, 1) && g.edges[0].bs == 0;
    if m == 0 { assert Under(g, Height, g.edges[0].bs, m); }
  }

  /** The update is made, and the filter's two edges conflict. */
  lemma {:induction false} DiamondConflict(own: OwnCheck)
    ensures GraphOk(Diamond()) && Ranked(Diamond(), Height)
    ensures AllFit(Diamond(), own, Idle()) && AllDerived(Diamond(), Idle())
    ensures ChecksEdge(Diamond(), Height, own, Idle(), 2, Greedy(), {})
    ensures Updated(Diamond(), Height, Idle(), AllGreedy(), 2, Greedy())
    ensures !PairwiseCompatible(Diamond(), AllGreedy())
  {
    DiamondShape();
    DiamondCheck(own);
    var g, masks, next := Diamond(), Idle(), AllGreedy();
    assert IsParent(g, 0, 0) && IsParent(g, 1, 0);
    assert next[0].perm == {Write} && Write !in next[1].shared;
    assert !PairwiseCompatible(g, next);
    DiamondIdle(own);
    DiamondUpdated();
  }

  lemma {:induction false} IdleCumulative(n: nat)
    ensures Cumulative(Diamond(), Idle(), n) == Masks({}, ALL)
  {
    var c := Cumulative(Diamond(), Idle(), n);
    assert c.perm == {};
    assert c.shared == ALL;
  }

  lemma {:induction false} IdlePut(k: nat)
    requires k < 2
    ensures GraphOk(Diamond()) && Put(Diamond(), k, Idle()[k], Masks({}, ALL)) == Idle()[k]
  {
    DiamondShape();
    var p := Put(Diamond(), k, Idle()[k], Masks({}, ALL));
    assert p.perm == {};
    assert p.shared == ALL;
  }

  lemma {:induction false} DiamondIdle(own: OwnCheck)
    ensures GraphOk(Diamond()) && AllFit(Diamond(), own, Idle()) && AllDerived(Diamond(), Idle())
  {
    hide Cumulative, Put;
    DiamondShape();
    IdleCumulative(0);
    IdleCumulative(1);
    IdlePut(0);
    IdlePut(1);
  }

  lemma {:induction false} DiamondUpdated()
    ensures GraphOk(Diamond()) && Ranked(Diamond(), Height)
    ensures Updated(Diamond(), Height, Idle(), AllGreedy(), 2, Greedy())
  {
    DiamondShape();
    var g, masks, next := Diamond(), Idle(), AllGreedy();
    var mid := masks[2 := Greedy()];
    var c := Cumulative(g, mid, 1);
    assert c == Greedy() by {
      assert IsParent(g, 2, 1) && mid[2] == Greedy();
      assert c.perm == Greedy().perm;
      assert c.shared == Greedy().shared;
    }
    forall k: nat | k < 3
      ensures Below(g, Height, 1, k) <==> k < 2
    {
      if k < 2 { DiamondUnder(1); }
    }
    DiamondPut(0, mid[0]);
    DiamondPut(1, mid[1]);
  }

  // A new edge

  function Link(g: Graph, e: Edge): Graph { Graph(g.nodes, g.edges + [e]) }

  /** The edge fits into the graph and closes no cycle. */
  ghost predicate Linkable(g: Graph, rank: nat -> nat, e: Edge) {
    GraphOk(g) && e.live && EdgeOk(g, e) && Ranked(Link(g, e), rank)
  }

  lemma {:induction false} LinkOk(g: Graph, rank: nat -> nat, e: Edge)
    requires Linkable(g, rank, e)
    ensures Ranked(g, rank) && GraphOk(Link(g, e)) && (e.parent.Some? ==> rank(e.bs) < rank(e.parent.value))
  {
    var h := Link(g, e);
    assert h.edges[|g.edges|] == e;
    assert forall k :: 0 <= k < |g.edges| ==> h.edges[k] == g.edges[k];
  }

  lemma {:induction false} LinkSame(g: Graph, e: Edge, k: nat, n: nat)
    requires k < |g.edges|
    ensures IsParent(Link(g, e), k, n) == IsParent(g, k, n) && IsChild(Link(g, e), k, n) == IsChild(g, k, n)
  {
  }

  /** What can be reached from below the new edge is what could be reached before. */
  lemma {:induction false} LinkUnder(g: Graph, rank: nat -> nat, e: Edge, n: nat, x: nat)
    requires Linkable(g, rank, e) && Ranked(g, rank) && (e.parent.Some? ==> rank(n) < rank(e.parent.value))
    ensures Under(Link(g, e), rank, n, x) <==> Under(g, rank, n, x)
    decreases rank(n)
  {
    var h := Link(g, e);
    if Under(h, rank, n, x) && n != x {
      var k: nat :| IsChild(h, k, n) && Under(h, rank, h.edges[k].bs, x);
      LinkUnder(g, rank, e, g.edges[k].bs, x);
      assert IsChild(g, k, n);
    }
    if Under(g, rank, n, x) && n != x {
      var k: nat :| IsChild(g, k, n) && Under(g, rank, g.edges[k].bs, x);
      LinkUnder(g, rank, e, g.edges[k].bs, x);
      assert IsChild(h, k, n) && h.edges[k] == g.edges[k];
    }
  }

  lemma {:induction false} LinkBelow(g: Graph, rank: nat -> nat, e: Edge, k: nat)
    requires Linkable(g, rank, e) && Ranked(g, rank)
    ensures Below(Link(g, e), rank, e.bs, k) <==> Below(g, rank, e.bs, k)
  {
    LinkOk(g, rank, e);
    if k < |g.edges| {
      if g.edges[k].parent.Some? { LinkUnder(g, rank, e, e.bs, g.edges[k].parent.value); }
    } else if k == |g.edges| && Below(Link(g, e), rank, e.bs, k) {
      UnderRank(Link(g, e), rank, e.bs, e.parent.value);
    }
  }

  /** Cumulative masks with the new edge. */
  lemma {:induction false} LinkCumulative(g: Graph, e: Edge, masks: seq<Masks>, m: Masks, n: nat)
    requires |masks| == |g.edges| && e.live
    ensures Cumulative(Link(g, e), masks + [m], n) ==
      if n == e.bs then Over(g, masks, n, {}, m) else Cumulative(g, masks, n)
  {
    var h, ms := Link(g, e), masks + [m];
    var a := Cumulative(h, ms, n);
    var b := if n == e.bs then Over(g, masks, n, {}, m) else Cumulative(g, masks, n);
    assert ms[|masks|] == m && (IsParent(h, |masks|, n) <==> n == e.bs);
    forall k: nat | k < |g.edges|
      ensures IsParent(h, k, n) == IsParent(g, k, n) && ms[k] == masks[k]
    {
      LinkSame(g, e, k, n);
    }
    forall p: Perm
      ensures p in a.perm <==> p in b.perm
      ensures p in a.shared <==> p in b.shared
    {
      InAll(p);
    }
  }

  /** next is what comes of linking edge e with masks m. */
  ghost predicate Attached(g: Graph, rank: nat -> nat, e: Edge, masks: seq<Masks>, next: seq<Masks>, m: Masks)
    requires Linkable(g, rank, e) && GraphOk(Link(g, e)) && |masks| == |g.edges| && |next| == |g.edges| + 1
  {
    var h, mid := Link(g, e), masks + [m];
    OnlyBelow(h, rank, mid, next, e.bs) && Settled(h, rank, mid, next, e.bs, Cumulative(h, mid, e.bs))
  }

  /** In terms of the graph without the new edge: an update of its node. */
  lemma {:induction false} AttachedFacts(g: Graph, rank: nat -> nat, e: Edge, masks: seq<Masks>, next: seq<Masks>,
                                         m: Masks)
    requires Linkable(g, rank, e) && Ranked(g, rank) && GraphOk(Link(g, e)) && |masks| == |g.edges|
    requires |next| == |g.edges| + 1 && Attached(g, rank, e, masks, next, m)
    ensures next == next[..|g.edges|] + [m] && OnlyBelow(g, rank, masks, next[..|g.edges|], e.bs)
    ensures Settled(g, rank, masks, next[..|g.edges|], e.bs, Over(g, masks, e.bs, {}, m))
  {
    hide Below, Cumulative, Put, Over;
    var h, mid, kept := Link(g, e), masks + [m], next[..|g.edges|];
    LinkBelow(g, rank, e, |g.edges|);
    assert next[|g.edges|] == m;
    assert next == kept + [m];
    LinkCumulative(g, e, masks, m, e.bs);
    forall k: nat | k < |g.edges|
      ensures Below(g, rank, e.bs, k) ==>
        kept[k] == Put(g, k, masks[k], CumulativeAs(g, kept, e.bs, Over(g, masks, e.bs, {}, m),
          g.edges[k].parent.value))
      ensures !Below(g, rank, e.bs, k) ==> kept[k] == masks[k]
    {
      LinkBelow(g, rank, e, k);
      if Below(g, rank, e.bs, k) {
        LinkCumulative(g, e, kept, m, g.edges[k].parent.value);
        LinkPut(g, e, k, masks[k], CumulativeAs(h, next, e.bs, Cumulative(h, mid, e.bs), g.edges[k].parent.value));
      }
    }
  }

  lemma {:induction false} LinkPut(g: Graph, e: Edge, k: nat, c: Masks, m: Masks)
    requires GraphOk(g) && GraphOk(Link(g, e)) && k < |g.edges| && g.edges[k].live && g.edges[k].parent.Some?
    ensures Put(Link(g, e), k, c, m) == Put(g, k, c, m)
  {
  }

  /** An edge into another node fits with the new edge as it fits without. */
  lemma {:induction false} LinkFits(g: Graph, e: Edge, own: OwnCheck, masks: seq<Masks>, m: Masks, k: nat)
    requires GraphOk(g) && GraphOk(Link(g, e)) && |masks| == |g.edges| && e.live && k < |g.edges| && g.edges[k].live
    requires g.edges[k].bs != e.bs && Fits(g, own, masks, k)
    ensures Fits(Link(g, e), own, masks + [m], k)
  {
    hide Cumulative, NodeRule;
    var h, ms, q := Link(g, e), masks + [m], g.edges[k].bs;
    LinkCumulative(g, e, masks, m, q);
    assert NodeRule(h, own, q, Cumulative(h, ms, q)) by { SameRule(g, h, own, q, Cumulative(g, masks, q)); }
    forall f: nat | IsParent(h, f, q) && f != k
      ensures Compatible(ms[k], ms[f])
    {
      assert f < |g.edges|;
      LinkSame(g, e, f, q);
    }
  }

  lemma {:induction false} SameRule(g: Graph, h: Graph, own: OwnCheck, n: nat, m: Masks)
    requires g.nodes == h.nodes && n < |g.nodes|
    ensures NodeRule(g, own, n, m) == NodeRule(h, own, n, m)
  {
  }

  lemma {:induction false} LinkUserFits(g: Graph, e: Edge, own: OwnCheck, masks: seq<Masks>, m: Masks, k: nat)
    requires GraphOk(g) && GraphOk(Link(g, e)) && |masks| == |g.edges| && e.live && EdgeOk(g, e)
    requires k < |g.edges| + 1 && Link(g, e).edges[k].live && Link(g, e).edges[k].bs == e.bs
    requires k < |g.edges| ==> Admits(g, masks, e.bs, masks[k], {k})
    requires Admits(g, masks, e.bs, m, {}) && NodeRule(g, own, e.bs, Over(g, masks, e.bs, {}, m))
    ensures Fits(Link(g, e), own, masks + [m], k)
  {
    hide Cumulative, NodeRule, Over;
    var h, ms := Link(g, e), masks + [m];
    LinkCumulative(g, e, masks, m, e.bs);
    SameRule(g, h, own, e.bs, Over(g, masks, e.bs, {}, m));
    forall f: nat | IsParent(h, f, e.bs) && f != k
      ensures Compatible(ms[k], ms[f])
    {
      if f < |g.edges| { LinkSame(g, e, f, e.bs); }
      if k < |g.edges| { LinkSame(g, e, k, e.bs); }
    }
  }

  /** In any acyclic graph: after a checked attach the new edge fits, and edges into clear nodes do if they did before. */
  lemma {:induction false} AttachKeeps(g: Graph, rank: nat -> nat, own: OwnCheck, e: Edge, masks: seq<Masks>,
                                       next: seq<Masks>, m: Masks, k: nat)
    requires Linkable(g, rank, e) && Ranked(g, rank) && GraphOk(Link(g, e)) && |masks| == |g.edges|
    requires |next| == |g.edges| + 1 && Attached(g, rank, e, masks, next, m) && Admits(g, masks, e.bs, m, {})
    requires Checks(g, rank, own, masks, e.bs, Over(g, masks, e.bs, {}, m), {}) && k <= |g.edges|
    requires k < |g.edges| ==>
      g.edges[k].live && Clear(g, rank, e.bs, g.edges[k].bs) && Fits(g, own, masks, k)
    ensures k < |Link(g, e).edges| && Link(g, e).edges[k].live && Fits(Link(g, e), own, next, k)
  {
    hide Below, Cumulative, Put, Over, Attached, Settled, Fits, OnlyBelow, Link, Clear, OutsideSame;
    var b, now, cum := e.bs, next[..|g.edges|], Over(g, masks, e.bs, {}, m);
    AttachedFacts(g, rank, e, masks, next, m);
    OnlyBelowOutside(g, rank, masks, now, b);
    SameUsers(g, masks, now, b, m);
    LinkEdges(g, e);
    if k < |g.edges| && g.edges[k].bs != b {
      FitsAfter(g, rank, own, masks, now, b, cum, {}, k);
      LinkFits(g, e, own, now, m, k);
    } else {
      if k < |g.edges| { UserAdmits(g, own, masks, now, k); }
      LinkUserFits(g, e, own, now, m, k);
    }
  }

  /** What an accepted attach keeps. */
  ghost predicate ClearFitsLinked(g: Graph, rank: nat -> nat, own: OwnCheck, e: Edge, masks: seq<Masks>,
                                  next: seq<Masks>)
    requires Linkable(g, rank, e) && Ranked(g, rank) && GraphOk(Link(g, e)) && |masks| == |g.edges|
    requires |next| == |Link(g, e).edges| == |g.edges| + 1
  {
    && Link(g, e).edges[|g.edges|].live && Fits(Link(g, e), own, next, |g.edges|)
    && forall k: nat ::
        k < |g.edges| && g.edges[k].live && Clear(g, rank, e.bs, g.edges[k].bs) && Fits(g, own, masks, k) ==>
          Link(g, e).edges[k].live && Fits(Link(g, e), own, next, k)
  }

  lemma {:induction false} AttachClearFits(g: Graph, rank: nat -> nat, own: OwnCheck, e: Edge, masks: seq<Masks>,
                                           next: seq<Masks>, m: Masks)
    requires Linkable(g, rank, e) && Ranked(g, rank) && GraphOk(Link(g, e)) && |masks| == |g.edges|
    requires |next| == |Link(g, e).edges| == |g.edges| + 1
    requires Attached(g, rank, e, masks, next, m) && Admits(g, masks, e.bs, m, {})
    requires Checks(g, rank, own, masks, e.bs, Over(g, masks, e.bs, {}, m), {})
    ensures ClearFitsLinked(g, rank, own, e, masks, next)
  {
    hide Attached, Checks, Over, Fits, Clear, Link;
    AttachKeeps(g, rank, own, e, masks, next, m, |g.edges|);
    forall k: nat | k < |g.edges| && g.edges[k].live && Clear(g, rank, e.bs, g.edges[k].bs) && Fits(g, own, masks, k)
      ensures Link(g, e).edges[k].live && Fits(Link(g, e), own, next, k)
    {
      AttachKeeps(g, rank, own, e, masks, next, m, k);
    }
  }

  lemma {:induction false} AttachFits(g: Graph, rank: nat -> nat, own: OwnCheck, e: Edge, masks: seq<Masks>,
                                      next: seq<Masks>)
    requires Linkable(g, rank, e) && Ranked(g, rank) && GraphOk(Link(g, e)) && |masks| == |g.edges|
    requires |next| == |Link(g, e).edges| == |g.edges| + 1 && SinglePath(g, rank, e.bs)
    requires AllFit(g, own, masks) && ClearFitsLinked(g, rank, own, e, masks, next)
    ensures AllFit(Link(g, e), own, next)
  {
    hide Fits, Clear, SinglePath, Link;
    LinkEdges(g, e);
    forall k: nat | k < |Link(g, e).edges| && Link(g, e).edges[k].live
      ensures Fits(Link(g, e), own, next, k)
    {
      if k < |g.edges| { SinglePathClear(g, rank, e.bs, g.edges[k].bs); }
    }
  }

  lemma {:induction false} LinkEdges(g: Graph, e: Edge)
    ensures |Link(g, e).edges| == |g.edges| + 1 && Link(g, e).edges[|g.edges|] == e
    ensures forall k :: 0 <= k < |g.edges| ==> Link(g, e).edges[k] == g.edges[k]
  {
  }

  lemma {:induction false} UserAdmits(g: Graph, own: OwnCheck, masks: seq<Masks>, next: seq<Masks>, k: nat)
    requires GraphOk(g) && |masks| == |next| == |g.edges| && k < |g.edges| && g.edges[k].live && Fits(g, own, masks, k)
    requires forall f: nat :: IsParent(g, f, g.edges[k].bs) ==> next[f] == masks[f]
    ensures Admits(g, next, g.edges[k].bs, next[k], {k})
  {
    hide NodeRule, Cumulative;
  }

  lemma {:induction false} OnlyBelowOutside(g: Graph, rank: nat -> nat, masks: seq<Masks>, next: seq<Masks>, b: nat)
    requires Ranked(g, rank) && |masks| == |next| == |g.edges| && OnlyBelow(g, rank, masks, next, b)
    ensures OutsideSame(g, rank, masks, next, b)
    ensures forall f: nat :: IsParent(g, f, b) ==> next[f] == masks[f]
  {
    hide Below;
    forall f: nat | IsParent(g, f, b)
      ensures next[f] == masks[f]
    {
      if Below(g, rank, b, f) { UnderEnd(g, rank, b, f); }
    }
  }

  lemma {:induction false} OnlyBelowLooser(g: Graph, rank: nat -> nat, masks: seq<Masks>, next: seq<Masks>, b: nat)
    requires Ranked(g, rank) && |masks| == |next| == |g.edges| && OnlyBelow(g, rank, masks, next, b)
    ensures OutsideLooser(g, rank, masks, next, b)
  {
    hide Below;
  }

  lemma {:induction false} SameUsers(g: Graph, masks: seq<Masks>, next: seq<Masks>, b: nat, m: Masks)
    requires |masks| == |next| == |g.edges| && forall f: nat :: IsParent(g, f, b) ==> next[f] == masks[f]
    ensures Over(g, masks, b, {}, m) == Over(g, next, b, {}, m)
    ensures Admits(g, masks, b, m, {}) == Admits(g, next, b, m, {})
  {
    var x, y := Over(g, masks, b, {}, m), Over(g, next, b, {}, m);
    assert x.perm == y.perm;
    assert x.shared == y.shared;
  }

  /** The new edge has what its parent puts on a new child. */
  ghost predicate NewMasks(g: Graph, masks: seq<Masks>, e: Edge, m: Masks)
    requires |masks| == |g.edges| && EdgeOk(g, e)
  {
    && WriteUnchanged in m.shared
    && (e.parent.Some? ==>
        m == ChildPerm(g.nodes[e.parent.value], e.role, g.nodes[e.bs], None, Cumulative(g, masks, e.parent.value)))
  }

  lemma {:induction false} AttachDerived(g: Graph, rank: nat -> nat, e: Edge, masks: seq<Masks>, next: seq<Masks>,
                                         m: Masks)
    requires Linkable(g, rank, e) && Ranked(g, rank) && GraphOk(Link(g, e)) && |masks| == |g.edges|
    requires |next| == |g.edges| + 1 && Attached(g, rank, e, masks, next, m) && NewMasks(g, masks, e, m)
    requires AllDerived(g, masks) && AllTolerant(g, masks)
    ensures AllDerived(Link(g, e), next) && AllTolerant(Link(g, e), next)
  {
    hide Below, Cumulative, Put, Over, Attached, Settled, OnlyBelow, OutsideSame, Link, DerivedFrom, NewMasks;
    var h, b, now, cum := Link(g, e), e.bs, next[..|g.edges|], Over(g, masks, e.bs, {}, m);
    AttachedFacts(g, rank, e, masks, next, m);
    OnlyBelowOutside(g, rank, masks, now, b);
    SameUsers(g, masks, now, b, m);
    LinkEdges(g, e);
    assert WriteUnchanged in m.shared by { NewTolerant(g, masks, e, m); }
    OverTolerant(g, masks, b, {}, m);
    forall k: nat | k < |h.edges| && h.edges[k].live
      ensures WriteUnchanged in next[k].shared
    {
      if k < |g.edges| && g.edges[k].bs != b { TolerantAfter(g, rank, masks, now, b, cum, k); }
    }
    forall k: nat | k < |h.edges| && h.edges[k].live && h.edges[k].parent.Some?
      ensures DerivedFrom(h, next, k, Cumulative(h, next, h.edges[k].parent.value))
    {
      LinkCumulative(g, e, now, m, h.edges[k].parent.value);
      if k < |g.edges| {
        DerivedAfter(g, rank, masks, now, b, cum, Cumulative(g, masks, b), k);
        LinkDerived(g, e, now, m, k, Cumulative(h, next, h.edges[k].parent.value));
      } else {
        LinkOk(g, rank, e);
        NotUnderHigher(g, rank, b, e.parent.value);
        OutsideCumulative(g, rank, masks, now, b, e.parent.value);
        NewDerived(g, e, masks, next, m);
      }
    }
  }

  lemma {:induction false} NewTolerant(g: Graph, masks: seq<Masks>, e: Edge, m: Masks)
    requires |masks| == |g.edges| && EdgeOk(g, e) && NewMasks(g, masks, e, m)
    ensures WriteUnchanged in m.shared
  {
    hide Cumulative, ChildPerm;
  }

  lemma {:induction false} NotUnderHigher(g: Graph, rank: nat -> nat, b: nat, p: nat)
    requires Ranked(g, rank) && rank(b) < rank(p)
    ensures !Under(g, rank, b, p)
  {
    if Under(g, rank, b, p) { UnderRank(g, rank, b, p); }
  }

  lemma {:induction false} LinkDerived(g: Graph, e: Edge, masks: seq<Masks>, m: Masks, k: nat, c: Masks)
    requires GraphOk(g) && GraphOk(Link(g, e)) && |masks| == |g.edges|
    requires k < |g.edges| && g.edges[k].live && g.edges[k].parent.Some?
    ensures DerivedFrom(Link(g, e), masks + [m], k, c) == DerivedFrom(g, masks, k, c)
  {
    hide Put;
    LinkPut(g, e, k, masks[k], c);
  }

  lemma {:induction false} NewDerived(g: Graph, e: Edge, masks: seq<Masks>, next: seq<Masks>, m: Masks)
    requires GraphOk(g) && GraphOk(Link(g, e)) && |masks| == |g.edges| && |next| == |g.edges| + 1
    requires e.live && EdgeOk(g, e) && e.parent.Some? && NewMasks(g, masks, e, m) && next[|g.edges|] == m
    ensures DerivedFrom(Link(g, e), next, |g.edges|, Cumulative(g, masks, e.parent.value))
  {
    hide ChildPerm, Cumulative;
    LinkEdges(g, e);
    var c := Cumulative(g, masks, e.parent.value);
    ChildPermAbsorbs(g.nodes[e.parent.value], e.role, g.nodes[e.bs], None, c, c);
  }

  // A removed edge

  function Unlink(g: Graph, e: nat): Graph
    requires e < |g.edges|
  {
    Graph(g.nodes, g.edges[e := g.edges[e].(live := false)])
  }

  lemma {:induction false} UnlinkOk(g: Graph, rank: nat -> nat, e: nat)
    requires GraphOk(g) && Ranked(g, rank) && e < |g.edges|
    ensures GraphOk(Unlink(g, e)) && Ranked(Unlink(g, e), rank)
  {
    var h := Unlink(g, e);
    assert forall k :: 0 <= k < |g.edges| && h.edges[k].live ==> h.edges[k] == g.edges[k];
  }

  lemma {:induction false} UnlinkCumulative(g: Graph, e: nat, masks: seq<Masks>, n: nat)
    requires |masks| == |g.edges| && e < |g.edges|
    ensures Looser(Cumulative(Unlink(g, e), masks, n), Cumulative(g, masks, n))
    ensures n != g.edges[e].bs ==> Cumulative(Unlink(g, e), masks, n) == Cumulative(g, masks, n)
  {
    var h := Unlink(g, e);
    var a, b := Cumulative(h, masks, n), Cumulative(g, masks, n);
    assert forall k: nat :: k < |g.edges| ==> (IsParent(h, k, n) <==> IsParent(g, k, n) && k != e);
    if n != g.edges[e].bs {
      assert a.perm == b.perm;
      assert a.shared == b.shared;
    }
  }

  lemma {:induction false} UnlinkFits(g: Graph, own: OwnCheck, masks: seq<Masks>, e: nat, k: nat)
    requires GraphOk(g) && |masks| == |g.edges| && e < |g.edges| && k < |g.edges| && GraphOk(Unlink(g, e))
    requires Unlink(g, e).edges[k].live && Fits(g, own, masks, k) && Monotone(own)
    ensures Fits(Unlink(g, e), own, masks, k)
  {
    hide Cumulative, NodeRule, Monotone;
    var h, q := Unlink(g, e), g.edges[k].bs;
    UnlinkCumulative(g, e, masks, q);
    NodeRuleMonotone(g, own, q, Cumulative(h, masks, q), Cumulative(g, masks, q));
    SameRule(g, h, own, q, Cumulative(h, masks, q));
    assert forall f: nat :: IsParent(h, f, q) ==> IsParent(g, f, q);
  }

  lemma {:induction false} UnlinkDerived(g: Graph, masks: seq<Masks>, e: nat, k: nat)
    requires GraphOk(g) && |masks| == |g.edges| && e < |g.edges| && GraphOk(Unlink(g, e)) && AllDerived(g, masks)
    ensures DerivedAs(Unlink(g, e), masks, g.edges[e].bs, Cumulative(g, masks, g.edges[e].bs), k)
  {
    hide Cumulative, ChildPerm;
    if k < |g.edges| && Unlink(g, e).edges[k].live && g.edges[k].parent.Some? {
      UnlinkCumulative(g, e, masks, g.edges[k].parent.value);
    }
  }

  /**
   * Taking a user away only loosens: after edge e is gone, the check of its node for the remaining users succeeds, all
   * the way down.
   */
  lemma {:induction false} DetachNeverFails(g: Graph, rank: nat -> nat, own: OwnCheck, masks: seq<Masks>, e: nat)
    requires GraphOk(g) && Ranked(g, rank) && |masks| == |g.edges| && e < |g.edges| && g.edges[e].live
    requires Monotone(own) && AllDerived(g, masks) && AllFit(g, own, masks)
    ensures GraphOk(Unlink(g, e)) && Ranked(Unlink(g, e), rank)
    ensures InOrder(Unlink(g, e), rank, own, masks, g.edges[e].bs, Cumulative(g, masks, g.edges[e].bs))
    ensures Checks(Unlink(g, e), rank, own, masks, g.edges[e].bs, Cumulative(Unlink(g, e), masks, g.edges[e].bs), {})
  {
    hide Cumulative, Put, Below, NodeRule, Checks, Monotone, DerivedFrom;
    var h, b := Unlink(g, e), g.edges[e].bs;
    var was := Cumulative(g, masks, b);
    UnlinkOk(g, rank, e);
    forall k: nat | Below(h, rank, b, k)
      ensures Fits(h, own, masks, k) &&
        DerivedFrom(h, masks, k, CumulativeAs(h, masks, b, was, h.edges[k].parent.value))
    {
      UnlinkFits(g, own, masks, e, k);
      UnlinkDerived(g, masks, e, k);
    }
    UnlinkCumulative(g, e, masks, b);
    assert Fits(g, own, masks, e);
    SameRule(g, h, own, b, was);
    LooseningChecks(h, rank, own, masks, b, Cumulative(h, masks, b), was, {});
  }

  /** And what the following bdrv_set_perm leaves is in order again. */
  lemma {:induction false} DetachValid(g: Graph, rank: nat -> nat, own: OwnCheck, masks: seq<Masks>, next: seq<Masks>,
                                       e: nat)
    requires GraphOk(g) && Ranked(g, rank) && |masks| == |next| == |g.edges| && e < |g.edges| && g.edges[e].live
    requires Monotone(own) && AllDerived(g, masks) && AllFit(g, own, masks) && AllTolerant(g, masks)
    requires GraphOk(Unlink(g, e)) && Ranked(Unlink(g, e), rank)
    requires OnlyBelow(Unlink(g, e), rank, masks, next, g.edges[e].bs)
    requires Settled(Unlink(g, e), rank, masks, next, g.edges[e].bs, Cumulative(Unlink(g, e), masks, g.edges[e].bs))
    ensures AllDerived(Unlink(g, e), next) && AllTolerant(Unlink(g, e), next) && AllFit(Unlink(g, e), own, next)
    ensures forall k: nat :: k < |g.edges| ==> Looser(next[k], masks[k])
  {
    hide Cumulative, Put, Below, NodeRule, Checks, Monotone, DerivedFrom, InOrder, Settled, OnlyBelow, Fits,
      OutsideSame;
    var h, b := Unlink(g, e), g.edges[e].bs;
    var was, now := Cumulative(g, masks, b), Cumulative(h, masks, b);
    DetachNeverFails(g, rank, own, masks, e);
    UnlinkCumulative(g, e, masks, b);
    RoundCumulative(h, rank, masks, next, b);
    OnlyBelowOutside(h, rank, masks, next, b);
    OnlyBelowLooser(h, rank, masks, next, b);
    forall k: nat | k < |g.edges|
      ensures Looser(next[k], masks[k])
    {
      LooseningLoosens(h, rank, own, masks, next, b, now, was, k);
    }
    forall k: nat | k < |h.edges| && h.edges[k].live
      ensures Fits(h, own, next, k) && WriteUnchanged in next[k].shared
      ensures h.edges[k].parent.Some? ==> DerivedFrom(h, next, k, Cumulative(h, next, h.edges[k].parent.value))
    {
      UnlinkFits(g, own, masks, e, k);
      FitsLooser(h, own, masks, next, k);
      UnlinkDerived(g, masks, e, k);
      DerivedAfter(h, rank, masks, next, b, now, was, k);
    }
  }

  class BlockLayer {
    const own: OwnCheck
    var g: Graph
    var masks: seq<Masks>
    ghost var rank: nat -> nat

    ghost predicate Shaped()
      reads this
    {
      GraphOk(g) && Ranked(g, rank) && |masks| == |g.edges|
    }

    ghost predicate Valid()
      reads this
    {
      && Shaped() && Monotone(own)
      && AllDerived(g, masks) && AllTolerant(g, masks) && AllFit(g, own, masks)
    }

    /** A graph without edges. */
    constructor (nodes: seq<Node>, own: OwnCheck, ghost rank: nat -> nat)
      requires Monotone(own)
      ensures Valid() && g == Graph(nodes, []) && this.own == own
    {
      this.own := own;
      g, masks, this.rank := Graph(nodes, []), [], rank;
    }

    method GetCumulative(n: nat) returns (m: Masks)
      requires Shaped()
      ensures m == Cumulative(g, masks, n)
    {
      hide Over;
      m := Masks({}, ALL);
      OverNone(g, masks, n, {}, m);
      for i := 0 to |g.edges|
        invariant m == Over(g, masks, n, {} + From(g, i), Masks({}, ALL))
      {
        OverNext(g, masks, n, {}, Masks({}, ALL), i);
        if IsParent(g, i, n) {
          m := Masks(m.perm + masks[i].perm, m.shared * masks[i].shared);
        }
      }
      OverAll(g, masks, n, {}, Masks({}, ALL));
    }

    /** bdrv_check_update_perm. */
    method CheckUpdatePerm(n: nat, wanted: Masks, skip: set<nat>) returns (ok: bool)
      requires Shaped() && AllTolerant(g, masks) && n < |g.nodes| && WriteUnchanged in wanted.shared
      ensures ok == (Admits(g, masks, n, wanted, skip)
                     && Checks(g, rank, own, masks, n, Over(g, masks, n, skip, wanted), skip))
      decreases rank(n), 1
    {
      hide Over, Checks, AllTolerant;
      var m := wanted;
      OverNone(g, masks, n, skip, wanted);
      for i := 0 to |g.edges|
        invariant m == Over(g, masks, n, skip + From(g, i), wanted)
        invariant forall f: nat :: f < i && IsParent(g, f, n) && f !in skip ==> Compatible(wanted, masks[f])
      {
        OverNext(g, masks, n, skip, wanted, i);
        if IsParent(g, i, n) && i !in skip {
          if !(wanted.perm <= masks[i].shared) {
            return false;
          }
          if !(masks[i].perm <= wanted.shared) {
            return false;
          }
          m := Masks(m.perm + masks[i].perm, m.shared * masks[i].shared);
        }
      }
      OverAll(g, masks, n, skip, wanted);
      OverTolerant(g, masks, n, skip, wanted);
      ok := CheckPerm(n, m, skip);
    }

    /** bdrv_check_perm. */
    method CheckPerm(n: nat, m: Masks, skip: set<nat>) returns (ok: bool)
      requires Shaped() && AllTolerant(g, masks) && n < |g.nodes| && WriteUnchanged in m.shared
      ensures ok == Checks(g, rank, own, masks, n, m, skip)
      decreases rank(n), 0
    {
      hide Over, Put, AllTolerant;
      if !NodeRule(g, own, n, m) {
        return false;
      }
      for k := 0 to |g.edges|
        invariant forall j: nat :: j < k && IsChild(g, j, n) ==>
          ChecksEdge(g, rank, own, masks, j, Put(g, j, masks[j], m), skip)
      {
        if IsChild(g, k, n) {
          PutTolerant(g, k, masks[k], m);
          var sub := CheckUpdatePerm(g.edges[k].bs, Put(g, k, masks[k], m), skip + {k});
          if !sub {
            return false;
          }
        }
      }
      ok := true;
    }

    /** bdrv_set_perm. */
    method SetPerm(n: nat, m: Masks)
      requires Shaped()
      modifies `masks
      ensures Shaped() && OnlyBelow(g, rank, old(masks), masks, n) && Settled(g, rank, old(masks), masks, n, m)
      ensures AllAlike(g, old(masks), masks)
      decreases rank(n)
    {
      hide Cumulative, Put, OnlyBelow, Settled, AllAlike, SetUpTo, Below;
      ghost var start := masks;
      SetStart(g, rank, start, n, m);
      for k := 0 to |g.edges|
        invariant Shaped() && SetUpTo(g, rank, start, masks, n, m, k)
      {
        if IsChild(g, k, n) {
          ghost var before := masks;
          masks := masks[k := Put(g, k, masks[k], m)];
          var c := GetCumulative(g.edges[k].bs);
          SetPerm(g.edges[k].bs, c);
          SetStep(g, rank, start, before, masks, n, m, k);
        } else {
          SetSkip(g, rank, start, masks, n, m, k);
        }
      }
      SetDone(g, rank, start, masks, n, m);
    }

    /**
     * bdrv_child_try_set_perm, for any edge. It succeeds exactly when the checks do, and a refused change leaves every
     * edge as it was. An accepted one keeps all edges into clear nodes fitting, and so everything where one path leads
     * to each node. A looser mask is never refused and keeps everything fitting whatever the paths are.
     */
    method TrySetPerm(e: nat, m: Masks) returns (ok: bool)
      requires Shaped() && AllTolerant(g, masks) && e < |g.edges| && g.edges[e].live && WriteUnchanged in m.shared
      modifies `masks
      ensures Shaped() && AllTolerant(g, masks)
      ensures ok == ChecksEdge(g, rank, own, old(masks), e, m, {})
      ensures !ok ==> masks == old(masks)
      ensures ok ==> Updated(g, rank, old(masks), masks, e, m)
      ensures ok ==> ClearFits(g, rank, own, old(masks), masks, g.edges[e].bs) && Fits(g, own, masks, e)
      ensures AllFit(g, own, old(masks)) && SinglePath(g, rank, g.edges[e].bs) ==> AllFit(g, own, masks)
      ensures old(Valid()) && Looser(m, old(masks)[e]) ==> ok && AllFit(g, own, masks)
      ensures AllFit(g, own, masks) ==> PairwiseCompatible(g, masks)
      ensures AllDerived(g, old(masks)) ==> DerivedBut(g, masks, e)
      ensures old(Valid()) && g.edges[e].parent.None? && AllFit(g, own, masks) ==> Valid()
    {
      hide Cumulative, Put, OnlyBelow, Settled, AllAlike, Below, Checks, SinglePath, Over, Monotone, Fits,
           PairwiseCompatible, DerivedFrom, AllTolerant, ClearFits, InOrder, Clear;
      ghost var before := masks;
      LooserPasses(e, m);
      assert {} + {e} == {e};
      ok := CheckUpdatePerm(g.edges[e].bs, m, {e});
      if ok {
        masks := masks[e := m];
        var c := GetCumulative(g.edges[e].bs);
        SetPerm(g.edges[e].bs, c);
        UpdateClearFits(g, rank, own, before, masks, e, m);
        UpdateTolerant(g, rank, before, masks, e, m);
        if SinglePath(g, rank, g.edges[e].bs) && AllFit(g, own, before) {
          UpdateExact(g, rank, own, before, masks, e, m);
        }
        if old(Valid()) && Looser(m, before[e]) {
          AllInOrder(g, rank, own, before, g.edges[e].bs);
          LooserFits(g, rank, own, before, masks, e, m);
        }
        if AllDerived(g, before) { UpdateDerived(g, rank, before, masks, e, m); }
      }
      if AllFit(g, own, masks) { FitIsCompatible(g, own, masks); }
    }

    lemma {:induction false} LooserPasses(e: nat, m: Masks)
      requires Shaped() && e < |g.edges| && g.edges[e].live
      ensures Valid() && Looser(m, masks[e]) ==> ChecksEdge(g, rank, own, masks, e, m, {})
    {
      hide Cumulative, Fits, DerivedFrom, InOrder, Monotone, ChecksEdge;
      if Valid() && Looser(m, masks[e]) {
        AllInOrder(g, rank, own, masks, g.edges[e].bs);
        LooserNeverFails(g, rank, own, masks, e, m);
      }
    }

    /** bdrv_root_attach_child and the linking done by bdrv_replace_child: check, link, set. */
    method Attach(e: Edge, m: Masks, ghost newRank: nat -> nat) returns (ok: bool)
      requires Shaped() && AllTolerant(g, masks) && AllDerived(g, masks)
      requires Linkable(g, newRank, e) && Ranked(g, newRank) && NewMasks(g, masks, e, m)
      modifies this
      ensures Shaped() && AllTolerant(g, masks) && AllDerived(g, masks)
      ensures ok == (Admits(old(g), old(masks), e.bs, m, {})
        && Checks(old(g), newRank, own, old(masks), e.bs, Over(old(g), old(masks), e.bs, {}, m), {}))
      ensures !ok ==> g == old(g) && masks == old(masks)
      ensures ok ==> g == Link(old(g), e) && Attached(old(g), newRank, e, old(masks), masks, m)
      ensures ok ==> ClearFitsLinked(old(g), newRank, own, e, old(masks), masks)
      ensures AllFit(old(g), own, old(masks)) && SinglePath(old(g), newRank, e.bs) ==> AllFit(g, own, masks)
      ensures AllFit(g, own, masks) ==> PairwiseCompatible(g, masks)
      ensures old(Valid()) && AllFit(g, own, masks) ==> Valid()
    {
      hide Cumulative, Put, OnlyBelow, Settled, AllAlike, Below, Checks, SinglePath, Over, Monotone, Fits,
           PairwiseCompatible, DerivedFrom, AllTolerant, NewMasks, Clear, ClearFitsLinked, Attached;
      NewTolerant(g, masks, e, m);
      LinkOk(g, newRank, e);
      rank := newRank;
      ok := CheckUpdatePerm(e.bs, m, {});
      if ok {
        ghost var g0, before := g, masks;
        LinkEdges(g0, e);
        g := Link(g, e);
        masks := masks + [m];
        var c := GetCumulative(e.bs);
        SetPerm(e.bs, c);
        IsAttached(g0, rank, e, before, masks, m);
        AttachClearFits(g0, rank, own, e, before, masks, m);
        AttachDerived(g0, rank, e, before, masks, m);
        if AllFit(g0, own, before) && SinglePath(g0, rank, e.bs) { AttachFits(g0, rank, own, e, before, masks); }
      }
      if AllFit(g, own, masks) { FitIsCompatible(g, own, masks); }
    }

    /** bdrv_attach_child: the masks of the new edge come from its parent. */
    method AttachChild(parent: nat, bs: nat, role: Role, ghost newRank: nat -> nat) returns (ok: bool)
      requires Shaped() && AllTolerant(g, masks) && AllDerived(g, masks)
      requires Linkable(g, newRank, Edge(true, Some(parent), bs, role)) && Ranked(g, newRank)
      modifies this
      ensures Shaped() && AllTolerant(g, masks) && AllDerived(g, masks)
      ensures
        var e := Edge(true, Some(parent), bs, role);
        var nodes := old(g).nodes;
        var m := ChildPerm(nodes[parent], role, nodes[bs], None, Cumulative(old(g), old(masks), parent));
        if ok then
          && g == Link(old(g), e) && Attached(old(g), newRank, e, old(masks), masks, m)
          && ClearFitsLinked(old(g), newRank, own, e, old(masks), masks)
        else g == old(g) && masks == old(masks)
      ensures AllFit(old(g), own, old(masks)) && SinglePath(old(g), newRank, bs) ==> AllFit(g, own, masks)
      ensures AllFit(g, own, masks) ==> PairwiseCompatible(g, masks)
      ensures old(Valid()) && AllFit(g, own, masks) ==> Valid()
    {
      hide Cumulative, Fits, Monotone, Over, SinglePath, Checks, DerivedFrom, PairwiseCompatible, ClearFitsLinked,
           Attached;
      var e := Edge(true, Some(parent), bs, role);
      var c := GetCumulative(parent);
      var m := ChildPerm(g.nodes[parent], role, g.nodes[bs], None, c);
      assert WriteUnchanged in c.shared by { AllTolerate(g, masks, parent); }
      ChildPermTolerant(g.nodes[parent], role, g.nodes[bs], None, c);
      ok := Attach(e, m, newRank);
    }

    /** bdrv_detach_child: the re-check cannot fail, and every edge that changes is loosened. */
    method Detach(e: nat)
      requires Valid() && e < |g.edges| && g.edges[e].live
      modifies `g, `masks
      ensures Valid() && PairwiseCompatible(g, masks) && g == Unlink(old(g), e)
      ensures OnlyBelow(g, rank, old(masks), masks, g.edges[e].bs)
      ensures Settled(g, rank, old(masks), masks, g.edges[e].bs, Cumulative(g, masks, g.edges[e].bs))
      ensures forall k: nat :: k < |g.edges| ==> Looser(masks[k], old(masks)[k])
    {
      hide Cumulative, Put, OnlyBelow, Settled, AllAlike, Below, Checks, Over, Monotone, Fits, PairwiseCompatible,
           DerivedFrom, AllTolerant, InOrder;
      ghost var g0, before := g, masks;
      var b := g.edges[e].bs;
      DetachNeverFails(g0, rank, own, before, e);
      UnlinkTolerant(g0, masks, e);
      g := Unlink(g, e);
      var c := GetCumulative(b);
      AllTolerate(g, masks, b);
      var ok := CheckPerm(b, c, {});
      assert ok;
      SetPerm(b, c);
      RoundCumulative(g, rank, before, masks, b);
      DetachValid(g0, rank, own, before, masks, e);
      FitIsCompatible(g, own, masks);
    }
  }

  lemma {:induction false} IsAttached(g: Graph, rank: nat -> nat, e: Edge, masks: seq<Masks>, next: seq<Masks>,
                                      m: Masks)
    requires Linkable(g, rank, e) && GraphOk(Link(g, e)) && |masks| == |g.edges| && |next| == |g.edges| + 1
    requires OnlyBelow(Link(g, e), rank, masks + [m], next, e.bs)
    requires Settled(Link(g, e), rank, masks + [m], next, e.bs, Cumulative(Link(g, e), masks + [m], e.bs))
    ensures Attached(g, rank, e, masks, next, m)
  {
    hide OnlyBelow, Settled, Cumulative;
  }

  lemma {:induction false} UnlinkTolerant(g: Graph, masks: seq<Masks>, e: nat)
    requires |masks| == |g.edges| && e < |g.edges| && AllTolerant(g, masks)
    ensures AllTolerant(Unlink(g, e), masks)
  {
  }

  lemma {:induction false} AllTolerate(g: Graph, masks: seq<Masks>, n: nat)
    requires |masks| == |g.edges| && AllTolerant(g, masks)
    ensures WriteUnchanged in Cumulative(g, masks, n).shared
  {
    InAll(WriteUnchanged);
  }
}
