/** Permission updates in the block graph: bdrv_check_perm, bdrv_set_perm, attach and detach. */
module BlockUpdate {

  import opened Common
  import opened BlockPerm
  import opened BlockGraph

  /** A driver's own bdrv_check_perm: may this node have these cumulative masks? */
  type OwnCheck = (nat, Masks) -> bool

  /** Asking for less and sharing more is never refused by a driver that accepted the tighter masks. */
  ghost predicate Monotone(own: OwnCheck) {
    forall n, a, b :: own(n, b) && Looser(a, b) ==> own(n, a)
  }

  /** The masks the parent of edge k, with cumulative masks m, puts on it when its present ones are c. */
  function Put(g: Graph, k: nat, c: Masks, m: Masks): Masks
    requires GraphOk(g) && k < |g.edges| && g.edges[k].live && g.edges[k].parent.Some?
  {
    ChildPerm(g.nodes[g.edges[k].parent.value], g.edges[k].role, g.nodes[g.edges[k].bs], Some(c), m)
  }

  /** The checks of bdrv_check_perm on the node itself. */
  predicate NodeRule(g: Graph, own: OwnCheck, n: nat, m: Masks)
    requires n < |g.nodes|
  {
    && (m.perm * {Write, WriteUnchanged} == {} || g.nodes[n].writable)
    && (g.nodes[n].kind.OwnCheck? ==> own(n, m))
  }

  /** No parent of n outside skip conflicts with m. */
  ghost predicate Admits(g: Graph, masks: seq<Masks>, n: nat, m: Masks, skip: set<nat>)
    requires |masks| == |g.edges|
  {
    forall f: nat :: IsParent(g, f, n) && f !in skip ==> Compatible(m, masks[f])
  }

  /** bdrv_check_perm succeeds. */
  ghost predicate Checks(g: Graph, rank: nat -> nat, own: OwnCheck, masks: seq<Masks>, n: nat, m: Masks, skip: set<nat>)
    requires GraphOk(g) && Ranked(g, rank) && |masks| == |g.edges| && n < |g.nodes|
    decreases rank(n), 0
  {
    && NodeRule(g, own, n, m)
    && forall k: nat :: IsChild(g, k, n) ==> ChecksEdge(g, rank, own, masks, k, Put(g, k, masks[k], m), skip)
  }

  /** bdrv_child_check_perm succeeds. */
  ghost predicate ChecksEdge(g: Graph, rank: nat -> nat, own: OwnCheck, masks: seq<Masks>, k: nat, m: Masks,
                             skip: set<nat>)
    requires GraphOk(g) && Ranked(g, rank) && |masks| == |g.edges| && k < |g.edges| && g.edges[k].live
    decreases rank(g.edges[k].bs), 1
  {
    var n := g.edges[k].bs;
    && Admits(g, masks, n, m, skip + {k})
    && Checks(g, rank, own, masks, n, Over(g, masks, n, skip + {k}, m), skip + {k})
  }

  /** Cumulative masks when those of n are taken to be m. */
  ghost function CumulativeAs(g: Graph, masks: seq<Masks>, n: nat, m: Masks, p: nat): Masks
    requires |masks| == |g.edges|
  {
    if p == n then m else Cumulative(g, masks, p)
  }

  /** After an update below n, to masks m of n, every edge there has what its parent's cumulative masks say. */
  ghost predicate Settled(g: Graph, rank: nat -> nat, masks: seq<Masks>, next: seq<Masks>, n: nat, m: Masks)
    requires GraphOk(g) && Ranked(g, rank) && |masks| == |next| == |g.edges|
  {
    forall k: nat :: Below(g, rank, n, k) ==>
      next[k] == Put(g, k, masks[k], CumulativeAs(g, next, n, m, g.edges[k].parent.value))
  }

  /** Other parents of the nodes below n keep their masks, and are not skipped. */
  ghost predicate OthersKept(g: Graph, rank: nat -> nat, masks: seq<Masks>, next: seq<Masks>, n: nat, skip: set<nat>)
    requires GraphOk(g) && Ranked(g, rank) && |masks| == |next| == |g.edges|
  {
    forall j: nat, k: nat :: Below(g, rank, n, j) && IsParent(g, k, g.edges[j].bs) ==>
      k !in skip && (k != j ==> next[k] == masks[k])
  }

  /** Edge k fits: its node accepts its cumulative masks, and k agrees with the node's other parents. */
  ghost predicate Fits(g: Graph, own: OwnCheck, masks: seq<Masks>, k: nat)
    requires GraphOk(g) && |masks| == |g.edges| && k < |g.edges| && g.edges[k].live
  {
    && NodeRule(g, own, g.edges[k].bs, Cumulative(g, masks, g.edges[k].bs))
    && Admits(g, masks, g.edges[k].bs, masks[k], {k})
  }

  lemma {:induction false} OthersKeptChild(g: Graph, rank: nat -> nat, masks: seq<Masks>, next: seq<Masks>, n: nat,
                                           skip: set<nat>, c: nat)
    requires GraphOk(g) && Ranked(g, rank) && |masks| == |next| == |g.edges| && IsChild(g, c, n)
    requires OthersKept(g, rank, masks, next, n, skip)
    ensures OthersKept(g, rank, masks, next, g.edges[c].bs, skip + {c})
  {
    hide Below;
    forall j: nat, k: nat | Below(g, rank, g.edges[c].bs, j) && IsParent(g, k, g.edges[j].bs)
      ensures k !in skip + {c} && (k != j ==> next[k] == masks[k])
    {
      BelowChild(g, rank, n, c, j);
      UnderEnd(g, rank, g.edges[c].bs, j);
    }
  }

  lemma {:induction false} SettledChild(g: Graph, rank: nat -> nat, masks: seq<Masks>, next: seq<Masks>, n: nat,
                                        m: Masks, c: nat)
    requires GraphOk(g) && Ranked(g, rank) && |masks| == |next| == |g.edges| && IsChild(g, c, n)
    requires Settled(g, rank, masks, next, n, m)
    ensures Settled(g, rank, masks, next, g.edges[c].bs, Cumulative(g, next, g.edges[c].bs))
    ensures next[c] == Put(g, c, masks[c], m)
  {
    hide Put, Cumulative, Below;
    OwnBelow(g, rank, n, c);
    forall k: nat | Below(g, rank, g.edges[c].bs, k)
      ensures next[k] == Put(g, k, masks[k], Cumulative(g, next, g.edges[k].parent.value))
    {
      BelowChild(g, rank, n, c, k);
      NotBack(g, rank, n, c, k);
    }
  }

  /** An edge below a child of n does not start at n. */
  lemma {:induction false} NotBack(g: Graph, rank: nat -> nat, n: nat, c: nat, k: nat)
    requires Ranked(g, rank) && IsChild(g, c, n) && Below(g, rank, g.edges[c].bs, k)
    ensures g.edges[k].parent.value != n
  {
    UnderRank(g, rank, g.edges[c].bs, g.edges[k].parent.value);
  }

  lemma {:induction false} OwnBelow(g: Graph, rank: nat -> nat, n: nat, c: nat)
    requires Ranked(g, rank) && IsChild(g, c, n)
    ensures Below(g, rank, n, c)
  {
    assert Under(g, rank, n, n);
  }

  /**
   * The check, made on the old masks before anything is set, is exact: it succeeds if and only if n itself is all
   * right and every edge below n fits once the update has been made.
   */
  lemma {:induction false} CheckExact(g: Graph, rank: nat -> nat, own: OwnCheck, masks: seq<Masks>, next: seq<Masks>,
                                      n: nat, m: Masks, skip: set<nat>)
    requires GraphOk(g) && Ranked(g, rank) && |masks| == |next| == |g.edges| && n < |g.nodes|
    requires Settled(g, rank, masks, next, n, m) && OthersKept(g, rank, masks, next, n, skip)
    ensures Checks(g, rank, own, masks, n, m, skip) <==>
      NodeRule(g, own, n, m) && forall j: nat :: Below(g, rank, n, j) ==> Fits(g, own, next, j)
    decreases rank(n), 0
  {
    hide Below, Fits, NodeRule, Put, Cumulative, ChecksEdge, Over, Settled, OthersKept;
    forall c: nat | IsChild(g, c, n)
      ensures ChecksEdge(g, rank, own, masks, c, Put(g, c, masks[c], m), skip) <==>
        Fits(g, own, next, c) && forall j: nat :: Below(g, rank, g.edges[c].bs, j) ==> Fits(g, own, next, j)
    {
      EdgeExact(g, rank, own, masks, next, n, m, skip, c);
    }
    if Checks(g, rank, own, masks, n, m, skip) {
      forall j: nat | Below(g, rank, n, j)
        ensures Fits(g, own, next, j)
      {
        if !IsChild(g, j, n) { BelowSplit(g, rank, n, j); }
      }
    }
    if forall j: nat :: Below(g, rank, n, j) ==> Fits(g, own, next, j) {
      forall c: nat | IsChild(g, c, n)
        ensures ChecksEdge(g, rank, own, masks, c, Put(g, c, masks[c], m), skip)
      {
        OwnBelow(g, rank, n, c);
        forall j: nat | Below(g, rank, g.edges[c].bs, j)
          ensures Fits(g, own, next, j)
        {
          BelowChild(g, rank, n, c, j);
        }
      }
    }
  }

  lemma {:induction false} EdgeExact(g: Graph, rank: nat -> nat, own: OwnCheck, masks: seq<Masks>, next: seq<Masks>,
                                     n: nat, m: Masks, skip: set<nat>, c: nat)
    requires GraphOk(g) && Ranked(g, rank) && |masks| == |next| == |g.edges| && n < |g.nodes| && IsChild(g, c, n)
    requires Settled(g, rank, masks, next, n, m) && OthersKept(g, rank, masks, next, n, skip)
    ensures ChecksEdge(g, rank, own, masks, c, Put(g, c, masks[c], m), skip) <==>
      Fits(g, own, next, c) && forall j: nat :: Below(g, rank, g.edges[c].bs, j) ==> Fits(g, own, next, j)
    decreases rank(g.edges[c].bs), 1
  {
    hide Below, NodeRule, Put, Cumulative, Over;
    var b := g.edges[c].bs;
    OwnBelow(g, rank, n, c);
    SettledChild(g, rank, masks, next, n, m, c);
    OthersKeptChild(g, rank, masks, next, n, skip, c);
    OverOne(g, masks, next, b, c, skip + {c});
    CheckExact(g, rank, own, masks, next, b, Cumulative(g, next, b), skip + {c});
    assert Admits(g, masks, b, next[c], skip + {c}) <==> Admits(g, next, b, next[c], {c});
  }

  // Loosening

  /** Edge k has what its parent puts on it, the parent's cumulative masks being m. */
  ghost predicate DerivedFrom(g: Graph, masks: seq<Masks>, k: nat, m: Masks)
    requires GraphOk(g) && |masks| == |g.edges| && k < |g.edges| && g.edges[k].live && g.edges[k].parent.Some?
  {
    masks[k] == Put(g, k, masks[k], m)
  }

  /** Below n all edges fit and have what their parents put on them, the cumulative masks of n being was. */
  ghost predicate InOrder(g: Graph, rank: nat -> nat, own: OwnCheck, masks: seq<Masks>, n: nat, was: Masks)
    requires GraphOk(g) && Ranked(g, rank) && |masks| == |g.edges|
  {
    forall k: nat :: Below(g, rank, n, k) ==>
      && Fits(g, own, masks, k)
      && DerivedFrom(g, masks, k, CumulativeAs(g, masks, n, was, g.edges[k].parent.value))
  }

  lemma {:induction false} InOrderChild(g: Graph, rank: nat -> nat, own: OwnCheck, masks: seq<Masks>, n: nat,
                                        was: Masks, c: nat)
    requires GraphOk(g) && Ranked(g, rank) && |masks| == |g.edges| && IsChild(g, c, n)
    requires InOrder(g, rank, own, masks, n, was)
    ensures InOrder(g, rank, own, masks, g.edges[c].bs, Cumulative(g, masks, g.edges[c].bs))
    ensures Fits(g, own, masks, c) && DerivedFrom(g, masks, c, was)
  {
    hide DerivedFrom, Fits, Cumulative, Below;
    OwnBelow(g, rank, n, c);
    forall k: nat | Below(g, rank, g.edges[c].bs, k)
      ensures Fits(g, own, masks, k)
      ensures DerivedFrom(g, masks, k, Cumulative(g, masks, g.edges[k].parent.value))
    {
      BelowChild(g, rank, n, c, k);
      NotBack(g, rank, n, c, k);
    }
  }

  lemma {:induction false} NodeRuleMonotone(g: Graph, own: OwnCheck, n: nat, a: Masks, b: Masks)
    requires n < |g.nodes| && Monotone(own) && NodeRule(g, own, n, b) && Looser(a, b)
    ensures NodeRule(g, own, n, a)
  {
    assert a.perm * {Write, WriteUnchanged} <= b.perm * {Write, WriteUnchanged};
  }

  lemma {:induction false} OverLooser(g: Graph, masks: seq<Masks>, k: nat, skip: set<nat>, m: Masks)
    requires |masks| == |g.edges| && k < |g.edges| && g.edges[k].live && Looser(m, masks[k])
    ensures Looser(Over(g, masks, g.edges[k].bs, skip + {k}, m), Cumulative(g, masks, g.edges[k].bs))
  {
    assert IsParent(g, k, g.edges[k].bs);
  }

  /**
   * Loosening never fails: where everything is in order for the masks was of n, the check for looser masks succeeds
   * through everything below n.
   */
  lemma {:induction false} LooseningChecks(g: Graph, rank: nat -> nat, own: OwnCheck, masks: seq<Masks>, n: nat,
                                           m: Masks, was: Masks, skip: set<nat>)
    requires GraphOk(g) && Ranked(g, rank) && |masks| == |g.edges| && n < |g.nodes| && Monotone(own)
    requires InOrder(g, rank, own, masks, n, was) && NodeRule(g, own, n, was) && Looser(m, was)
    ensures Checks(g, rank, own, masks, n, m, skip)
    decreases rank(n)
  {
    hide Put, Cumulative, Over, InOrder, Monotone, NodeRule;
    NodeRuleMonotone(g, own, n, m, was);
    forall k: nat | IsChild(g, k, n)
      ensures ChecksEdge(g, rank, own, masks, k, Put(g, k, masks[k], m), skip)
    {
      var b, wanted := g.edges[k].bs, Put(g, k, masks[k], m);
      InOrderChild(g, rank, own, masks, n, was, k);
      PutMonotone(g, k, masks[k], m, was);
      assert Looser(wanted, masks[k]);
      assert Admits(g, masks, b, wanted, skip + {k});
      OverLooser(g, masks, k, skip, wanted);
      LooseningChecks(g, rank, own, masks, b, Over(g, masks, b, skip + {k}, wanted), Cumulative(g, masks, b),
        skip + {k});
    }
  }

  lemma {:induction false} PutMonotone(g: Graph, k: nat, c: Masks, a: Masks, b: Masks)
    requires GraphOk(g) && k < |g.edges| && g.edges[k].live && g.edges[k].parent.Some? && Looser(a, b)
    ensures Looser(Put(g, k, c, a), Put(g, k, c, b))
  {
    hide ChildPerm;
    ChildPermMonotone(g.nodes[g.edges[k].parent.value], g.edges[k].role, g.nodes[g.edges[k].bs], Some(c), a, b);
  }

  /** Only edges below n change. */
  ghost predicate OnlyBelow(g: Graph, rank: nat -> nat, masks: seq<Masks>, next: seq<Masks>, n: nat)
    requires Ranked(g, rank) && |masks| == |next| == |g.edges|
  {
    forall k: nat :: k < |g.edges| && !Below(g, rank, n, k) ==> next[k] == masks[k]
  }

  /** Edges elsewhere are at least not tightened. */
  ghost predicate OutsideLooser(g: Graph, rank: nat -> nat, masks: seq<Masks>, next: seq<Masks>, n: nat)
    requires Ranked(g, rank) && |masks| == |next| == |g.edges|
  {
    forall k: nat :: k < |g.edges| && !Below(g, rank, n, k) ==> Looser(next[k], masks[k])
  }

  /** And loosening n loosens every edge below it. */
  lemma {:induction false} LooseningLoosens(g: Graph, rank: nat -> nat, own: OwnCheck, masks: seq<Masks>,
                                            next: seq<Masks>, n: nat, m: Masks, was: Masks, k: nat)
    requires GraphOk(g) && Ranked(g, rank) && |masks| == |next| == |g.edges| && Looser(m, was)
    requires InOrder(g, rank, own, masks, n, was)
    requires Settled(g, rank, masks, next, n, m) && OutsideLooser(g, rank, masks, next, n) && k < |g.edges|
    ensures Looser(next[k], masks[k])
    decreases if Below(g, rank, n, k) then rank(n) - rank(g.edges[k].parent.value) + 1 else 0
  {
    hide Put, Cumulative, Below, Fits;
    if Below(g, rank, n, k) {
      var p := g.edges[k].parent.value;
      var a, b := CumulativeAs(g, next, n, m, p), CumulativeAs(g, masks, n, was, p);
      if p != n {
        forall f: nat | IsParent(g, f, p)
          ensures Looser(next[f], masks[f])
        {
          if Below(g, rank, n, f) {
            BelowAbove(g, rank, n, f, k);
            LooseningLoosens(g, rank, own, masks, next, n, m, was, f);
          }
        }
        CumulativeLooser(g, masks, next, p);
      }
      assert DerivedFrom(g, masks, k, b);
      PutMonotone(g, k, masks[k], a, b);
    }
  }

  lemma {:induction false} BelowAbove(g: Graph, rank: nat -> nat, n: nat, f: nat, k: nat)
    requires Ranked(g, rank) && Below(g, rank, n, f) && Below(g, rank, n, k)
    requires g.edges[f].bs == g.edges[k].parent.value
    ensures rank(g.edges[k].parent.value) < rank(g.edges[f].parent.value) <= rank(n)
  {
    UnderRank(g, rank, n, g.edges[f].parent.value);
  }
}
