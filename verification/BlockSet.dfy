/** Setting permissions below a node: what bdrv_set_perm establishes and what an update keeps. */
module BlockSet {

  import opened Common
  import opened BlockPerm
  import opened BlockGraph
  import opened BlockUpdate

  // Recursive setting

  /** Whatever is put on edge x next, it makes no difference whether it has a or b now. */
  ghost predicate Alike(g: Graph, x: nat, a: Masks, b: Masks)
    requires GraphOk(g) && x < |g.edges| && g.edges[x].live && g.edges[x].parent.Some?
  {
    forall m :: Put(g, x, a, m) == Put(g, x, b, m)
  }

  lemma {:induction false} PutAlike(g: Graph, x: nat, a: Masks, m: Masks)
    requires GraphOk(g) && x < |g.edges| && g.edges[x].live && g.edges[x].parent.Some?
    ensures Alike(g, x, Put(g, x, a, m), a)
  {
    hide ChildPerm;
    forall n: Masks
      ensures Put(g, x, Put(g, x, a, m), n) == Put(g, x, a, n)
    {
      ChildPermAbsorbs(g.nodes[g.edges[x].parent.value], g.edges[x].role, g.nodes[g.edges[x].bs], Some(a), m, n);
    }
  }

  ghost predicate AllAlike(g: Graph, masks: seq<Masks>, next: seq<Masks>)
    requires GraphOk(g) && |masks| == |next| == |g.edges|
  {
    forall x: nat :: x < |g.edges| && g.edges[x].live && g.edges[x].parent.Some? ==> Alike(g, x, next[x], masks[x])
  }

  /** The part of the update below child j of n has been made. */
  ghost predicate SetBelow(g: Graph, rank: nat -> nat, masks: seq<Masks>, next: seq<Masks>, b: nat)
    requires GraphOk(g) && Ranked(g, rank) && |masks| == |next| == |g.edges|
  {
    forall x: nat :: Below(g, rank, b, x) ==>
      next[x] == Put(g, x, masks[x], Cumulative(g, next, g.edges[x].parent.value))
  }

  /** The children of n before edge i have been dealt with. */
  ghost predicate SetUpTo(g: Graph, rank: nat -> nat, masks: seq<Masks>, next: seq<Masks>, n: nat, m: Masks, i: nat)
    requires GraphOk(g) && Ranked(g, rank) && |masks| == |next| == |g.edges|
  {
    && OnlyBelow(g, rank, masks, next, n) && AllAlike(g, masks, next)
    && (forall j: nat :: IsChild(g, j, n) && i <= j ==> next[j] == masks[j])
    && (forall j: nat :: IsChild(g, j, n) && j < i ==>
          next[j] == Put(g, j, masks[j], m) && SetBelow(g, rank, masks, next, g.edges[j].bs))
  }

  lemma {:induction false} SetStart(g: Graph, rank: nat -> nat, masks: seq<Masks>, n: nat, m: Masks)
    requires GraphOk(g) && Ranked(g, rank) && |masks| == |g.edges|
    ensures SetUpTo(g, rank, masks, masks, n, m, 0)
  {
  }

  lemma {:induction false} SetSkip(g: Graph, rank: nat -> nat, masks: seq<Masks>, next: seq<Masks>, n: nat, m: Masks,
                                   i: nat)
    requires GraphOk(g) && Ranked(g, rank) && |masks| == |next| == |g.edges|
    requires SetUpTo(g, rank, masks, next, n, m, i) && !IsChild(g, i, n)
    ensures SetUpTo(g, rank, masks, next, n, m, i + 1)
  {
    hide SetBelow, OnlyBelow, AllAlike, Put;
  }

  lemma {:induction false} SetDone(g: Graph, rank: nat -> nat, masks: seq<Masks>, next: seq<Masks>, n: nat, m: Masks)
    requires GraphOk(g) && Ranked(g, rank) && |masks| == |next| == |g.edges|
    requires SetUpTo(g, rank, masks, next, n, m, |g.edges|)
    ensures OnlyBelow(g, rank, masks, next, n) && Settled(g, rank, masks, next, n, m) && AllAlike(g, masks, next)
  {
    hide OnlyBelow, AllAlike, Put, Below, Cumulative;
    forall x: nat | Below(g, rank, n, x)
      ensures next[x] == Put(g, x, masks[x], CumulativeAs(g, next, n, m, g.edges[x].parent.value))
    {
      if !IsChild(g, x, n) {
        BelowSplit(g, rank, n, x);
        var c: nat :| IsChild(g, c, n) && Below(g, rank, g.edges[c].bs, x);
        assert SetBelow(g, rank, masks, next, g.edges[c].bs);
      }
    }
  }

  /** Edges below n, and edges into nodes outside, do not change when child k and what is below it are set. */
  lemma {:induction false} UntouchedParents(g: Graph, rank: nat -> nat, a: seq<Masks>, b: seq<Masks>, k: nat, p: nat)
    requires GraphOk(g) && Ranked(g, rank) && |a| == |b| == |g.edges| && k < |g.edges| && g.edges[k].live
    requires forall f: nat :: f < |g.edges| && f != k && !Below(g, rank, g.edges[k].bs, f) ==> b[f] == a[f]
    requires !Under(g, rank, g.edges[k].bs, p)
    ensures Cumulative(g, a, p) == Cumulative(g, b, p)
  {
    hide Below, Cumulative;
    forall f: nat | IsParent(g, f, p)
      ensures b[f] == a[f]
    {
      if Below(g, rank, g.edges[k].bs, f) { UnderEnd(g, rank, g.edges[k].bs, f); }
    }
    CumulativeSame(g, a, b, p);
  }

  /** One round of bdrv_set_perm's loop: child k gets its masks, then everything below it is set. */
  ghost predicate Round(g: Graph, rank: nat -> nat, before: seq<Masks>, after: seq<Masks>, k: nat, m: Masks)
    requires GraphOk(g) && Ranked(g, rank) && |before| == |after| == |g.edges|
    requires k < |g.edges| && g.edges[k].live && g.edges[k].parent.Some?
  {
    var mid := before[k := Put(g, k, before[k], m)];
    var b := g.edges[k].bs;
    && OnlyBelow(g, rank, mid, after, b) && Settled(g, rank, mid, after, b, Cumulative(g, mid, b))
    && AllAlike(g, mid, after)
  }

  lemma {:induction false} NoSelf(g: Graph, rank: nat -> nat, k: nat)
    requires Ranked(g, rank) && k < |g.edges| && g.edges[k].live && g.edges[k].parent.Some?
    ensures !Below(g, rank, g.edges[k].bs, k)
  {
    if Below(g, rank, g.edges[k].bs, k) { UnderRank(g, rank, g.edges[k].bs, g.edges[k].parent.value); }
  }

  lemma {:induction false} RoundKeeps(g: Graph, rank: nat -> nat, before: seq<Masks>, after: seq<Masks>, k: nat,
                                      m: Masks, f: nat)
    requires GraphOk(g) && Ranked(g, rank) && |before| == |after| == |g.edges|
    requires k < |g.edges| && g.edges[k].live && g.edges[k].parent.Some? && Round(g, rank, before, after, k, m)
    requires f < |g.edges| && !Below(g, rank, g.edges[k].bs, f)
    ensures after[f] == if f == k then Put(g, k, before[k], m) else before[f]
  {
    hide Below, Settled, AllAlike, Put;
  }

  /** The cumulative masks of the child's node are final before what is below it is set. */
  lemma {:induction false} RoundCumulative(g: Graph, rank: nat -> nat, mid: seq<Masks>, after: seq<Masks>, b: nat)
    requires GraphOk(g) && Ranked(g, rank) && |mid| == |after| == |g.edges| && OnlyBelow(g, rank, mid, after, b)
    ensures Cumulative(g, mid, b) == Cumulative(g, after, b)
  {
    hide Below, Cumulative;
    forall f: nat | IsParent(g, f, b)
      ensures mid[f] == after[f]
    {
      if Below(g, rank, b, f) { UnderEnd(g, rank, b, f); }
    }
    CumulativeSame(g, mid, after, b);
  }

  /** What is below child k has been set, whatever was there before this update started. */
  lemma {:induction false} RoundSets(g: Graph, rank: nat -> nat, start: seq<Masks>, before: seq<Masks>,
                                     after: seq<Masks>, k: nat, m: Masks, x: nat)
    requires GraphOk(g) && Ranked(g, rank) && |start| == |before| == |after| == |g.edges|
    requires k < |g.edges| && g.edges[k].live && g.edges[k].parent.Some? && Round(g, rank, before, after, k, m)
    requires AllAlike(g, start, before) && Below(g, rank, g.edges[k].bs, x)
    ensures after[x] == Put(g, x, start[x], Cumulative(g, after, g.edges[x].parent.value))
  {
    hide Below, Cumulative, Put;
    var mid, b := before[k := Put(g, k, before[k], m)], g.edges[k].bs;
    NoSelf(g, rank, k);
    RoundCumulative(g, rank, mid, after, b);
    assert Alike(g, x, before[x], start[x]);
  }

  lemma {:induction false} AlikeTrans(g: Graph, a: seq<Masks>, b: seq<Masks>, c: seq<Masks>)
    requires GraphOk(g) && |a| == |b| == |c| == |g.edges| && AllAlike(g, a, b) && AllAlike(g, b, c)
    ensures AllAlike(g, a, c)
  {
    hide Put;
    forall x: nat | x < |g.edges| && g.edges[x].live && g.edges[x].parent.Some?
      ensures Alike(g, x, c[x], a[x])
    {
      assert Alike(g, x, b[x], a[x]) && Alike(g, x, c[x], b[x]);
    }
  }

  lemma {:induction false} AlikeOne(g: Graph, masks: seq<Masks>, k: nat, m: Masks)
    requires GraphOk(g) && |masks| == |g.edges| && k < |g.edges| && g.edges[k].live && g.edges[k].parent.Some?
    ensures AllAlike(g, masks, masks[k := Put(g, k, masks[k], m)])
  {
    hide Put;
    PutAlike(g, k, masks[k], m);
  }

  lemma {:induction false} SetStep(g: Graph, rank: nat -> nat, masks: seq<Masks>, next: seq<Masks>, after: seq<Masks>,
                                   n: nat, m: Masks, i: nat)
    requires GraphOk(g) && Ranked(g, rank) && |masks| == |next| == |after| == |g.edges|
    requires SetUpTo(g, rank, masks, next, n, m, i) && IsChild(g, i, n) && Round(g, rank, next, after, i, m)
    ensures SetUpTo(g, rank, masks, after, n, m, i + 1)
  {
    hide Below, Cumulative, Put, Round, AllAlike, OnlyBelow, SetBelow;
    StepFrame(g, rank, masks, next, after, n, m, i);
    StepAlike(g, rank, masks, next, after, m, i);
    forall j: nat | IsChild(g, j, n)
      ensures i < j ==> after[j] == masks[j]
      ensures j <= i ==> after[j] == Put(g, j, masks[j], m) && SetBelow(g, rank, masks, after, g.edges[j].bs)
    {
      NotBelowSibling(g, rank, n, i, j);
      RoundKeeps(g, rank, next, after, i, m, j);
      if j <= i { StepChild(g, rank, masks, next, after, n, m, i, j); }
    }
  }

  lemma {:induction false} NotBelowSibling(g: Graph, rank: nat -> nat, n: nat, i: nat, j: nat)
    requires Ranked(g, rank) && IsChild(g, i, n) && IsChild(g, j, n)
    ensures !Below(g, rank, g.edges[i].bs, j)
  {
    if Below(g, rank, g.edges[i].bs, j) { NotBack(g, rank, n, i, j); }
  }

  lemma {:induction false} StepFrame(g: Graph, rank: nat -> nat, masks: seq<Masks>, next: seq<Masks>,
                                     after: seq<Masks>, n: nat, m: Masks, i: nat)
    requires GraphOk(g) && Ranked(g, rank) && |masks| == |next| == |after| == |g.edges|
    requires OnlyBelow(g, rank, masks, next, n) && IsChild(g, i, n) && Round(g, rank, next, after, i, m)
    ensures OnlyBelow(g, rank, masks, after, n)
  {
    hide Below, Put, Round;
    OwnBelow(g, rank, n, i);
    forall f: nat | f < |g.edges| && !Below(g, rank, n, f)
      ensures after[f] == masks[f]
    {
      if Below(g, rank, g.edges[i].bs, f) { BelowChild(g, rank, n, i, f); }
      RoundKeeps(g, rank, next, after, i, m, f);
    }
  }

  lemma {:induction false} StepAlike(g: Graph, rank: nat -> nat, masks: seq<Masks>, next: seq<Masks>,
                                     after: seq<Masks>, m: Masks, i: nat)
    requires GraphOk(g) && Ranked(g, rank) && |masks| == |next| == |after| == |g.edges| && i < |g.edges|
    requires g.edges[i].live && g.edges[i].parent.Some? && AllAlike(g, masks, next) && Round(g, rank, next, after, i, m)
    ensures AllAlike(g, masks, after)
  {
    hide Below, Put, AllAlike, Settled, OnlyBelow;
    var mid := next[i := Put(g, i, next[i], m)];
    AlikeOne(g, next, i, m);
    AlikeTrans(g, masks, next, mid);
    AlikeTrans(g, masks, mid, after);
  }

  /** A child dealt with earlier, or just now, stays dealt with. */
  lemma {:induction false} StepChild(g: Graph, rank: nat -> nat, masks: seq<Masks>, next: seq<Masks>,
                                     after: seq<Masks>, n: nat, m: Masks, i: nat, j: nat)
    requires GraphOk(g) && Ranked(g, rank) && |masks| == |next| == |after| == |g.edges| && j <= i
    requires SetUpTo(g, rank, masks, next, n, m, i) && IsChild(g, i, n) && IsChild(g, j, n)
    requires Round(g, rank, next, after, i, m)
    ensures SetBelow(g, rank, masks, after, g.edges[j].bs)
  {
    hide Below, Put, Cumulative, AllAlike, OnlyBelow, Round;
    forall x: nat | Below(g, rank, g.edges[j].bs, x)
      ensures after[x] == Put(g, x, masks[x], Cumulative(g, after, g.edges[x].parent.value))
    {
      if Below(g, rank, g.edges[i].bs, x) {
        RoundSets(g, rank, masks, next, after, i, m, x);
      } else {
        assert SetBelow(g, rank, masks, next, g.edges[j].bs);
        NotBack(g, rank, n, j, x);
        RoundKeeps(g, rank, next, after, i, m, x);
        OutsideUnder(g, rank, g.edges[i].bs, x);
        forall f: nat | f < |g.edges| && f != i && !Below(g, rank, g.edges[i].bs, f)
          ensures after[f] == next[f]
        {
          RoundKeeps(g, rank, next, after, i, m, f);
        }
        UntouchedParents(g, rank, next, after, i, g.edges[x].parent.value);
      }
    }
  }

  lemma {:induction false} OutsideUnder(g: Graph, rank: nat -> nat, b: nat, x: nat)
    requires Ranked(g, rank) && x < |g.edges| && g.edges[x].live && g.edges[x].parent.Some? && !Below(g, rank, b, x)
    ensures !Under(g, rank, b, g.edges[x].parent.value)
  {
  }

  // What an update of node b keeps

  /** Edge k takes its masks from its parent's cumulative masks, those of b being m. */
  ghost predicate DerivedAs(g: Graph, masks: seq<Masks>, b: nat, m: Masks, k: nat)
    requires GraphOk(g) && |masks| == |g.edges|
  {
    k < |g.edges| && g.edges[k].live && g.edges[k].parent.Some? ==>
      DerivedFrom(g, masks, k, CumulativeAs(g, masks, b, m, g.edges[k].parent.value))
  }

  /** Only edges below b, and edges into b, change. */
  ghost predicate OutsideSame(g: Graph, rank: nat -> nat, masks: seq<Masks>, next: seq<Masks>, b: nat)
    requires Ranked(g, rank) && |masks| == |next| == |g.edges|
  {
    forall k: nat :: k < |g.edges| && !Below(g, rank, b, k) && g.edges[k].bs != b ==> next[k] == masks[k]
  }

  /** A node that b does not reach keeps its cumulative masks. */
  lemma {:induction false} OutsideCumulative(g: Graph, rank: nat -> nat, masks: seq<Masks>, next: seq<Masks>, b: nat,
                                             p: nat)
    requires Ranked(g, rank) && |masks| == |next| == |g.edges| && OutsideSame(g, rank, masks, next, b)
    requires !Under(g, rank, b, p)
    ensures Cumulative(g, masks, p) == Cumulative(g, next, p)
  {
    hide Below, Cumulative;
    forall f: nat | IsParent(g, f, p)
      ensures next[f] == masks[f]
    {
      if Below(g, rank, b, f) { UnderEnd(g, rank, b, f); }
    }
    CumulativeSame(g, masks, next, p);
  }

  lemma {:induction false} DerivedAfter(g: Graph, rank: nat -> nat, masks: seq<Masks>, next: seq<Masks>, b: nat,
                                        m: Masks, was: Masks, k: nat)
    requires GraphOk(g) && Ranked(g, rank) && |masks| == |next| == |g.edges|
    requires OutsideSame(g, rank, masks, next, b) && Settled(g, rank, masks, next, b, m)
    requires DerivedAs(g, masks, b, was, k)
    requires k < |g.edges| && g.edges[k].live && g.edges[k].bs == b ==> next[k] == masks[k] || g.edges[k].parent.None?
    ensures DerivedAs(g, next, b, m, k)
  {
    hide Cumulative, Put;
    if k < |g.edges| && g.edges[k].live && g.edges[k].parent.Some? {
      var p := g.edges[k].parent.value;
      if Below(g, rank, b, k) {
        PutAlike(g, k, masks[k], CumulativeAs(g, next, b, m, p));
      } else {
        assert Under(g, rank, b, b);
        OutsideCumulative(g, rank, masks, next, b, p);
      }
    }
  }

  lemma {:induction false} TolerantAfter(g: Graph, rank: nat -> nat, masks: seq<Masks>, next: seq<Masks>, b: nat,
                                         m: Masks, k: nat)
    requires GraphOk(g) && Ranked(g, rank) && |masks| == |next| == |g.edges| && k < |g.edges| && g.edges[k].live
    requires OutsideSame(g, rank, masks, next, b) && Settled(g, rank, masks, next, b, m)
    requires WriteUnchanged in m.shared && g.edges[k].bs != b && WriteUnchanged in masks[k].shared
    requires forall f: nat :: f < |g.edges| && g.edges[f].live ==> WriteUnchanged in masks[f].shared
    ensures WriteUnchanged in next[k].shared
    decreases if Below(g, rank, b, k) then rank(b) - rank(g.edges[k].parent.value) + 1 else 0
  {
    hide Put, Below;
    if Below(g, rank, b, k) {
      var p := g.edges[k].parent.value;
      if p != b {
        forall f: nat | IsParent(g, f, p)
          ensures WriteUnchanged in next[f].shared
        {
          if Below(g, rank, b, f) {
            BelowAbove(g, rank, b, f, k);
            TolerantAfter(g, rank, masks, next, b, m, f);
          }
        }
        InAll(WriteUnchanged);
      }
      PutTolerant(g, k, masks[k], CumulativeAs(g, next, b, m, p));
    }
  }

  lemma {:induction false} PutTolerant(g: Graph, k: nat, c: Masks, m: Masks)
    requires GraphOk(g) && k < |g.edges| && g.edges[k].live && g.edges[k].parent.Some? && WriteUnchanged in m.shared
    ensures WriteUnchanged in Put(g, k, c, m).shared
  {
    hide ChildPerm;
    ChildPermTolerant(g.nodes[g.edges[k].parent.value], g.edges[k].role, g.nodes[g.edges[k].bs], Some(c), m);
  }

  lemma {:induction false} KeepsOthers(g: Graph, rank: nat -> nat, masks: seq<Masks>, next: seq<Masks>, b: nat,
                                       skip: set<nat>)
    requires GraphOk(g) && Ranked(g, rank) && |masks| == |next| == |g.edges|
    requires OutsideSame(g, rank, masks, next, b) && SinglePath(g, rank, b)
    requires forall s :: s in skip && s < |g.edges| ==> g.edges[s].bs == b
    ensures OthersKept(g, rank, masks, next, b, skip)
  {
    hide Below;
    forall j: nat, k: nat | Below(g, rank, b, j) && IsParent(g, k, g.edges[j].bs)
      ensures k !in skip && (k != j ==> next[k] == masks[k])
    {
      UnderEnd(g, rank, b, j);
    }
  }

  /** The skipped edges lead into nodes above the one that is checked. */
  ghost predicate SkipsAbove(g: Graph, rank: nat -> nat, n: nat, skip: set<nat>) {
    forall f: nat :: f in skip && f < |g.edges| ==> rank(g.edges[f].bs) >= rank(n)
  }

  /**
   * In any acyclic graph: a successful check of n, made as part of an update of t, is right about every edge that ends
   * a path from n which is the only way from t.
   */
  lemma {:induction false} CheckedFits(g: Graph, rank: nat -> nat, own: OwnCheck, masks: seq<Masks>, next: seq<Masks>,
                                       t: nat, top: Masks, n: nat, skip: set<nat>, j: nat)
    requires GraphOk(g) && Ranked(g, rank) && |masks| == |next| == |g.edges| && n < |g.nodes|
    requires Settled(g, rank, masks, next, t, top) && OutsideSame(g, rank, masks, next, t)
    requires Checks(g, rank, own, masks, n, CumulativeAs(g, next, t, top, n), skip) && SkipsAbove(g, rank, n, skip)
    requires OnlyPath(g, rank, t, n, j)
    ensures j < |g.edges| && g.edges[j].live && Fits(g, own, next, j)
    decreases rank(n)
  {
    hide Below, Put, Cumulative, Over, NodeRule, OnlyWay, Settled, OutsideSame;
    var m := CumulativeAs(g, next, t, top, n);
    var c: nat :| IsChild(g, c, n) && OnlyWay(g, rank, t, c) && (c == j || OnlyPath(g, rank, t, g.edges[c].bs, j));
    var b := g.edges[c].bs;
    assert ChecksEdge(g, rank, own, masks, c, Put(g, c, masks[c], m), skip);
    OnlyWayKeeps(g, rank, masks, next, t, top, n, c, skip);
    OverOne(g, masks, next, b, c, skip + {c});
    assert Checks(g, rank, own, masks, b, Cumulative(g, next, b), skip + {c});
    assert Admits(g, masks, b, next[c], skip + {c});
    assert Admits(g, next, b, next[c], {c});
    assert Fits(g, own, next, c);
    if c != j { CheckedFits(g, rank, own, masks, next, t, top, b, skip + {c}, j); }
  }

  lemma {:induction false} OnlyWayKeeps(g: Graph, rank: nat -> nat, masks: seq<Masks>, next: seq<Masks>, t: nat,
                                        top: Masks, n: nat, c: nat, skip: set<nat>)
    requires GraphOk(g) && Ranked(g, rank) && |masks| == |next| == |g.edges| && IsChild(g, c, n)
    requires Settled(g, rank, masks, next, t, top) && OutsideSame(g, rank, masks, next, t)
    requires OnlyWay(g, rank, t, c) && SkipsAbove(g, rank, n, skip)
    ensures next[c] == Put(g, c, masks[c], CumulativeAs(g, next, t, top, n)) && g.edges[c].bs != t
    ensures forall f: nat :: IsParent(g, f, g.edges[c].bs) && f != c ==> f !in skip + {c} && next[f] == masks[f]
    ensures SkipsAbove(g, rank, g.edges[c].bs, skip + {c})
  {
    hide Below, Put, Cumulative;
    UnderEnd(g, rank, t, c);
  }

  /** After a checked update of b, edges into clear nodes fit if they did before. */
  lemma {:induction false} FitsAfter(g: Graph, rank: nat -> nat, own: OwnCheck, masks: seq<Masks>, next: seq<Masks>,
                                     b: nat, m: Masks, skip: set<nat>, k: nat)
    requires GraphOk(g) && Ranked(g, rank) && |masks| == |next| == |g.edges| && k < |g.edges| && g.edges[k].live
    requires OutsideSame(g, rank, masks, next, b) && Settled(g, rank, masks, next, b, m) && b < |g.nodes|
    requires Checks(g, rank, own, masks, b, m, skip) && SkipsAbove(g, rank, b, skip)
    requires g.edges[k].bs != b && Clear(g, rank, b, g.edges[k].bs) && Fits(g, own, masks, k)
    ensures Fits(g, own, next, k)
  {
    hide Cumulative, NodeRule, Below, Checks, Settled, OnlyPath;
    var q := g.edges[k].bs;
    if Under(g, rank, b, q) {
      var j: nat :| ReachedBy(g, rank, b, j, q);
      CheckedFits(g, rank, own, masks, next, b, m, b, skip, j);
      OnlyPathEnd(g, rank, b, b, j);
      if j != k {
        forall f: nat | IsParent(g, f, q) && f != k
          ensures Compatible(next[k], next[f])
        {
          assert next[k] == masks[k];
          if f != j { assert next[f] == masks[f]; }
        }
      }
    } else {
      OutsideCumulative(g, rank, masks, next, b, q);
      forall f: nat | IsParent(g, f, q)
        ensures next[f] == masks[f]
      {
        if Below(g, rank, b, f) { UnderEnd(g, rank, b, f); }
      }
    }
  }

  /** Looser masks everywhere fit as well. */
  lemma {:induction false} FitsLooser(g: Graph, own: OwnCheck, masks: seq<Masks>, next: seq<Masks>, k: nat)
    requires GraphOk(g) && |masks| == |next| == |g.edges| && k < |g.edges| && g.edges[k].live && Monotone(own)
    requires Fits(g, own, masks, k) && forall f: nat :: f < |g.edges| && g.edges[f].live ==> Looser(next[f], masks[f])
    ensures Fits(g, own, next, k)
  {
    hide Cumulative, NodeRule, Monotone;
    var q := g.edges[k].bs;
    CumulativeLooser(g, masks, next, q);
    NodeRuleMonotone(g, own, q, Cumulative(g, next, q), Cumulative(g, masks, q));
  }
}
