/** The multi-level map from guest page numbers to section numbers. */
module PhysPageMap {
  import opened Arith
  import opened Common

  const P_L2_SIZE: nat := 512
  const PHYS_MAP_NODE_NIL: nat := 0x3FF_FFFF
  const PHYS_SECTION_UNASSIGNED: nat := 0

  /** skip == 0: ptr is a section number; otherwise ptr is a node number and skip levels are consumed. */
  datatype Entry = Entry(skip: nat, ptr: nat)

  type Node = s: seq<Entry> | |s| == P_L2_SIZE witness seq(P_L2_SIZE, _ => Entry(0, 0))

  /** The page range a node stands for: [base, base + Step(level + 1)). Ghost knowledge only. */
  datatype Shape = Shape(base: nat, level: nat)

  /** Number of pages below one entry of a level-`level` node: 1 << (level * P_L2_BITS). */
  function Step(level: nat): (s: nat)
    ensures s > 0
  {
    if level == 0 then 1 else P_L2_SIZE * Step(level - 1)
  }

  function SlotOf(page: nat, level: nat): (i: nat)
    ensures i < P_L2_SIZE
  {
    (page / Step(level)) % P_L2_SIZE
  }

  /** First page of slot i of a level-l node based at b. */
  ghost function SlotBase(b: nat, l: nat, i: nat): nat {
    if i == 0 then b else SlotBase(b, l, i - 1) + Step(l)
  }

  ghost predicate InRange(p: nat, b: nat, l: nat) {
    b <= p < b + Step(l)
  }

  // ---------------------------------------------------------------- arithmetic of slots

  lemma {:induction false} SlotBaseMul(b: nat, l: nat, i: nat)
    ensures SlotBase(b, l, i) == b + i * Step(l)
  {
    if i > 0 {
      SlotBaseMul(b, l, i - 1);
      MulSucc(i - 1, Step(l));
    }
  }

  lemma {:induction false} StepSucc(l: nat, c: int)
    ensures c * Step(l + 1) == (c * P_L2_SIZE) * Step(l)
  {
    MulAssoc(c, P_L2_SIZE, Step(l));
  }

  /** Inside an aligned node, the slot index is the slot whose sub-range holds the page. */
  lemma {:induction false} SlotRange(p: nat, b: nat, l: nat)
    requires b % Step(l + 1) == 0 && InRange(p, b, l + 1)
    ensures InRange(p, SlotBase(b, l, SlotOf(p, l)), l)
  {
    var s := Step(l);
    var c := b / Step(l + 1);
    DivMod(b, Step(l + 1));
    StepSucc(l, c);
    var i, o := (p - b) / s, (p - b) % s;
    DivMod(p - b, s);
    if i >= P_L2_SIZE { MulMono(P_L2_SIZE, i, s); assert false; }
    if i < 0 { MulMono(i, -1, s); assert false; }
    assert (c * P_L2_SIZE + i) * s == (c * P_L2_SIZE) * s + i * s;
    DivModUnique(p, s, c * P_L2_SIZE + i, o);
    DivModUnique(c * P_L2_SIZE + i, P_L2_SIZE, c, i);
    SlotBaseMul(b, l, i);
  }

  lemma {:induction false} SlotUnique(p: nat, b: nat, l: nat, i: nat)
    requires b % Step(l + 1) == 0 && i < P_L2_SIZE && InRange(p, SlotBase(b, l, i), l)
    ensures InRange(p, b, l + 1) && SlotOf(p, l) == i
  {
    SlotInside(b, l, i);
    SlotRange(p, b, l);
    var j := SlotOf(p, l);
    if j < i { SlotOrder(b, l, j, i); }
    if i < j { SlotOrder(b, l, i, j); }
  }

  lemma {:induction false} SlotOrder(b: nat, l: nat, i: nat, j: nat)
    requires i < j
    ensures SlotBase(b, l, i) + Step(l) <= SlotBase(b, l, j)
  {
    if i + 1 < j { SlotOrder(b, l, i, j - 1); }
  }

  lemma {:induction false} SlotInside(b: nat, l: nat, i: nat)
    requires i < P_L2_SIZE
    ensures b <= SlotBase(b, l, i) && SlotBase(b, l, i + 1) == SlotBase(b, l, i) + Step(l) <= b + Step(l + 1)
  {
    SlotOrder(b, l, i, P_L2_SIZE);
    SlotBaseMul(b, l, P_L2_SIZE);
    if i > 0 { SlotOrder(b, l, 0, i); }
  }

  lemma {:induction false} SlotTop(b: nat, l: nat)
    ensures SlotBase(b, l, P_L2_SIZE) == b + Step(l + 1)
  {
    SlotBaseMul(b, l, P_L2_SIZE);
  }

  lemma {:induction false} SlotAligned(b: nat, l: nat, i: nat)
    requires b % Step(l + 1) == 0
    ensures SlotBase(b, l, i) % Step(l) == 0
  {
    var c := b / Step(l + 1);
    DivMod(b, Step(l + 1));
    StepSucc(l, c);
    assert (c * P_L2_SIZE + i) * Step(l) == (c * P_L2_SIZE) * Step(l) + i * Step(l);
    SlotBaseMul(b, l, i);
    DivModUnique(SlotBase(b, l, i), Step(l), c * P_L2_SIZE + i, 0);
  }

  /** The only aligned page of a slot is its first one. */
  lemma {:induction false} AlignedIsFirst(p: nat, b: nat, l: nat)
    requires b % Step(l) == 0 && p % Step(l) == 0 && InRange(p, b, l)
    ensures p == b
  {
    DivMod(p, Step(l));
    DivMod(b, Step(l));
    if p > b { NextMultiple(p / Step(l), b / Step(l), Step(l)); }
  }

  // ---------------------------------------------------------------- lookup

  /** What the loop of phys_page_find leaves in lp.ptr when it starts from entry `e` with i == `level`. */
  ghost function Walk(nodes: seq<Node>, e: Entry, level: nat, page: nat): nat
    decreases level
  {
    if e.skip == 0 || e.skip > level then e.ptr
    else if e.ptr >= |nodes| then PHYS_SECTION_UNASSIGNED
    else Walk(nodes, nodes[e.ptr][SlotOf(page, level - e.skip)], level - e.skip, page)
  }

  // ---------------------------------------------------------------- well-formedness

  /** Entry `e` stands for the pages [b, b + Step(l)) and only leads to nodes inside that range. */
  ghost predicate EntryOk(e: Entry, b: nat, l: nat, shape: seq<Shape>) {
    if e.skip == 0 then e.ptr < 0x1_0000
    else
      && e.skip <= l
      && (e.ptr == PHYS_MAP_NODE_NIL ||
          (e.ptr < |shape| &&
           var c := shape[e.ptr];
           c.level + e.skip == l && b <= c.base && c.base + Step(c.level + 1) <= b + Step(l)))
  }

  ghost predicate NodeOk(node: Node, s: Shape, shape: seq<Shape>) {
    && s.base % Step(s.level + 1) == 0
    && forall i :: 0 <= i < P_L2_SIZE ==> EntryOk(node[i], SlotBase(s.base, s.level, i), s.level, shape)
  }

  ghost predicate TreeOk(nodes: seq<Node>, shape: seq<Shape>) {
    && |nodes| == |shape| <= PHYS_MAP_NODE_NIL
    && forall k :: 0 <= k < |nodes| ==> NodeOk(nodes[k], shape[k], shape)
  }

  /** Before compaction every pointer skips one level, and a leaf above level 0 is a mapped section. */
  ghost predicate EntryPlain(e: Entry, l: nat) {
    e.skip <= 1 && (e.skip == 0 && l > 0 ==> e.ptr != PHYS_SECTION_UNASSIGNED)
  }

  ghost predicate TreePlain(nodes: seq<Node>, shape: seq<Shape>)
    requires |nodes| == |shape|
  {
    forall k, i :: 0 <= k < |nodes| && 0 <= i < P_L2_SIZE ==> EntryPlain(nodes[k][i], shape[k].level)
  }

  ghost predicate Contains(s: Shape, p: nat) {
    InRange(p, s.base, s.level + 1)
  }

  /** A walk for page p reads only nodes whose range holds p. */
  lemma {:induction false} WalkFrame(nodes: seq<Node>, nodes': seq<Node>, shape: seq<Shape>, e: Entry, b: nat, l: nat,
                                     p: nat)
    requires TreeOk(nodes, shape) && EntryOk(e, b, l, shape) && |nodes| <= |nodes'| <= PHYS_MAP_NODE_NIL
    requires e.skip <= 1 && TreePlain(nodes, shape)
    requires InRange(p, b, l)
    requires forall k :: 0 <= k < |nodes| && shape[k].level < l && Contains(shape[k], p) ==> nodes'[k] == nodes[k]
    ensures Walk(nodes', e, l, p) == Walk(nodes, e, l, p)
    decreases l
  {
    if e.skip != 0 && e.ptr < |nodes| {
      var c := shape[e.ptr];
      var l' := c.level;
      var i := SlotOf(p, l');
      SlotRange(p, c.base, l');
      assert Contains(c, p);
      assert NodeOk(nodes[e.ptr], c, shape);
      WalkFrame(nodes, nodes', shape, nodes[e.ptr][i], SlotBase(c.base, l', i), l', p);
    }
  }

  /** The C pointer `lp`: the root entry or one slot of a node. */
  datatype Loc = Root | At(node: nat, slot: nat)

  ghost function Get(nodes: seq<Node>, root: Entry, lp: Loc): Entry
    requires lp.At? ==> lp.node < |nodes| && lp.slot < P_L2_SIZE
  {
    match lp case Root => root case At(k, i) => nodes[k][i]
  }

  /** `lp` is the place that stands for [b, b + Step(l)). */
  ghost predicate LocOk(lp: Loc, b: nat, l: nat, shape: seq<Shape>, levels: nat) {
    match lp
    case Root => b == 0 && l == levels
    case At(k, i) => k < |shape| && i < P_L2_SIZE && shape[k].level == l && b == SlotBase(shape[k].base, l, i)
  }

  ghost predicate Within(s: Shape, b: nat, l: nat) {
    s.level < l && b <= s.base && s.base + Step(s.level + 1) <= b + Step(l)
  }

  /** Only the slot `lp` itself and nodes below it may differ. */
  ghost predicate Framed(nodes: seq<Node>, nodes': seq<Node>, shape: seq<Shape>, lp: Loc, b: nat, l: nat) {
    && |nodes| <= |nodes'| && |nodes| == |shape|
    && (forall k :: 0 <= k < |nodes| && !(lp.At? && k == lp.node) && !Within(shape[k], b, l) ==> nodes'[k] == nodes[k])
    && (lp.At? && lp.node < |nodes| ==>
        forall i :: 0 <= i < P_L2_SIZE && i != lp.slot ==> nodes'[lp.node][i] == nodes[lp.node][i])
  }

  /** Most nodes one call may allocate: one per level on a range edge, two per level with both edges inside. */
  function Budget(index: nat, nb: nat, b: nat, level: nat): nat {
    if index == b || index + nb >= b + Step(level + 1) then level + 1 else 2 * level + 1
  }

  /** No page of [lo, hi) below entry e is mapped. */
  ghost predicate Clear(nodes: seq<Node>, e: Entry, b: nat, l: nat, lo: nat, hi: nat) {
    forall p: nat :: lo <= p < hi && InRange(p, b, l) ==> Walk(nodes, e, l, p) == PHYS_SECTION_UNASSIGNED
  }

  /** Below e', exactly [lo, hi) is mapped to leaf and the other pages are as they were below e. */
  ghost predicate Painted(nodes: seq<Node>, e: Entry, nodes': seq<Node>, e': Entry, b: nat, l: nat,
                          lo: nat, hi: nat, leaf: nat) {
    forall p: nat :: InRange(p, b, l) ==>
      Walk(nodes', e', l, p) == if lo <= p < hi then leaf else Walk(nodes, e, l, p)
  }

  lemma {:induction false} WalkNode(nodes: seq<Node>, q: nat, level: nat, p: nat)
    requires q < |nodes|
    ensures Walk(nodes, Entry(1, q), level + 1, p) == Walk(nodes, nodes[q][SlotOf(p, level)], level, p)
  {
  }

  /** Nodes on the way to a page of another slot are unchanged. */
  lemma {:induction false} OtherNodes(nodes: seq<Node>, nodes': seq<Node>, shape: seq<Shape>, q: nat, i: nat, j: nat,
                                      p: nat, k: nat)
    requires |nodes| == |shape| && q < |nodes| && k < |nodes| && i != j && i < P_L2_SIZE && j < P_L2_SIZE
    requires var s := shape[q];
      && Framed(nodes, nodes', shape, At(q, j), SlotBase(s.base, s.level, j), s.level)
      && InRange(p, SlotBase(s.base, s.level, i), s.level)
      && shape[k].level < s.level && Contains(shape[k], p)
    ensures nodes'[k] == nodes[k]
  {
    hide Step, SlotBase;
    var s := shape[q];
    if i < j { SlotOrder(s.base, s.level, i, j); } else { SlotOrder(s.base, s.level, j, i); }
  }

  /** Changing only slot j of node q and nodes below that slot leaves the other slots' lookups alone. */
  lemma {:induction false} OtherSlots(nodes: seq<Node>, nodes': seq<Node>, shape: seq<Shape>, q: nat, j: nat, p: nat)
    requires TreeOk(nodes, shape) && TreePlain(nodes, shape) && q < |nodes| && j < P_L2_SIZE
    requires |nodes| == |shape| && |nodes'| <= PHYS_MAP_NODE_NIL
    requires Framed(nodes, nodes', shape, At(q, j), SlotBase(shape[q].base, shape[q].level, j), shape[q].level)
    requires Contains(shape[q], p) && SlotOf(p, shape[q].level) != j
    ensures Walk(nodes', Entry(1, q), shape[q].level + 1, p) == Walk(nodes, Entry(1, q), shape[q].level + 1, p)
  {
    hide Walk, SlotOf, Step, SlotBase, TreeOk, TreePlain, InRange, EntryOk;
    var s := shape[q];
    var i := SlotOf(p, s.level);
    EntryAt(nodes, shape, q, i);
    SlotRange(p, s.base, s.level);
    forall k | 0 <= k < |nodes| && shape[k].level < s.level && Contains(shape[k], p)
      ensures nodes'[k] == nodes[k]
    {
      OtherNodes(nodes, nodes', shape, q, i, j, p, k);
    }
    WalkFrame(nodes, nodes', shape, nodes[q][i], SlotBase(s.base, s.level, i), s.level, p);
    WalkNode(nodes, q, s.level, p);
    WalkNode(nodes', q, s.level, p);
  }

  lemma {:induction false} PaintSlotAt(nodes: seq<Node>, nodes': seq<Node>, shape: seq<Shape>, q: nat, j: nat,
                    index: nat, idx: nat, idx': nat, leaf: nat, was: nat, p: nat)
    requires TreeOk(nodes, shape) && TreePlain(nodes, shape) && q < |nodes| && j < P_L2_SIZE
    requires |nodes| == |shape| && |nodes| <= |nodes'| <= PHYS_MAP_NODE_NIL && Contains(shape[q], p)
    requires var s := shape[q]; var sb := SlotBase(s.base, s.level, j);
      && Framed(nodes, nodes', shape, At(q, j), sb, s.level)
      && Walk(nodes, Entry(1, q), s.level + 1, p) == (if index <= p < idx then leaf else was)
      && sb <= idx <= idx' <= sb + Step(s.level) && index <= idx
      && (InRange(p, sb, s.level) ==>
           Walk(nodes', nodes'[q][j], s.level, p) == if idx <= p < idx' then leaf else Walk(nodes, nodes[q][j], s.level, p))
    ensures Walk(nodes', Entry(1, q), shape[q].level + 1, p) == if index <= p < idx' then leaf else was
  {
    hide Walk, SlotOf, Step, SlotBase, TreeOk, TreePlain, Framed, EntryOk;
    var s := shape[q];
    EntryOkAt(nodes, shape, q, j);
    SlotRange(p, s.base, s.level);
    if SlotOf(p, s.level) != j {
      OtherSlots(nodes, nodes', shape, q, j, p);
      if InRange(p, SlotBase(s.base, s.level, j), s.level) { SlotUnique(p, s.base, s.level, j); }
    } else {
      WalkNode(nodes, q, s.level, p);
      WalkNode(nodes', q, s.level, p);
    }
  }

  /** One iteration of the loop extends the painted range over slot j. */
  lemma {:induction false} PaintSlot(before: seq<Node>, nodes: seq<Node>, nodes': seq<Node>, shape: seq<Shape>,
                                     q: nat, j: nat, index: nat, idx: nat, idx': nat, leaf: nat)
    requires TreeOk(nodes, shape) && TreePlain(nodes, shape) && q < |nodes| && j < P_L2_SIZE
    requires |nodes'| <= PHYS_MAP_NODE_NIL
    requires var s := shape[q]; var sb := SlotBase(s.base, s.level, j);
      && Framed(nodes, nodes', shape, At(q, j), sb, s.level)
      && Painted(before, Entry(1, q), nodes, Entry(1, q), s.base, s.level + 1, index, idx, leaf)
      && sb <= idx <= idx' <= sb + Step(s.level) && index <= idx
      && Painted(nodes, nodes[q][j], nodes', nodes'[q][j], sb, s.level, idx, idx', leaf)
    ensures Painted(before, Entry(1, q), nodes', Entry(1, q), shape[q].base, shape[q].level + 1, index, idx', leaf)
  {
    var s := shape[q];
    var l := s.level + 1;
    forall p: nat | InRange(p, s.base, l)
      ensures Walk(nodes', Entry(1, q), l, p) == if index <= p < idx' then leaf else Walk(before, Entry(1, q), l, p)
    {
      PaintSlotAt(nodes, nodes', shape, q, j, index, idx, idx', leaf, Walk(before, Entry(1, q), l, p), p);
    }
  }

  /** The not yet painted pages of slot j are clear when they were clear below node q before the loop. */
  lemma {:induction false} SlotClear(before: seq<Node>, nodes: seq<Node>, shape: seq<Shape>, q: nat, j: nat,
                                     index: nat, idx: nat, hi: nat, leaf: nat)
    requires TreeOk(nodes, shape) && q < |nodes| && j < P_L2_SIZE && index <= idx
    requires var s := shape[q]; var l := s.level + 1;
      && Painted(before, Entry(1, q), nodes, Entry(1, q), s.base, l, index, idx, leaf)
      && Clear(before, Entry(1, q), s.base, l, index, hi)
    ensures var s := shape[q]; Clear(nodes, nodes[q][j], SlotBase(s.base, s.level, j), s.level, idx, hi)
  {
    hide Walk, SlotOf, Step, SlotBase, NodeOk;
    var s := shape[q];
    EntryOkAt(nodes, shape, q, j);
    forall p: nat | idx <= p < hi && InRange(p, SlotBase(s.base, s.level, j), s.level)
      ensures Walk(nodes, nodes[q][j], s.level, p) == PHYS_SECTION_UNASSIGNED
    {
      SlotUnique(p, s.base, s.level, j);
      WalkNode(nodes, q, s.level, p);
      assert Walk(nodes, Entry(1, q), s.level + 1, p) == Walk(before, Entry(1, q), s.level + 1, p);
    }
  }

  /** A change below slot j of node q is a change below node q. */
  lemma {:induction false} FrameUp(nodes0: seq<Node>, nodes: seq<Node>, nodes': seq<Node>, shape0: seq<Shape>,
                                   shape: seq<Shape>, q: nat, j: nat)
    requires shape0 <= shape && |nodes| == |shape| && q < |shape| && j < P_L2_SIZE
    requires var s := shape[q];
      && Framed(nodes0, nodes, shape0, Root, s.base, s.level + 1)
      && Framed(nodes, nodes', shape, At(q, j), SlotBase(s.base, s.level, j), s.level)
    ensures Framed(nodes0, nodes', shape0, Root, shape[q].base, shape[q].level + 1)
  {
    var s := shape[q];
    SlotInside(s.base, s.level, j);
    assert Within(s, s.base, s.level + 1);
    forall k | 0 <= k < |nodes| && !Within(shape[k], s.base, s.level + 1)
      ensures nodes'[k] == nodes[k]
    {
    }
  }

  /** First changing `lp` and nodes below it, then only nodes below it. */
  lemma {:induction false} FrameTrans(nodes0: seq<Node>, nodes: seq<Node>, nodes': seq<Node>, shape0: seq<Shape>,
                                      shape: seq<Shape>, lp: Loc, b: nat, l: nat, levels: nat)
    requires shape0 <= shape && |nodes| == |shape| && LocOk(lp, b, l, shape0, levels)
    requires Framed(nodes0, nodes, shape0, lp, b, l) && Framed(nodes, nodes', shape, Root, b, l)
    ensures Framed(nodes0, nodes', shape0, lp, b, l)
    ensures lp.At? ==> nodes'[lp.node][lp.slot] == nodes[lp.node][lp.slot]
  {
  }

  /** Facts the loop of phys_page_set_level starts from. */
  lemma {:induction false} FirstSlot(nodes: seq<Node>, shape: seq<Shape>, index: nat, b: nat, level: nat, q: nat,
                                     leaf: nat)
    requires b % Step(level + 1) == 0 && InRange(index, b, level + 1) && |nodes| == |shape|
    ensures var sb := SlotBase(b, level, SlotOf(index, level)); sb <= index < sb + Step(level)
    ensures index < b + Step(level + 1)
    ensures SlotBase(b, level, P_L2_SIZE) == b + Step(level + 1)
    ensures Painted(nodes, Entry(1, q), nodes, Entry(1, q), b, level + 1, index, index, leaf)
    ensures Framed(nodes, nodes, shape, Root, b, level + 1)
  {
    SlotRange(index, b, level);
    SlotTop(b, level);
  }

  /** Place and allocation arithmetic of one loop iteration. */
  lemma {:induction false} BudgetStep(index: nat, nb: nat, b: nat, level: nat, j0: nat, j: nat, idx: nat, rest: nat)
    requires j0 <= j < P_L2_SIZE && SlotBase(b, level, j0) <= index < SlotBase(b, level, j0) + Step(level)
    requires b % Step(level + 1) == 0
    requires rest > 0 && idx + rest == index + nb && idx == if j == j0 then index else SlotBase(b, level, j)
    ensures
      var sb := SlotBase(b, level, j);
      var used := if j == j0 then 1 else 1 + (if index == b then 0 else level);
      var more := if idx % Step(level) == 0 && rest >= Step(level) then 0
                  else if level == 0 then 0 else Budget(idx, rest, sb, level - 1);
      && InRange(idx, sb, level)
      && sb <= idx < sb + Step(level) == SlotBase(b, level, j + 1) <= b + Step(level + 1)
      && (level == 0 ==> idx % Step(level) == 0 && rest >= Step(level))
      && used + more <= Budget(index, nb, b, level)
      && (idx + rest > sb + Step(level) ==> used + more <= 1 + if index == b then 0 else level)
  {
    SlotInside(b, level, j);
    SlotAligned(b, level, j);
    if index == b && j0 > 0 { SlotOrder(b, level, 0, j0); }
  }

  /** An entry above level 0 with a clear page in its range is not a leaf. */
  lemma {:induction false} ClearNotLeaf(nodes: seq<Node>, shape: seq<Shape>, e: Entry, b: nat, l: nat, lo: nat, hi: nat)
    requires Clear(nodes, e, b, l, lo, hi) && lo < hi && InRange(lo, b, l) && l > 0
    requires EntryPlain(e, l)
    ensures e.skip == 1
  {
    assert Walk(nodes, e, l, lo) == PHYS_SECTION_UNASSIGNED;
  }

  lemma {:induction false} EntryOkAt(nodes: seq<Node>, shape: seq<Shape>, k: nat, i: nat)
    requires TreeOk(nodes, shape) && k < |nodes| && i < P_L2_SIZE
    ensures EntryOk(nodes[k][i], SlotBase(shape[k].base, shape[k].level, i), shape[k].level, shape)
    ensures shape[k].base % Step(shape[k].level + 1) == 0
  {
    assert NodeOk(nodes[k], shape[k], shape);
  }

  lemma {:induction false} EntryAt(nodes: seq<Node>, shape: seq<Shape>, k: nat, i: nat)
    requires TreeOk(nodes, shape) && TreePlain(nodes, shape) && k < |nodes| && i < P_L2_SIZE
    ensures EntryPlain(nodes[k][i], shape[k].level)
    ensures EntryOk(nodes[k][i], SlotBase(shape[k].base, shape[k].level, i), shape[k].level, shape)
    ensures shape[k].base % Step(shape[k].level + 1) == 0
  {
    assert NodeOk(nodes[k], shape[k], shape);
  }

  lemma {:induction false} PaintedSame(nodes: seq<Node>, e: Entry, b: nat, l: nat, lo: nat, leaf: nat)
    ensures Painted(nodes, e, nodes, e, b, l, lo, lo, leaf)
  {
  }

  /** Allocating first and painting afterwards is painting. */
  lemma {:induction false} PaintedTrans(nodes0: seq<Node>, e0: Entry, nodes1: seq<Node>, e1: Entry, nodes: seq<Node>,
                                        e: Entry, b: nat, l: nat, lo: nat, hi: nat, leaf: nat)
    requires Painted(nodes0, e0, nodes1, e1, b, l, 0, 0, 0) && Painted(nodes1, e1, nodes, e, b, l, lo, hi, leaf)
    ensures Painted(nodes0, e0, nodes, e, b, l, lo, hi, leaf)
  {
  }

  lemma {:induction false} ClearTrans(nodes0: seq<Node>, e0: Entry, nodes1: seq<Node>, e1: Entry, b: nat, l: nat,
                                      lo: nat, hi: nat)
    requires Painted(nodes0, e0, nodes1, e1, b, l, 0, 0, 0) && Clear(nodes0, e0, b, l, lo, hi)
    ensures Clear(nodes1, e1, b, l, lo, hi)
  {
  }

  /** A freshly allocated node maps nothing. */
  lemma {:induction false} FreshNode(nodes: seq<Node>, q: nat, level: nat, p: nat)
    requires q < |nodes| <= PHYS_MAP_NODE_NIL
    requires forall i :: 0 <= i < P_L2_SIZE ==>
               nodes[q][i] == if level == 0 then Entry(0, PHYS_SECTION_UNASSIGNED) else Entry(1, PHYS_MAP_NODE_NIL)
    ensures Walk(nodes, Entry(1, q), level + 1, p) == PHYS_SECTION_UNASSIGNED
  {
    assert nodes[q][SlotOf(p, level)].skip <= 1;
  }

  /** Overwriting slot j of node q by a section keeps the tree well formed. */
  lemma {:induction false} SetSlotOk(nodes: seq<Node>, shape: seq<Shape>, q: nat, j: nat, e: Entry)
    requires TreeOk(nodes, shape) && TreePlain(nodes, shape) && q < |nodes| && j < P_L2_SIZE
    requires EntryOk(e, SlotBase(shape[q].base, shape[q].level, j), shape[q].level, shape) &&
      EntryPlain(e, shape[q].level)
    ensures var nodes' := nodes[q := nodes[q][j := e]];
      TreeOk(nodes', shape) && TreePlain(nodes', shape)
  {
    var nodes' := nodes[q := nodes[q][j := e]];
    forall k | 0 <= k < |nodes'| ensures NodeOk(nodes'[k], shape[k], shape) {
      assert NodeOk(nodes[k], shape[k], shape);
    }
  }

  // ---------------------------------------------------------------- compaction

  /** A lookup may change from "unassigned" to some mapped section, whose coverage check then rejects the page. */
  ghost predicate Agree(was: nat, now: nat, live: set<nat>) {
    now == was || (was == PHYS_SECTION_UNASSIGNED && (now == PHYS_SECTION_UNASSIGNED || now in live))
  }

  ghost predicate Compacted(nodes: seq<Node>, e: Entry, nodes': seq<Node>, e': Entry, b: nat, l: nat, live: set<nat>) {
    forall p: nat :: InRange(p, b, l) ==> Agree(Walk(nodes, e, l, p), Walk(nodes', e', l, p), live)
  }

  /** Every section reached below e is in `live`. */
  ghost predicate Live(nodes: seq<Node>, e: Entry, b: nat, l: nat, live: set<nat>) {
    forall p: nat :: InRange(p, b, l) ==>
      Walk(nodes, e, l, p) == PHYS_SECTION_UNASSIGNED || Walk(nodes, e, l, p) in live
  }

  ghost predicate PlainBelow(nodes: seq<Node>, shape: seq<Shape>, b: nat, l: nat)
    requires |nodes| == |shape|
  {
    forall k, i :: 0 <= k < |nodes| && 0 <= i < P_L2_SIZE && Within(shape[k], b, l) ==> EntryPlain(nodes[k][i], shape[k].level)
  }

  lemma {:induction false} WithinTrans(s: Shape, c: Shape, b: nat, l: nat, i: nat)
    requires i < P_L2_SIZE && Within(c, b, l) && Within(s, SlotBase(c.base, c.level, i), c.level)
    ensures Within(s, b, l)
  {
    SlotInside(c.base, c.level, i);
  }

  /** A walk, compacted or not, reads only nodes inside the range of the entry it starts from. */
  lemma {:induction false} WalkBelow(nodes: seq<Node>, nodes': seq<Node>, shape: seq<Shape>, e: Entry, b: nat, l: nat,
                                     p: nat)
    requires TreeOk(nodes, shape) && EntryOk(e, b, l, shape) && |nodes'| == |nodes|
    requires forall k :: 0 <= k < |nodes| && Within(shape[k], b, l) ==> nodes'[k] == nodes[k]
    ensures Walk(nodes', e, l, p) == Walk(nodes, e, l, p)
    decreases l
  {
    if e.skip != 0 && e.ptr < |nodes| {
      var c := shape[e.ptr];
      var i := SlotOf(p, c.level);
      assert NodeOk(nodes[e.ptr], c, shape);
      forall k | 0 <= k < |nodes| && Within(shape[k], SlotBase(c.base, c.level, i), c.level)
        ensures nodes'[k] == nodes[k]
      {
        WithinTrans(shape[k], c, b, l, i);
      }
      WalkBelow(nodes, nodes', shape, nodes[e.ptr][i], SlotBase(c.base, c.level, i), c.level, p);
    }
  }

  lemma {:induction false} StepDown(l: nat, m: nat, t: int) returns (t': int)
    requires m <= l
    ensures t * Step(l) == t' * Step(m)
  {
    if m == l {
      t' := t;
    } else {
      StepSucc(l - 1, t);
      t' := StepDown(l - 1, m, t * P_L2_SIZE);
    }
  }

  lemma {:induction false} SlotPeriodic(p: nat, p': nat, m: nat, t: int)
    requires p' == p + t * Step(m + 1)
    ensures SlotOf(p', m) == SlotOf(p, m)
  {
    var s := Step(m);
    StepSucc(m, t);
    var d, r := p / s, p % s;
    DivMod(p, s);
    assert (d + t * P_L2_SIZE) * s == d * s + (t * P_L2_SIZE) * s;
    DivModUnique(p', s, d + t * P_L2_SIZE, r);
    var d1, r1 := d / P_L2_SIZE, d % P_L2_SIZE;
    DivModUnique(d + t * P_L2_SIZE, P_L2_SIZE, d1 + t, r1);
  }

  /** A walk from an entry of slot level l depends only on the page number modulo Step(l). */
  lemma {:induction false} WalkPeriodic(nodes: seq<Node>, e: Entry, l: nat, p: nat, p': nat, t: int)
    requires p' == p + t * Step(l)
    ensures Walk(nodes, e, l, p') == Walk(nodes, e, l, p)
    decreases l
  {
    if 0 < e.skip <= l && e.ptr < |nodes| {
      var m := l - e.skip;
      var t1 := StepDown(l, m + 1, t);
      SlotPeriodic(p, p', m, t1);
      var t2 := StepDown(l, m, t);
      WalkPeriodic(nodes, nodes[e.ptr][SlotOf(p, m)], m, p, p', t2);
    }
  }

  /** Any page below an entry can be moved into the entry's own range without changing the walk. */
  lemma {:induction false} WalkInto(nodes: seq<Node>, e: Entry, b: nat, l: nat, p: nat) returns (p': nat)
    requires b % Step(l) == 0
    ensures InRange(p', b, l) && Walk(nodes, e, l, p') == Walk(nodes, e, l, p)
  {
    var s := Step(l);
    p' := b + p % s;
    DivMod(p, s);
    DivMod(b, s);
    var t := b / s - p / s;
    assert t * s == (b / s) * s - (p / s) * s;
    WalkPeriodic(nodes, e, l, p, p', t);
  }

  /** What the entry becomes when slot v holds its node's only child. */
  function Collapsed(e: Entry, child: Entry): Entry {
    if child.skip == 0 then Entry(0, child.ptr) else Entry(e.skip + child.skip, child.ptr)
  }

  lemma {:induction false} CollapsedWalk(nodes: seq<Node>, shape: seq<Shape>, q: nat, child: Entry, b: nat, l: nat,
                                         p: nat)
    requires EntryOk(child, b, l, shape) && child.ptr != PHYS_MAP_NODE_NIL && |nodes| == |shape|
    ensures Walk(nodes, Collapsed(Entry(1, q), child), l + 1, p) == Walk(nodes, child, l, p)
    ensures child.skip != 0 ==> EntryOk(Entry(1 + child.skip, child.ptr), b, l + 1, shape)
  {
  }

  /** Walking a wrong page through a compacted child ends at a live section or nowhere. */
  lemma {:induction false} StrayWalk(nodes0: seq<Node>, e0: Entry, nodes: seq<Node>, e: Entry, b: nat, l: nat,
                                     live: set<nat>, p: nat)
    requires b % Step(l) == 0
    requires Compacted(nodes0, e0, nodes, e, b, l, live) && Live(nodes0, e0, b, l, live)
    ensures Walk(nodes, e, l, p) == PHYS_SECTION_UNASSIGNED || Walk(nodes, e, l, p) in live
  {
    var p' := WalkInto(nodes, e, b, l, p);
    assert Agree(Walk(nodes0, e0, l, p'), Walk(nodes, e, l, p'), live);
  }

  lemma {:induction false} NilSlot(nodes: seq<Node>, shape: seq<Shape>, q: nat, p: nat)
    requires TreeOk(nodes, shape) && q < |nodes|
    requires nodes[q][SlotOf(p, shape[q].level)].ptr == PHYS_MAP_NODE_NIL
    ensures Walk(nodes, Entry(1, q), shape[q].level + 1, p) == PHYS_SECTION_UNASSIGNED
  {
    var c := shape[q];
    var i := SlotOf(p, c.level);
    assert NodeOk(nodes[q], c, shape);
    assert EntryOk(nodes[q][i], SlotBase(c.base, c.level, i), c.level, shape);
  }

  lemma {:induction false} CollapseAt(nodes0: seq<Node>, nodes: seq<Node>, shape: seq<Shape>, q: nat, v: nat,
                                      live: set<nat>, p: nat)
    requires TreeOk(nodes0, shape) && TreeOk(nodes, shape) && q < |nodes| && v < P_L2_SIZE
    requires nodes[q][v].ptr != PHYS_MAP_NODE_NIL
    requires forall i :: 0 <= i < P_L2_SIZE && i != v ==> nodes0[q][i].ptr == PHYS_MAP_NODE_NIL
    requires var c := shape[q]; var sb := SlotBase(c.base, c.level, v);
      && Contains(c, p)
      && Compacted(nodes0, nodes0[q][v], nodes, nodes[q][v], sb, c.level, live)
      && Live(nodes0, nodes0[q][v], sb, c.level, live)
    ensures Agree(Walk(nodes0, Entry(1, q), shape[q].level + 1, p),
                  Walk(nodes, Collapsed(Entry(1, q), nodes[q][v]), shape[q].level + 1, p), live)
  {
    hide Walk, SlotOf, Step, SlotBase, NodeOk, EntryOk, Live;
    var c := shape[q];
    var sb := SlotBase(c.base, c.level, v);
    EntryOkAt(nodes, shape, q, v);
    CollapsedWalk(nodes, shape, q, nodes[q][v], sb, c.level, p);
    SlotRange(p, c.base, c.level);
    WalkNode(nodes0, q, c.level, p);
    if SlotOf(p, c.level) != v {
      NilSlot(nodes0, shape, q, p);
      SlotAligned(c.base, c.level, v);
      StrayWalk(nodes0, nodes0[q][v], nodes, nodes[q][v], sb, c.level, live, p);
    }
  }

  /** State of phys_page_compact's loop: slots before i are compacted, the others and their nodes untouched. */
  ghost predicate CompactLoop(nodes0: seq<Node>, nodes: seq<Node>, shape: seq<Shape>, q: nat, i: nat, live: set<nat>)
    requires q < |nodes0| == |nodes| == |shape|
  {
    var c := shape[q];
    && (forall s :: 0 <= s < i && s < P_L2_SIZE ==>
          Compacted(nodes0, nodes0[q][s], nodes, nodes[q][s], SlotBase(c.base, c.level, s), c.level, live))
    && (forall s :: i <= s < P_L2_SIZE ==> nodes[q][s] == nodes0[q][s])
    && (forall s :: 0 <= s < P_L2_SIZE ==> (nodes[q][s].ptr == PHYS_MAP_NODE_NIL <==> nodes0[q][s].ptr == PHYS_MAP_NODE_NIL))
    && (forall k, s :: 0 <= k < |nodes| && i <= s < P_L2_SIZE && Within(shape[k], SlotBase(c.base, c.level, s), c.level) ==>
          nodes[k] == nodes0[k])
  }

  lemma {:induction false} DisjointSlots(x: Shape, b: nat, l: nat, i: nat, j: nat)
    requires i != j && Within(x, SlotBase(b, l, i), l)
    ensures !Within(x, SlotBase(b, l, j), l)
  {
    if i < j { SlotOrder(b, l, i, j); } else { SlotOrder(b, l, j, i); }
  }

  /** The walk below one slot is not affected by a change below another slot. */
  lemma {:induction false} SlotStable(nodes: seq<Node>, nodes': seq<Node>, shape: seq<Shape>, q: nat, i: nat, s: nat,
                                      p: nat)
    requires TreeOk(nodes, shape) && |nodes'| == |nodes| && q < |nodes| && i < P_L2_SIZE && s < P_L2_SIZE && s != i
    requires Framed(nodes, nodes', shape, At(q, i), SlotBase(shape[q].base, shape[q].level, i), shape[q].level)
    ensures Walk(nodes', nodes'[q][s], shape[q].level, p) == Walk(nodes, nodes[q][s], shape[q].level, p)
  {
    var c := shape[q];
    var sb := SlotBase(c.base, c.level, s);
    assert NodeOk(nodes[q], c, shape);
    forall k | 0 <= k < |nodes| && Within(shape[k], sb, c.level) ensures nodes'[k] == nodes[k] {
      DisjointSlots(shape[k], c.base, c.level, s, i);
    }
    WalkBelow(nodes, nodes', shape, nodes[q][s], sb, c.level, p);
  }

  lemma {:induction false} CompactedAfter(nodes0: seq<Node>, nodes: seq<Node>, nodes': seq<Node>, shape: seq<Shape>,
                                          q: nat, i: nat, s: nat, live: set<nat>)
    requires TreeOk(nodes0, shape) && TreeOk(nodes, shape) && |nodes'| == |nodes| && q < |nodes| &&
      i < P_L2_SIZE && s <= i
    requires CompactLoop(nodes0, nodes, shape, q, i, live)
    requires var c := shape[q]; var sb := SlotBase(c.base, c.level, i);
      && Framed(nodes, nodes', shape, At(q, i), sb, c.level)
      && Compacted(nodes, nodes[q][i], nodes', nodes'[q][i], sb, c.level, live)
    ensures Compacted(nodes0, nodes0[q][s], nodes', nodes'[q][s], SlotBase(shape[q].base, shape[q].level, s),
      shape[q].level, live)
  {
    var c := shape[q];
    var sb, l := SlotBase(c.base, c.level, s), c.level;
    assert NodeOk(nodes0[q], c, shape);
    forall p: nat | InRange(p, sb, l)
      ensures Agree(Walk(nodes0, nodes0[q][s], l, p), Walk(nodes', nodes'[q][s], l, p), live)
    {
      if s < i {
        SlotStable(nodes, nodes', shape, q, i, s, p);
        assert Agree(Walk(nodes0, nodes0[q][s], l, p), Walk(nodes, nodes[q][s], l, p), live);
      } else {
        WalkBelow(nodes0, nodes, shape, nodes0[q][s], sb, l, p);
        assert Agree(Walk(nodes, nodes[q][s], l, p), Walk(nodes', nodes'[q][s], l, p), live);
      }
    }
  }

  lemma {:induction false} CompactLoopStep(nodes0: seq<Node>, nodes: seq<Node>, nodes': seq<Node>, shape: seq<Shape>,
                                           q: nat, i: nat, live: set<nat>)
    requires TreeOk(nodes0, shape) && TreeOk(nodes, shape) && |nodes'| == |nodes| && q < |nodes| && i < P_L2_SIZE
    requires CompactLoop(nodes0, nodes, shape, q, i, live)
    requires var c := shape[q]; var sb := SlotBase(c.base, c.level, i);
      && Framed(nodes, nodes', shape, At(q, i), sb, c.level)
      && Compacted(nodes, nodes[q][i], nodes', nodes'[q][i], sb, c.level, live)
    requires nodes'[q][i].ptr == PHYS_MAP_NODE_NIL <==> nodes[q][i].ptr == PHYS_MAP_NODE_NIL
    ensures CompactLoop(nodes0, nodes', shape, q, i + 1, live)
  {
    hide Compacted, Walk, Step, SlotBase;
    var c := shape[q];
    forall s | 0 <= s < i + 1
      ensures Compacted(nodes0, nodes0[q][s], nodes', nodes'[q][s], SlotBase(c.base, c.level, s), c.level, live)
    {
      CompactedAfter(nodes0, nodes, nodes', shape, q, i, s, live);
    }
    forall k, s | 0 <= k < |nodes| && i + 1 <= s < P_L2_SIZE && Within(shape[k], SlotBase(c.base, c.level, s), c.level)
      ensures nodes'[k] == nodes0[k]
    {
      DisjointSlots(shape[k], c.base, c.level, s, i);
    }
  }

  /** After the loop, lookups through node q agree. */
  lemma {:induction false} CompactLoopDone(nodes0: seq<Node>, nodes: seq<Node>, shape: seq<Shape>, q: nat,
                                           live: set<nat>)
    requires TreeOk(nodes0, shape) && TreeOk(nodes, shape) && q < |nodes|
    requires CompactLoop(nodes0, nodes, shape, q, P_L2_SIZE, live)
    ensures Compacted(nodes0, Entry(1, q), nodes, Entry(1, q), shape[q].base, shape[q].level + 1, live)
  {
    var c := shape[q];
    var l := c.level + 1;
    assert NodeOk(nodes[q], c, shape);
    forall p: nat | InRange(p, c.base, l)
      ensures Agree(Walk(nodes0, Entry(1, q), l, p), Walk(nodes, Entry(1, q), l, p), live)
    {
      SlotRange(p, c.base, c.level);
      var s := SlotOf(p, c.level);
      assert Agree(Walk(nodes0, nodes0[q][s], c.level, p), Walk(nodes, nodes[q][s], c.level, p), live);
    }
  }

  lemma {:induction false} SlotLive(nodes: seq<Node>, shape: seq<Shape>, q: nat, i: nat, live: set<nat>)
    requires TreeOk(nodes, shape) && q < |nodes| && i < P_L2_SIZE
    requires Live(nodes, Entry(1, q), shape[q].base, shape[q].level + 1, live)
    ensures Live(nodes, nodes[q][i], SlotBase(shape[q].base, shape[q].level, i), shape[q].level, live)
  {
    var c := shape[q];
    assert NodeOk(nodes[q], c, shape);
    forall p: nat | InRange(p, SlotBase(c.base, c.level, i), c.level)
      ensures Walk(nodes, nodes[q][i], c.level, p) ==
        PHYS_SECTION_UNASSIGNED || Walk(nodes, nodes[q][i], c.level, p) in live
    {
      SlotUnique(p, c.base, c.level, i);
      assert Walk(nodes, Entry(1, q), c.level + 1, p) == Walk(nodes, nodes[q][i], c.level, p);
    }
  }

  /** What a recursive call on slot i needs, while slot i is still untouched. */
  lemma {:induction false} CompactLoopEnter(nodes0: seq<Node>, nodes: seq<Node>, shape: seq<Shape>, q: nat, i: nat,
                                            live: set<nat>)
    requires TreeOk(nodes0, shape) && TreeOk(nodes, shape) && q < |nodes| && i < P_L2_SIZE
    requires CompactLoop(nodes0, nodes, shape, q, i, live)
    requires PlainBelow(nodes0, shape, shape[q].base, shape[q].level + 1)
    requires Live(nodes0, Entry(1, q), shape[q].base, shape[q].level + 1, live)
    ensures EntryPlain(nodes[q][i], shape[q].level)
    ensures PlainBelow(nodes, shape, SlotBase(shape[q].base, shape[q].level, i), shape[q].level)
    ensures Live(nodes, nodes[q][i], SlotBase(shape[q].base, shape[q].level, i), shape[q].level, live)
  {
    var c := shape[q];
    var sb, l := SlotBase(c.base, c.level, i), c.level;
    assert Within(c, c.base, c.level + 1);
    SlotLive(nodes0, shape, q, i, live);
    assert NodeOk(nodes0[q], c, shape);
    forall p: nat | InRange(p, sb, l)
      ensures Walk(nodes, nodes[q][i], l, p) == PHYS_SECTION_UNASSIGNED || Walk(nodes, nodes[q][i], l, p) in live
    {
      WalkBelow(nodes0, nodes, shape, nodes0[q][i], sb, l, p);
    }
    forall k | 0 <= k < |nodes| && Within(shape[k], sb, l) ensures Within(shape[k], c.base, c.level + 1) {
      SlotInside(c.base, c.level, i);
    }
  }

  /** Storing a well-formed entry in a slot keeps the tree well formed and the walks below the slot's range. */
  lemma {:induction false} StoreSlot(nodes: seq<Node>, shape: seq<Shape>, k: nat, i: nat, e: Entry)
    requires TreeOk(nodes, shape) && k < |nodes| && i < P_L2_SIZE
    requires EntryOk(e, SlotBase(shape[k].base, shape[k].level, i), shape[k].level, shape)
    ensures var nodes' := nodes[k := nodes[k][i := e]];
      && TreeOk(nodes', shape)
      && forall p: nat :: Walk(nodes', e, shape[k].level, p) == Walk(nodes, e, shape[k].level, p)
  {
    var nodes' := nodes[k := nodes[k][i := e]];
    forall m | 0 <= m < |nodes'| ensures NodeOk(nodes'[m], shape[m], shape) {
      assert NodeOk(nodes[m], shape[m], shape);
    }
    forall p: nat ensures Walk(nodes', e, shape[k].level, p) == Walk(nodes, e, shape[k].level, p) {
      WalkBelow(nodes, nodes', shape, e, SlotBase(shape[k].base, shape[k].level, i), shape[k].level, p);
    }
  }

  /** The collapsed entry is well formed, agrees with the original tree, and is not NIL. */
  lemma {:induction false} Collapse(nodes0: seq<Node>, nodes: seq<Node>, shape: seq<Shape>, q: nat, v: nat,
                                    live: set<nat>)
    requires TreeOk(nodes0, shape) && TreeOk(nodes, shape) && q < |nodes| && v < P_L2_SIZE
    requires nodes[q][v].ptr != PHYS_MAP_NODE_NIL
    requires forall i :: 0 <= i < P_L2_SIZE && i != v ==> nodes0[q][i].ptr == PHYS_MAP_NODE_NIL
    requires CompactLoop(nodes0, nodes, shape, q, P_L2_SIZE, live)
    requires Live(nodes0, Entry(1, q), shape[q].base, shape[q].level + 1, live)
    ensures var e := Collapsed(Entry(1, q), nodes[q][v]);
      && e.ptr != PHYS_MAP_NODE_NIL
      && EntryOk(e, shape[q].base, shape[q].level + 1, shape)
      && Compacted(nodes0, Entry(1, q), nodes, e, shape[q].base, shape[q].level + 1, live)
  {
    var c := shape[q];
    var e, l := Collapsed(Entry(1, q), nodes[q][v]), c.level + 1;
    assert NodeOk(nodes[q], c, shape);
    SlotLive(nodes0, shape, q, v, live);
    SlotInside(c.base, c.level, v);
    forall p: nat | InRange(p, c.base, l)
      ensures Agree(Walk(nodes0, Entry(1, q), l, p), Walk(nodes, e, l, p), live)
    {
      CollapseAt(nodes0, nodes, shape, q, v, live, p);
    }
  }

  lemma {:induction false} CompactedSame(nodes: seq<Node>, e: Entry, b: nat, l: nat, live: set<nat>,
                                         shape: seq<Shape>, lp: Loc)
    requires |nodes| == |shape|
    ensures Compacted(nodes, e, nodes, e, b, l, live) && Framed(nodes, nodes, shape, lp, b, l)
  {
  }

  lemma {:induction false} CompactLoopStart(nodes: seq<Node>, shape: seq<Shape>, q: nat, live: set<nat>)
    requires q < |nodes| == |shape|
    ensures CompactLoop(nodes, nodes, shape, q, 0, live)
  {
  }

  lemma {:induction false} CompactedStored(nodes0: seq<Node>, e0: Entry, nodes: seq<Node>, nodes': seq<Node>,
                                           e: Entry, b: nat, l: nat, live: set<nat>)
    requires Compacted(nodes0, e0, nodes, e, b, l, live)
    requires forall p: nat :: Walk(nodes', e, l, p) == Walk(nodes, e, l, p)
    ensures Compacted(nodes0, e0, nodes', e, b, l, live)
  {
  }

  lemma {:induction false} FrameStored(nodes0: seq<Node>, nodes: seq<Node>, shape: seq<Shape>, k: nat, i: nat,
                                       e: Entry, b: nat, l: nat)
    requires k < |nodes| == |nodes0| && i < P_L2_SIZE && Framed(nodes0, nodes, shape, Root, b, l) && shape[k].level == l
    ensures Framed(nodes0, nodes[k := nodes[k][i := e]], shape, At(k, i), b, l)
  {
  }

  lemma {:induction false} CompactLoopNil(nodes0: seq<Node>, nodes: seq<Node>, shape: seq<Shape>, q: nat, i: nat,
                                          s: nat, live: set<nat>)
    requires q < |nodes0| == |nodes| == |shape| && s < P_L2_SIZE && CompactLoop(nodes0, nodes, shape, q, i, live)
    ensures nodes[q][s].ptr == PHYS_MAP_NODE_NIL <==> nodes0[q][s].ptr == PHYS_MAP_NODE_NIL
  {
  }

  lemma {:induction false} SkipPositive(nodes: seq<Node>, shape: seq<Shape>, q: nat, i: nat)
    requires TreeOk(nodes, shape) && q < |nodes| && i < P_L2_SIZE && nodes[q][i].skip != 0
    ensures shape[q].level > 0
  {
    assert NodeOk(nodes[q], shape[q], shape);
  }

  /** A plain, non-NIL entry above level 0 points to the node of its own range. */
  lemma {:induction false} LocEntry(nodes: seq<Node>, root: Entry, shape: seq<Shape>, lp: Loc, b: nat, l: nat,
                                    levels: nat)
    requires TreeOk(nodes, shape) && LocOk(lp, b, l, shape, levels) && l > 0 && EntryOk(root, 0, levels, shape)
    requires var e := Get(nodes, root, lp); e.skip == 1 && e.ptr != PHYS_MAP_NODE_NIL
    ensures var e := Get(nodes, root, lp); e.ptr < |nodes| && shape[e.ptr] == Shape(b, l - 1)
  {
    if lp.At? { assert NodeOk(nodes[lp.node], shape[lp.node], shape); }
  }

  /** The lookup function after mapping [index, index + nb) to leaf. */
  ghost predicate RangeSet(nodes: seq<Node>, root: Entry, nodes': seq<Node>, root': Entry, levels: nat,
                           index: nat, nb: nat, leaf: nat) {
    forall p: nat :: p < Step(levels) ==>
      Walk(nodes', root', levels, p) == if index <= p < index + nb then leaf else Walk(nodes, root, levels, p)
  }

  lemma {:induction false} RootClear(nodes: seq<Node>, root: Entry, levels: nat, index: nat, nb: nat)
    requires index + nb <= Step(levels) && nb > 0
    requires forall p: nat :: index <= p < index + nb ==> Walk(nodes, root, levels, p) == PHYS_SECTION_UNASSIGNED
    ensures InRange(index, 0, levels) && Clear(nodes, root, 0, levels, index, index + nb) && 0 % Step(levels) == 0
  {
  }

  lemma {:induction false} RootPainted(nodes0: seq<Node>, root0: Entry, nodes: seq<Node>, root: Entry, levels: nat,
                                       index: nat, nb: nat, leaf: nat)
    requires Painted(nodes0, root0, nodes, root, 0, levels, index, Min(index + nb, Step(levels)), leaf)
    requires index + nb <= Step(levels)
    ensures RangeSet(nodes0, root0, nodes, root, levels, index, nb, leaf)
  {
    forall p: nat | p < Step(levels)
      ensures Walk(nodes, root, levels, p) == if index <= p < index + nb then leaf else Walk(nodes0, root0, levels, p)
    {
      assert InRange(p, 0, levels);
    }
  }

  /** Writing a leaf over a whole slot paints exactly that slot. */
  lemma {:induction false} LeafSlot(nodes: seq<Node>, shape: seq<Shape>, root: Entry, levels: nat, q: nat, j: nat,
                                    leaf: nat)
    requires TreeOk(nodes, shape) && TreePlain(nodes, shape) && q < |nodes| && j < P_L2_SIZE && 0 < leaf < 0x1_0000
    ensures var nodes' := nodes[q := nodes[q][j := Entry(0, leaf)]]; var s := shape[q]; var sb := SlotBase(s.base, s.level, j);
      && TreeOk(nodes', shape) && TreePlain(nodes', shape)
      && Framed(nodes, nodes', shape, At(q, j), sb, s.level)
      && Painted(nodes, nodes[q][j], nodes', nodes'[q][j], sb, s.level, sb, sb + Step(s.level), leaf)
  {
    SetSlotOk(nodes, shape, q, j, Entry(0, leaf));
  }

  /** A NIL place that now points to a freshly allocated node: nothing is mapped either way. */
  lemma {:induction false} FreshPainted(nodes0: seq<Node>, nodes: seq<Node>, q: nat, level: nat, b: nat)
    requires q < |nodes| <= PHYS_MAP_NODE_NIL && |nodes0| <= PHYS_MAP_NODE_NIL
    requires forall i :: 0 <= i < P_L2_SIZE ==>
               nodes[q][i] == if level == 0 then Entry(0, PHYS_SECTION_UNASSIGNED) else Entry(1, PHYS_MAP_NODE_NIL)
    ensures Painted(nodes0, Entry(1, PHYS_MAP_NODE_NIL), nodes, Entry(1, q), b, level + 1, 0, 0, 0)
  {
    var l := level + 1;
    forall p: nat | InRange(p, b, l)
      ensures Walk(nodes, Entry(1, q), l, p) == Walk(nodes0, Entry(1, PHYS_MAP_NODE_NIL), l, p)
    {
      FreshNode(nodes, q, level, p);
    }
  }

  lemma {:induction false} FreshFramed(nodes0: seq<Node>, nodes: seq<Node>, shape: seq<Shape>, lp: Loc, b: nat,
                                       l: nat, e: Entry)
    requires |nodes0| == |shape| < |nodes| && nodes[..|nodes0|] == nodes0
    requires lp.At? ==> lp.node < |nodes0| && lp.slot < P_L2_SIZE
    ensures match lp
      case Root => Framed(nodes0, nodes, shape, lp, b, l)
      case At(k, i) => Framed(nodes0, nodes[k := nodes[k][i := e]], shape, lp, b, l)
  {
    assert forall k :: 0 <= k < |nodes0| ==> nodes[k] == nodes[..|nodes0|][k];
  }

  lemma {:induction false} FreshEntryOk(q: nat, b: nat, level: nat, shape: seq<Shape>)
    requires q < |shape| && shape[q] == Shape(b, level)
    ensures EntryOk(Entry(1, q), b, level + 1, shape)
  {
  }

  class PhysPageTree {
    const levels: nat
    var root: Entry
    var nodes: seq<Node>
    var nodesAlloc: nat
    var allocHint: nat
    ghost var shape: seq<Shape>

    ghost predicate Valid()
      reads this
    {
      && levels > 0
      && |nodes| == |shape| <= Min(nodesAlloc, PHYS_MAP_NODE_NIL)
      && TreeOk(nodes, shape)
      && EntryOk(root, 0, levels, shape)
    }

    ghost predicate Plain()
      reads this
      requires Valid()
    {
      TreePlain(nodes, shape) && EntryPlain(root, levels)
    }

    ghost function Lookup(page: nat): nat
      reads this
    {
      Walk(nodes, root, levels, page)
    }

    constructor (levels: nat)
      requires levels > 0
      ensures Valid() && Plain() && this.levels == levels && nodes == []
      ensures forall p: nat :: Lookup(p) == PHYS_SECTION_UNASSIGNED
    {
      this.levels := levels;
      root := Entry(1, PHYS_MAP_NODE_NIL);
      nodes, nodesAlloc, allocHint, shape := [], 0, 16, [];
    }

    method NodeReserve(count: nat)
      requires Valid()
      modifies this`nodesAlloc, this`allocHint
      ensures Valid() && |nodes| + count <= nodesAlloc
      ensures |nodes| + count <= old(nodesAlloc) ==> nodesAlloc == old(nodesAlloc) && allocHint == old(allocHint)
      ensures |nodes| + count > old(nodesAlloc) ==>
        nodesAlloc == Max(Max(old(nodesAlloc), old(allocHint)), |nodes| + count) && allocHint == nodesAlloc
    {
      if |nodes| + count > nodesAlloc {
        nodesAlloc := Max(nodesAlloc, allocHint);
        nodesAlloc := Max(nodesAlloc, |nodes| + count);
        allocHint := nodesAlloc;
      }
    }

    method NodeAlloc(leaf: bool, ghost s: Shape) returns (ret: nat)
      requires Valid() && Plain()
      requires |nodes| < PHYS_MAP_NODE_NIL && |nodes| < nodesAlloc
      requires s.base % Step(s.level + 1) == 0 && leaf == (s.level == 0)
      modifies this`nodes, this`shape
      ensures Valid() && Plain()
      ensures ret == |old(nodes)| && |nodes| == ret + 1 && nodes[..ret] == old(nodes)
      ensures shape == old(shape) + [s]
      ensures forall i :: 0 <= i < P_L2_SIZE ==>
                nodes[ret][i] == if leaf then Entry(0, PHYS_SECTION_UNASSIGNED) else Entry(1, PHYS_MAP_NODE_NIL)
    {
      ret := |nodes|;
      assert ret != PHYS_MAP_NODE_NIL && ret != nodesAlloc;
      var e := if leaf then Entry(0, PHYS_SECTION_UNASSIGNED) else Entry(1, PHYS_MAP_NODE_NIL);
      nodes := nodes + [seq(P_L2_SIZE, _ => e)];
      shape := shape + [s];
      assert NodeOk(nodes[ret], s, shape);
      forall k | 0 <= k < ret ensures NodeOk(nodes[k], shape[k], shape) {
        assert NodeOk(old(nodes)[k], old(shape)[k], old(shape));
      }
    }

    /** Makes `lp` point to a node, allocating it when it is still NIL; lookups do not change. */
    method EnsureNode(lp: Loc, level: nat, ghost b: nat) returns (q: nat)
      requires Valid() && Plain() && LocOk(lp, b, level + 1, shape, levels) && b % Step(level + 1) == 0
      requires Get(nodes, root, lp).skip == 1
      requires |nodes| < PHYS_MAP_NODE_NIL && |nodes| < nodesAlloc
      modifies this`nodes, this`root, this`shape
      ensures Valid() && Plain() && LocOk(lp, b, level + 1, shape, levels)
      ensures |old(nodes)| <= |nodes| <= |old(nodes)| + 1 && old(shape) <= shape
      ensures q < |nodes| && shape[q] == Shape(b, level) && Get(nodes, root, lp) == Entry(1, q)
      ensures lp.At? ==> root == old(root)
      ensures Framed(old(nodes), nodes, old(shape), lp, b, level + 1)
      ensures Painted(old(nodes), Get(old(nodes), old(root), lp), nodes, Entry(1, q), b, level + 1, 0, 0, 0)
    {
      hide Walk, Step, SlotBase, Painted, Framed, TreeOk, TreePlain, EntryOk, InRange;
      var e := match lp case Root => root case At(k, i) => nodes[k][i];
      if e.ptr != PHYS_MAP_NODE_NIL {
        q := e.ptr;
        LocEntry(nodes, root, shape, lp, b, level + 1, levels);
        PaintedSame(nodes, e, b, level + 1, 0, 0);
        CompactedSame(nodes, e, b, level + 1, {}, shape, lp);
        return;
      }
      q := NodeAlloc(level == 0, Shape(b, level));
      FreshEntryOk(q, b, level, shape);
      FreshFramed(old(nodes), nodes, old(shape), lp, b, level + 1, Entry(1, q));
      match lp {
        case Root => root := Entry(1, q);
        case At(k, i) =>
          SetSlotOk(nodes, shape, k, i, Entry(1, q));
          nodes := nodes[k := nodes[k][i := Entry(1, q)]];
      }
      FreshPainted(old(nodes), nodes, q, level, b);
    }

    /** phys_page_set_level: maps as much of [index, index + nb) as lies below `lp` to section `leaf`. */
    method SetLevel(lp: Loc, index: nat, nb: nat, leaf: nat, level: nat, ghost b: nat) returns (idx: nat, rest: nat)
      requires Valid() && Plain() && LocOk(lp, b, level + 1, shape, levels) && b % Step(level + 1) == 0
      requires InRange(index, b, level + 1) && nb > 0 && 0 < leaf < 0x1_0000
      requires Clear(nodes, Get(nodes, root, lp), b, level + 1, index, index + nb)
      requires |nodes| + Budget(index, nb, b, level) <= Min(nodesAlloc, PHYS_MAP_NODE_NIL)
      modifies this`nodes, this`root, this`shape
      ensures Valid() && Plain() && LocOk(lp, b, level + 1, shape, levels) && old(shape) <= shape
      ensures idx == Min(index + nb, b + Step(level + 1)) && idx + rest == index + nb
      ensures |nodes| <= |old(nodes)| + Budget(index, nb, b, level)
      ensures lp.At? ==> root == old(root)
      ensures Framed(old(nodes), nodes, old(shape), lp, b, level + 1)
      ensures Painted(old(nodes), Get(old(nodes), old(root), lp), nodes, Get(nodes, root, lp), b, level + 1, index,
        idx, leaf)
      decreases level, 2
    {
      hide Walk, Step, SlotBase, SlotOf, Painted, Clear, Framed, TreeOk, TreePlain, EntryOk, EntryPlain, InRange;
      ghost var e0 := Get(nodes, root, lp);
      if lp.At? { EntryAt(nodes, shape, lp.node, lp.slot); }
      ClearNotLeaf(nodes, shape, e0, b, level + 1, index, index + nb);
      var q := EnsureNode(lp, level, b);
      ghost var nodes1, shape1 := nodes, shape;
      ClearTrans(old(nodes), e0, nodes, Entry(1, q), b, level + 1, index, index + nb);
      idx, rest := SetNode(q, index, nb, leaf, level, |old(nodes)|);
      FrameTrans(old(nodes), nodes1, nodes, old(shape), shape1, lp, b, level + 1, levels);
      PaintedTrans(old(nodes), e0, nodes1, Entry(1, q), nodes, Entry(1, q), b, level + 1, index, idx, leaf);
    }

    /** The loop of phys_page_set_level over the slots of node q. */
    method SetNode(q: nat, index: nat, nb: nat, leaf: nat, level: nat, ghost n0: nat) returns (idx: nat, rest: nat)
      requires Valid() && Plain() && q < |nodes| && shape[q].level == level
      requires InRange(index, shape[q].base, level + 1) && nb > 0 && 0 < leaf < 0x1_0000
      requires Clear(nodes, Entry(1, q), shape[q].base, level + 1, index, index + nb)
      requires |nodes| <= n0 + 1 && n0 + Budget(index, nb, shape[q].base, level) <= Min(nodesAlloc, PHYS_MAP_NODE_NIL)
      modifies this`nodes, this`root, this`shape
      ensures Valid() && Plain() && old(shape) <= shape && root == old(root)
      ensures idx == Min(index + nb, shape[q].base + Step(level + 1)) && idx + rest == index + nb
      ensures |nodes| <= n0 + Budget(index, nb, shape[q].base, level)
      ensures Framed(old(nodes), nodes, old(shape), Root, shape[q].base, level + 1)
      ensures Painted(old(nodes), Entry(1, q), nodes, Entry(1, q), shape[q].base, level + 1, index, idx, leaf)
      decreases level, 1
    {
      hide Walk, Step, SlotBase, SlotOf, Painted, Clear, Framed, TreeOk, TreePlain, EntryOk, EntryPlain, InRange;
      ghost var b := shape[q].base;
      var j := SlotOf(index, level);
      ghost var j0, top := j, b + Step(level + 1);
      EntryAt(nodes, shape, q, 0);
      FirstSlot(nodes, shape, index, b, level, q, leaf);
      idx, rest := index, nb;
      while rest > 0 && j < P_L2_SIZE
        invariant Valid() && Plain() && old(shape) <= shape && root == old(root)
        invariant j0 <= j <= P_L2_SIZE && idx + rest == index + nb && index <= idx <= top
        invariant rest > 0 ==> idx == if j == j0 then index else SlotBase(b, level, j)
        invariant Framed(old(nodes), nodes, old(shape), Root, b, level + 1)
        invariant Painted(old(nodes), Entry(1, q), nodes, Entry(1, q), b, level + 1, index, idx, leaf)
        invariant |nodes| <= n0 + (if j == j0 then 1 else if rest > 0 then 1 + (if index == b then 0 else level)
                                   else Budget(index, nb, b, level))
      {
        ghost var pre, preShape, was := nodes, shape, idx;
        BudgetStep(index, nb, b, level, j0, j, idx, rest);
        SlotClear(old(nodes), nodes, shape, q, j, index, idx, index + nb, leaf);
        idx, rest := SetEntry(q, j, idx, rest, leaf, level);
        PaintSlot(old(nodes), pre, nodes, preShape, q, j, index, was, idx, leaf);
        FrameUp(old(nodes), pre, nodes, old(shape), preShape, q, j);
        j := j + 1;
      }
    }

    /** The body of phys_page_set_level's loop for slot j of node q. */
    method SetEntry(q: nat, j: nat, index: nat, nb: nat, leaf: nat, level: nat) returns (idx: nat, rest: nat)
      requires Valid() && Plain() && q < |nodes| && j < P_L2_SIZE && shape[q].level == level
      requires var sb := SlotBase(shape[q].base, level, j);
        && InRange(index, sb, level) && nb > 0 && 0 < leaf < 0x1_0000
        && Clear(nodes, nodes[q][j], sb, level, index, index + nb)
        && (!(index % Step(level) == 0 && nb >= Step(level)) ==>
            level > 0 && |nodes| + Budget(index, nb, sb, level - 1) <= Min(nodesAlloc, PHYS_MAP_NODE_NIL))
      modifies this`nodes, this`root, this`shape
      ensures Valid() && Plain() && old(shape) <= shape && root == old(root)
      ensures var sb := SlotBase(old(shape)[q].base, level, j);
        && idx == Min(index + nb, sb + Step(level)) && idx + rest == index + nb
        && |nodes| <= |old(nodes)| + (if index % Step(level) == 0 && nb >= Step(level) then 0 else Budget(index, nb, sb, level - 1))
        && Framed(old(nodes), nodes, old(shape), At(q, j), sb, level)
        && Painted(old(nodes), old(nodes)[q][j], nodes, nodes[q][j], sb, level, index, idx, leaf)
      decreases level, 0
    {
      hide Walk, Step, SlotBase, Painted, Clear, Framed, TreeOk, TreePlain, EntryOk, EntryPlain, InRange;
      ghost var sb := SlotBase(shape[q].base, level, j);
      EntryAt(nodes, shape, q, j);
      SlotAligned(shape[q].base, level, j);
      var step := Step(level);
      if index % step == 0 && nb >= step {
        AlignedIsFirst(index, sb, level);
        LeafSlot(nodes, shape, root, levels, q, j, leaf);
        nodes := nodes[q := nodes[q][j := Entry(0, leaf)]];
        idx, rest := index + step, nb - step;
      } else {
        idx, rest := SetLevel(At(q, j), index, nb, leaf, level - 1, sb);
      }
    }

    /** phys_page_set: reserves nodes for the worst case and maps [index, index + nb) to `leaf`. */
    method Set(index: nat, nb: nat, leaf: nat)
      requires Valid() && Plain()
      requires nb > 0 && index + nb <= Step(levels) && 0 < leaf < 0x1_0000
      requires forall p: nat :: index <= p < index + nb ==> Lookup(p) == PHYS_SECTION_UNASSIGNED
      requires |nodes| + 2 * levels - 1 <= PHYS_MAP_NODE_NIL
      modifies this
      ensures Valid() && Plain()
      ensures |nodes| <= |old(nodes)| + 2 * levels - 1
      ensures RangeSet(old(nodes), old(root), nodes, root, levels, index, nb, leaf)
    {
      hide Walk, Step, Painted, Clear, Framed, TreeOk, TreePlain, EntryOk, EntryPlain, InRange;
      forall p: nat | index <= p < index + nb ensures Walk(nodes, root, levels, p) == PHYS_SECTION_UNASSIGNED {
        assert Lookup(p) == PHYS_SECTION_UNASSIGNED;
      }
      RootClear(nodes, root, levels, index, nb);
      NodeReserve(3 * levels);
      var idx, rest := SetLevel(Root, index, nb, leaf, levels - 1, 0);
      RootPainted(old(nodes), old(root), nodes, root, levels, index, nb, leaf);
    }

    /** phys_page_compact on the entry at `lp`. */
    method Compact(lp: Loc, ghost b: nat, ghost l: nat, ghost live: set<nat>)
      requires Valid() && LocOk(lp, b, l, shape, levels) && l > 0
      requires Get(nodes, root, lp).skip != 0 && EntryPlain(Get(nodes, root, lp), l)
      requires PlainBelow(nodes, shape, b, l)
      requires Live(nodes, Get(nodes, root, lp), b, l, live)
      modifies this`nodes, this`root
      ensures Valid() && |nodes| == |old(nodes)| && (lp.At? ==> root == old(root))
      ensures Framed(old(nodes), nodes, shape, lp, b, l)
      ensures Compacted(old(nodes), Get(old(nodes), old(root), lp), nodes, Get(nodes, root, lp), b, l, live)
      ensures Get(nodes, root, lp).ptr == PHYS_MAP_NODE_NIL <==> Get(old(nodes), old(root), lp).ptr == PHYS_MAP_NODE_NIL
      decreases l, 1
    {
      hide Walk, Step, SlotBase, SlotOf, Compacted, Live, Framed, TreeOk, PlainBelow, InRange, CompactLoop;
      var e := match lp case Root => root case At(k, i) => nodes[k][i];
      if e.ptr == PHYS_MAP_NODE_NIL {
        CompactedSame(nodes, e, b, l, live, shape, lp);
        return;
      }
      var q := e.ptr;
      LocEntry(nodes, root, shape, lp, b, l, levels);
      var valid, v := CompactChildren(q, live);
      CompactLoopDone(old(nodes), nodes, shape, q, live);
      FrameTrans(old(nodes), old(nodes), nodes, shape, shape, lp, b, l, levels) by {
        CompactedSame(old(nodes), e, b, l, live, shape, lp);
      }
      if valid != 1 || e.skip + nodes[q][v].skip >= 8 {
        return;
      }
      Collapse(old(nodes), nodes, shape, q, v, live);
      var e' := Collapsed(e, nodes[q][v]);
      match lp {
        case Root =>
          root := e';
        case At(k, i) =>
          StoreSlot(nodes, shape, k, i, e');
          FrameStored(old(nodes), nodes, shape, k, i, e', b, l);
          CompactedStored(old(nodes), e, nodes, nodes[k := nodes[k][i := e']], e', b, l, live);
          nodes := nodes[k := nodes[k][i := e']];
      }
    }

    /** The loop of phys_page_compact: compacts the children of node q and counts the entries in use. */
    method CompactChildren(q: nat, ghost live: set<nat>) returns (valid: nat, v: nat)
      requires Valid() && q < |nodes|
      requires PlainBelow(nodes, shape, shape[q].base, shape[q].level + 1)
      requires Live(nodes, Entry(1, q), shape[q].base, shape[q].level + 1, live)
      modifies this`nodes, this`root
      ensures Valid() && |nodes| == |old(nodes)| && root == old(root)
      ensures Framed(old(nodes), nodes, shape, Root, shape[q].base, shape[q].level + 1)
      ensures CompactLoop(old(nodes), nodes, shape, q, P_L2_SIZE, live)
      ensures valid == 1 ==>
                v < P_L2_SIZE && nodes[q][v].ptr != PHYS_MAP_NODE_NIL &&
                forall i :: 0 <= i < P_L2_SIZE && i != v ==> old(nodes)[q][i].ptr == PHYS_MAP_NODE_NIL
      decreases shape[q].level + 1, 0
    {
      hide Walk, Step, SlotBase, SlotOf, Compacted, Live, Framed, TreeOk, PlainBelow, InRange, CompactLoop;
      ghost var b, l := shape[q].base, shape[q].level;
      valid, v := 0, P_L2_SIZE;
      CompactedSame(nodes, Entry(1, q), b, l + 1, live, shape, Root);
      CompactLoopStart(nodes, shape, q, live);
      for i := 0 to P_L2_SIZE
        invariant Valid() && |nodes| == |old(nodes)| && root == old(root)
        invariant Framed(old(nodes), nodes, shape, Root, b, l + 1)
        invariant CompactLoop(old(nodes), nodes, shape, q, i, live)
        invariant valid == 0 ==> forall s :: 0 <= s < i ==> old(nodes)[q][s].ptr == PHYS_MAP_NODE_NIL
        invariant valid == 1 ==>
                    v < i && old(nodes)[q][v].ptr != PHYS_MAP_NODE_NIL &&
                    forall s :: 0 <= s < i && s != v ==> old(nodes)[q][s].ptr == PHYS_MAP_NODE_NIL
      {
        ghost var pre := nodes;
        ghost var sb := SlotBase(b, l, i);
        CompactLoopNil(old(nodes), nodes, shape, q, i, i, live);
        CompactedSame(nodes, nodes[q][i], sb, l, live, shape, At(q, i));
        if nodes[q][i].ptr != PHYS_MAP_NODE_NIL {
          v, valid := i, valid + 1;
          if nodes[q][i].skip != 0 {
            CompactLoopEnter(old(nodes), nodes, shape, q, i, live);
            SkipPositive(nodes, shape, q, i);
            Compact(At(q, i), sb, l, live);
          }
        }
        FrameUp(old(nodes), pre, nodes, shape, shape, q, i);
        CompactLoopStep(old(nodes), pre, nodes, shape, q, i, live);
      }
      if valid == 1 { CompactLoopNil(old(nodes), nodes, shape, q, P_L2_SIZE, v, live); }
    }

    /** phys_page_find without the coverage check: the section number its loop ends with. */
    method Find(page: nat) returns (section: nat)
      requires Valid()
      ensures section == Lookup(page) && section < 0x1_0000
    {
      var lp, i: nat := root, levels;
      ghost var b: nat := 0;
      while lp.skip != 0
        invariant i <= levels && EntryOk(lp, b, i, shape)
        invariant Walk(nodes, lp, i, page) == Lookup(page)
        decreases i
      {
        i := i - lp.skip;
        if lp.ptr == PHYS_MAP_NODE_NIL {
          return PHYS_SECTION_UNASSIGNED;
        }
        assert NodeOk(nodes[lp.ptr], shape[lp.ptr], shape);
        b := SlotBase(shape[lp.ptr].base, i, SlotOf(page, i));
        lp := nodes[lp.ptr][SlotOf(page, i)];
      }
      section := lp.ptr;
    }
  }
}
