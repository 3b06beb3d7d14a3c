/** Permission masks of the block layer and how drivers pass them on to their children. */
module BlockPerm {

  import opened Common

  datatype Perm = ConsistentRead | Write | WriteUnchanged | Resize | GraphMod

  /** What a user of a node needs, and what it lets other users have. */
  datatype Masks = Masks(perm: set<Perm>, shared: set<Perm>)

  const ALL: set<Perm> := {ConsistentRead, Write, WriteUnchanged, Resize, GraphMod}
  const PASSTHROUGH: set<Perm> := {ConsistentRead, Write, WriteUnchanged, Resize}
  const UNCHANGED: set<Perm> := {GraphMod}

  /** child_file, child_backing, or any other role. */
  datatype Role = File | Backing | Other

  /**
   * NoDriver: no driver. Leaf: no bdrv_child_perm. OwnCheck: a bdrv_check_perm of its own. Filter and Format: the
   * default functions of that name.
   */
  datatype Kind = NoDriver | Leaf | OwnCheck | Filter | Format

  datatype Node = Node(kind: Kind, writable: bool, noIo: bool, inactive: bool, forceShare: bool)

  predicate PassesOn(kind: Kind) { kind.Filter? || kind.Format? }

  /** bdrv_filter_default_perms; c is the child's present masks, if it has any. */
  function FilterDefault(c: Option<Masks>, m: Masks): Masks {
    match c
    case None => Masks(m.perm * PASSTHROUGH, (m.shared * PASSTHROUGH) + UNCHANGED)
    case Some(now) =>
      Masks((m.perm * PASSTHROUGH) + (now.perm * UNCHANGED), (m.shared * PASSTHROUGH) + (now.shared * UNCHANGED))
  }

  /** bdrv_format_default_perms. */
  function FormatDefault(node: Node, role: Role, c: Option<Masks>, m: Masks): Masks
    requires !role.Other?
  {
    var base :=
      if role.File? then
        var f := FilterDefault(c, m);
        Masks(f.perm + (if node.writable then {Write, Resize} else {}) + (if node.noIo then {} else {ConsistentRead}),
              f.shared - {Write, Resize})
      else
        Masks(m.perm * {ConsistentRead},
              (if Write in m.shared then {Write, Resize} else {}) + {ConsistentRead, GraphMod, WriteUnchanged});
    if node.inactive then base.(shared := base.shared + {Write, Resize}) else base
  }

  /** bdrv_child_perm: the masks a node with cumulative masks m puts on a child. */
  function ChildPerm(node: Node, role: Role, child: Node, c: Option<Masks>, m: Masks): Masks
    requires PassesOn(node.kind) && (node.kind.Format? ==> !role.Other?)
  {
    var d := if node.kind.Filter? then FilterDefault(c, m) else FormatDefault(node, role, c, m);
    if child.forceShare then d.(shared := ALL) else d
  }

  /** a asks for no more and allows no less than b. */
  predicate Looser(a: Masks, b: Masks) { a.perm <= b.perm && b.shared <= a.shared }

  /** Two users of a node get along. */
  predicate Compatible(a: Masks, b: Masks) { a.perm <= b.shared && b.perm <= a.shared }

  /** The default functions are monotone. */
  lemma {:induction false} ChildPermMonotone(node: Node, role: Role, child: Node, c: Option<Masks>, a: Masks, b: Masks)
    requires PassesOn(node.kind) && (node.kind.Format? ==> !role.Other?) && Looser(a, b)
    ensures Looser(ChildPerm(node, role, child, c, a), ChildPerm(node, role, child, c, b))
  {
  }

  /** What was put on a child before does not matter beyond the bits that are left alone. */
  lemma {:induction false} ChildPermAbsorbs(node: Node, role: Role, child: Node, c: Option<Masks>, a: Masks, b: Masks)
    requires PassesOn(node.kind) && (node.kind.Format? ==> !role.Other?)
    ensures ChildPerm(node, role, child, Some(ChildPerm(node, role, child, c, a)), b) ==
      ChildPerm(node, role, child, c, b)
  {
    var x := ChildPerm(node, role, child, Some(ChildPerm(node, role, child, c, a)), b);
    var y := ChildPerm(node, role, child, c, b);
    assert x.perm == y.perm;
    assert x.shared == y.shared;
  }

  /** Everybody goes on tolerating write_unchanged. */
  lemma {:induction false} ChildPermTolerant(node: Node, role: Role, child: Node, c: Option<Masks>, m: Masks)
    requires PassesOn(node.kind) && (node.kind.Format? ==> !role.Other?) && WriteUnchanged in m.shared
    ensures WriteUnchanged in ChildPerm(node, role, child, c, m).shared
  {
  }

  /** A writable format node gets along with no other active format node on the same file. */
  lemma {:induction false} FormatFileExclusive(a: Node, b: Node, child: Node, c: Option<Masks>, d: Option<Masks>,
                                               m: Masks, n: Masks)
    requires a.kind.Format? && b.kind.Format? && a.writable && !b.inactive && !child.forceShare
    ensures !Compatible(ChildPerm(a, File, child, c, m), ChildPerm(b, File, child, d, n))
  {
    assert Write in ChildPerm(a, File, child, c, m).perm;
    assert Write !in ChildPerm(b, File, child, d, n).shared;
  }

  /** Any number of format nodes can use the same backing file, whatever their own users do. */
  lemma {:induction false} BackingAlwaysShared(a: Node, b: Node, child: Node, c: Option<Masks>, d: Option<Masks>,
                                               m: Masks, n: Masks)
    requires a.kind.Format? && b.kind.Format?
    ensures Compatible(ChildPerm(a, Backing, child, c, m), ChildPerm(b, Backing, child, d, n))
  {
  }
}
