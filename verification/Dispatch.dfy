/** Byte-level dispatch: sections, subpages and the MRU cache on top of the page map. */
module Dispatch {
  import opened Arith
  import opened Common
  import opened PhysPageMap

  const TARGET_PAGE_SIZE: nat := 4096
  const P_L2_LEVELS: nat := 6
  const ADDRESS_SPACE: nat := 0x1_0000_0000_0000_0000
  const PAGES: nat := 0x10_0000_0000_0000
  /** Sections 0..3 are the dummy sections UNASSIGNED, NOTDIRTY, ROM and WATCH. */
  const FIRST_SECTION: nat := 4

  /** MemoryRegion: the fixed ones, any other with whether it is RAM, and the region of a subpage. */
  datatype Region = Unassigned | NotDirty | Rom | Watch | Device(id: nat, ram: bool) | SubpageIo(k: nat)

  /** MemoryRegionSection: `size` is an Int128 in the source, so 2^64 is representable. */
  datatype Section = Section(mr: Region, base: nat, size: nat, off: nat)

  /** subpage_t: the page it stands for and one section number per byte. */
  datatype Subpage = Subpage(base: nat, sub: seq<nat>)

  /** Where an access lands: a region and the offset inside it. */
  datatype Target = Target(mr: Region, xlat: int)

  /** section_covers_addr, with the 64-bit wrap-around of range_get_last. */
  predicate Covers(s: Section, addr: nat) {
    s.size >= ADDRESS_SPACE || (s.base <= addr && addr <= (s.base + s.size - 1) % ADDRESS_SPACE)
  }

  /** A section a FlatView can hold: it is not empty and ends inside the address space. */
  predicate Proper(s: Section) {
    s.size > 0 && s.base + s.size <= ADDRESS_SPACE && s.mr.Device?
  }

  predicate Holds(s: Section, addr: nat) {
    s.base <= addr < s.base + s.size
  }

  function Hit(s: Section, addr: nat): Target {
    Target(s.mr, addr - s.base + s.off)
  }

  // ---------------------------------------------------------------- the state as a value

  /** Everything a lookup depends on. */
  datatype Map = Map(nodes: seq<Node>, root: Entry, sections: seq<Section>, subpages: seq<Subpage>)

  ghost function PageSection(m: Map, p: nat): nat {
    Walk(m.nodes, m.root, P_L2_LEVELS, p)
  }

  /** phys_page_find. */
  ghost function FindIdx(m: Map, addr: nat): nat {
    var s := PageSection(m, addr / TARGET_PAGE_SIZE);
    if s < |m.sections| && Covers(m.sections[s], addr) then s else PHYS_SECTION_UNASSIGNED
  }

  /** address_space_lookup_region with resolve_subpage, without the cache. */
  ghost function Resolve(m: Map, addr: nat): nat {
    var s := FindIdx(m, addr);
    if s < |m.sections| && m.sections[s].mr.SubpageIo? && m.sections[s].mr.k < |m.subpages|
       && |m.subpages[m.sections[s].mr.k].sub| == TARGET_PAGE_SIZE
    then m.subpages[m.sections[s].mr.k].sub[addr % TARGET_PAGE_SIZE]
    else s
  }

  /** The region and offset an address translates to, or None when it is unassigned. */
  ghost function Translate(m: Map, addr: nat): Option<Target> {
    var t := Resolve(m, addr);
    if t == PHYS_SECTION_UNASSIGNED || t >= |m.sections| then None else Some(Hit(m.sections[t], addr))
  }

  /** What a list of disjoint sections says about an address. */
  function Owner(view: seq<Section>, addr: nat): Option<Target> {
    if view == [] then None
    else if Holds(view[|view| - 1], addr) then Some(Hit(view[|view| - 1], addr))
    else Owner(view[..|view| - 1], addr)
  }

  // ---------------------------------------------------------------- invariant

  /** Section `s` may be entered in the page map at page p. */
  ghost predicate DirectOk(m: Map, s: Section, p: nat) {
    match s.mr
    case SubpageIo(k) => s.base == p * TARGET_PAGE_SIZE && s.size == TARGET_PAGE_SIZE && k < |m.subpages| &&
      m.subpages[k].base == s.base
    case Device(_, _) => Proper(s) && s.base % TARGET_PAGE_SIZE == 0 && s.size % TARGET_PAGE_SIZE == 0 &&
      Holds(s, p * TARGET_PAGE_SIZE)
    case _ => false
  }

  ghost predicate SectionsOk(m: Map) {
    && FIRST_SECTION <= |m.sections| <= TARGET_PAGE_SIZE
    && m.sections[..FIRST_SECTION] == Dummies()
  }

  function Dummies(): seq<Section> {
    [Section(Unassigned, 0, ADDRESS_SPACE, 0), Section(NotDirty, 0, ADDRESS_SPACE, 0),
     Section(Rom, 0, ADDRESS_SPACE, 0), Section(Watch, 0, ADDRESS_SPACE, 0)]
  }

  ghost predicate PagesOk(m: Map) {
    forall p: nat :: p < PAGES ==>
      var s := PageSection(m, p);
      s == PHYS_SECTION_UNASSIGNED || (FIRST_SECTION <= s < |m.sections| && DirectOk(m, m.sections[s], p))
  }

  /** A mapped section is mapped at every page it covers. */
  ghost predicate Exact(m: Map) {
    forall p: nat, p': nat :: p < PAGES && p' < PAGES ==>
      var s := PageSection(m, p);
      s != PHYS_SECTION_UNASSIGNED && s < |m.sections| && Holds(m.sections[s], p' * TARGET_PAGE_SIZE) ==> PageSection(m, p') == s
  }

  ghost predicate SubpageOk(m: Map, u: Subpage) {
    && |u.sub| == TARGET_PAGE_SIZE
    && (forall i :: 0 <= i < TARGET_PAGE_SIZE ==>
          u.sub[i] == PHYS_SECTION_UNASSIGNED || (FIRST_SECTION <= u.sub[i] < |m.sections| && m.sections[u.sub[i]].mr.Device?))
    && exists i :: 0 <= i < TARGET_PAGE_SIZE && u.sub[i] != PHYS_SECTION_UNASSIGNED
  }

  ghost predicate SubpagesOk(m: Map) {
    forall k :: 0 <= k < |m.subpages| ==> SubpageOk(m, m.subpages[k])
  }

  ghost predicate MapOk(m: Map) {
    SectionsOk(m) && PagesOk(m) && Exact(m) && SubpagesOk(m)
  }

  // ---------------------------------------------------------------- lookups in a well-formed map

  lemma {:induction false} PageOf(addr: nat)
    requires addr < ADDRESS_SPACE
    ensures var p := addr / TARGET_PAGE_SIZE;
      p < PAGES && p * TARGET_PAGE_SIZE <= addr < (p + 1) * TARGET_PAGE_SIZE &&
        addr == p * TARGET_PAGE_SIZE + addr % TARGET_PAGE_SIZE
  {
  }

  lemma {:induction false} CoversHolds(s: Section, addr: nat)
    requires s.size > 0 && s.base + s.size <= ADDRESS_SPACE && addr < ADDRESS_SPACE
    ensures Covers(s, addr) <==> Holds(s, addr)
  {
  }

  /** Page-aligned sections hold whole pages. */
  lemma {:induction false} WholePages(s: Section, addr: nat)
    requires addr < ADDRESS_SPACE && s.base % TARGET_PAGE_SIZE == 0 && s.size % TARGET_PAGE_SIZE == 0
    ensures Holds(s, addr) <==> Holds(s, (addr / TARGET_PAGE_SIZE) * TARGET_PAGE_SIZE)
  {
  }

  /** With every page entry exact, the coverage check of phys_page_find never rejects. */
  lemma {:induction false} FindIsPage(m: Map, addr: nat)
    requires MapOk(m) && addr < ADDRESS_SPACE
    ensures FindIdx(m, addr) == PageSection(m, addr / TARGET_PAGE_SIZE)
  {
    hide Walk, Exact, SubpagesOk;
    PageOf(addr);
    var p := addr / TARGET_PAGE_SIZE;
    var s := PageSection(m, p);
    if s != PHYS_SECTION_UNASSIGNED {
      assert DirectOk(m, m.sections[s], p);
      WholePages(m.sections[s], addr);
      CoversHolds(m.sections[s], addr);
    }
  }

  /** The four outcomes of a resolved lookup, page by page. */
  lemma {:induction false} TranslateByPage(m: Map, addr: nat)
    requires MapOk(m) && addr < ADDRESS_SPACE
    ensures var s := PageSection(m, addr / TARGET_PAGE_SIZE);
      Translate(m, addr) ==
      if s == PHYS_SECTION_UNASSIGNED then None
      else if m.sections[s].mr.SubpageIo? then
        var t := m.subpages[m.sections[s].mr.k].sub[addr % TARGET_PAGE_SIZE];
        if t == PHYS_SECTION_UNASSIGNED then None else Some(Hit(m.sections[t], addr))
      else Some(Hit(m.sections[s], addr))
  {
    hide Walk, Exact;
    PageOf(addr);
    FindIsPage(m, addr);
    var s := PageSection(m, addr / TARGET_PAGE_SIZE);
    if s != PHYS_SECTION_UNASSIGNED {
      assert DirectOk(m, m.sections[s], addr / TARGET_PAGE_SIZE);
      if m.sections[s].mr.SubpageIo? {
        assert SubpageOk(m, m.subpages[m.sections[s].mr.k]);
      }
    }
  }

  /** No byte of the piece is claimed yet. */
  ghost predicate Free(m: Map, piece: Section) {
    forall addr: nat :: addr < ADDRESS_SPACE && Holds(piece, addr) ==> Translate(m, addr) == None
  }

  /** The map after adding exactly `piece`. */
  ghost predicate Added(m: Map, m': Map, piece: Section) {
    forall addr: nat :: addr < ADDRESS_SPACE ==>
      Translate(m', addr) == if Holds(piece, addr) then Some(Hit(piece, addr)) else Translate(m, addr)
  }

  ghost predicate PageSet(m: Map, m': Map, lo: nat, n: nat, s: nat) {
    forall p: nat :: p < PAGES ==> PageSection(m', p) == if lo <= p < lo + n then s else PageSection(m, p)
  }

  /** A page that is in use has a byte that translates. */
  lemma {:induction false} UsedPage(m: Map, p: nat) returns (addr: nat)
    requires MapOk(m) && p < PAGES && PageSection(m, p) != PHYS_SECTION_UNASSIGNED
    ensures addr / TARGET_PAGE_SIZE == p && addr < ADDRESS_SPACE && Translate(m, addr) != None
  {
    hide Walk, Exact;
    var s := PageSection(m, p);
    assert DirectOk(m, m.sections[s], p);
    addr := p * TARGET_PAGE_SIZE;
    if m.sections[s].mr.SubpageIo? {
      var u := m.subpages[m.sections[s].mr.k];
      assert SubpageOk(m, u);
      var i :| 0 <= i < TARGET_PAGE_SIZE && u.sub[i] != PHYS_SECTION_UNASSIGNED;
      addr := addr + i;
      assert addr % TARGET_PAGE_SIZE == i;
    }
    TranslateByPage(m, addr);
  }

  /** register_multipage's range is still unmapped. */
  lemma {:induction false} FreePages(m: Map, piece: Section, p: nat)
    requires MapOk(m) && Free(m, piece) && Proper(piece) && p < PAGES
    requires piece.base % TARGET_PAGE_SIZE == 0 && piece.size % TARGET_PAGE_SIZE == 0 &&
      Holds(piece, p * TARGET_PAGE_SIZE)
    ensures PageSection(m, p) == PHYS_SECTION_UNASSIGNED
  {
    hide Walk, MapOk, Translate;
    if PageSection(m, p) != PHYS_SECTION_UNASSIGNED {
      var addr := UsedPage(m, p);
      WholePages(piece, addr);
      assert false;
    }
  }

  // ---------------------------------------------------------------- adding whole pages

  lemma {:induction false} MultipagePagesOk(m: Map, m': Map, piece: Section, p: nat)
    requires MapOk(m) && Proper(piece) && |m.sections| < TARGET_PAGE_SIZE && p < PAGES
    requires piece.base % TARGET_PAGE_SIZE == 0 && piece.size % TARGET_PAGE_SIZE == 0
    requires m'.sections == m.sections + [piece] && m'.subpages == m.subpages
    requires PageSet(m, m', piece.base / TARGET_PAGE_SIZE, piece.size / TARGET_PAGE_SIZE, |m.sections|)
    ensures PageSection(m', p) == (if Holds(piece, p * TARGET_PAGE_SIZE) then |m.sections| else PageSection(m, p))
    ensures var s := PageSection(m', p);
      s == PHYS_SECTION_UNASSIGNED || (FIRST_SECTION <= s < |m'.sections| && DirectOk(m', m'.sections[s], p))
  {
    hide Walk, Exact, SubpagesOk;
    var s := PageSection(m, p);
    if s != PHYS_SECTION_UNASSIGNED { assert DirectOk(m, m.sections[s], p); }
  }

  lemma {:induction false} MultipageOk(m: Map, m': Map, piece: Section)
    requires MapOk(m) && Proper(piece) && Free(m, piece) && |m.sections| < TARGET_PAGE_SIZE
    requires piece.base % TARGET_PAGE_SIZE == 0 && piece.size % TARGET_PAGE_SIZE == 0
    requires m'.sections == m.sections + [piece] && m'.subpages == m.subpages
    requires PageSet(m, m', piece.base / TARGET_PAGE_SIZE, piece.size / TARGET_PAGE_SIZE, |m.sections|)
    ensures MapOk(m')
  {
    hide Walk, PageSet, PageSection, Free;
    forall p: nat | p < PAGES
      ensures var s := PageSection(m', p);
        s == PHYS_SECTION_UNASSIGNED || (FIRST_SECTION <= s < |m'.sections| && DirectOk(m', m'.sections[s], p))
    {
      MultipagePagesOk(m, m', piece, p);
    }
    forall p: nat, p': nat | p < PAGES && p' < PAGES && PageSection(m', p) != PHYS_SECTION_UNASSIGNED
      && PageSection(m', p) < |m'.sections| && Holds(m'.sections[PageSection(m', p)], p' * TARGET_PAGE_SIZE)
      ensures PageSection(m', p') == PageSection(m', p)
    {
      MultipagePagesOk(m, m', piece, p);
      MultipagePagesOk(m, m', piece, p');
      if Holds(piece, p' * TARGET_PAGE_SIZE) { FreePages(m, piece, p'); }
    }
    forall k | 0 <= k < |m'.subpages| ensures SubpageOk(m', m'.subpages[k]) {
      assert SubpageOk(m, m.subpages[k]);
    }
  }

  /** register_multipage adds its section and nothing else. */
  lemma {:induction false} MultipageAdded(m: Map, m': Map, piece: Section)
    requires MapOk(m) && Proper(piece) && Free(m, piece) && |m.sections| < TARGET_PAGE_SIZE
    requires piece.base % TARGET_PAGE_SIZE == 0 && piece.size % TARGET_PAGE_SIZE == 0
    requires m'.sections == m.sections + [piece] && m'.subpages == m.subpages
    requires PageSet(m, m', piece.base / TARGET_PAGE_SIZE, piece.size / TARGET_PAGE_SIZE, |m.sections|)
    ensures MapOk(m') && Added(m, m', piece)
  {
    MultipageOk(m, m', piece);
    forall addr: nat | addr < ADDRESS_SPACE
      ensures Translate(m', addr) == if Holds(piece, addr) then Some(Hit(piece, addr)) else Translate(m, addr)
    {
      MultipageByte(m, m', piece, addr);
    }
  }

  lemma {:induction false} MultipageByte(m: Map, m': Map, piece: Section, addr: nat)
    requires MapOk(m) && MapOk(m') && Proper(piece) && |m.sections| < TARGET_PAGE_SIZE && addr < ADDRESS_SPACE
    requires piece.base % TARGET_PAGE_SIZE == 0 && piece.size % TARGET_PAGE_SIZE == 0
    requires m'.sections == m.sections + [piece] && m'.subpages == m.subpages
    requires PageSet(m, m', piece.base / TARGET_PAGE_SIZE, piece.size / TARGET_PAGE_SIZE, |m.sections|)
    ensures Translate(m', addr) == if Holds(piece, addr) then Some(Hit(piece, addr)) else Translate(m, addr)
  {
    hide Walk, Exact, PageSet, Translate;
    PageOf(addr);
    var p := addr / TARGET_PAGE_SIZE;
    TranslateByPage(m, addr);
    TranslateByPage(m', addr);
    MultipagePagesOk(m, m', piece, p);
    WholePages(piece, addr);
    var s := PageSection(m, p);
    if !Holds(piece, addr) && s != PHYS_SECTION_UNASSIGNED {
      assert DirectOk(m, m.sections[s], p);
      if m.sections[s].mr.SubpageIo? { assert SubpageOk(m, m.subpages[m.sections[s].mr.k]); }
    }
  }

  // ---------------------------------------------------------------- adding part of a page

  /** `piece` lies inside one page. */
  predicate InOnePage(piece: Section) {
    piece.base % TARGET_PAGE_SIZE + piece.size <= TARGET_PAGE_SIZE
  }

  /** sub_section after subpage_register(start, end, t). */
  ghost predicate SubSet(u: seq<nat>, u': seq<nat>, start: nat, end: int, t: nat) {
    && |u'| == |u|
    && forall i :: 0 <= i < |u| ==> u'[i] == if start <= i <= end then t else u[i]
  }

  /** Where `piece` sits in its page. */
  lemma {:induction false} PieceBytes(piece: Section, addr: nat)
    requires Proper(piece) && InOnePage(piece) && addr < ADDRESS_SPACE
    ensures Holds(piece, addr) <==>
      (addr / TARGET_PAGE_SIZE == piece.base / TARGET_PAGE_SIZE &&
       piece.base % TARGET_PAGE_SIZE <= addr % TARGET_PAGE_SIZE <= piece.base % TARGET_PAGE_SIZE + piece.size - 1)
  {
  }

  /** The assertion in register_subpage: the page is unassigned or already split. */
  lemma {:induction false} ExistingOk(m: Map, piece: Section)
    requires MapOk(m) && Proper(piece) && Free(m, piece)
    ensures var s := FindIdx(m, piece.base / TARGET_PAGE_SIZE * TARGET_PAGE_SIZE);
      && s == PageSection(m, piece.base / TARGET_PAGE_SIZE)
      && (s == PHYS_SECTION_UNASSIGNED || (FIRST_SECTION <= s < |m.sections| && m.sections[s].mr.SubpageIo?))
  {
    hide Walk, Exact, SubpagesOk, Translate;
    var p := piece.base / TARGET_PAGE_SIZE;
    PageOf(piece.base);
    FindIsPage(m, p * TARGET_PAGE_SIZE);
    TranslateByPage(m, piece.base);
    assert Translate(m, piece.base) == None;
    var s := PageSection(m, p);
    if s != PHYS_SECTION_UNASSIGNED { assert DirectOk(m, m.sections[s], p); }
  }

  /** m' is m with `piece` registered in the subpage k that already stands for its page. */
  ghost predicate SubpageExtended(m: Map, m': Map, piece: Section, k: nat) {
    && k < |m.subpages| && |m.sections| < TARGET_PAGE_SIZE
    && m'.nodes == m.nodes && m'.root == m.root
    && m'.sections == m.sections + [piece]
    && |m'.subpages| == |m.subpages|
    && (forall j :: 0 <= j < |m.subpages| && j != k ==> m'.subpages[j] == m.subpages[j])
    && m'.subpages[k].base == m.subpages[k].base
    && SubSet(m.subpages[k].sub, m'.subpages[k].sub, piece.base % TARGET_PAGE_SIZE,
              piece.base % TARGET_PAGE_SIZE + piece.size - 1, |m.sections|)
  }

  lemma {:induction false} ExtendedOk(m: Map, m': Map, piece: Section, k: nat)
    requires MapOk(m) && Proper(piece) && InOnePage(piece) && SubpageExtended(m, m', piece, k)
    ensures MapOk(m')
  {
    hide Walk;
    forall p: nat | p < PAGES
      ensures PageSection(m', p) == PageSection(m, p)
      ensures var s := PageSection(m', p);
        s == PHYS_SECTION_UNASSIGNED || (FIRST_SECTION <= s < |m'.sections| && DirectOk(m', m'.sections[s], p))
    {
      var s := PageSection(m, p);
      if s != PHYS_SECTION_UNASSIGNED { assert DirectOk(m, m.sections[s], p); }
    }
    forall p: nat, p': nat | p < PAGES && p' < PAGES && PageSection(m', p) != PHYS_SECTION_UNASSIGNED
      && PageSection(m', p) < |m'.sections| && Holds(m'.sections[PageSection(m', p)], p' * TARGET_PAGE_SIZE)
      ensures PageSection(m', p') == PageSection(m', p)
    {
      assert PageSection(m, p) == PageSection(m', p) && PageSection(m, p') == PageSection(m', p');
    }
    forall j | 0 <= j < |m'.subpages| ensures SubpageOk(m', m'.subpages[j]) {
      assert SubpageOk(m, m.subpages[j]);
      if j == k { assert m'.subpages[k].sub[piece.base % TARGET_PAGE_SIZE] == |m.sections|; }
    }
  }

  lemma {:induction false} ExtendedByte(m: Map, m': Map, piece: Section, k: nat, addr: nat)
    requires MapOk(m) && MapOk(m') && Proper(piece) && InOnePage(piece) && SubpageExtended(m, m', piece, k) &&
      addr < ADDRESS_SPACE
    requires var s := PageSection(m, piece.base / TARGET_PAGE_SIZE);
      s != PHYS_SECTION_UNASSIGNED && s < |m.sections| && m.sections[s].mr == SubpageIo(k)
    ensures Translate(m', addr) == if Holds(piece, addr) then Some(Hit(piece, addr)) else Translate(m, addr)
  {
    hide Walk, Exact, Translate;
    var p, q := addr / TARGET_PAGE_SIZE, piece.base / TARGET_PAGE_SIZE;
    PageOf(addr);
    PageOf(piece.base);
    TranslateByPage(m, addr);
    TranslateByPage(m', addr);
    PieceBytes(piece, addr);
    var s := PageSection(m, p);
    assert PageSection(m', p) == s;
    if s != PHYS_SECTION_UNASSIGNED {
      assert DirectOk(m, m.sections[s], p);
      if m.sections[s].mr.SubpageIo? {
        assert SubpageOk(m, m.subpages[m.sections[s].mr.k]);
        if m.sections[s].mr.k == k {
          assert DirectOk(m, m.sections[PageSection(m, q)], q);
          assert p == q;
        }
      }
    }
  }

  lemma {:induction false} ExtendedAdded(m: Map, m': Map, piece: Section, k: nat)
    requires MapOk(m) && Proper(piece) && InOnePage(piece) && SubpageExtended(m, m', piece, k)
    requires var s := PageSection(m, piece.base / TARGET_PAGE_SIZE);
      s != PHYS_SECTION_UNASSIGNED && s < |m.sections| && m.sections[s].mr == SubpageIo(k)
    ensures MapOk(m') && Added(m, m', piece)
  {
    ExtendedOk(m, m', piece, k);
    forall addr: nat | addr < ADDRESS_SPACE
      ensures Translate(m', addr) == if Holds(piece, addr) then Some(Hit(piece, addr)) else Translate(m, addr)
    {
      ExtendedByte(m, m', piece, k, addr);
    }
  }

  /** m' is m with a new subpage for the page of `piece`, holding `piece` only. */
  ghost predicate SubpageCreated(m: Map, m': Map, piece: Section) {
    var p := piece.base / TARGET_PAGE_SIZE;
    && |m.sections| + 1 < TARGET_PAGE_SIZE
    && m'.sections == m.sections + [Section(SubpageIo(|m.subpages|), p * TARGET_PAGE_SIZE, TARGET_PAGE_SIZE, 0), piece]
    && PageSet(m, m', p, 1, |m.sections|)
    && |m'.subpages| == |m.subpages| + 1 && m'.subpages[..|m.subpages|] == m.subpages
    && m'.subpages[|m.subpages|].base == p * TARGET_PAGE_SIZE
    && SubSet(seq(TARGET_PAGE_SIZE, _ => PHYS_SECTION_UNASSIGNED), m'.subpages[|m.subpages|].sub,
      piece.base % TARGET_PAGE_SIZE,
              piece.base % TARGET_PAGE_SIZE + piece.size - 1, |m.sections| + 1)
  }

  lemma {:induction false} CreatedPage(m: Map, m': Map, piece: Section, p: nat)
    requires MapOk(m) && Proper(piece) && InOnePage(piece) && SubpageCreated(m, m', piece) && p < PAGES
    ensures PageSection(m', p) == (if p == piece.base / TARGET_PAGE_SIZE then |m.sections| else PageSection(m, p))
    ensures var s := PageSection(m', p);
      s == PHYS_SECTION_UNASSIGNED || (FIRST_SECTION <= s < |m'.sections| && DirectOk(m', m'.sections[s], p))
  {
    hide Walk, Exact, SubpagesOk;
    var s := PageSection(m, p);
    if s != PHYS_SECTION_UNASSIGNED { assert DirectOk(m, m.sections[s], p); }
    assert forall j :: 0 <= j < |m.subpages| ==> m'.subpages[j] == m'.subpages[..|m.subpages|][j];
  }

  lemma {:induction false} CreatedOk(m: Map, m': Map, piece: Section)
    requires MapOk(m) && Proper(piece) && InOnePage(piece) && SubpageCreated(m, m', piece)
    requires PageSection(m, piece.base / TARGET_PAGE_SIZE) == PHYS_SECTION_UNASSIGNED
    ensures MapOk(m')
  {
    hide Walk, PageSection, PageSet;
    forall p: nat | p < PAGES
      ensures var s := PageSection(m', p);
        s == PHYS_SECTION_UNASSIGNED || (FIRST_SECTION <= s < |m'.sections| && DirectOk(m', m'.sections[s], p))
    {
      CreatedPage(m, m', piece, p);
    }
    forall p: nat, p': nat | p < PAGES && p' < PAGES && PageSection(m', p) != PHYS_SECTION_UNASSIGNED
      && PageSection(m', p) < |m'.sections| && Holds(m'.sections[PageSection(m', p)], p' * TARGET_PAGE_SIZE)
      ensures PageSection(m', p') == PageSection(m', p)
    {
      CreatedPage(m, m', piece, p);
      CreatedPage(m, m', piece, p');
    }
    forall j | 0 <= j < |m'.subpages| ensures SubpageOk(m', m'.subpages[j]) {
      if j < |m.subpages| {
        assert m'.subpages[j] == m'.subpages[..|m.subpages|][j];
        assert SubpageOk(m, m.subpages[j]);
      } else {
        assert m'.subpages[j].sub[piece.base % TARGET_PAGE_SIZE] == |m.sections| + 1;
      }
    }
  }

  lemma {:induction false} CreatedByte(m: Map, m': Map, piece: Section, addr: nat)
    requires MapOk(m) && MapOk(m') && Proper(piece) && InOnePage(piece) && SubpageCreated(m, m', piece) &&
      addr < ADDRESS_SPACE
    requires PageSection(m, piece.base / TARGET_PAGE_SIZE) == PHYS_SECTION_UNASSIGNED
    ensures Translate(m', addr) == if Holds(piece, addr) then Some(Hit(piece, addr)) else Translate(m, addr)
  {
    hide Walk, Exact, Translate, PageSet;
    var p := addr / TARGET_PAGE_SIZE;
    PageOf(addr);
    TranslateByPage(m, addr);
    TranslateByPage(m', addr);
    PieceBytes(piece, addr);
    CreatedPage(m, m', piece, p);
    var s := PageSection(m, p);
    if s != PHYS_SECTION_UNASSIGNED {
      assert DirectOk(m, m.sections[s], p);
      if m.sections[s].mr.SubpageIo? {
        var k := m.sections[s].mr.k;
        assert SubpageOk(m, m.subpages[k]);
        assert m'.subpages[k] == m'.subpages[..|m.subpages|][k];
      }
    }
  }

  lemma {:induction false} CreatedAdded(m: Map, m': Map, piece: Section)
    requires MapOk(m) && Proper(piece) && InOnePage(piece) && SubpageCreated(m, m', piece)
    requires PageSection(m, piece.base / TARGET_PAGE_SIZE) == PHYS_SECTION_UNASSIGNED
    ensures MapOk(m') && Added(m, m', piece)
  {
    CreatedOk(m, m', piece);
    forall addr: nat | addr < ADDRESS_SPACE
      ensures Translate(m', addr) == if Holds(piece, addr) then Some(Hit(piece, addr)) else Translate(m, addr)
    {
      CreatedByte(m, m', piece, addr);
    }
  }

  // ---------------------------------------------------------------- finished maps and the cache

  /** A section found at one address is found at every address it covers. */
  ghost predicate ExactFind(m: Map) {
    forall a: nat, c: nat :: a < ADDRESS_SPACE && c < ADDRESS_SPACE ==>
      var s := FindIdx(m, a);
      s != PHYS_SECTION_UNASSIGNED && s < |m.sections| && Covers(m.sections[s], c) ==> FindIdx(m, c) == s
  }

  /** What lookups rely on, before and after compaction. */
  ghost predicate Ready(m: Map) {
    && SectionsOk(m) && SubpagesOk(m) && ExactFind(m)
    && (forall p: nat :: p < PAGES ==> PageSection(m, p) < |m.sections|)
    && (forall a: nat :: a < ADDRESS_SPACE ==>
          var s := FindIdx(m, a);
          s < |m.sections| && (m.sections[s].mr.SubpageIo? ==> m.sections[s].mr.k < |m.subpages|))
  }

  lemma {:induction false} FoundCovers(m: Map, a: nat, c: nat)
    requires MapOk(m) && a < ADDRESS_SPACE && c < ADDRESS_SPACE
    requires var s := FindIdx(m, a); s != PHYS_SECTION_UNASSIGNED && s < |m.sections| && Covers(m.sections[s], c)
    ensures FindIdx(m, c) == FindIdx(m, a)
  {
    hide Walk, SubpagesOk, FindIdx;
    FindIsPage(m, a);
    FindIsPage(m, c);
    PageOf(a);
    PageOf(c);
    var p, p' := a / TARGET_PAGE_SIZE, c / TARGET_PAGE_SIZE;
    var s := PageSection(m, p);
    assert DirectOk(m, m.sections[s], p);
    CoversHolds(m.sections[s], c);
    WholePages(m.sections[s], c);
    assert Holds(m.sections[s], p' * TARGET_PAGE_SIZE);
  }

  lemma {:induction false} MapReady(m: Map)
    requires MapOk(m)
    ensures Ready(m)
  {
    hide Walk, SubpagesOk, FindIdx, Exact;
    forall a: nat, c: nat | a < ADDRESS_SPACE && c < ADDRESS_SPACE && FindIdx(m, a) != PHYS_SECTION_UNASSIGNED
      && FindIdx(m, a) < |m.sections| && Covers(m.sections[FindIdx(m, a)], c)
      ensures FindIdx(m, c) == FindIdx(m, a)
    {
      FoundCovers(m, a, c);
    }
    forall a: nat | a < ADDRESS_SPACE
      ensures var s := FindIdx(m, a);
        s < |m.sections| && (m.sections[s].mr.SubpageIo? ==> m.sections[s].mr.k < |m.subpages|)
    {
      FindIsPage(m, a);
      PageOf(a);
      var s := PageSection(m, a / TARGET_PAGE_SIZE);
      if s != PHYS_SECTION_UNASSIGNED { assert DirectOk(m, m.sections[s], a / TARGET_PAGE_SIZE); }
      else { assert m.sections[0] == m.sections[..FIRST_SECTION][0]; }
    }
  }

  ghost predicate IsMapped(m: Map, s: nat) {
    exists p: nat :: p < PAGES && PageSection(m, p) == s
  }

  /** Sections that some page maps to. */
  ghost function MappedSections(m: Map): set<nat> {
    set s | 0 <= s < |m.sections| && IsMapped(m, s)
  }

  /** Compaction changes no result of phys_page_find. */
  lemma {:induction false} CompactFind(m: Map, m': Map, a: nat)
    requires MapOk(m) && a < ADDRESS_SPACE && m'.sections == m.sections
    requires forall p: nat :: p < PAGES ==> Agree(PageSection(m, p), PageSection(m', p), MappedSections(m))
    ensures FindIdx(m', a) == FindIdx(m, a)
  {
    hide Walk, SubpagesOk, Exact, PageSection;
    PageOf(a);
    var p := a / TARGET_PAGE_SIZE;
    assert Agree(PageSection(m, p), PageSection(m', p), MappedSections(m));
    var s := PageSection(m', p);
    if s != PageSection(m, p) && s != PHYS_SECTION_UNASSIGNED && Covers(m.sections[s], a) {
      var p0: nat :| p0 < PAGES && PageSection(m, p0) == s;
      FindIsPage(m, p0 * TARGET_PAGE_SIZE);
      FoundCovers(m, p0 * TARGET_PAGE_SIZE, a);
      FindIsPage(m, a);
    }
  }

  lemma {:induction false} CompactReady(m: Map, m': Map)
    requires MapOk(m) && m'.sections == m.sections && m'.subpages == m.subpages
    requires forall p: nat :: p < PAGES ==> Agree(PageSection(m, p), PageSection(m', p), MappedSections(m))
    ensures Ready(m')
    ensures forall a: nat :: a < ADDRESS_SPACE ==> FindIdx(m', a) == FindIdx(m, a) && Translate(m', a) == Translate(m, a)
  {
    hide Walk, SubpagesOk, Exact, PageSection, FindIdx;
    MapReady(m);
    forall a: nat | a < ADDRESS_SPACE
      ensures FindIdx(m', a) == FindIdx(m, a) && Translate(m', a) == Translate(m, a)
    {
      CompactFind(m, m', a);
    }
    forall p: nat | p < PAGES ensures PageSection(m', p) < |m'.sections| {
      assert Agree(PageSection(m, p), PageSection(m', p), MappedSections(m));
    }
    assert SubpagesOk(m') by { SubpagesSame(m, m'); }
  }

  lemma {:induction false} SubpagesSame(m: Map, m': Map)
    requires SubpagesOk(m) && m'.sections == m.sections && m'.subpages == m.subpages
    ensures SubpagesOk(m')
  {
    forall k | 0 <= k < |m'.subpages| ensures SubpageOk(m', m'.subpages[k]) {
      assert SubpageOk(m, m.subpages[k]);
    }
  }

  /** The cached section answers for every address it covers. */
  ghost predicate MruOk(m: Map, mru: Option<nat>) {
    mru.Some? ==>
      mru.value < |m.sections| &&
      (mru.value != PHYS_SECTION_UNASSIGNED ==>
         forall a: nat :: a < ADDRESS_SPACE && Covers(m.sections[mru.value], a) ==> FindIdx(m, a) == mru.value)
  }

  lemma {:induction false} StepSix()
    ensures Step(P_L2_LEVELS) == 0x40_0000_0000_0000
  {
    assert Step(1) == 512;
    assert Step(2) == 512 * Step(1);
    assert Step(3) == 512 * Step(2);
    assert Step(4) == 512 * Step(3);
    assert Step(5) == 512 * Step(4);
    assert Step(6) == 512 * Step(5);
  }

  /** A run of phys_page_set seen through the page map. */
  lemma {:induction false} SetIsPageSet(nodes: seq<Node>, root: Entry, m: Map, m': Map, lo: nat, n: nat, s: nat)
    requires m.nodes == nodes && m.root == root
    requires RangeSet(nodes, root, m'.nodes, m'.root, P_L2_LEVELS, lo, n, s)
    ensures PageSet(m, m', lo, n, s)
  {
    StepSix();
  }

  /** Pages past the end of the address space are never mapped. */
  ghost predicate HighClear(nodes: seq<Node>, root: Entry) {
    forall p: nat :: PAGES <= p < Step(P_L2_LEVELS) ==> Walk(nodes, root, P_L2_LEVELS, p) == PHYS_SECTION_UNASSIGNED
  }

  /** Entries of the section table that a page-aligned rest of the given size can take: whole pages, then a tail. */
  function Needs(size: int): int {
    (if size >= TARGET_PAGE_SIZE then 1 else 0) + (if size % TARGET_PAGE_SIZE != 0 then 2 else 0)
  }

  lemma {:induction false} NeedsBound(size: int)
    ensures 0 <= Needs(size) <= 3
  {
  }

  /** Entries that one section of a flat view can take: an unaligned head, whole pages, a tail. */
  const PER_SECTION: nat := 5

  class AddressSpaceDispatch {
    const tree: PhysPageTree
    var sections: seq<Section>
    var subpages: seq<Subpage>
    var mru: Option<nat>

    ghost function View(): Map
      reads this, tree
    {
      Map(tree.nodes, tree.root, sections, subpages)
    }

    /** While sections are being added. */
    ghost predicate Building()
      reads this, tree
    {
      && tree.Valid() && tree.levels == P_L2_LEVELS && tree.Plain()
      && HighClear(tree.nodes, tree.root)
      && |tree.nodes| <= 11 * |sections|
      && MapOk(View()) && Whole(View()) && mru == None
    }

    /** When lookups happen. */
    ghost predicate Serving()
      reads this, tree
    {
      tree.Valid() && tree.levels == P_L2_LEVELS && Ready(View()) && Whole(View()) && MruOk(View(), mru)
    }

    constructor ()
      ensures Building() && fresh(tree) && |sections| == FIRST_SECTION
      ensures forall a: nat :: a < ADDRESS_SPACE ==> Translate(View(), a) == None
    {
      tree := new PhysPageTree(P_L2_LEVELS);
      sections, subpages, mru := Dummies(), [], None;
      new;
      hide Walk, Step;
      forall a: nat | a < ADDRESS_SPACE ensures Translate(View(), a) == None {
        assert tree.Lookup(a / TARGET_PAGE_SIZE) == PHYS_SECTION_UNASSIGNED;
      }
      forall p: nat ensures Walk(tree.nodes, tree.root, P_L2_LEVELS, p) == PHYS_SECTION_UNASSIGNED {
        assert tree.Lookup(p) == PHYS_SECTION_UNASSIGNED;
      }
    }

    /** phys_section_add; `ok` is false when its table-size assertion fires. */
    method SectionAdd(section: Section) returns (ok: bool, n: nat)
      modifies this`sections
      ensures ok == (|old(sections)| < TARGET_PAGE_SIZE) && n == |old(sections)|
      ensures sections == if ok then old(sections) + [section] else old(sections)
    {
      n := |sections|;
      ok := n < TARGET_PAGE_SIZE;
      if ok { sections := sections + [section]; }
    }

    /** register_multipage. */
    method RegisterMultipage(piece: Section) returns (ok: bool)
      requires Building() && Proper(piece) && Free(View(), piece)
      requires piece.base % TARGET_PAGE_SIZE == 0 && piece.size % TARGET_PAGE_SIZE == 0
      modifies this`sections, tree
      ensures ok ==> Building() && Added(old(View()), View(), piece)
      ensures ok ==> |sections| == |old(sections)| + 1
      ensures !ok ==> |sections| == TARGET_PAGE_SIZE && |old(sections)| + 1 > TARGET_PAGE_SIZE
    {
      hide Walk, Step, PagesOk, Exact, SubpagesOk, Free, Added, PageSet, RangeSet, HighClear, TreeOk, TreePlain,
        EntryOk, EntryPlain, PieceIn, SectionFits;
      ghost var m := View();
      var n;
      ok, n := SectionAdd(piece);
      if !ok { return; }
      var pages := piece.size / TARGET_PAGE_SIZE;
      assert pages > 0;
      var first := piece.base / TARGET_PAGE_SIZE;
      forall p: nat | first <= p < first + pages ensures tree.Lookup(p) == PHYS_SECTION_UNASSIGNED {
        FreePages(m, piece, p);
      }
      StepSix();
      tree.Set(first, pages, n);
      SetIsPageSet(m.nodes, m.root, m, View(), first, pages, n);
      SetHighClear(m.nodes, m.root, tree.nodes, tree.root, first, pages, n);
      MultipageAdded(m, View(), piece);
      MultipageWhole(m, View(), piece);
    }

    /** phys_page_find. */
    method PhysPageFind(addr: nat) returns (s: nat)
      requires tree.Valid() && tree.levels == P_L2_LEVELS && addr < ADDRESS_SPACE
      requires forall p: nat :: p < PAGES ==> PageSection(View(), p) < |sections|
      ensures s == FindIdx(View(), addr)
    {
      hide Walk, TreeOk, EntryOk;
      PageOf(addr);
      assert PageSection(View(), addr / TARGET_PAGE_SIZE) < |sections|;
      s := tree.Find(addr / TARGET_PAGE_SIZE);
      if !Covers(sections[s], addr) {
        s := PHYS_SECTION_UNASSIGNED;
      }
    }

    /** register_subpage. */
    method RegisterSubpage(piece: Section) returns (ok: bool)
      requires Building() && Proper(piece) && InOnePage(piece) && Free(View(), piece)
      modifies this`sections, this`subpages, tree
      ensures ok ==> Building() && Added(old(View()), View(), piece)
      ensures ok ==> |sections| <= |old(sections)| + 2
      ensures !ok ==> |sections| == TARGET_PAGE_SIZE && |old(sections)| + 2 > TARGET_PAGE_SIZE
    {
      hide Walk, Step, PagesOk, Exact, SubpagesOk, Free, Added, PageSet, RangeSet, HighClear, TreeOk, TreePlain,
           EntryOk, EntryPlain, FindIdx, SubSet, DirectOk, PieceIn, SectionFits;
      ghost var m := View();
      var page := piece.base / TARGET_PAGE_SIZE;
      PageOf(piece.base);
      ExistingOk(m, piece);
      PagesInBounds(m);
      var existing := PhysPageFind(page * TARGET_PAGE_SIZE);
      DummyMr(m);
      assert sections[existing].mr.SubpageIo? || sections[existing].mr == Unassigned;
      var start := piece.base % TARGET_PAGE_SIZE;
      var end := start + piece.size - 1;
      var n;
      if !sections[existing].mr.SubpageIo? {
        var k := |subpages|;
        ok, n := SectionAdd(Section(SubpageIo(k), page * TARGET_PAGE_SIZE, TARGET_PAGE_SIZE, 0));
        if !ok { return; }
        StepSix();
        tree.Set(page, 1, n);
        SetHighClear(m.nodes, m.root, tree.nodes, tree.root, page, 1, n);
        var t;
        ok, t := SectionAdd(piece);
        if !ok { return; }
        var blank := seq(TARGET_PAGE_SIZE, _ => PHYS_SECTION_UNASSIGNED);
        var sub := SubpageRegister(blank, start, end, t);
        subpages := subpages + [Subpage(page * TARGET_PAGE_SIZE, sub)];
        SetIsPageSet(m.nodes, m.root, m, View(), page, 1, n);
        CreatedAdded(m, View(), piece);
        CreatedWhole(m, View(), piece);
      } else {
        var k := sections[existing].mr.k;
        DirectSubpage(m, page);
        ok, n := SectionAdd(piece);
        if !ok { return; }
        var sub := SubpageRegister(subpages[k].sub, start, end, n);
        subpages := subpages[k := Subpage(subpages[k].base, sub)];
        ExtendedAdded(m, View(), piece, k);
        ExtendedWhole(m, View(), piece, k);
      }
    }

    /** The body of flatview_add_to_dispatch's loop: the next whole pages, or the tail. */
    method AddPiece(remain: Section) returns (ok: bool, now: Section)
      requires Building() && Proper(remain) && remain.base % TARGET_PAGE_SIZE == 0 && Free(View(), remain)
      modifies this`sections, this`subpages, tree
      ensures now == remain.(size := now.size) && 0 < now.size <= remain.size
      ensures (now.base + now.size) % TARGET_PAGE_SIZE == 0 || now.size == remain.size
      ensures remain.size - now.size == if remain.size < TARGET_PAGE_SIZE then 0 else remain.size % TARGET_PAGE_SIZE
      ensures ok ==> Building() && Added(old(View()), View(), now)
      ensures ok ==> |sections| + Needs(remain.size - now.size) <= |old(sections)| + Needs(remain.size)
      ensures !ok ==> |sections| == TARGET_PAGE_SIZE && |old(sections)| + Needs(remain.size) > TARGET_PAGE_SIZE
    {
      hide Walk, Step, MapOk, Free, Added, HighClear, TreeOk, TreePlain, EntryOk, EntryPlain, Whole;
      now := remain;
      if remain.size < TARGET_PAGE_SIZE {
        ok := RegisterSubpage(now);
      } else if remain.base % TARGET_PAGE_SIZE != 0 {
        assert false;
      } else {
        now := now.(size := remain.size - remain.size % TARGET_PAGE_SIZE);
        FreeHead(View(), remain, now);
        ok := RegisterMultipage(now);
      }
    }

    /** The unaligned head of a section, if it has one. */
    method AddHead(section: Section) returns (ok: bool, now: Section)
      requires Building() && Proper(section) && Free(View(), section)
      modifies this`sections, this`subpages, tree
      ensures now == section.(size := now.size) && now.size <= section.size
      ensures (now.base + now.size) % TARGET_PAGE_SIZE == 0 || now.size == section.size
      ensures ok ==> Building() && Added(old(View()), View(), now) && |sections| <= |old(sections)| + 2
      ensures !ok ==> |sections| == TARGET_PAGE_SIZE && |old(sections)| + 2 > TARGET_PAGE_SIZE
    {
      hide Walk, Step, MapOk, Free, Added, HighClear, TreeOk, TreePlain, EntryOk, EntryPlain, Whole;
      ghost var m := View();
      now, ok := section, true;
      if now.base % TARGET_PAGE_SIZE != 0 {
        var left := Sub64(PageAlign64(now.base), now.base);
        AlignLeft(now.base);
        now := now.(size := Min(left, now.size));
        FreeHead(m, section, now);
        ok := RegisterSubpage(now);
      } else {
        now := now.(size := 0);
        AddedNothing(m, section);
      }
    }

    /** flatview_add_to_dispatch: an unaligned head, whole pages, and a tail. */
    method AddToDispatch(section: Section) returns (ok: bool)
      requires Building() && Proper(section) && Free(View(), section)
      modifies this`sections, this`subpages, tree
      ensures ok ==> Building() && Added(old(View()), View(), section)
      ensures ok ==> |sections| <= |old(sections)| + PER_SECTION
      ensures !ok ==> |sections| == TARGET_PAGE_SIZE && |old(sections)| + PER_SECTION > TARGET_PAGE_SIZE
    {
      hide Walk, Step, MapOk, Free, Added, HighClear, TreeOk, TreePlain, EntryOk, EntryPlain, Whole, Needs;
      ghost var m := View();
      var remain := section;
      var now;
      ok, now := AddHead(section);
      if !ok { return; }
      NeedsBound(remain.size - now.size);
      assert now == section.(size := now.base + now.size - section.base);
      while remain.size != now.size
        invariant Building() && ok
        invariant |sections| + Needs(remain.size - now.size) <= |old(sections)| + PER_SECTION
        invariant remain.mr == section.mr && section.base <= remain.base
        invariant remain.base + remain.size == section.base + section.size
        invariant remain.off + section.base == section.off + remain.base
        invariant now == remain.(size := now.size) && now.size <= remain.size
        invariant (now.base + now.size) % TARGET_PAGE_SIZE == 0 || now.size == remain.size
        invariant Added(m, View(), section.(size := now.base + now.size - section.base))
        decreases remain.size - now.size
      {
        ghost var m1 := View();
        ghost var done := now.base + now.size - section.base;
        remain := remain.(size := remain.size - now.size, base := remain.base + now.size, off := remain.off + now.size);
        FreePart(m, m1, section, done);
        assert remain == Rest(section, done);
        ok, now := AddPiece(remain);
        if !ok { return; }
        AddedTrans(m, m1, View(), section, done, now.size);
      }
      NeedsBound(0);
      assert section.(size := now.base + now.size - section.base) == section;
    }

    /** address_space_dispatch_compact. */
    method DispatchCompact()
      requires Building()
      modifies tree
      ensures Serving()
      ensures forall a: nat :: a < ADDRESS_SPACE ==>
                FindIdx(View(), a) == FindIdx(old(View()), a) && Translate(View(), a) == Translate(old(View()), a)
    {
      hide Walk, Step, MapOk, HighClear, TreeOk, TreePlain, EntryOk, EntryPlain, Live, PlainBelow, Compacted,
        FindIdx, Translate, Ready, Whole;
      ghost var m := View();
      RootLive(m);
      TreePlainBelow(tree.nodes, tree.shape, 0, P_L2_LEVELS);
      RootCompacted(m, m);
      if tree.root.skip != 0 {
        tree.Compact(Root, 0, P_L2_LEVELS, MappedSections(m));
        CompactedAgree(m, View());
      }
      CompactReady(m, View());
      WholeSame(m, View());
    }

    /** address_space_lookup_region. */
    method LookupRegion(addr: nat, resolveSubpage: bool) returns (section: nat)
      requires Serving() && addr < ADDRESS_SPACE
      modifies this`mru
      ensures Serving() && section < |sections|
      ensures section == if resolveSubpage then Resolve(View(), addr) else FindIdx(View(), addr)
    {
      hide Walk, TreeOk, EntryOk, PageSection, FindIdx, ExactFind;
      if mru.None? || mru.value == PHYS_SECTION_UNASSIGNED || !Covers(sections[mru.value], addr) {
        section := PhysPageFind(addr);
        FoundMru(View(), addr);
        mru := Some(section);
      } else {
        section := mru.value;
      }
      assert section == FindIdx(View(), addr);
      if resolveSubpage && sections[section].mr.SubpageIo? {
        assert SubpageOk(View(), subpages[sections[section].mr.k]);
        section := subpages[sections[section].mr.k].sub[addr % TARGET_PAGE_SIZE];
      }
    }

    /**
     * address_space_translate_internal; None stands for io_mem_unassigned. For RAM the length is cut so that every byte
     * of it lies in the same region, one behind the other; for anything else it is left alone.
     */
    method TranslateInternal(addr: nat, plen: nat) returns (r: Option<Target>, len: nat)
      requires Serving() && addr < ADDRESS_SPACE
      modifies this`mru
      ensures Serving() && r == Translate(View(), addr) && View() == old(View())
      ensures r.Some? && IsRam(r.value.mr) ==>
        len <= plen && (plen > 0 ==> len > 0) && Contiguous(View(), addr, r.value, len)
      ensures r.None? || !IsRam(r.value.mr) ==> len == plen
    {
      hide Walk, Ready, MruOk, FindIdx, TreeOk, EntryOk, Whole, Contiguous, Resolve;
      ghost var m := View();
      var section := LookupRegion(addr, true);
      var s := sections[section];
      var xlat := addr - s.base + s.off;
      FoundCoversOwn(m, addr);
      r := if section == PHYS_SECTION_UNASSIGNED then None else Some(Target(s.mr, xlat));
      len := plen;
      if IsRam(s.mr) {
        ResolvedHolds(m, addr);
        len := Min(s.size - (addr - s.base), plen);
        Span(m, addr, len);
      }
    }
  }

  // ---------------------------------------------------------------- whole spans of a section

  /** memory_region_is_ram. */
  predicate IsRam(mr: Region) { mr.Device? && mr.ram }

  /** The bytes from addr on translate to consecutive bytes from the target on. */
  ghost predicate Contiguous(m: Map, addr: nat, t: Target, len: nat) {
    && addr + len <= ADDRESS_SPACE
    && forall c: nat :: addr <= c < addr + len ==> Translate(m, c) == Some(Target(t.mr, t.xlat + c - addr))
  }

  /** Every entry of the section table has the extent its kind must have. */
  ghost predicate SectionFits(m: Map, s: Section) {
    match s.mr
    case Device(_, _) => Proper(s)
    case SubpageIo(k) =>
      && k < |m.subpages| && s.base == m.subpages[k].base && s.size == TARGET_PAGE_SIZE
      && s.base % TARGET_PAGE_SIZE == 0 && s.base + s.size <= ADDRESS_SPACE
    case _ => true
  }

  /** The piece entered at byte i of a subpage lies in its page and is entered at all its bytes. */
  ghost predicate PieceIn(m: Map, u: Subpage, i: nat)
    requires |u.sub| == TARGET_PAGE_SIZE && i < TARGET_PAGE_SIZE
  {
    u.sub[i] != PHYS_SECTION_UNASSIGNED ==>
      && u.sub[i] < |m.sections|
      && var s := m.sections[u.sub[i]];
      && u.base <= s.base && s.base + s.size <= u.base + TARGET_PAGE_SIZE && Holds(s, u.base + i)
      && forall j :: 0 <= j < TARGET_PAGE_SIZE && s.base <= u.base + j < s.base + s.size ==> u.sub[j] == u.sub[i]
  }

  ghost predicate PiecesIn(m: Map, u: Subpage) {
    |u.sub| == TARGET_PAGE_SIZE && forall i: nat :: i < TARGET_PAGE_SIZE ==> PieceIn(m, u, i)
  }

  ghost predicate Whole(m: Map) {
    && (forall t :: 0 <= t < |m.sections| ==> SectionFits(m, m.sections[t]))
    && (forall k :: 0 <= k < |m.subpages| ==> PiecesIn(m, m.subpages[k]))
  }

  lemma {:induction false} WholeSame(m: Map, m': Map)
    requires Whole(m) && m'.sections == m.sections && m'.subpages == m.subpages
    ensures Whole(m')
  {
    forall t | 0 <= t < |m'.sections| ensures SectionFits(m', m'.sections[t]) {
      assert SectionFits(m, m.sections[t]);
    }
    forall k | 0 <= k < |m'.subpages| ensures PiecesIn(m', m'.subpages[k]) {
      PiecesKept(m, m', m.subpages[k]);
    }
  }

  /** More sections change nothing for a subpage. */
  lemma {:induction false} PiecesKept(m: Map, m': Map, u: Subpage)
    requires PiecesIn(m, u) && |m.sections| <= |m'.sections| && m'.sections[..|m.sections|] == m.sections
    ensures PiecesIn(m', u)
  {
    forall i: nat | i < TARGET_PAGE_SIZE ensures PieceIn(m', u, i) {
      assert PieceIn(m, u, i);
      if u.sub[i] != PHYS_SECTION_UNASSIGNED { assert m'.sections[u.sub[i]] == m'.sections[..|m.sections|][u.sub[i]]; }
    }
  }

  lemma {:induction false} FitsKept(m: Map, m': Map, s: Section)
    requires SectionFits(m, s) && |m.subpages| <= |m'.subpages|
    requires forall k :: 0 <= k < |m.subpages| ==> m'.subpages[k].base == m.subpages[k].base
    ensures SectionFits(m', s)
  {
  }

  lemma {:induction false} MultipageWhole(m: Map, m': Map, piece: Section)
    requires Whole(m) && Proper(piece) && m'.sections == m.sections + [piece] && m'.subpages == m.subpages
    ensures Whole(m')
  {
    hide SectionFits, PiecesIn;
    forall t | 0 <= t < |m'.sections| ensures SectionFits(m', m'.sections[t]) {
      if t < |m.sections| { FitsKept(m, m', m.sections[t]); } else { ProperFits(m', piece); }
    }
    forall k | 0 <= k < |m'.subpages| ensures PiecesIn(m', m'.subpages[k]) {
      PiecesKept(m, m', m.subpages[k]);
    }
  }

  lemma {:induction false} ProperFits(m: Map, piece: Section)
    requires Proper(piece)
    ensures SectionFits(m, piece)
  {
  }

  /** A piece newly entered at its bytes, where nothing was entered before. */
  lemma {:induction false} EnteredPieces(m: Map, m': Map, u: Subpage, u': Subpage, piece: Section, t: nat)
    requires PiecesIn(m, u) && |m.sections| <= t < |m'.sections| && m'.sections[..|m.sections|] == m.sections
    requires m'.sections[t] == piece && Proper(piece) && InOnePage(piece) && u'.base == u.base
    requires u.base == piece.base / TARGET_PAGE_SIZE * TARGET_PAGE_SIZE && t != PHYS_SECTION_UNASSIGNED
    requires SubSet(u.sub, u'.sub, piece.base % TARGET_PAGE_SIZE, piece.base % TARGET_PAGE_SIZE + piece.size - 1, t)
    requires forall i: nat :: i < TARGET_PAGE_SIZE && Holds(piece, u.base + i) ==> u.sub[i] == PHYS_SECTION_UNASSIGNED
    ensures PiecesIn(m', u')
  {
    var start := piece.base % TARGET_PAGE_SIZE;
    assert piece.base == u.base + start;
    forall i: nat | i < TARGET_PAGE_SIZE ensures PieceIn(m', u', i) {
      assert PieceIn(m, u, i);
      if start <= i <= start + piece.size - 1 {
        assert u'.sub[i] == t;
      } else if u.sub[i] != PHYS_SECTION_UNASSIGNED {
        var s := m.sections[u.sub[i]];
        assert m'.sections[u.sub[i]] == m'.sections[..|m.sections|][u.sub[i]];
        forall j | 0 <= j < TARGET_PAGE_SIZE && s.base <= u.base + j < s.base + s.size
          ensures u'.sub[j] == u.sub[i]
        {
          assert u.sub[j] == u.sub[i];
          assert !Holds(piece, u.base + j);
        }
      }
    }
  }

  lemma {:induction false} CreatedWhole(m: Map, m': Map, piece: Section)
    requires MapOk(m) && Whole(m) && Proper(piece) && InOnePage(piece) && SubpageCreated(m, m', piece)
    ensures Whole(m')
  {
    hide SectionFits, PiecesIn, PieceIn, PageSet, SubSet, MapOk;
    var n, p := |m.subpages|, piece.base / TARGET_PAGE_SIZE;
    assert forall k :: 0 <= k < n ==> m'.subpages[k] == m'.subpages[..n][k];
    forall t | 0 <= t < |m'.sections| ensures SectionFits(m', m'.sections[t]) {
      if t < |m.sections| {
        FitsKept(m, m', m.sections[t]);
      } else if t == |m.sections| {
        SubpageFits(m', m'.sections[t], n, p);
      } else {
        ProperFits(m', piece);
      }
    }
    forall k | 0 <= k < |m'.subpages| ensures PiecesIn(m', m'.subpages[k]) {
      if k < n {
        PiecesKept(m, m', m.subpages[k]);
      } else {
        var blank := Subpage(p * TARGET_PAGE_SIZE, seq(TARGET_PAGE_SIZE, _ => PHYS_SECTION_UNASSIGNED));
        BlankPieces(m, blank);
        EnteredPieces(m, m', blank, m'.subpages[n], piece, |m.sections| + 1);
      }
    }
  }

  lemma {:induction false} BlankPieces(m: Map, u: Subpage)
    requires |u.sub| == TARGET_PAGE_SIZE && forall i :: 0 <= i < |u.sub| ==> u.sub[i] == PHYS_SECTION_UNASSIGNED
    ensures PiecesIn(m, u)
  {
  }

  lemma {:induction false} SubpageFits(m: Map, s: Section, k: nat, p: nat)
    requires k < |m.subpages| && m.subpages[k].base == p * TARGET_PAGE_SIZE && p < PAGES
    requires s.mr == SubpageIo(k) && s.base == p * TARGET_PAGE_SIZE && s.size == TARGET_PAGE_SIZE
    ensures SectionFits(m, s)
  {
  }

  lemma {:induction false} ExtendedWhole(m: Map, m': Map, piece: Section, k: nat)
    requires MapOk(m) && Whole(m) && Free(m, piece) && Proper(piece) && InOnePage(piece)
    requires SubpageExtended(m, m', piece, k)
    requires var s := PageSection(m, piece.base / TARGET_PAGE_SIZE);
      s != PHYS_SECTION_UNASSIGNED && s < |m.sections| && m.sections[s].mr == SubpageIo(k)
    ensures Whole(m')
  {
    hide SectionFits, PiecesIn, PieceIn, SubSet, MapOk, Free, Walk, PageSection;
    forall t | 0 <= t < |m'.sections| ensures SectionFits(m', m'.sections[t]) {
      if t < |m.sections| { FitsKept(m, m', m.sections[t]); } else { ProperFits(m', piece); }
    }
    forall j | 0 <= j < |m'.subpages| ensures PiecesIn(m', m'.subpages[j]) {
      if j != k {
        PiecesKept(m, m', m.subpages[j]);
      } else {
        FreeBytes(m, piece, k);
        EnteredPieces(m, m', m.subpages[k], m'.subpages[k], piece, |m.sections|);
      }
    }
  }

  /** Nothing is entered yet at the bytes of a free piece. */
  lemma {:induction false} FreeBytes(m: Map, piece: Section, k: nat)
    requires MapOk(m) && Free(m, piece) && Proper(piece) && InOnePage(piece) && k < |m.subpages|
    requires var s := PageSection(m, piece.base / TARGET_PAGE_SIZE);
      s != PHYS_SECTION_UNASSIGNED && s < |m.sections| && m.sections[s].mr == SubpageIo(k)
    ensures |m.subpages[k].sub| == TARGET_PAGE_SIZE && FIRST_SECTION <= |m.sections|
    ensures m.subpages[k].base == piece.base / TARGET_PAGE_SIZE * TARGET_PAGE_SIZE
    ensures forall i: nat :: i < TARGET_PAGE_SIZE && Holds(piece, m.subpages[k].base + i) ==>
      m.subpages[k].sub[i] == PHYS_SECTION_UNASSIGNED
  {
    hide Walk, Exact, Translate;
    var p := piece.base / TARGET_PAGE_SIZE;
    PageOf(piece.base);
    assert DirectOk(m, m.sections[PageSection(m, p)], p);
    assert SubpageOk(m, m.subpages[k]);
    var u := m.subpages[k];
    forall i: nat | i < TARGET_PAGE_SIZE && Holds(piece, u.base + i)
      ensures u.sub[i] == PHYS_SECTION_UNASSIGNED
    {
      var addr := u.base + i;
      assert addr / TARGET_PAGE_SIZE == p && addr % TARGET_PAGE_SIZE == i;
      TranslateByPage(m, addr);
    }
  }

  /** The section that an address resolves to holds it. */
  lemma {:induction false} ResolvedHolds(m: Map, addr: nat)
    requires Ready(m) && Whole(m) && addr < ADDRESS_SPACE
    requires var t := Resolve(m, addr); t < |m.sections| && m.sections[t].mr.Device?
    ensures Holds(m.sections[Resolve(m, addr)], addr)
  {
    hide Walk, PageSection, SubpagesOk, ExactFind, PieceIn, SectionFits, Covers;
    var s := FindIdx(m, addr);
    FoundCoversOwn(m, addr);
    assert SectionFits(m, m.sections[s]);
    FitsCovers(m, m.sections[s], addr);
    if m.sections[s].mr.SubpageIo? {
      var u := m.subpages[m.sections[s].mr.k];
      assert PiecesIn(m, u) && PieceIn(m, u, addr % TARGET_PAGE_SIZE);
      PieceHolds(m, u, addr);
    }
  }

  lemma {:induction false} PieceHolds(m: Map, u: Subpage, addr: nat)
    requires |u.sub| == TARGET_PAGE_SIZE && PieceIn(m, u, addr % TARGET_PAGE_SIZE)
    requires u.sub[addr % TARGET_PAGE_SIZE] != PHYS_SECTION_UNASSIGNED
    requires u.base % TARGET_PAGE_SIZE == 0 && u.base <= addr < u.base + TARGET_PAGE_SIZE
    ensures u.sub[addr % TARGET_PAGE_SIZE] < |m.sections| && Holds(m.sections[u.sub[addr % TARGET_PAGE_SIZE]], addr)
  {
    assert u.base + addr % TARGET_PAGE_SIZE == addr;
  }

  /** phys_page_find answers with a section that covers the address, or with the unassigned one. */
  lemma {:induction false} FoundCoversOwn(m: Map, addr: nat)
    requires Ready(m) && addr < ADDRESS_SPACE
    ensures FindIdx(m, addr) < |m.sections|
    ensures FindIdx(m, addr) == PHYS_SECTION_UNASSIGNED || Covers(m.sections[FindIdx(m, addr)], addr)
    ensures m.sections[PHYS_SECTION_UNASSIGNED].mr.Unassigned?
  {
    hide Walk, SubpagesOk, ExactFind;
    assert m.sections[0] == m.sections[..FIRST_SECTION][0];
  }

  lemma {:induction false} FitsCovers(m: Map, s: Section, addr: nat)
    requires SectionFits(m, s) && addr < ADDRESS_SPACE && (s.mr.Device? || s.mr.SubpageIo?)
    ensures Covers(s, addr) <==> Holds(s, addr)
    ensures s.mr.SubpageIo? ==> s.mr.k < |m.subpages| && m.subpages[s.mr.k].base == s.base && s.size == TARGET_PAGE_SIZE
    ensures s.mr.SubpageIo? ==> s.base % TARGET_PAGE_SIZE == 0
  {
  }

  /** All bytes that the section holds resolve to it. */
  lemma {:induction false} SameSection(m: Map, addr: nat, c: nat)
    requires Ready(m) && Whole(m) && addr < ADDRESS_SPACE && c < ADDRESS_SPACE
    requires var t := Resolve(m, addr); t < |m.sections| && m.sections[t].mr.Device? && Holds(m.sections[t], c)
    ensures Resolve(m, c) == Resolve(m, addr)
  {
    hide Walk, PageSection, SubpagesOk, PieceIn, SectionFits, Covers, FindIdx;
    var s := FindIdx(m, addr);
    FoundCoversOwn(m, addr);
    assert SectionFits(m, m.sections[s]);
    FitsCovers(m, m.sections[s], addr);
    FitsCovers(m, m.sections[s], c);
    if m.sections[s].mr.SubpageIo? {
      var u := m.subpages[m.sections[s].mr.k];
      assert PiecesIn(m, u) && PieceIn(m, u, addr % TARGET_PAGE_SIZE);
      PieceSpreads(m, u, addr, c);
    }
    assert Covers(m.sections[s], c);
  }

  lemma {:induction false} PieceSpreads(m: Map, u: Subpage, addr: nat, c: nat)
    requires |u.sub| == TARGET_PAGE_SIZE && PieceIn(m, u, addr % TARGET_PAGE_SIZE) && u.base % TARGET_PAGE_SIZE == 0
    requires var t := u.sub[addr % TARGET_PAGE_SIZE];
      t != PHYS_SECTION_UNASSIGNED && t < |m.sections| && Holds(m.sections[t], c)
    ensures u.base <= c < u.base + TARGET_PAGE_SIZE && u.sub[c % TARGET_PAGE_SIZE] == u.sub[addr % TARGET_PAGE_SIZE]
  {
    var j := c - u.base;
    assert c % TARGET_PAGE_SIZE == j;
  }

  /** Up to the end of the section that an address resolves to, translation is contiguous. */
  lemma {:induction false} Span(m: Map, addr: nat, len: nat)
    requires Ready(m) && Whole(m) && addr < ADDRESS_SPACE
    requires var t := Resolve(m, addr);
      t < |m.sections| && m.sections[t].mr.Device? && addr + len <= m.sections[t].base + m.sections[t].size
    ensures Contiguous(m, addr, Hit(m.sections[Resolve(m, addr)], addr), len)
  {
    hide Ready, Whole, Resolve;
    var t := Resolve(m, addr);
    ResolvedHolds(m, addr);
    assert m.sections[t].base + m.sections[t].size <= ADDRESS_SPACE by { DeviceProper(m, t); }
    var target := Hit(m.sections[t], addr);
    NotUnassigned(m, t);
    forall c: nat | addr <= c < addr + len
      ensures Translate(m, c) == Some(Target(target.mr, target.xlat + c - addr))
    {
      SameSection(m, addr, c);
    }
  }

  lemma {:induction false} DeviceProper(m: Map, t: nat)
    requires Whole(m) && t < |m.sections| && m.sections[t].mr.Device?
    ensures Proper(m.sections[t])
  {
    assert SectionFits(m, m.sections[t]);
  }

  lemma {:induction false} NotUnassigned(m: Map, t: nat)
    requires Ready(m) && t < |m.sections| && m.sections[t].mr.Device?
    ensures t != PHYS_SECTION_UNASSIGNED
  {
    hide ExactFind, SubpagesOk, FindIdx, PageSection;
    assert m.sections[0] == m.sections[..FIRST_SECTION][0];
  }

  lemma {:induction false} RootLive(m: Map)
    requires MapOk(m) && HighClear(m.nodes, m.root)
    ensures Live(m.nodes, m.root, 0, P_L2_LEVELS, MappedSections(m))
  {
    hide Walk, Step;
    forall p: nat | InRange(p, 0, P_L2_LEVELS)
      ensures var s := Walk(m.nodes, m.root, P_L2_LEVELS, p); s == PHYS_SECTION_UNASSIGNED || s in MappedSections(m)
    {
      if p < PAGES {
        var s := PageSection(m, p);
        assert s == PHYS_SECTION_UNASSIGNED || IsMapped(m, s);
      }
    }
  }

  lemma {:induction false} TreePlainBelow(nodes: seq<Node>, shape: seq<Shape>, b: nat, l: nat)
    requires |nodes| == |shape| && TreePlain(nodes, shape)
    ensures PlainBelow(nodes, shape, b, l)
  {
  }

  lemma {:induction false} RootCompacted(m: Map, m': Map)
    requires m' == m
    ensures forall p: nat :: p < PAGES ==> Agree(PageSection(m, p), PageSection(m', p), MappedSections(m))
  {
  }

  lemma {:induction false} CompactedAgree(m: Map, m': Map)
    requires Compacted(m.nodes, m.root, m'.nodes, m'.root, 0, P_L2_LEVELS, MappedSections(m))
    ensures forall p: nat :: p < PAGES ==> Agree(PageSection(m, p), PageSection(m', p), MappedSections(m))
  {
    hide Walk, Step;
    StepSix();
    forall p: nat | p < PAGES ensures Agree(PageSection(m, p), PageSection(m', p), MappedSections(m)) {
      assert InRange(p, 0, P_L2_LEVELS);
    }
  }

  lemma {:induction false} FoundMru(m: Map, addr: nat)
    requires Ready(m) && addr < ADDRESS_SPACE
    ensures MruOk(m, Some(FindIdx(m, addr)))
  {
    hide Walk, PageSection, FindIdx, SubpagesOk;
  }

  // ---------------------------------------------------------------- a whole FlatView

  predicate Disjoint(s: Section, t: Section) {
    s.base + s.size <= t.base || t.base + t.size <= s.base
  }

  /** A FlatView: proper sections, pairwise disjoint. */
  predicate IsFlatView(view: seq<Section>) {
    && (forall i :: 0 <= i < |view| ==> Proper(view[i]))
    && forall i, j :: 0 <= i < j < |view| ==> Disjoint(view[i], view[j])
  }

  lemma {:induction false} OwnerNone(view: seq<Section>, s: Section, addr: nat)
    requires Holds(s, addr) && forall i :: 0 <= i < |view| ==> Disjoint(view[i], s)
    ensures Owner(view, addr) == None
  {
    if view != [] {
      OwnerNone(view[..|view| - 1], s, addr);
    }
  }

  /** In a FlatView the owner is the only section that holds the address. */
  lemma {:induction false} OwnerIs(view: seq<Section>, i: nat, addr: nat)
    requires IsFlatView(view) && i < |view| && Holds(view[i], addr)
    ensures Owner(view, addr) == Some(Hit(view[i], addr))
  {
    var last := |view| - 1;
    if i < last {
      assert Disjoint(view[i], view[last]);
      OwnerIs(view[..last], i, addr);
    }
  }

  /** generate_memory_topology's use of the dispatch: add every section, then compact. */
  method Build(view: seq<Section>) returns (ok: bool, d: AddressSpaceDispatch)
    requires IsFlatView(view)
    ensures fresh(d) && fresh(d.tree)
    ensures ok ==> d.Serving() && forall addr: nat :: addr < ADDRESS_SPACE ==> Translate(d.View(), addr) == Owner(view, addr)
    ensures !ok ==> |d.sections| == TARGET_PAGE_SIZE
    ensures FIRST_SECTION + PER_SECTION * |view| <= TARGET_PAGE_SIZE ==> ok
  {
    hide Walk, Step, MapOk, HighClear, TreeOk, TreePlain, EntryOk, EntryPlain, Translate, Ready, FindIdx, Whole;
    d := new AddressSpaceDispatch();
    ok := true;
    for i := 0 to |view|
      invariant ok && d.Building() && fresh(d) && fresh(d.tree)
      invariant |d.sections| <= FIRST_SECTION + PER_SECTION * i
      invariant forall addr: nat :: addr < ADDRESS_SPACE ==> Translate(d.View(), addr) == Owner(view[..i], addr)
    {
      ghost var m := d.View();
      forall addr: nat | addr < ADDRESS_SPACE && Holds(view[i], addr) ensures Translate(m, addr) == None {
        OwnerNone(view[..i], view[i], addr);
      }
      assert Free(m, view[i]);
      ok := d.AddToDispatch(view[i]);
      if !ok { return; }
      assert view[..i + 1][..i] == view[..i];
    }
    assert view[..|view|] == view;
    d.DispatchCompact();
  }

  /** TARGET_PAGE_ALIGN on a 64-bit address. */
  function PageAlign64(addr: nat): nat {
    var x := (addr + TARGET_PAGE_SIZE - 1) % ADDRESS_SPACE;
    x - x % TARGET_PAGE_SIZE
  }

  function Sub64(a: nat, b: nat): nat {
    (a - b) % ADDRESS_SPACE
  }

  lemma {:induction false} AlignLeft(addr: nat)
    requires addr < ADDRESS_SPACE && addr % TARGET_PAGE_SIZE != 0
    ensures Sub64(PageAlign64(addr), addr) == TARGET_PAGE_SIZE - addr % TARGET_PAGE_SIZE
  {
  }

  /** What is left of a section after its first `done` bytes. */
  ghost function Rest(s: Section, done: nat): Section
    requires done <= s.size
  {
    Section(s.mr, s.base + done, s.size - done, s.off + done)
  }

  lemma {:induction false} FreeHead(m: Map, s: Section, now: Section)
    requires Free(m, s) && s.base == now.base && now.size <= s.size
    ensures Free(m, now)
  {
  }

  lemma {:induction false} AddedNothing(m: Map, s: Section)
    ensures Added(m, m, s.(size := 0))
  {
  }

  lemma {:induction false} FreePart(m: Map, m1: Map, s: Section, done: nat)
    requires Free(m, s) && done <= s.size && Added(m, m1, s.(size := done))
    ensures Free(m1, Rest(s, done))
  {
  }

  lemma {:induction false} AddedTrans(m: Map, m1: Map, m2: Map, s: Section, done: nat, more: nat)
    requires done + more <= s.size
    requires Added(m, m1, s.(size := done)) && Added(m1, m2, Rest(s, done).(size := more))
    ensures Added(m, m2, s.(size := done + more))
  {
  }

  /** subpage_register, for ranges inside the page. */
  method SubpageRegister(sub: seq<nat>, start: nat, end: nat, section: nat) returns (r: seq<nat>)
    requires |sub| == TARGET_PAGE_SIZE
    ensures if start >= TARGET_PAGE_SIZE || end >= TARGET_PAGE_SIZE then r == sub else SubSet(sub, r, start, end, section)
  {
    r := sub;
    if start >= TARGET_PAGE_SIZE || end >= TARGET_PAGE_SIZE {
      return;
    }
    var idx := start;
    while idx <= end
      invariant start <= idx && |r| == |sub|
      invariant forall i :: 0 <= i < |sub| ==> r[i] == if start <= i < idx && i <= end then section else sub[i]
      decreases end + 1 - idx
    {
      r := r[idx := section];
      idx := idx + 1;
    }
  }

  lemma {:induction false} PagesInBounds(m: Map)
    requires MapOk(m)
    ensures forall p: nat :: p < PAGES ==> PageSection(m, p) < |m.sections|
  {
  }

  lemma {:induction false} DummyMr(m: Map)
    requires SectionsOk(m)
    ensures m.sections[PHYS_SECTION_UNASSIGNED].mr == Unassigned
  {
    assert m.sections[0] == m.sections[..FIRST_SECTION][0];
  }

  /** A split page leads to a subpage record of that page. */
  lemma {:induction false} DirectSubpage(m: Map, p: nat)
    requires MapOk(m) && p < PAGES
    requires var s := PageSection(m, p); s != PHYS_SECTION_UNASSIGNED && s < |m.sections| && m.sections[s].mr.SubpageIo?
    ensures var k := m.sections[PageSection(m, p)].mr.k; k < |m.subpages| && |m.subpages[k].sub| == TARGET_PAGE_SIZE
  {
    var s := PageSection(m, p);
    assert DirectOk(m, m.sections[s], p);
    assert SubpageOk(m, m.subpages[m.sections[s].mr.k]);
  }

  lemma {:induction false} SetHighClear(nodes: seq<Node>, root: Entry, nodes': seq<Node>, root': Entry, lo: nat,
                                        n: nat, s: nat)
    requires HighClear(nodes, root) && lo + n <= PAGES
    requires RangeSet(nodes, root, nodes', root', P_L2_LEVELS, lo, n, s)
    ensures HighClear(nodes', root')
  {
  }
}
