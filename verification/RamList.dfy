/** The list of RAM blocks in the ram_addr_t space, and the lookup with its MRU cache. */
module RamList {
  import opened Arith
  import opened Common
  import Dirty = DirtyMemory

  const WORD: nat := 0x1_0000_0000_0000_0000
  const RAM_ADDR_MAX: nat := 0xFFFF_FFFF_FFFF_FFFF
  const TARGET_PAGE_SIZE: nat := 4096
  /** BITS_PER_LONG << TARGET_PAGE_BITS */
  const BLOCK_ALIGN: nat := 0x4_0000

  datatype RAMBlock = RAMBlock(id: nat, offset: nat, maxLength: nat)

  /** ROUND_UP on 64-bit unsigned values. */
  function RoundUp64(n: nat): (r: nat)
  {
    var x := (n + BLOCK_ALIGN - 1) % WORD;
    x - x % BLOCK_ALIGN
  }

  /** Where a new block would go right behind `b`. */
  function Candidate(b: RAMBlock): nat {
    RoundUp64((b.offset + b.maxLength) % WORD)
  }

  /** The lowest block offset at or above `from`, or RAM_ADDR_MAX. */
  function NextOffset(blocks: seq<RAMBlock>, from: nat): nat {
    if blocks == [] then RAM_ADDR_MAX
    else
      var rest := NextOffset(blocks[..|blocks| - 1], from);
      var last := blocks[|blocks| - 1];
      if last.offset >= from then Min(rest, last.offset) else rest
  }

  /** Size of the free space behind `b`. */
  function Gap(blocks: seq<RAMBlock>, b: RAMBlock): int {
    NextOffset(blocks, Candidate(b)) - Candidate(b)
  }

  predicate Overlap(a: RAMBlock, b: RAMBlock) {
    a.offset < b.offset + b.maxLength && b.offset < a.offset + a.maxLength
  }

  predicate BlockOk(b: RAMBlock) {
    b.maxLength > 0 && b.offset % BLOCK_ALIGN == 0 && b.offset + b.maxLength <= RAM_ADDR_MAX
  }

  ghost predicate BlocksOk(blocks: seq<RAMBlock>) {
    && (forall i :: 0 <= i < |blocks| ==> BlockOk(blocks[i]))
    && forall i, j :: 0 <= i < j < |blocks| ==> !Overlap(blocks[i], blocks[j])
  }

  /** Biggest block first. */
  ghost predicate Sorted(blocks: seq<RAMBlock>) {
    forall i, j :: 0 <= i < j < |blocks| ==> blocks[i].maxLength >= blocks[j].maxLength
  }

  // ---------------------------------------------------------------- finding an offset

  lemma {:induction false} NextOffsetIs(blocks: seq<RAMBlock>, from: nat)
    requires from <= RAM_ADDR_MAX
    ensures var n := NextOffset(blocks, from);
      && n <= RAM_ADDR_MAX
      && (n == RAM_ADDR_MAX || (n >= from && exists i :: 0 <= i < |blocks| && blocks[i].offset == n))
      && forall i :: 0 <= i < |blocks| && blocks[i].offset >= from ==> n <= blocks[i].offset
  {
    if blocks != [] {
      NextOffsetIs(blocks[..|blocks| - 1], from);
    }
  }

  lemma {:induction false} CandidateIs(b: RAMBlock)
    requires BlockOk(b)
    ensures Candidate(b) % BLOCK_ALIGN == 0 && Candidate(b) <= RAM_ADDR_MAX
    ensures var end := b.offset + b.maxLength;
      if end > WORD - BLOCK_ALIGN then Candidate(b) == 0 else end <= Candidate(b) < end + BLOCK_ALIGN
  {
  }

  /** The free space behind an existing block holds no other block, even when the alignment wraps to 0. */
  lemma {:induction false} GapFree(blocks: seq<RAMBlock>, k: nat, size: nat, j: nat)
    requires BlocksOk(blocks) && k < |blocks| && j < |blocks| && 0 < size && Gap(blocks, blocks[k]) >= size
    ensures !Overlap(RAMBlock(0, Candidate(blocks[k]), size), blocks[j])
  {
    var c := Candidate(blocks[k]);
    CandidateIs(blocks[k]);
    NextOffsetIs(blocks, c);
    if blocks[j].offset < c && j != k {
      var end := blocks[k].offset + blocks[k].maxLength;
      assert !Overlap(blocks[k], blocks[j]);
      if blocks[j].offset >= end {
        AlignedBelow(blocks[j].offset, end, c);
      }
    }
  }

  lemma {:induction false} AlignedBelow(x: nat, end: nat, c: nat)
    requires x % BLOCK_ALIGN == 0 && c % BLOCK_ALIGN == 0 && end <= x && c < end + BLOCK_ALIGN
    ensures x >= c
  {
  }

  /** A block placed in a fitting gap keeps all blocks aligned and disjoint. */
  lemma {:induction false} PlaceOk(blocks: seq<RAMBlock>, k: nat, added: RAMBlock)
    requires BlocksOk(blocks) && k < |blocks| && added.maxLength > 0
    requires added.offset == Candidate(blocks[k]) && Gap(blocks, blocks[k]) >= added.maxLength
    ensures BlockOk(added) && forall j :: 0 <= j < |blocks| ==> !Overlap(added, blocks[j])
  {
    CandidateIs(blocks[k]);
    NextOffsetIs(blocks, Candidate(blocks[k]));
    forall j | 0 <= j < |blocks| ensures !Overlap(added, blocks[j]) {
      GapFree(blocks, k, added.maxLength, j);
    }
  }

  /** Block k is the first block in the list with the smallest gap that fits. */
  ghost predicate BestFit(blocks: seq<RAMBlock>, size: nat, k: nat) {
    && k < |blocks| && Gap(blocks, blocks[k]) >= size
    && (forall j :: 0 <= j < k && Gap(blocks, blocks[j]) >= size ==> Gap(blocks, blocks[k]) < Gap(blocks, blocks[j]))
    && forall j :: 0 <= j < |blocks| && Gap(blocks, blocks[j]) >= size ==> Gap(blocks, blocks[k]) <= Gap(blocks, blocks[j])
  }

  /** find_ram_offset; None when the source aborts for lack of a gap. */
  method FindRamOffset(blocks: seq<RAMBlock>, size: nat) returns (r: Option<nat>)
    requires 0 < size <= RAM_ADDR_MAX && BlocksOk(blocks)
    ensures blocks == [] ==> r == Some(0)
    ensures blocks != [] && r.Some? ==> exists k: nat :: BestFit(blocks, size, k) && r.value == Candidate(blocks[k])
    ensures r.None? ==> blocks != [] && forall k :: 0 <= k < |blocks| ==> Gap(blocks, blocks[k]) < size
  {
    hide Candidate, BlocksOk;
    if blocks == [] {
      return Some(0);
    }
    var offset, mingap := RAM_ADDR_MAX, RAM_ADDR_MAX;
    ghost var best := 0;
    for i := 0 to |blocks|
      invariant offset == RAM_ADDR_MAX ==> mingap == RAM_ADDR_MAX && forall j :: 0 <= j < i ==> Gap(blocks, blocks[j]) < size
      invariant offset != RAM_ADDR_MAX ==>
                  && 0 <= best < i && offset == Candidate(blocks[best]) && mingap == Gap(blocks, blocks[best]) >= size
                  && (forall j :: 0 <= j < best && Gap(blocks, blocks[j]) >= size ==> mingap < Gap(blocks, blocks[j]))
                  && forall j :: 0 <= j < i && Gap(blocks, blocks[j]) >= size ==> mingap <= Gap(blocks, blocks[j])
    {
      var block := blocks[i];
      var candidate := Candidate(block);
      var next := RAM_ADDR_MAX;
      for j := 0 to |blocks|
        invariant next == NextOffset(blocks[..j], candidate)
      {
        assert blocks[..j + 1][..j] == blocks[..j];
        if blocks[j].offset >= candidate {
          next := Min(next, blocks[j].offset);
        }
      }
      assert blocks[..|blocks|] == blocks;
      WrapGap(blocks, i);
      if next - candidate >= size && next - candidate < mingap {
        offset, mingap := candidate, next - candidate;
        best := i;
      }
    }
    if offset == RAM_ADDR_MAX {
      return None;
    }
    assert BestFit(blocks, size, best);
    return Some(offset);
  }

  /** No gap is as large as the whole address space, so the first fitting gap is always taken. */
  lemma {:induction false} WrapGap(blocks: seq<RAMBlock>, i: nat)
    requires BlocksOk(blocks) && i < |blocks|
    ensures Gap(blocks, blocks[i]) < RAM_ADDR_MAX && Candidate(blocks[i]) != RAM_ADDR_MAX
    ensures NextOffset(blocks, Candidate(blocks[i])) >= Candidate(blocks[i])
  {
    CandidateIs(blocks[i]);
    NextOffsetIs(blocks, Candidate(blocks[i]));
  }

  // ---------------------------------------------------------------- lookup

  /** addr - block->offset < block->max_length, with 64-bit wrap-around. */
  predicate Contains64(b: RAMBlock, addr: nat) {
    (addr - b.offset) % WORD < b.maxLength
  }

  lemma {:induction false} ContainsIs(b: RAMBlock, addr: nat)
    requires BlockOk(b) && addr <= RAM_ADDR_MAX
    ensures Contains64(b, addr) <==> b.offset <= addr < b.offset + b.maxLength
  {
    if addr < b.offset {
      assert (addr - b.offset) % WORD == addr - b.offset + WORD;
    }
  }

  /** The block that holds `addr`, by scanning the list. */
  function Scan(blocks: seq<RAMBlock>, addr: nat): (r: Option<RAMBlock>)
    ensures r.Some? ==> r.value in blocks && Contains64(r.value, addr)
    ensures r.None? ==> forall b :: b in blocks ==> !Contains64(b, addr)
  {
    if blocks == [] then None
    else if Contains64(blocks[0], addr) then Some(blocks[0])
    else Scan(blocks[1..], addr)
  }

  /** At most one block holds an address, so a cached hit is the scan's answer. */
  lemma {:induction false} ScanUnique(blocks: seq<RAMBlock>, b: RAMBlock, addr: nat)
    requires BlocksOk(blocks) && b in blocks && addr <= RAM_ADDR_MAX && Contains64(b, addr)
    ensures Scan(blocks, addr) == Some(b)
  {
    var r := Scan(blocks, addr);
    var i :| 0 <= i < |blocks| && blocks[i] == b;
    var j :| 0 <= j < |blocks| && blocks[j] == r.value;
    ContainsIs(b, addr);
    ContainsIs(r.value, addr);
    if i != j { assert false; }
  }

  // ---------------------------------------------------------------- insertion and removal

  lemma {:induction false} InsertOk(blocks: seq<RAMBlock>, i: nat, b: RAMBlock)
    requires BlocksOk(blocks) && i <= |blocks| && BlockOk(b)
    requires forall j :: 0 <= j < |blocks| ==> !Overlap(b, blocks[j])
    ensures BlocksOk(blocks[..i] + [b] + blocks[i..])
  {
    var r := blocks[..i] + [b] + blocks[i..];
    forall x, y | 0 <= x < y < |r| ensures !Overlap(r[x], r[y]) {
      var x' := if x < i then x else x - 1;
      var y' := if y < i then y else y - 1;
      if x != i && y != i { assert r[x] == blocks[x'] && r[y] == blocks[y'] && !Overlap(blocks[x'], blocks[y']); }
      else if x == i { assert !Overlap(b, blocks[y']); }
      else { assert !Overlap(b, blocks[x']); }
    }
  }

  lemma {:induction false} InsertSorted(blocks: seq<RAMBlock>, i: nat, b: RAMBlock)
    requires Sorted(blocks) && i <= |blocks|
    requires forall j :: 0 <= j < i ==> blocks[j].maxLength >= b.maxLength
    requires i < |blocks| ==> blocks[i].maxLength < b.maxLength
    ensures Sorted(blocks[..i] + [b] + blocks[i..])
  {
    var r := blocks[..i] + [b] + blocks[i..];
    forall x, y | 0 <= x < y < |r| ensures r[x].maxLength >= r[y].maxLength {
      if y > i { assert r[y] == blocks[y - 1]; }
      if x > i { assert r[x] == blocks[x - 1]; }
    }
  }

  lemma {:induction false} RemoveOk(blocks: seq<RAMBlock>, i: nat)
    requires BlocksOk(blocks) && Sorted(blocks) && i < |blocks|
    ensures BlocksOk(blocks[..i] + blocks[i + 1..]) && Sorted(blocks[..i] + blocks[i + 1..])
  {
    var r := blocks[..i] + blocks[i + 1..];
    forall x, y | 0 <= x < y < |r| ensures !Overlap(r[x], r[y]) && r[x].maxLength >= r[y].maxLength {
      var x' := if x < i then x else x + 1;
      var y' := if y < i then y else y + 1;
      assert r[x] == blocks[x'] && r[y] == blocks[y'] && !Overlap(blocks[x'], blocks[y']);
    }
  }

  // ---------------------------------------------------------------- dirty bitmap coverage

  /** last_ram_page before the final shift: the end of the highest block. */
  function LastByte(blocks: seq<RAMBlock>): nat {
    if blocks == [] then 0 else Max(LastByte(blocks[..|blocks| - 1]), blocks[|blocks| - 1].offset + blocks[|blocks| - 1].maxLength)
  }

  function LastRamPage(blocks: seq<RAMBlock>): nat {
    LastByte(blocks) / TARGET_PAGE_SIZE
  }

  lemma {:induction false} LastByteIs(blocks: seq<RAMBlock>)
    ensures forall i :: 0 <= i < |blocks| ==> blocks[i].offset + blocks[i].maxLength <= LastByte(blocks)
    ensures LastByte(blocks) == 0 || exists i :: 0 <= i < |blocks| && LastByte(blocks) == blocks[i].offset + blocks[i].maxLength
  {
    if blocks != [] {
      LastByteIs(blocks[..|blocks| - 1]);
    }
  }

  /** LastByte is the least bound on the block ends. */
  lemma {:induction false} LastByteBound(blocks: seq<RAMBlock>, x: nat)
    requires forall i :: 0 <= i < |blocks| ==> blocks[i].offset + blocks[i].maxLength <= x
    ensures LastByte(blocks) <= x
  {
    if blocks != [] {
      LastByteBound(blocks[..|blocks| - 1], x);
    }
  }

  function ChunksFor(pages: nat): nat {
    (pages + Dirty.DIRTY_MEMORY_BLOCK_SIZE - 1) / Dirty.DIRTY_MEMORY_BLOCK_SIZE
  }

  function Blank(): Dirty.Chunk { seq(Dirty.DIRTY_MEMORY_BLOCK_SIZE, _ => false) }

  /** dirty_memory_extend for one client: keep the chunks of the old pages, append clean ones. */
  method DirtyMemoryExtend(prior: seq<Dirty.Chunk>, oldPages: nat, newPages: nat) returns (r: seq<Dirty.Chunk>)
    requires ChunksFor(oldPages) <= |prior|
    ensures ChunksFor(newPages) <= ChunksFor(oldPages) ==> r == prior
    ensures ChunksFor(newPages) > ChunksFor(oldPages) ==>
              |r| == ChunksFor(newPages) && r[..ChunksFor(oldPages)] == prior[..ChunksFor(oldPages)] &&
              forall j :: ChunksFor(oldPages) <= j < |r| ==> r[j] == Blank()
  {
    var oldNum, newNum := ChunksFor(oldPages), ChunksFor(newPages);
    r := prior;
    if newNum <= oldNum {
      return;
    }
    r := prior[..oldNum];
    for j := oldNum to newNum
      invariant |r| == j && r[..oldNum] == prior[..oldNum]
      invariant forall i :: oldNum <= i < j ==> r[i] == Blank()
    {
      r := r + [Blank()];
    }
  }

  /** What an extension means for the flat bitmap: old pages keep their bit. */
  lemma {:induction false} ExtendKeepsBits(prior: seq<Dirty.Chunk>, r: seq<Dirty.Chunk>, oldPages: nat, p: nat)
    requires ChunksFor(oldPages) <= |prior| && ChunksFor(oldPages) <= |r| && p < oldPages
    requires r[..ChunksFor(oldPages)] == prior[..ChunksFor(oldPages)]
    ensures p < |prior| * Dirty.DIRTY_MEMORY_BLOCK_SIZE && p < |r| * Dirty.DIRTY_MEMORY_BLOCK_SIZE
    ensures Dirty.Bit(r, p) == Dirty.Bit(prior, p)
  {
    var idx := p / Dirty.DIRTY_MEMORY_BLOCK_SIZE;
    assert idx < ChunksFor(oldPages);
    assert r[idx] == r[..ChunksFor(oldPages)][idx] == prior[..ChunksFor(oldPages)][idx] == prior[idx];
  }

  /** The two bitmaps agree on the first `pages` pages, which both hold. */
  ghost predicate SameBits(a: seq<Dirty.Chunk>, b: seq<Dirty.Chunk>, pages: nat) {
    forall p: nat :: p < pages ==>
      p < |a| * Dirty.DIRTY_MEMORY_BLOCK_SIZE && p < |b| * Dirty.DIRTY_MEMORY_BLOCK_SIZE &&
        Dirty.Bit(b, p) == Dirty.Bit(a, p)
  }

  /** The extension step of ram_block_add for one client. */
  method Extended(d: seq<Dirty.Chunk>, oldPages: nat, newPages: nat) returns (r: seq<Dirty.Chunk>)
    requires ChunksFor(oldPages) <= |d| && oldPages <= newPages
    ensures ChunksFor(newPages) <= |r| && SameBits(d, r, oldPages)
  {
    r := d;
    if newPages > oldPages {
      r := DirtyMemoryExtend(d, oldPages, newPages);
    }
    forall p: nat | p < oldPages
      ensures p < |d| * Dirty.DIRTY_MEMORY_BLOCK_SIZE && p < |r| * Dirty.DIRTY_MEMORY_BLOCK_SIZE &&
        Dirty.Bit(r, p) == Dirty.Bit(d, p)
    {
      ExtendKeepsBits(d, r, oldPages, p);
    }
  }

  /** `after` is `before` with one block more, put where the best-fit rule says. */
  ghost predicate Inserted(before: seq<RAMBlock>, after: seq<RAMBlock>, id: nat, maxLength: nat) {
    exists i, offset: nat ::
      && 0 <= i <= |before| && after == before[..i] + [RAMBlock(id, offset, maxLength)] + before[i..]
      && (before == [] ==> offset == 0)
      && (before != [] ==> exists k: nat :: BestFit(before, maxLength, k) && offset == Candidate(before[k]))
  }

  lemma {:induction false} FoundGap(blocks: seq<RAMBlock>, block: RAMBlock)
    requires blocks != [] ==> exists k: nat :: BestFit(blocks, block.maxLength, k) && block.offset == Candidate(blocks[k])
    ensures blocks != [] ==> exists k :: 0 <= k < |blocks| && Gap(blocks, blocks[k]) >= block.maxLength
  {
  }

  /** Every page of a block with a page-multiple length has a bit in every client's bitmap. */
  lemma {:induction false} PagesCovered(blocks: seq<RAMBlock>, d: seq<Dirty.Chunk>, i: nat, addr: nat)
    requires BlocksOk(blocks) && ChunksFor(LastRamPage(blocks)) <= |d| && i < |blocks|
    requires blocks[i].maxLength % TARGET_PAGE_SIZE == 0 &&
      blocks[i].offset <= addr < blocks[i].offset + blocks[i].maxLength
    ensures addr / TARGET_PAGE_SIZE < |d| * Dirty.DIRTY_MEMORY_BLOCK_SIZE
  {
    LastByteIs(blocks);
    var end := blocks[i].offset + blocks[i].maxLength;
    AlignedBlockEnd(blocks[i]);
    assert addr / TARGET_PAGE_SIZE < end / TARGET_PAGE_SIZE <= LastRamPage(blocks);
    ChunksHold(LastRamPage(blocks), |d|);
  }

  lemma {:induction false} AlignedBlockEnd(b: RAMBlock)
    requires BlockOk(b) && b.maxLength % TARGET_PAGE_SIZE == 0
    ensures (b.offset + b.maxLength) % TARGET_PAGE_SIZE == 0
  {
    var k, n := b.offset / BLOCK_ALIGN, b.maxLength / TARGET_PAGE_SIZE;
    assert b.offset + b.maxLength == (k * 64 + n) * TARGET_PAGE_SIZE;
    DivModUnique(b.offset + b.maxLength, TARGET_PAGE_SIZE, k * 64 + n, 0);
  }

  lemma {:induction false} ChunksHold(pages: nat, n: nat)
    requires ChunksFor(pages) <= n
    ensures pages <= n * Dirty.DIRTY_MEMORY_BLOCK_SIZE
  {
  }

  // ---------------------------------------------------------------- the list as an object

  /** ram_list: blocks, MRU cache and the dirty bitmaps of the three clients. */
  class RAMList {
    var blocks: seq<RAMBlock>
    var mru: Option<RAMBlock>
    var dirty: seq<seq<Dirty.Chunk>>

    ghost predicate Valid()
      reads this
    {
      && BlocksOk(blocks) && Sorted(blocks)
      && (mru.Some? ==> mru.value in blocks)
      && |dirty| == 3
      && forall c :: 0 <= c < 3 ==> ChunksFor(LastRamPage(blocks)) <= |dirty[c]|
    }

    constructor ()
      ensures Valid() && blocks == []
    {
      blocks, mru, dirty := [], None, [[], [], []];
    }

    /** qemu_get_ram_block; None when the source aborts on a bad offset. */
    method GetRamBlock(addr: nat) returns (r: Option<RAMBlock>)
      requires Valid() && addr <= RAM_ADDR_MAX
      modifies this`mru
      ensures Valid() && r == Scan(blocks, addr)
    {
      if mru.Some? && Contains64(mru.value, addr) {
        ScanUnique(blocks, mru.value, addr);
        return mru;
      }
      var i := 0;
      while i < |blocks|
        invariant 0 <= i <= |blocks|
        invariant Scan(blocks, addr) == Scan(blocks[i..], addr)
      {
        if Contains64(blocks[i], addr) {
          mru := Some(blocks[i]);
          return mru;
        }
        i := i + 1;
      }
      return None;
    }

    /** ram_block_add; false when no gap is large enough. */
    method Add(id: nat, maxLength: nat) returns (ok: bool)
      requires Valid() && 0 < maxLength <= RAM_ADDR_MAX
      modifies this
      ensures Valid()
      ensures ok <==> old(blocks) == [] || exists k :: 0 <= k < |old(blocks)| && Gap(old(blocks), old(blocks)[k]) >= maxLength
      ensures !ok ==> blocks == old(blocks) && dirty == old(dirty)
      ensures ok ==> Inserted(old(blocks), blocks, id, maxLength)
      ensures ok ==> forall c :: 0 <= c < 3 ==> SameBits(old(dirty)[c], dirty[c], LastRamPage(old(blocks)))
    {
      hide BlocksOk, Sorted, LastByte, ChunksFor, Gap, BestFit, Candidate, SameBits;
      var oldSize := LastRamPage(blocks);
      var found := FindRamOffset(blocks, maxLength);
      if found.None? {
        return false;
      }
      var block := RAMBlock(id, found.value, maxLength);
      FoundOk(blocks, block);
      FoundGap(blocks, block);
      var newSize := Max(oldSize, (block.offset + block.maxLength) / TARGET_PAGE_SIZE);
      var d0 := Extended(dirty[0], oldSize, newSize);
      var d1 := Extended(dirty[1], oldSize, newSize);
      var d2 := Extended(dirty[2], oldSize, newSize);
      dirty := [d0, d1, d2];
      var i := 0;
      while i < |blocks| && blocks[i].maxLength >= maxLength
        invariant 0 <= i <= |blocks|
        invariant forall j :: 0 <= j < i ==> blocks[j].maxLength >= maxLength
      {
        i := i + 1;
      }
      InsertOk(blocks, i, block);
      InsertSorted(blocks, i, block);
      InsertLast(blocks, i, block);
      blocks := blocks[..i] + [block] + blocks[i..];
      mru := None;
      ok := true;
    }

    /** qemu_ram_free of the block at position i of the list. */
    method Free(i: nat)
      requires Valid() && i < |blocks|
      modifies this`blocks, this`mru
      ensures Valid() && blocks == old(blocks)[..i] + old(blocks)[i + 1..]
    {
      RemoveOk(blocks, i);
      RemoveLast(blocks, i);
      blocks := blocks[..i] + blocks[i + 1..];
      mru := None;
    }
  }

  /** The offset found for a new block is free and aligned. */
  lemma {:induction false} FoundOk(blocks: seq<RAMBlock>, block: RAMBlock)
    requires BlocksOk(blocks) && 0 < block.maxLength <= RAM_ADDR_MAX
    requires blocks == [] ==> block.offset == 0
    requires blocks != [] ==> exists k: nat :: BestFit(blocks, block.maxLength, k) && block.offset == Candidate(blocks[k])
    ensures BlockOk(block) && forall j :: 0 <= j < |blocks| ==> !Overlap(block, blocks[j])
  {
    if blocks != [] {
      var k: nat :| BestFit(blocks, block.maxLength, k) && block.offset == Candidate(blocks[k]);
      PlaceOk(blocks, k, block);
    }
  }

  lemma {:induction false} InsertLast(blocks: seq<RAMBlock>, i: nat, b: RAMBlock)
    requires i <= |blocks|
    ensures LastByte(blocks[..i] + [b] + blocks[i..]) == Max(LastByte(blocks), b.offset + b.maxLength)
  {
    hide LastByte;
    var r := blocks[..i] + [b] + blocks[i..];
    var x := Max(LastByte(blocks), b.offset + b.maxLength);
    LastByteIs(blocks);
    forall j | 0 <= j < |r| ensures r[j].offset + r[j].maxLength <= x {
      if j < i { assert r[j] == blocks[j]; } else if j > i { assert r[j] == blocks[j - 1]; }
    }
    LastByteBound(r, x);
    LastByteIs(r);
    assert r[i] == b;
    forall j | 0 <= j < |blocks| ensures blocks[j].offset + blocks[j].maxLength <= LastByte(r) {
      assert blocks[j] == r[if j < i then j else j + 1];
    }
    LastByteBound(blocks, LastByte(r));
  }

  lemma {:induction false} RemoveLast(blocks: seq<RAMBlock>, i: nat)
    requires i < |blocks|
    ensures LastByte(blocks[..i] + blocks[i + 1..]) <= LastByte(blocks)
  {
    LastByteIs(blocks);
    LastByteBound(blocks[..i] + blocks[i + 1..], LastByte(blocks));
  }
}
