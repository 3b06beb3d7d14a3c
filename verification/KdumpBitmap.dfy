/** The two on-disk bitmaps of a kdump file: bit p tells whether page p was dumped. */
module KdumpBitmap {

  import opened Arith
  import opened Common
  import opened DumpFile
  import opened GuestMemory
  import opened GuestPages

  const CHAR_BIT := 8

  function Mask(r: nat): bv8
    requires r < 8
  {
    if r == 0 then 1 else if r == 1 then 2 else if r == 2 then 4 else if r == 3 then 8
    else if r == 4 then 16 else if r == 5 then 32 else if r == 6 then 64 else 128
  }

  predicate TestBit(b: Byte, r: nat)
    requires r < 8
  {
    b & Mask(r) != 0
  }

  lemma {:induction false} MasksDiffer(r: nat, t: nat)
    requires r < 8 && t < 8 && r != t
    ensures Mask(r) & Mask(t) == 0
  {
  }

  lemma {:induction false} MaskSet(r: nat)
    requires r < 8
    ensures Mask(r) != 0
  {
  }

  lemma {:induction false} OrKeeps(b: bv8, m: bv8, t: bv8)
    requires m & t == 0
    ensures (b | m) & t == b & t
  {
  }

  lemma {:induction false} ClearKeeps(b: bv8, m: bv8, t: bv8)
    requires m & t == 0
    ensures (b & !m) & t == b & t
  {
  }

  lemma {:induction false} OrSets(b: bv8, m: bv8)
    ensures (b | m) & m == m
  {
  }

  lemma {:induction false} ClearClears(b: bv8, m: bv8)
    ensures (b & !m) & m == 0
  {
  }

  lemma {:induction false} TestsMask(b: Byte, r: nat)
    requires r < 8
    ensures TestBit(b, r) <==> b & Mask(r) != 0
  {
  }

  lemma {:induction false} OwnBit(b: Byte, r: nat)
    requires r < 8
    ensures TestBit(b | Mask(r), r) && !TestBit(b & !Mask(r), r)
  {
    hide Mask, TestBit;
    MaskSet(r);
    TestsMask(b | Mask(r), r);
    TestsMask(b & !Mask(r), r);
    OrSets(b, Mask(r));
    ClearClears(b, Mask(r));
  }

  lemma {:induction false} SetKeepsOther(b: Byte, r: nat, t: nat)
    requires r < 8 && t < 8 && r != t
    ensures TestBit(b | Mask(r), t) == TestBit(b, t)
  {
    hide Mask, TestBit;
    MasksDiffer(r, t);
    OrKeeps(b, Mask(r), Mask(t));
    TestsMask(b, t);
    TestsMask(b | Mask(r), t);
  }

  lemma {:induction false} ClearKeepsOther(b: Byte, r: nat, t: nat)
    requires r < 8 && t < 8 && r != t
    ensures TestBit(b & !Mask(r), t) == TestBit(b, t)
  {
    hide Mask, TestBit;
    MasksDiffer(r, t);
    ClearKeeps(b, Mask(r), Mask(t));
    TestsMask(b, t);
    TestsMask(b & !Mask(r), t);
  }

  /** `|= 1u << bit` and `&= ~(1u << bit)` change that bit and no other. */
  lemma {:induction false} BitUpdate(b: Byte, r: nat, t: nat)
    requires r < 8 && t < 8
    ensures TestBit(b | Mask(r), t) <==> t == r || TestBit(b, t)
    ensures TestBit(b & !Mask(r), t) <==> t != r && TestBit(b, t)
  {
    hide Mask, TestBit;
    if r == t {
      OwnBit(b, r);
    } else {
      SetKeepsOther(b, r, t);
      ClearKeepsOther(b, r, t);
    }
  }

  lemma {:induction false} ZeroByte(r: nat)
    requires r < 8
    ensures !TestBit(0, r)
  {
  }

  /** Byte number q of a bitmap of the set s. */
  ghost predicate ByteOk(b: Byte, q: nat, s: set<nat>) {
    forall r: nat :: r < 8 ==> (TestBit(b, r) <==> 8 * q + r in s)
  }

  ghost predicate DiskByteOk(rs: seq<Record>, base: nat, q: nat, s: set<nat>) {
    At(rs, base + q).Some? && ByteOk(At(rs, base + q).value, q, s)
  }

  /** The first n bytes of the bitmap at base are those of s. */
  ghost predicate DiskOk(rs: seq<Record>, base: nat, n: nat, s: set<nat>) {
    forall q: nat :: q < n ==> DiskByteOk(rs, base, q, s)
  }

  /** The buffer holds bytes off, off + 1, ... of the bitmap. */
  ghost predicate BufOk(buf: seq<Byte>, off: nat, s: set<nat>) {
    forall i :: 0 <= i < |buf| ==> ByteOk(buf[i], off + i, s)
  }

  ghost predicate Below(s: set<nat>, n: nat) { forall p :: p in s ==> p < n }

  lemma {:induction false} DiskKept(a: seq<Record>, b: seq<Record>, base: nat, n: nat, s: set<nat>, lo: nat, hi: nat)
    requires DiskOk(a, base, n, s) && SameOutside(a, b, lo, hi) && (base + n <= lo || hi <= base)
    ensures DiskOk(b, base, n, s)
  {
    hide ByteOk;
    forall q: nat | q < n
      ensures DiskByteOk(b, base, q, s)
    {
      assert DiskByteOk(a, base, q, s);
    }
  }

  /** Writing the buffer behind n good bytes makes n + |buf| good bytes. */
  lemma {:induction false} DiskGrows(rs: seq<Record>, base: nat, n: nat, buf: seq<Byte>, s: set<nat>)
    requires DiskOk(rs, base, n, s) && BufOk(buf, n, s)
    ensures DiskOk(rs + [Record(base + n, buf)], base, n + |buf|, s)
  {
    hide ByteOk;
    var r := Record(base + n, buf);
    forall q: nat | q < n + |buf|
      ensures DiskByteOk(rs + [r], base, q, s)
    {
      AtAppend(rs, r, base + q);
      if q < n {
        assert DiskByteOk(rs, base, q, s);
      } else {
        assert ByteOk(buf[q - n], n + (q - n), s);
      }
    }
  }

  /** A zeroed buffer is right for a part of the bitmap that no member of s reaches. */
  lemma {:induction false} ZeroBuf(buf: seq<Byte>, off: nat, s: set<nat>)
    requires (forall i :: 0 <= i < |buf| ==> buf[i] == 0) && Below(s, 8 * off)
    ensures BufOk(buf, off, s)
  {
    forall i | 0 <= i < |buf|
      ensures ByteOk(buf[i], off + i, s)
    {
      forall r: nat | r < 8
        ensures !TestBit(0, r)
      {
        ZeroByte(r);
      }
    }
  }

  /** s with the membership of p set to value. */
  ghost function Put(s: set<nat>, p: nat, value: bool): set<nat> { if value then s + {p} else s - {p} }

  /** The bytes below p / 8 do not see bit p. */
  lemma {:induction false} DiskPut(rs: seq<Record>, base: nat, n: nat, s: set<nat>, p: nat, value: bool)
    requires DiskOk(rs, base, n, s) && 8 * n <= p
    ensures DiskOk(rs, base, n, Put(s, p, value))
  {
    forall q: nat | q < n
      ensures DiskByteOk(rs, base, q, Put(s, p, value))
    {
      assert DiskByteOk(rs, base, q, s);
    }
  }

  lemma {:induction false} BytePut(b: Byte, q: nat, r: nat, s: set<nat>, value: bool)
    requires ByteOk(b, q, s) && r < 8
    ensures ByteOk(if value then b | Mask(r) else b & !Mask(r), q, Put(s, 8 * q + r, value))
  {
    hide Mask;
    var c := if value then b | Mask(r) else b & !Mask(r);
    forall t: nat | t < 8
      ensures TestBit(c, t) <==> 8 * q + t in Put(s, 8 * q + r, value)
    {
      BitUpdate(b, r, t);
    }
  }

  lemma {:induction false} OtherByte(b: Byte, q: nat, s: set<nat>, p: nat, value: bool)
    requires ByteOk(b, q, s) && p / 8 != q
    ensures ByteOk(b, q, Put(s, p, value))
  {
    hide TestBit;
    forall r: nat | r < 8
      ensures TestBit(b, r) <==> 8 * q + r in Put(s, p, value)
    {
    }
  }

  /** Updating the bit's byte in the buffer puts p into the buffered part. */
  lemma {:induction false} BufPut(buf: seq<Byte>, off: nat, s: set<nat>, p: nat, value: bool, i: nat, r: nat, b: Byte)
    requires BufOk(buf, off, s) && i < |buf| && r < 8 && p == 8 * (off + i) + r
    requires b == if value then buf[i] | Mask(r) else buf[i] & !Mask(r)
    ensures BufOk(buf[i := b], off, Put(s, p, value))
  {
    hide Mask, ByteOk;
    BytePut(buf[i], off + i, r, s, value);
    forall j | 0 <= j < |buf| && j != i
      ensures ByteOk(buf[j], off + j, Put(s, p, value))
    {
      OtherByte(buf[j], off + j, s, p, value);
    }
  }

  // Where a page's bit lives

  function DivUp(a: nat, b: nat): nat
    requires b > 0
  {
    (a + b - 1) / b
  }

  /** len_dump_bitmap: the bytes of one bitmap of n pages, rounded up to whole blocks. */
  function MapLength(n: nat, ps: nat): nat
    requires ps > 0
  {
    DivUp(DivUp(n, CHAR_BIT), ps) * ps
  }

  /** Number of the buffer-sized chunk with the bit of page p. */
  function Chunk(p: nat, ps: nat): nat
    requires ps > 0
  {
    p / (ps * CHAR_BIT)
  }

  /** Its offset within a bitmap. */
  function ChunkOffset(p: nat, ps: nat): nat
    requires ps > 0
  {
    Product(ps, Chunk(p, ps))
  }

  function Product(a: nat, b: nat): nat { a * b }

  lemma {:induction false} BitPlace(p: nat, ps: nat)
    requires ps > 0
    ensures var within := p % (ps * CHAR_BIT);
      within / 8 < ps && p == 8 * (ChunkOffset(p, ps) + within / 8) + within % 8
  {
    var bits := ps * CHAR_BIT;
    DivMod(p, bits);
    MulAssoc(p / bits, ps, 8);
  }

  /** p lies in the chunk [8 * off, 8 * (off + ps)). */
  lemma {:induction false} ChunkSpan(p: nat, ps: nat)
    requires ps > 0
    ensures 8 * ChunkOffset(p, ps) <= p < 8 * (ChunkOffset(p, ps) + ps)
  {
    BitPlace(p, ps);
  }

  lemma {:induction false} ChunkMono(p: nat, q: nat, ps: nat)
    requires ps > 0 && p <= q
    ensures Chunk(p, ps) <= Chunk(q, ps) && ChunkOffset(p, ps) <= ChunkOffset(q, ps)
  {
    var bits := ps * CHAR_BIT;
    DivMod(p, bits);
    DivMod(q, bits);
    var a, b := p / bits, q / bits;
    MulSucc(b, bits);
    if b < a { MulMono(b + 1, a, bits); }
    MulMono(a, b, ps);
  }

  /** Of two chunks, the earlier ends where or before the later begins. */
  lemma {:induction false} ChunkStep(a: nat, b: nat, ps: nat)
    requires ps > 0 && Product(ps, a) < Product(ps, b)
    ensures a < b && Product(ps, a + 1) == Product(ps, a) + ps <= Product(ps, b)
  {
    NextMultiple(b, a, ps);
    MulSucc(a, ps);
  }

  lemma {:induction false} DivDiv(x: nat, ps: nat)
    requires ps > 0
    ensures x / 8 / ps == x / (ps * CHAR_BIT)
  {
    var q := x / 8 / ps;
    DivMod(x / 8, ps);
    MulAssoc(q, ps, 8);
    DivModUnique(x, ps * CHAR_BIT, q, 8 * (x / 8 % ps) + x % 8);
  }

  lemma {:induction false} DivUpIs(a: nat, b: nat)
    requires a > 0 && b > 0
    ensures DivUp(a, b) == (a - 1) / b + 1
  {
    DivMod(a - 1, b);
    MulSucc((a - 1) / b, b);
    DivModUnique(a + b - 1, b, (a - 1) / b + 1, (a - 1) % b);
  }

  /** The chunk of the last page is the last chunk: chunks tile the bitmap exactly. */
  lemma {:induction false} ChunksTile(n: nat, ps: nat)
    requires n > 0 && ps > 0
    ensures MapLength(n, ps) == ChunkOffset(n - 1, ps) + ps
  {
    DivUpIs(n, 8);
    DivUpIs((n - 1) / 8 + 1, ps);
    DivDiv(n - 1, ps);
    MulSucc((n - 1) / 8 / ps, ps);
  }

  /** The chunk after next is one buffer further. */
  lemma {:induction false} NextChunk(p: nat, ps: nat)
    requires ps > 0
    ensures ChunkOffset(p + ps * CHAR_BIT, ps) == ChunkOffset(p, ps) + ps
  {
    var bits := ps * CHAR_BIT;
    DivMod(p, bits);
    MulSucc(p / bits, bits);
    DivModUnique(p + bits, bits, p / bits + 1, p % bits);
    MulSucc(p / bits, ps);
  }

  // The writer

  /** Both bitmaps hold s in their first n bytes. */
  ghost predicate BothOk(rs: seq<Record>, base: nat, len: nat, n: nat, s: set<nat>) {
    n <= len && DiskOk(rs, base, n, s) && DiskOk(rs, base + len, n, s)
  }

  /**
   * Between calls: the chunks below the one of page last are on disk, that chunk is in the buffer,
   * and no page beyond it has been set.
   */
  ghost predicate Synced(rs: seq<Record>, base: nat, len: nat, buf: seq<Byte>, off: nat, s: set<nat>) {
    BothOk(rs, base, len, off, s) && BufOk(buf, off, s) && Below(s, 8 * (off + |buf|))
  }

  lemma {:induction false} FlushChunk(rs: seq<Record>, base: nat, len: nat, buf: seq<Byte>, off: nat, s: set<nat>)
    requires Synced(rs, base, len, buf, off, s) && off + |buf| <= len
    ensures BothOk(rs + [Record(base + off, buf)] + [Record(base + len + off, buf)], base, len, off + |buf|, s)
    ensures SameOutside(rs, rs + [Record(base + off, buf)] + [Record(base + len + off, buf)], base, base + 2 * len)
  {
    hide DiskOk, BufOk, Below, At;
    var r1, r2 := Record(base + off, buf), Record(base + len + off, buf);
    var mid := rs + [r1];
    DiskGrows(rs, base, off, buf, s);
    AppendOutside(rs, r1);
    DiskKept(rs, mid, base + len, off, s, base + off, base + off + |buf|);
    DiskGrows(mid, base + len, off, buf, s);
    AppendOutside(mid, r2);
    DiskKept(mid, mid + [r2], base, off + |buf|, s, base + len + off, base + len + off + |buf|);
  }

  lemma {:induction false} SameTrans(a: seq<Record>, b: seq<Record>, c: seq<Record>, lo: nat, hi: nat)
    requires SameOutside(a, b, lo, hi) && SameOutside(b, c, lo, hi)
    ensures SameOutside(a, c, lo, hi)
  {
  }

  lemma {:induction false} PutBit(rs: seq<Record>, base: nat, len: nat, buf: seq<Byte>, p: nat, s: set<nat>,
                                  value: bool, b: Byte)
    requires |buf| > 0
    requires Synced(rs, base, len, buf, ChunkOffset(p, |buf|), s)
    requires var within := p % (|buf| * CHAR_BIT);
      within / 8 < |buf| &&
      b == if value then buf[within / 8] | Mask(within % 8) else buf[within / 8] & !Mask(within % 8)
    ensures Synced(rs, base, len, buf[p % (|buf| * CHAR_BIT) / 8 := b], ChunkOffset(p, |buf|), Put(s, p, value))
  {
    hide DiskOk, BufOk, ChunkOffset, Mask;
    var ps := |buf|;
    var within, off := p % (ps * CHAR_BIT), ChunkOffset(p, ps);
    BitPlace(p, ps);
    ChunkSpan(p, ps);
    DiskPut(rs, base, off, s, p, value);
    DiskPut(rs, base + len, off, s, p, value);
    BufPut(buf, off, s, p, value, within / 8, within % 8, b);
  }

  /** One round of the flush loop: the buffer goes to both bitmaps and is cleared. */
  method FlushBuffer(file: Vmcore, base: nat, len: nat, off: nat, buf: array<Byte>, ghost s: set<nat>)
    requires Synced(file.records, base, len, buf[..], off, s) && off + buf.Length <= len
    modifies file, buf
    ensures Synced(file.records, base, len, buf[..], off + buf.Length, s)
    ensures SameOutside(old(file.records), file.records, base, base + 2 * len)
  {
    hide BothOk, BufOk, DiskOk, At;
    FlushChunk(file.records, base, len, buf[..], off, s);
    file.WriteBuffer(base + off, buf[..]);
    file.WriteBuffer(base + len + off, buf[..]);
    forall i | 0 <= i < buf.Length { buf[i] := 0; }
    ZeroBuf(buf[..], off + buf.Length, s);
  }

  method UpdateBit(buf: array<Byte>, pfn: nat, value: bool, ghost rs: seq<Record>, ghost base: nat, ghost len: nat,
                   ghost s: set<nat>)
    requires buf.Length > 0 && Synced(rs, base, len, buf[..], ChunkOffset(pfn, buf.Length), s)
    modifies buf
    ensures Synced(rs, base, len, buf[..], ChunkOffset(pfn, buf.Length), Put(s, pfn, value))
  {
    hide Synced, ChunkOffset, Mask, Put;
    BitPlace(pfn, buf.Length);
    var within := pfn % (buf.Length * CHAR_BIT);
    var byte, bit := within / CHAR_BIT, within % CHAR_BIT;
    ghost var before := buf[..];
    var b := if value then buf[byte] | Mask(bit) else buf[byte] & !Mask(bit);
    PutBit(rs, base, len, before, pfn, s, value, b);
    buf[byte] := b;
    assert buf[..] == before[byte := b];
  }

  /**
   * Chunks before that of pfn reach the disk, in both bitmaps, and the bit of pfn changes in the buffer; nothing
   * outside the two bitmaps is written.
   */
  method SetDumpBitmap(file: Vmcore, base: nat, len: nat, ps: nat, last: nat, pfn: nat, value: bool,
                       buf: array<Byte>, ghost s: set<nat>)
    requires ps > 0 && buf.Length == ps && last <= pfn && ChunkOffset(pfn, ps) <= len
    requires Synced(file.records, base, len, buf[..], ChunkOffset(last, ps), s)
    modifies file, buf
    ensures Synced(file.records, base, len, buf[..], ChunkOffset(pfn, ps), Put(s, pfn, value))
    ensures SameOutside(old(file.records), file.records, base, base + 2 * len)
  {
    hide Synced, SameOutside, Product, Chunk, Put;
    var oldOffset := ChunkOffset(last, ps);
    var newOffset := ChunkOffset(pfn, ps);
    ChunkMono(last, pfn, ps);
    ghost var c := Chunk(last, ps);
    SameRefl(file.records, base, base + 2 * len);
    while oldOffset < newOffset
      invariant oldOffset == Product(ps, c) && oldOffset <= newOffset
      invariant Synced(file.records, base, len, buf[..], oldOffset, s)
      invariant SameOutside(old(file.records), file.records, base, base + 2 * len)
    {
      ChunkStep(c, Chunk(pfn, ps), ps);
      ghost var rs := file.records;
      FlushBuffer(file, base, len, oldOffset, buf, s);
      SameTrans(old(file.records), rs, file.records, base, base + 2 * len);
      oldOffset := oldOffset + ps;
      c := c + 1;
    }
    UpdateBit(buf, pfn, value, file.records, base, len, s);
  }

  lemma {:induction false} SameRefl(rs: seq<Record>, lo: nat, hi: nat)
    ensures SameOutside(rs, rs, lo, hi)
  {
  }

  ghost function Pfns(pages: seq<Page>): set<nat> { set i | 0 <= i < |pages| :: pages[i].pfn }

  lemma {:induction false} PfnsAppend(pages: seq<Page>, page: Page)
    ensures Pfns(pages + [page]) == Put(Pfns(pages), page.pfn, true)
  {
    var all := pages + [page];
    assert all[|pages|] == page;
    forall p | p in Pfns(pages)
      ensures p in Pfns(all)
    {
      var i :| 0 <= i < |pages| && pages[i].pfn == p;
      assert all[i].pfn == p;
    }
  }

  /** Bit p of the bitmap at base is set. */
  ghost predicate BitOn(rs: seq<Record>, base: nat, p: nat) {
    At(rs, base + p / 8).Some? && TestBit(At(rs, base + p / 8).value, p % 8)
  }

  /** The bitmap at base is that of guest memory: len bytes, bit p set iff page p lies in a guest block. */
  ghost predicate Exact(rs: seq<Record>, base: nat, len: nat, blocks: seq<Block>, ps: nat) {
    && (forall q: nat :: base <= q < base + len ==> At(rs, q).Some?)
    && (forall p: nat :: p < 8 * len ==> (BitOn(rs, base, p) <==> InSome(blocks, p, ps)))
  }

  lemma {:induction false} DiskExact(rs: seq<Record>, base: nat, len: nat, blocks: seq<Block>, ps: nat)
    requires MemoryOk(blocks, ps) && DiskOk(rs, base, len, Pfns(AllPages(blocks, ps)))
    ensures Exact(rs, base, len, blocks, ps)
  {
    hide TestBit, AllPages, InSome, At;
    var pages := AllPages(blocks, ps);
    AllPagesOk(blocks, ps);
    forall q: nat | base <= q < base + len
      ensures At(rs, q).Some?
    {
      assert DiskByteOk(rs, base, q - base, Pfns(pages));
    }
    forall p: nat | p < 8 * len
      ensures BitOn(rs, base, p) <==> InSome(blocks, p, ps)
    {
      assert DiskByteOk(rs, base, p / 8, Pfns(pages));
      assert 8 * (p / 8) + p % 8 == p;
      if InSome(blocks, p, ps) {
        var at := PageFound(blocks, ps, p);
        assert pages[at].pfn in Pfns(pages);
      }
    }
  }

  /** The chunk of any visited page fits in the bitmap, and that of the last page ends it. */
  lemma {:induction false} PagesFit(blocks: seq<Block>, ps: nat, k: nat)
    requires MemoryOk(blocks, ps) && k < |AllPages(blocks, ps)|
    ensures var pages := AllPages(blocks, ps);
      && ChunkOffset(pages[k].pfn, ps) + ps <= MapLength(blocks[|blocks| - 1].end / ps, ps)
      && (k == |pages| - 1 ==> ChunkOffset(pages[k].pfn, ps) + ps == MapLength(blocks[|blocks| - 1].end / ps, ps))
  {
    hide AllPages, ChunkOffset, MapLength, InSome;
    AllPagesOk(blocks, ps);
    LastPage(blocks, ps);
    var pages := AllPages(blocks, ps);
    var last := |pages| - 1;
    ChunksTile(pages[last].pfn + 1, ps);
    assert pages[k].pfn <= pages[last].pfn;
    ChunkMono(pages[k].pfn, pages[last].pfn, ps);
  }

  /** last_pfn: 0 before the first page. */
  ghost function LastPfn(done: seq<Page>): nat { if done == [] then 0 else done[|done| - 1].pfn }

  lemma {:induction false} Ascends(blocks: seq<Block>, ps: nat, k: nat)
    requires MemoryOk(blocks, ps) && k < |AllPages(blocks, ps)|
    ensures LastPfn(AllPages(blocks, ps)[..k]) <= AllPages(blocks, ps)[k].pfn
  {
    hide AllPages, InSome;
    AllPagesOk(blocks, ps);
  }

  lemma {:induction false} Prepared(rs: seq<Record>, base: nat, len: nat, buf: seq<Byte>)
    requires |buf| > 0 && forall i :: 0 <= i < |buf| ==> buf[i] == 0
    ensures Synced(rs, base, len, buf, ChunkOffset(0, |buf|), Pfns([]))
  {
    BitPlace(0, |buf|);
    ZeroBuf(buf, 0, {});
  }

  /** Setting the bit one buffer beyond the last page to 0 flushes the last chunk. */
  lemma {:induction false} LastChunk(rs: seq<Record>, base: nat, blocks: seq<Block>, ps: nat, buf: seq<Byte>, last: nat)
    requires MemoryOk(blocks, ps) && last == LastPfn(AllPages(blocks, ps))
    requires var len := MapLength(blocks[|blocks| - 1].end / ps, ps);
      var end := last + ps * CHAR_BIT;
      Synced(rs, base, len, buf, ChunkOffset(end, ps), Put(Pfns(AllPages(blocks, ps)), end, false))
    ensures var len := MapLength(blocks[|blocks| - 1].end / ps, ps);
      Exact(rs, base, len, blocks, ps) && Exact(rs, base + len, len, blocks, ps)
  {
    hide AllPages, ChunkOffset, MapLength, DiskOk, BufOk, Exact, Pfns;
    var pages := AllPages(blocks, ps);
    var len, end := MapLength(blocks[|blocks| - 1].end / ps, ps), last + ps * CHAR_BIT;
    LastPage(blocks, ps);
    PagesFit(blocks, ps, |pages| - 1);
    NextChunk(last, ps);
    Beyond(blocks, ps, end);
    assert Put(Pfns(pages), end, false) == Pfns(pages);
    DiskExact(rs, base, len, blocks, ps);
    DiskExact(rs, base + len, len, blocks, ps);
  }

  lemma {:induction false} Beyond(blocks: seq<Block>, ps: nat, p: nat)
    requires MemoryOk(blocks, ps) && p > LastPfn(AllPages(blocks, ps))
    ensures p !in Pfns(AllPages(blocks, ps))
  {
    hide AllPages, InSome;
    AllPagesOk(blocks, ps);
  }

  /**
   * Both bitmaps become those of guest memory, byte for byte over the whole of their length, and nothing else in
   * the file changes.
   */
  method WriteDumpBitmap(file: Vmcore, blocks: seq<Block>, ps: nat, base: nat, len: nat) returns (numDumpable: nat)
    requires MemoryOk(blocks, ps) && len == MapLength(blocks[|blocks| - 1].end / ps, ps)
    modifies file
    ensures numDumpable == |AllPages(blocks, ps)|
    ensures Exact(file.records, base, len, blocks, ps) && Exact(file.records, base + len, len, blocks, ps)
    ensures SameOutside(old(file.records), file.records, base, base + 2 * len)
  {
    hide Synced, SameOutside, ChunkOffset, MapLength, AllPages, Pfns, Exact, Progress, Remaining, Put;
    var buf := new Byte[ps](_ => 0);
    var last := 0;
    numDumpable := 0;
    ghost var done: seq<Page> := [];
    Prepared(file.records, base, len, buf[..]);
    SameRefl(file.records, base, base + 2 * len);
    var more, c, page := FirstPage(blocks, ps);
    Bounded(blocks, ps, done, more, c, page);
    while more
      invariant Progress(blocks, ps, done, more, c, page) && numDumpable == |done| && last == LastPfn(done)
      invariant numDumpable <= |AllPages(blocks, ps)|
      invariant !more ==> done == AllPages(blocks, ps)
      invariant Synced(file.records, base, len, buf[..], ChunkOffset(last, ps), Pfns(done))
      invariant SameOutside(old(file.records), file.records, base, base + 2 * len)
      decreases |AllPages(blocks, ps)| - numDumpable + if more then 1 else 0
    {
      Current(blocks, ps, done, c, page);
      Ascends(blocks, ps, |done|);
      PagesFit(blocks, ps, |done|);
      ghost var rs := file.records;
      SetDumpBitmap(file, base, len, ps, last, page.pfn, true, buf, Pfns(done));
      SameTrans(old(file.records), rs, file.records, base, base + 2 * len);
      PfnsAppend(done, page);
      last := page.pfn;
      numDumpable := numDumpable + 1;
      ghost var before := done;
      done := done + [page];
      more, c, page := NextPage(blocks, ps, before, c, page);
      Bounded(blocks, ps, done, more, c, page);
    }
    LastPage(blocks, ps);
    PagesFit(blocks, ps, |done| - 1);
    if numDumpable > 0 {
      NextChunk(last, ps);
      ghost var rs := file.records;
      SetDumpBitmap(file, base, len, ps, last, last + ps * CHAR_BIT, false, buf, Pfns(done));
      SameTrans(old(file.records), rs, file.records, base, base + 2 * len);
      LastChunk(file.records, base, blocks, ps, buf[..], last);
    }
  }
}
