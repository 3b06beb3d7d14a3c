/** A whole kdump file: where its regions lie, and that it decodes to guest memory. */
module Kdump {

  import opened Arith
  import opened Common
  import opened DumpFile
  import opened GuestMemory
  import opened GuestPages
  import opened KdumpBitmap
  import opened KdumpPages

  // create_header64 computes both offsets in 32-bit arithmetic.

  /** offset_dump_bitmap, for a sub header of sub blocks of ps bytes. */
  function OffsetBitmap(sub: nat, ps: nat): nat { (1 + sub) * ps % TWO32 }

  /** bitmap_blocks: blocks of both bitmaps, truncated to 32 bits. */
  function BitmapBlocks(len: nat, ps: nat): nat
    requires ps > 0
  {
    DivUp(len, ps) * 2 % TWO32
  }

  /** offset_page. */
  function OffsetPage(sub: nat, len: nat, ps: nat): nat
    requires ps > 0
  {
    (1 + sub + BitmapBlocks(len, ps)) % TWO32 * ps % TWO32
  }

  lemma {:induction false} ModMul(a: nat, ps: nat)
    ensures a % TWO32 * ps % TWO32 == a * ps % TWO32
  {
    DivMod(a, TWO32);
    var q, r := a / TWO32, a % TWO32;
    DivMod(r * ps, TWO32);
    var q2, r2 := r * ps / TWO32, r * ps % TWO32;
    assert a * ps == (q * TWO32) * ps + r * ps;
    assert (q * TWO32) * ps == (q * ps) * TWO32;
    DivModUnique(a * ps, TWO32, q * ps + q2, r2);
  }

  lemma {:induction false} ModAdd(a: nat, b: nat)
    ensures (a + b % TWO32) % TWO32 == (a + b) % TWO32
  {
  }

  lemma {:induction false} DivUpExact(q: nat, ps: nat)
    requires ps > 0
    ensures DivUp(q * ps, ps) == q
  {
    DivModUnique(q * ps + ps - 1, ps, q, ps - 1);
  }

  /** offset_page is the end of the second bitmap, modulo 2^32. */
  lemma {:induction false} OffsetPageIs(sub: nat, n: nat, ps: nat)
    requires ps > 0
    ensures OffsetPage(sub, MapLength(n, ps), ps) == ((1 + sub) * ps + 2 * MapLength(n, ps)) % TWO32
  {
    var q := DivUp(DivUp(n, CHAR_BIT), ps);
    DivUpExact(q, ps);
    ModAdd(1 + sub, q * 2);
    ModMul(1 + sub + q * 2, ps);
    assert (1 + sub + q * 2) * ps == (1 + sub) * ps + 2 * (q * ps);
  }

  /** The page area starts right after the second bitmap exactly when that place is below 4 GiB. */
  lemma {:induction false} PageAreaPlace(sub: nat, n: nat, ps: nat)
    requires ps > 0
    ensures OffsetPage(sub, MapLength(n, ps), ps) == OffsetBitmap(sub, ps) + 2 * MapLength(n, ps)
      <==> OffsetBitmap(sub, ps) + 2 * MapLength(n, ps) < TWO32
  {
    hide MapLength, OffsetPage;
    OffsetPageIs(sub, n, ps);
    DivMod((1 + sub) * ps, TWO32);
    var q, r, len := (1 + sub) * ps / TWO32, (1 + sub) * ps % TWO32, MapLength(n, ps);
    if r + 2 * len < TWO32 {
      DivModUnique((1 + sub) * ps + 2 * len, TWO32, q, r + 2 * len);
    }
  }

  /** With 64 TiB in pages of 4 KiB the page area wraps around onto the first bitmap. */
  lemma {:induction false} PageAreaWraps()
    ensures OffsetPage(1, MapLength(0x4_0000_0000, 4096), 4096) == OffsetBitmap(1, 4096)
    ensures MapLength(0x4_0000_0000, 4096) == 0x8000_0000
  {
    DivUpExact(0x8000_0000, 8);
    DivUpExact(0x8_0000, 4096);
    OffsetPageIs(1, 0x4_0000_0000, 4096);
  }

  lemma {:induction false} ExactKept(a: seq<Record>, b: seq<Record>, base: nat, len: nat, blocks: seq<Block>, ps: nat,
                                     n: nat)
    requires Exact(a, base, len, blocks, ps) && SameBelow(a, b, n) && base + len <= n
    ensures Exact(b, base, len, blocks, ps)
  {
    hide InSome, At, TestBit;
    forall p: nat | p < 8 * len
      ensures BitOn(b, base, p) <==> InSome(blocks, p, ps)
    {
      assert BitOn(a, base, p) <==> InSome(blocks, p, ps);
    }
  }

  // A reader finds page p through the bitmap: it counts the bits set below bit p.

  ghost function BitsBelow(rs: seq<Record>, base: nat, p: nat): set<nat> {
    set q: nat | q < p && BitOn(rs, base, q)
  }

  /** Page p as the reader recovers it. */
  ghost function Recovered(rs: seq<Record>, base: nat, offset: nat, codec: Codec, p: nat): Page {
    Page(p, ReadPage(rs, offset, codec, |BitsBelow(rs, base, p)|))
  }

  lemma {:induction false} PrefixCount(pages: seq<Page>, k: nat)
    requires k <= |pages| && forall i, j :: 0 <= i < j < |pages| ==> pages[i].pfn < pages[j].pfn
    ensures |Pfns(pages[..k])| == k
  {
    if k == 0 {
      assert Pfns(pages[..0]) == {};
    } else {
      PrefixCount(pages, k - 1);
      PfnsAppend(pages[..k - 1], pages[k - 1]);
      assert pages[..k - 1] + [pages[k - 1]] == pages[..k];
      assert pages[k - 1].pfn !in Pfns(pages[..k - 1]);
    }
  }

  /** The bits below that of page k are those of the k pages before it. */
  lemma {:induction false} BelowIsPrefix(rs: seq<Record>, base: nat, len: nat, blocks: seq<Block>, ps: nat, k: nat)
    requires MemoryOk(blocks, ps) && Exact(rs, base, len, blocks, ps) && k < |AllPages(blocks, ps)|
    requires AllPages(blocks, ps)[k].pfn < 8 * len
    ensures |BitsBelow(rs, base, AllPages(blocks, ps)[k].pfn)| == k
  {
    hide AllPages, InSome, BitOn, Holds;
    var pages := AllPages(blocks, ps);
    var p := pages[k].pfn;
    AllPagesOk(blocks, ps);
    forall q: nat | q < p && BitOn(rs, base, q)
      ensures q in Pfns(pages[..k])
    {
      assert InSome(blocks, q, ps);
      var at := PageFound(blocks, ps, q);
      EarlierPage(pages, at, k);
    }
    forall q | q in Pfns(pages[..k])
      ensures q < p && BitOn(rs, base, q)
    {
      var i :| 0 <= i < k && pages[..k][i].pfn == q;
      assert pages[i].pfn == q && InSome(blocks, pages[i].pfn, ps);
    }
    assert BitsBelow(rs, base, p) == Pfns(pages[..k]);
    PrefixCount(pages, k);
  }

  lemma {:induction false} EarlierPage(pages: seq<Page>, at: nat, k: nat)
    requires at < |pages| && k < |pages| && forall i, j :: 0 <= i < j < |pages| ==> pages[i].pfn < pages[j].pfn
    requires pages[at].pfn < pages[k].pfn
    ensures at < k && pages[at].pfn in Pfns(pages[..k])
  {
    if at >= k { assert false; }
    assert pages[..k][at] == pages[at];
  }

  /** Every page with a set bit is recovered, and holds what guest memory has there. */
  lemma {:induction false} PageRecovered(rs: seq<Record>, base: nat, len: nat, offset: nat, codec: Codec,
                                         blocks: seq<Block>, ps: nat, p: nat)
    requires MemoryOk(blocks, ps) && Exact(rs, base, len, blocks, ps) && p < 8 * len
    requires Decodes(rs, offset, codec, AllPages(blocks, ps)) && BitOn(rs, base, p)
    ensures Holds(blocks, Recovered(rs, base, offset, codec, p), ps)
  {
    hide AllPages, InSome, BitOn, Holds, ReadPage, BitsBelow;
    var pages := AllPages(blocks, ps);
    assert InSome(blocks, p, ps);
    var k := PageFound(blocks, ps, p);
    BelowIsPrefix(rs, base, len, blocks, ps, k);
    assert ReadPage(rs, offset, codec, k) == pages[k].data;
    assert Recovered(rs, base, offset, codec, p) == pages[k];
  }

  /** The file decodes to guest memory through the bitmap at base. */
  ghost predicate DecodesTo(rs: seq<Record>, base: nat, len: nat, offset: nat, codec: Codec, blocks: seq<Block>,
                            ps: nat)
  {
    && Exact(rs, base, len, blocks, ps)
    && forall p: nat :: p < 8 * len && BitOn(rs, base, p) ==> Holds(blocks, Recovered(rs, base, offset, codec, p), ps)
  }

  lemma {:induction false} FileDecodes(rs: seq<Record>, base: nat, len: nat, offset: nat, codec: Codec,
                                       blocks: seq<Block>, ps: nat)
    requires MemoryOk(blocks, ps) && Exact(rs, base, len, blocks, ps)
    requires Decodes(rs, offset, codec, AllPages(blocks, ps))
    ensures DecodesTo(rs, base, len, offset, codec, blocks, ps)
  {
    hide Holds, Recovered, BitOn, Exact, Decodes;
    forall p: nat | p < 8 * len && BitOn(rs, base, p)
      ensures Holds(blocks, Recovered(rs, base, offset, codec, p), ps)
    {
      PageRecovered(rs, base, len, offset, codec, blocks, ps, p);
    }
  }

  /**
   * create_kdump_vmcore after the headers. Descriptors always lead back to their pages; when both bitmaps end
   * below 4 GiB the bitmaps survive and the whole file decodes to guest memory through either of them.
   */
  method CreateKdump(file: Vmcore, blocks: seq<Block>, ps: nat, codec: Codec, sub: nat)
    returns (len: nat, offsetBitmap: nat, offsetPage: nat)
    requires MemoryOk(blocks, ps) && CodecOk(codec) && DESC_SIZE <= 4 * ps && ps < TWO32
    requires TWO32 + DESC_SIZE * |AllPages(blocks, ps)| + (|AllPages(blocks, ps)| + 1) * ps < TWO64
    modifies file
    ensures len == MapLength(blocks[|blocks| - 1].end / ps, ps)
    ensures offsetBitmap == OffsetBitmap(sub, ps) && offsetPage == OffsetPage(sub, len, ps)
    ensures Decodes(file.records, offsetPage, codec, AllPages(blocks, ps))
    ensures ZerosShared(file.records, offsetPage, AllPages(blocks, ps))
    ensures offsetBitmap + 2 * len < TWO32 ==>
      && offsetPage == offsetBitmap + 2 * len
      && DecodesTo(file.records, offsetBitmap, len, offsetPage, codec, blocks, ps)
      && DecodesTo(file.records, offsetBitmap + len, len, offsetPage, codec, blocks, ps)
  {
    hide AllPages, Exact, Decodes, ZerosShared, DecodesTo, MapLength, SameBelow, SameOutside, CodecOk;
    len := MapLength(blocks[|blocks| - 1].end / ps, ps);
    offsetBitmap := OffsetBitmap(sub, ps);
    offsetPage := OffsetPage(sub, len, ps);
    PageAreaPlace(sub, blocks[|blocks| - 1].end / ps, ps);
    OffsetSmall(sub, len, ps);
    var numDumpable := WriteDumpBitmap(file, blocks, ps, offsetBitmap, len);
    ghost var rs := file.records;
    var _ := WriteDumpPages(file, blocks, ps, codec, offsetPage, numDumpable);
    if offsetBitmap + 2 * len < TWO32 {
      ExactKept(rs, file.records, offsetBitmap, len, blocks, ps, offsetPage);
      ExactKept(rs, file.records, offsetBitmap + len, len, blocks, ps, offsetPage);
      FileDecodes(file.records, offsetBitmap, len, offsetPage, codec, blocks, ps);
      FileDecodes(file.records, offsetBitmap + len, len, offsetPage, codec, blocks, ps);
    }
  }

  lemma {:induction false} OffsetSmall(sub: nat, len: nat, ps: nat)
    requires ps > 0
    ensures OffsetPage(sub, len, ps) < TWO32
  {
  }
}
