/** Guest memory page by page, in the order in which the kdump writer visits it. */
module GuestPages {

  import opened Arith
  import opened Common
  import opened GuestMemory

  datatype Page = Page(pfn: nat, data: seq<Byte>)

  /** Blocks begin and end at page boundaries. */
  ghost predicate Aligned(blocks: seq<Block>, ps: nat)
    requires ps > 0
  {
    forall i :: 0 <= i < |blocks| ==> blocks[i].start % ps == 0 && blocks[i].end % ps == 0
  }

  /** The memory the writer accepts: at least one block, ascending, disjoint, page aligned. */
  ghost predicate MemoryOk(blocks: seq<Block>, ps: nat) {
    ps > 0 && blocks != [] && BlocksOk(blocks) && Aligned(blocks, ps)
  }

  /** Contiguous bytes cut into pages, numbered from pfn. */
  ghost function Cut(host: seq<Byte>, pfn: nat, ps: nat): seq<Page>
    requires ps > 0
    decreases |host|
  {
    if |host| < ps then [] else [Page(pfn, host[..ps])] + Cut(host[ps..], pfn + 1, ps)
  }

  ghost function BlockPages(b: Block, ps: nat): seq<Page>
    requires ps > 0
  {
    Cut(b.host, b.start / ps, ps)
  }

  /** All pages of guest memory. */
  ghost function AllPages(blocks: seq<Block>, ps: nat): seq<Page>
    requires ps > 0
  {
    if blocks == [] then [] else BlockPages(blocks[0], ps) + AllPages(blocks[1..], ps)
  }

  /** The k-th page of a cut. */
  lemma {:induction false} CutAt(host: seq<Byte>, pfn: nat, ps: nat, k: nat)
    requires ps > 0 && k * ps + ps <= |host|
    ensures k < |Cut(host, pfn, ps)| && Cut(host, pfn, ps)[k] == Page(pfn + k, host[k * ps..k * ps + ps])
    decreases k
  {
    if k == 0 {
      assert 0 * ps == 0;
    } else {
      MulSucc(k - 1, ps);
      CutAt(host[ps..], pfn + 1, ps, k - 1);
      var m := (k - 1) * ps;
      assert m >= 0;
      assert host[ps..][m..m + ps] == host[k * ps..k * ps + ps];
    }
  }

  lemma {:induction false} CutLength(host: seq<Byte>, pfn: nat, ps: nat, n: nat)
    requires ps > 0 && |host| == n * ps
    ensures |Cut(host, pfn, ps)| == n
    decreases n
  {
    if n > 0 {
      MulSucc(n - 1, ps);
      CutLength(host[ps..], pfn + 1, ps, n - 1);
    }
  }

  /** A multiple of ps is its quotient times ps. */
  lemma {:induction false} Multiple(x: nat, ps: nat)
    requires ps > 0 && x % ps == 0
    ensures x == x / ps * ps
  {
    DivMod(x, ps);
  }

  /** Order of products is order of factors. */
  lemma {:induction false} MulLess(a: nat, b: nat, ps: nat)
    requires ps > 0
    ensures a < b <==> a * ps < b * ps
  {
    if a < b { MulMono(a + 1, b, ps); MulSucc(a, ps); }
    if b <= a { MulMono(b, a, ps); }
  }

  /** An aligned block is [a * ps, e * ps) with a < e. */
  lemma {:induction false} BlockSpan(b: Block, ps: nat) returns (a: nat, e: nat)
    requires ps > 0 && b.start % ps == 0 && b.end % ps == 0
    ensures a == b.start / ps && e == b.end / ps && a < e
    ensures b.start == a * ps && b.end == e * ps && |b.host| == (e - a) * ps
  {
    a, e := b.start / ps, b.end / ps;
    Multiple(b.start, ps);
    Multiple(b.end, ps);
    MulLess(a, e, ps);
    assert (e - a) * ps == e * ps - a * ps;
  }

  /** It holds the pages a, ..., e - 1 ... */
  lemma {:induction false} BlockPagesLength(b: Block, ps: nat)
    requires ps > 0 && b.start % ps == 0 && b.end % ps == 0
    ensures |BlockPages(b, ps)| == b.end / ps - b.start / ps > 0
  {
    hide Cut;
    var a, e := BlockSpan(b, ps);
    CutLength(b.host, a, ps, e - a);
  }

  /** ... with its own bytes. */
  lemma {:induction false} BlockPagesAt(b: Block, ps: nat, k: nat)
    requires ps > 0 && b.start % ps == 0 && b.end % ps == 0 && k < |BlockPages(b, ps)|
    ensures k * ps + ps <= |b.host| && BlockPages(b, ps)[k] == Page(b.start / ps + k, b.host[k * ps..k * ps + ps])
  {
    hide Cut;
    var a, e := BlockSpan(b, ps);
    BlockPagesLength(b, ps);
    MulMono(k + 1, e - a, ps);
    MulSucc(k, ps);
    CutAt(b.host, a, ps, k);
  }

  /** Pages are visited in ascending order, each between the two ends of its block. */
  ghost predicate PagesOk(pages: seq<Page>, blocks: seq<Block>, ps: nat)
    requires ps > 0
  {
    && (forall i, j :: 0 <= i < j < |pages| ==> pages[i].pfn < pages[j].pfn)
    && (forall i :: 0 <= i < |pages| ==> |pages[i].data| == ps && InSome(blocks, pages[i].pfn, ps))
  }

  ghost predicate In(b: Block, pfn: nat, ps: nat) { b.start <= pfn * ps < b.end }

  /** Page pfn lies in some guest block. */
  ghost predicate InSome(blocks: seq<Block>, pfn: nat, ps: nat) {
    exists i :: 0 <= i < |blocks| && In(blocks[i], pfn, ps)
  }

  lemma {:induction false} BlockPageIn(b: Block, ps: nat, k: nat)
    requires ps > 0 && b.start % ps == 0 && b.end % ps == 0 && k < |BlockPages(b, ps)|
    ensures BlockPages(b, ps)[k].pfn == b.start / ps + k && |BlockPages(b, ps)[k].data| == ps
    ensures In(b, BlockPages(b, ps)[k].pfn, ps)
  {
    hide Cut, BlockPages;
    var a, e := BlockSpan(b, ps);
    BlockPagesLength(b, ps);
    BlockPagesAt(b, ps, k);
    MulMono(a, a + k, ps);
    MulLess(a + k, e, ps);
  }

  lemma {:induction false} TailOk(blocks: seq<Block>, ps: nat)
    requires ps > 0 && blocks != [] && BlocksOk(blocks) && Aligned(blocks, ps)
    ensures BlocksOk(blocks[1..]) && Aligned(blocks[1..], ps)
  {
  }

  /** A page of a later block comes after every page of the first one. */
  lemma {:induction false} LaterBlock(blocks: seq<Block>, p: nat, q: nat, ps: nat)
    requires ps > 0 && blocks != [] && BlocksOk(blocks)
    requires In(blocks[0], p, ps) && InSome(blocks[1..], q, ps)
    ensures p < q && InSome(blocks, q, ps)
  {
    var i :| 0 <= i < |blocks[1..]| && In(blocks[1..][i], q, ps);
    assert In(blocks[i + 1], q, ps);
    MulLess(p, q, ps);
  }

  /** The visited pages ascend strictly and are guest pages. */
  lemma {:induction false} AllPagesOk(blocks: seq<Block>, ps: nat)
    requires ps > 0 && BlocksOk(blocks) && Aligned(blocks, ps)
    ensures PagesOk(AllPages(blocks, ps), blocks, ps)
  {
    if blocks != [] {
      hide Cut, BlockPages, In, InSome;
      var b, rest := blocks[0], blocks[1..];
      var front, back := BlockPages(b, ps), AllPages(rest, ps);
      TailOk(blocks, ps);
      AllPagesOk(rest, ps);
      forall i | 0 <= i < |front|
        ensures front[i].pfn == b.start / ps + i && |front[i].data| == ps
        ensures In(b, front[i].pfn, ps) && InSome(blocks, front[i].pfn, ps)
      {
        BlockPageIn(b, ps, i);
        FirstIn(blocks, front[i].pfn, ps);
      }
      forall i, j | 0 <= i < |front| && 0 <= j < |back|
        ensures front[i].pfn < back[j].pfn && InSome(blocks, back[j].pfn, ps)
      {
        LaterBlock(blocks, front[i].pfn, back[j].pfn, ps);
      }
      BlockPagesLength(b, ps);
      JoinOk(front, back, blocks, ps);
    }
  }

  lemma {:induction false} FirstIn(blocks: seq<Block>, p: nat, ps: nat)
    requires blocks != [] && In(blocks[0], p, ps)
    ensures InSome(blocks, p, ps)
  {
  }

  lemma {:induction false} JoinOk(front: seq<Page>, back: seq<Page>, blocks: seq<Block>, ps: nat)
    requires ps > 0
    requires forall i, j :: 0 <= i < j < |front| ==> front[i].pfn < front[j].pfn
    requires forall i, j :: 0 <= i < j < |back| ==> back[i].pfn < back[j].pfn
    requires forall i, j :: 0 <= i < |front| && 0 <= j < |back| ==> front[i].pfn < back[j].pfn
    requires forall i :: 0 <= i < |front| ==> |front[i].data| == ps && InSome(blocks, front[i].pfn, ps)
    requires forall i :: 0 <= i < |back| ==> |back[i].data| == ps && InSome(blocks, back[i].pfn, ps)
    ensures PagesOk(front + back, blocks, ps)
  {
    hide InSome;
  }

  /** The k-th page of block i, found in the whole list. */
  lemma {:induction false} PageOfBlock(blocks: seq<Block>, ps: nat, i: nat, k: nat) returns (at: nat)
    requires ps > 0 && Aligned(blocks, ps) && i < |blocks| && k < |BlockPages(blocks[i], ps)|
    ensures at < |AllPages(blocks, ps)| && AllPages(blocks, ps)[at] == BlockPages(blocks[i], ps)[k]
    decreases i
  {
    hide Cut, BlockPages;
    if i == 0 {
      at := k;
    } else {
      var r := PageOfBlock(blocks[1..], ps, i - 1, k);
      at := |BlockPages(blocks[0], ps)| + r;
    }
  }

  /** Page pfn of a block sits at index pfn minus the block's first page. */
  lemma {:induction false} PageInBlock(b: Block, ps: nat, pfn: nat) returns (k: nat)
    requires ps > 0 && b.start % ps == 0 && b.end % ps == 0 && In(b, pfn, ps)
    ensures k < |BlockPages(b, ps)| && k * ps == pfn * ps - b.start && k * ps + ps <= |b.host|
    ensures BlockPages(b, ps)[k] == Page(pfn, b.host[k * ps..k * ps + ps])
  {
    hide Cut, BlockPages;
    var a, e := BlockSpan(b, ps);
    MulLess(pfn, a, ps);
    MulLess(pfn, e, ps);
    k := pfn - a;
    assert k * ps == pfn * ps - a * ps;
    BlockPagesLength(b, ps);
    BlockPagesAt(b, ps, k);
  }

  /** The bytes of a page are those guest memory has from pfn * ps on. */
  ghost predicate Holds(blocks: seq<Block>, page: Page, ps: nat) {
    |page.data| == ps && forall j :: 0 <= j < ps ==> GuestByte(blocks, page.pfn * ps + j) == Some(page.data[j])
  }

  lemma {:induction false} SliceHolds(blocks: seq<Block>, i: nat, ps: nat, pfn: nat, at: nat)
    requires BlocksOk(blocks) && i < |blocks| && at == pfn * ps - blocks[i].start
    requires at + ps <= |blocks[i].host|
    ensures Holds(blocks, Page(pfn, blocks[i].host[at..at + ps]), ps)
  {
    hide GuestByte;
    var base, part := pfn * ps, blocks[i].host[at..at + ps];
    forall j | 0 <= j < ps
      ensures GuestByte(blocks, base + j) == Some(part[j])
    {
      GuestByteIs(blocks, i, base + j);
    }
  }

  /** Every page number that lies in a block is visited, with the bytes guest memory has there. */
  lemma {:induction false} PageFound(blocks: seq<Block>, ps: nat, pfn: nat) returns (at: nat)
    requires MemoryOk(blocks, ps) && InSome(blocks, pfn, ps)
    ensures at < |AllPages(blocks, ps)| && AllPages(blocks, ps)[at].pfn == pfn
    ensures Holds(blocks, AllPages(blocks, ps)[at], ps)
  {
    hide Cut, BlockPages, AllPages, Holds;
    var i :| 0 <= i < |blocks| && In(blocks[i], pfn, ps);
    var k := PageInBlock(blocks[i], ps, pfn);
    at := PageOfBlock(blocks, ps, i, k);
    SliceHolds(blocks, i, ps, pfn, k * ps);
  }

  /** The last page visited is the one right before the end of the last block. */
  lemma {:induction false} LastPage(blocks: seq<Block>, ps: nat)
    requires ps > 0 && blocks != [] && Aligned(blocks, ps)
    ensures AllPages(blocks, ps) != []
    ensures AllPages(blocks, ps)[|AllPages(blocks, ps)| - 1].pfn + 1 == blocks[|blocks| - 1].end / ps
  {
    hide Cut, BlockPages;
    var b := blocks[0];
    BlockPagesLength(b, ps);
    if |blocks| == 1 {
      assert AllPages(blocks[1..], ps) == [];
      BlockPageIn(b, ps, |BlockPages(b, ps)| - 1);
    } else {
      LastPage(blocks[1..], ps);
    }
  }

  // get_next_page

  /** *blockptr and *pfnptr: NULL before the first page, then the current page. */
  datatype Cursor = Start | On(block: nat, pfn: nat) | Done

  ghost predicate CursorOk(blocks: seq<Block>, ps: nat, c: Cursor) {
    c.On? ==> c.block < |blocks| && blocks[c.block].start <= c.pfn * ps && c.pfn * ps + ps <= blocks[c.block].end
  }

  /** The pages still to be visited. */
  ghost function Remaining(blocks: seq<Block>, ps: nat, c: Cursor): seq<Page>
    requires ps > 0 && CursorOk(blocks, ps, c)
  {
    match c
    case Start => AllPages(blocks, ps)
    case On(i, pfn) =>
      var b := blocks[i];
      Cut(b.host[pfn * ps + ps - b.start..], pfn + 1, ps) + AllPages(blocks[i + 1..], ps)
    case Done => []
  }

  lemma {:induction false} EnterBlock(blocks: seq<Block>, ps: nat, i: nat)
    requires MemoryOk(blocks, ps) && i < |blocks|
    ensures var pfn := blocks[i].start / ps;
      && CursorOk(blocks, ps, On(i, pfn))
      && ps <= |blocks[i].host|
      && AllPages(blocks[i..], ps) == [Page(pfn, blocks[i].host[..ps])] + Remaining(blocks, ps, On(i, pfn))
  {
    var b := blocks[i];
    var a, e := BlockSpan(b, ps);
    MulMono(a + 1, e, ps);
    MulSucc(a, ps);
    assert blocks[i..][0] == b && blocks[i..][1..] == blocks[i + 1..];
    assert b.host[a * ps + ps - b.start..] == b.host[ps..];
  }

  lemma {:induction false} NextInBlock(blocks: seq<Block>, ps: nat, i: nat, pfn: nat)
    requires MemoryOk(blocks, ps) && CursorOk(blocks, ps, On(i, pfn)) && CursorOk(blocks, ps, On(i, pfn + 1))
    ensures var at := (pfn + 1) * ps - blocks[i].start;
      && 0 <= at && at + ps <= |blocks[i].host|
      && Remaining(blocks, ps, On(i, pfn))
         == [Page(pfn + 1, blocks[i].host[at..at + ps])] + Remaining(blocks, ps, On(i, pfn + 1))
  {
    hide AllPages;
    var b := blocks[i];
    MulSucc(pfn, ps);
    var at := (pfn + 1) * ps - b.start;
    var host := b.host[at..];
    assert host[..ps] == b.host[at..at + ps] && host[ps..] == b.host[at + ps..];
    assert Cut(host, pfn + 1, ps) == [Page(pfn + 1, host[..ps])] + Cut(host[ps..], pfn + 2, ps);
    Assoc([Page(pfn + 1, host[..ps])], Cut(host[ps..], pfn + 2, ps), AllPages(blocks[i + 1..], ps));
  }

  lemma {:induction false} LeaveBlock(blocks: seq<Block>, ps: nat, i: nat, pfn: nat)
    requires MemoryOk(blocks, ps) && CursorOk(blocks, ps, On(i, pfn))
    requires (pfn + 1) * ps + ps > blocks[i].end
    ensures Remaining(blocks, ps, On(i, pfn)) == AllPages(blocks[i + 1..], ps)
  {
    hide AllPages;
    var b := blocks[i];
    var a, e := BlockSpan(b, ps);
    MulSucc(pfn, ps);
    MulSucc(pfn + 1, ps);
    MulLess(pfn + 1, e, ps);
    if pfn + 1 < e { MulMono(pfn + 2, e, ps); }
    assert b.host[pfn * ps + ps - b.start..] == [];
  }

  /** One step visits the first of the remaining pages; it ends exactly when none remains. */
  method GetNextPage(blocks: seq<Block>, ps: nat, c: Cursor) returns (more: bool, next: Cursor, page: Page)
    requires MemoryOk(blocks, ps) && CursorOk(blocks, ps, c) && !c.Done?
    ensures CursorOk(blocks, ps, next) && more == next.On? && more == !next.Done?
    ensures more <==> Remaining(blocks, ps, c) != []
    ensures more ==> Remaining(blocks, ps, c) == [page] + Remaining(blocks, ps, next)
  {
    hide AllPages, Cut, Remaining;
    var i := 0;
    if c.On? {
      var pfn := c.pfn + 1;
      var addr, b := pfn * ps, blocks[c.block];
      if addr >= b.start && addr + ps <= b.end {
        NextInBlock(blocks, ps, c.block, c.pfn);
        return true, On(c.block, pfn), Page(pfn, b.host[addr - b.start..addr - b.start + ps]);
      }
      MulSucc(c.pfn, ps);
      LeaveBlock(blocks, ps, c.block, c.pfn);
      i := c.block + 1;
      if i == |blocks| {
        NoPages(blocks[i..], ps);
        return false, Done, Page(pfn, []);
      }
    } else {
      StartsAtFirst(blocks, ps);
    }
    EnterBlock(blocks, ps, i);
    var b := blocks[i];
    return true, On(i, b.start / ps), Page(b.start / ps, b.host[..ps]);
  }

  /** How far an iteration is: pages done, then the current one if any, then the rest. */
  ghost predicate Progress(blocks: seq<Block>, ps: nat, done: seq<Page>, more: bool, c: Cursor, page: Page) {
    && ps > 0 && CursorOk(blocks, ps, c) && more == c.On? && more == !c.Done?
    && AllPages(blocks, ps) == done + if more then [page] + Remaining(blocks, ps, c) else []
  }

  /** The current page is the one after those done. */
  lemma {:induction false} Current(blocks: seq<Block>, ps: nat, done: seq<Page>, c: Cursor, page: Page)
    requires Progress(blocks, ps, done, true, c, page)
    ensures |done| < |AllPages(blocks, ps)| && AllPages(blocks, ps)[|done|] == page
    ensures done == AllPages(blocks, ps)[..|done|]
  {
    hide AllPages, Remaining;
  }

  lemma {:induction false} Bounded(blocks: seq<Block>, ps: nat, done: seq<Page>, more: bool, c: Cursor, page: Page)
    requires Progress(blocks, ps, done, more, c, page)
    ensures |done| <= |AllPages(blocks, ps)| && (!more ==> done == AllPages(blocks, ps))
  {
    hide AllPages, Remaining;
  }

  method FirstPage(blocks: seq<Block>, ps: nat) returns (more: bool, c: Cursor, page: Page)
    requires MemoryOk(blocks, ps)
    ensures Progress(blocks, ps, [], more, c, page)
  {
    hide AllPages;
    more, c, page := GetNextPage(blocks, ps, Start);
    assert Remaining(blocks, ps, Start) == AllPages(blocks, ps);
    ConcatNothing(AllPages(blocks, ps), []);
  }

  method NextPage(blocks: seq<Block>, ps: nat, ghost done: seq<Page>, c: Cursor, page: Page)
    returns (more: bool, next: Cursor, page': Page)
    requires MemoryOk(blocks, ps) && Progress(blocks, ps, done, true, c, page)
    ensures Progress(blocks, ps, done + [page], more, next, page')
  {
    hide AllPages, Remaining;
    more, next, page' := GetNextPage(blocks, ps, c);
    Assoc(done, [page], Remaining(blocks, ps, c));
  }

  lemma {:induction false} NoPages(blocks: seq<Block>, ps: nat)
    requires ps > 0 && blocks == []
    ensures AllPages(blocks, ps) == []
  {
  }

  lemma {:induction false} StartsAtFirst(blocks: seq<Block>, ps: nat)
    requires ps > 0
    ensures Remaining(blocks, ps, Start) == AllPages(blocks[0..], ps)
  {
    assert blocks[0..] == blocks;
  }
}
