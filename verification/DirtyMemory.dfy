/** Dirty page bitmaps kept in fixed-size chunks, and snapshots of them. */
module DirtyMemory {

  import opened Common

  const TARGET_PAGE_SIZE: nat := 4096
  const DIRTY_MEMORY_BLOCK_SIZE: nat := 0x20_0000
  const BITS_PER_LONG: nat := 64
  /** Bytes of guest memory covered by one word of a bitmap. */
  const SNAPSHOT_ALIGN: nat := 0x4_0000

  /** One chunk: DIRTY_MEMORY_BLOCK_SIZE bits. */
  type Chunk = c: seq<bool> | |c| == DIRTY_MEMORY_BLOCK_SIZE witness seq(DIRTY_MEMORY_BLOCK_SIZE, _ => false)

  /** The flat bitmap that a list of chunks stands for. */
  ghost function Bit(chunks: seq<Chunk>, page: nat): bool
    requires page < |chunks| * DIRTY_MEMORY_BLOCK_SIZE
  {
    chunks[page / DIRTY_MEMORY_BLOCK_SIZE][page % DIRTY_MEMORY_BLOCK_SIZE]
  }

  /** `after` is `before` with the pages [lo, hi) cleared. */
  ghost predicate Cleared(before: seq<Chunk>, after: seq<Chunk>, lo: nat, hi: nat) {
    && |after| == |before|
    && forall p: nat :: p < |before| * DIRTY_MEMORY_BLOCK_SIZE ==> Bit(after, p) == (Bit(before, p) && !(lo <= p < hi))
  }

  ghost predicate AnyDirty(chunks: seq<Chunk>, lo: nat, hi: nat)
    requires hi <= |chunks| * DIRTY_MEMORY_BLOCK_SIZE
  {
    exists p: nat :: lo <= p < hi && Bit(chunks, p)
  }

  /** First page after the byte range [start, start + length): TARGET_PAGE_ALIGN(start + length) >> TARGET_PAGE_BITS. */
  function EndPage(start: nat, length: nat): nat {
    (start + length + TARGET_PAGE_SIZE - 1) / TARGET_PAGE_SIZE
  }

  /** bitmap_test_and_clear_atomic on one chunk. */
  method TestAndClear(c: Chunk, start: nat, nr: nat) returns (dirty: bool, r: Chunk)
    requires start + nr <= DIRTY_MEMORY_BLOCK_SIZE
    ensures dirty <==> exists i :: start <= i < start + nr && c[i]
    ensures forall i :: 0 <= i < DIRTY_MEMORY_BLOCK_SIZE ==> r[i] == (c[i] && !(start <= i < start + nr))
  {
    dirty, r := false, c;
    for i := start to start + nr
      invariant dirty <==> exists j :: start <= j < i && c[j]
      invariant forall j :: 0 <= j < DIRTY_MEMORY_BLOCK_SIZE ==> r[j] == (c[j] && !(start <= j < i))
    {
      dirty := dirty || c[i];
      r := r[i := false];
    }
  }

  /** Clearing a piece of one chunk clears the same pages of the flat bitmap. */
  lemma {:induction false} ChunkStep(d0: seq<Chunk>, d: seq<Chunk>, lo: nat, page: nat, num: nat, r: Chunk)
    requires Cleared(d0, d, lo, page) && lo <= page < |d| * DIRTY_MEMORY_BLOCK_SIZE && num > 0
    requires page % DIRTY_MEMORY_BLOCK_SIZE + num <= DIRTY_MEMORY_BLOCK_SIZE
    requires var idx, off := page / DIRTY_MEMORY_BLOCK_SIZE, page % DIRTY_MEMORY_BLOCK_SIZE;
      forall i :: 0 <= i < DIRTY_MEMORY_BLOCK_SIZE ==> r[i] == (d[idx][i] && !(off <= i < off + num))
    ensures Cleared(d0, d[page / DIRTY_MEMORY_BLOCK_SIZE := r], lo, page + num)
  {
    var idx, off := page / DIRTY_MEMORY_BLOCK_SIZE, page % DIRTY_MEMORY_BLOCK_SIZE;
    var d' := d[idx := r];
    forall p: nat | p < |d0| * DIRTY_MEMORY_BLOCK_SIZE
      ensures Bit(d', p) == (Bit(d0, p) && !(lo <= p < page + num))
    {
      assert Bit(d, p) == (Bit(d0, p) && !(lo <= p < page));
      if p / DIRTY_MEMORY_BLOCK_SIZE == idx {
        assert p == idx * DIRTY_MEMORY_BLOCK_SIZE + p % DIRTY_MEMORY_BLOCK_SIZE;
      }
    }
  }

  lemma {:induction false} ChunkDirty(d0: seq<Chunk>, d: seq<Chunk>, lo: nat, page: nat, num: nat)
    requires Cleared(d0, d, lo, page) && lo <= page && num > 0 && page + num <= |d| * DIRTY_MEMORY_BLOCK_SIZE
    requires page % DIRTY_MEMORY_BLOCK_SIZE + num <= DIRTY_MEMORY_BLOCK_SIZE
    ensures var idx, off := page / DIRTY_MEMORY_BLOCK_SIZE, page % DIRTY_MEMORY_BLOCK_SIZE;
      (exists i :: off <= i < off + num && d[idx][i]) <==> AnyDirty(d0, page, page + num)
  {
    var idx, off := page / DIRTY_MEMORY_BLOCK_SIZE, page % DIRTY_MEMORY_BLOCK_SIZE;
    if i :| off <= i < off + num && d[idx][i] {
      var p: nat := idx * DIRTY_MEMORY_BLOCK_SIZE + i;
      assert p / DIRTY_MEMORY_BLOCK_SIZE == idx && p % DIRTY_MEMORY_BLOCK_SIZE == i;
      assert Bit(d, p) && Bit(d0, p) && page <= p < page + num;
    }
    if p: nat :| page <= p < page + num && Bit(d0, p) {
      assert p / DIRTY_MEMORY_BLOCK_SIZE == idx;
      var i := p % DIRTY_MEMORY_BLOCK_SIZE;
      assert Bit(d, p) && d[idx][i] && off <= i < off + num;
    }
  }

  lemma {:induction false} AnySplit(d: seq<Chunk>, lo: nat, mid: nat, hi: nat)
    requires lo <= mid <= hi <= |d| * DIRTY_MEMORY_BLOCK_SIZE
    ensures AnyDirty(d, lo, hi) <==> AnyDirty(d, lo, mid) || AnyDirty(d, mid, hi)
  {
  }

  /** cpu_physical_memory_test_and_clear_dirty on one client's chunks. */
  method TestAndClearDirty(chunks: seq<Chunk>, start: nat, length: nat) returns (dirty: bool, r: seq<Chunk>)
    requires EndPage(start, length) <= |chunks| * DIRTY_MEMORY_BLOCK_SIZE
    ensures length == 0 ==> !dirty && r == chunks
    ensures length > 0 ==> dirty == AnyDirty(chunks, start / TARGET_PAGE_SIZE, EndPage(start, length))
    ensures length > 0 ==> Cleared(chunks, r, start / TARGET_PAGE_SIZE, EndPage(start, length))
  {
    dirty, r := false, chunks;
    if length == 0 {
      return;
    }
    var end := EndPage(start, length);
    var page := start / TARGET_PAGE_SIZE;
    ghost var first := page;
    while page < end
      invariant first <= page <= end
      invariant Cleared(chunks, r, first, page)
      invariant dirty == AnyDirty(chunks, first, page)
    {
      var idx := page / DIRTY_MEMORY_BLOCK_SIZE;
      var offset := page % DIRTY_MEMORY_BLOCK_SIZE;
      var num := Min(end - page, DIRTY_MEMORY_BLOCK_SIZE - offset);
      ChunkDirty(chunks, r, first, page, num);
      var hit, c := TestAndClear(r[idx], offset, num);
      ChunkStep(chunks, r, first, page, num, c);
      AnySplit(chunks, first, page, page + num);
      dirty := dirty || hit;
      r := r[idx := c];
      page := page + num;
    }
  }

  /** DirtyBitmapSnapshot: the copied bits of the pages from start up to end. */
  datatype Snapshot = Snapshot(start: nat, end: nat, dirty: seq<bool>)

  function AlignDown(n: nat): nat { n / SNAPSHOT_ALIGN * SNAPSHOT_ALIGN }
  function AlignUp(n: nat): nat { (n + SNAPSHOT_ALIGN - 1) / SNAPSHOT_ALIGN * SNAPSHOT_ALIGN }

  /** The snapshot holds exactly the bits of its pages. */
  ghost predicate SnapshotOf(snap: Snapshot, chunks: seq<Chunk>) {
    && snap.start % SNAPSHOT_ALIGN == 0 && snap.end % SNAPSHOT_ALIGN == 0 && snap.start <= snap.end
    && snap.end / TARGET_PAGE_SIZE <= |chunks| * DIRTY_MEMORY_BLOCK_SIZE
    && |snap.dirty| == (snap.end - snap.start) / TARGET_PAGE_SIZE
    && forall i :: 0 <= i < |snap.dirty| ==> snap.dirty[i] == Bit(chunks, snap.start / TARGET_PAGE_SIZE + i)
  }

  /** cpu_physical_memory_snapshot_and_clear_dirty. */
  method SnapshotAndClear(chunks: seq<Chunk>, start: nat, length: nat) returns (snap: Snapshot, r: seq<Chunk>)
    requires EndPage(start, length) <= |chunks| * DIRTY_MEMORY_BLOCK_SIZE
    ensures snap.start == AlignDown(start) && snap.end == AlignUp(start + length)
    ensures SnapshotOf(snap, chunks)
    ensures Cleared(chunks, r, snap.start / TARGET_PAGE_SIZE, snap.end / TARGET_PAGE_SIZE)
  {
    hide AlignDown, AlignUp, Cleared, Bit;
    var first, last := AlignDown(start), AlignUp(start + length);
    AlignPages(start, length, |chunks|);
    var page, end := first / TARGET_PAGE_SIZE, last / TARGET_PAGE_SIZE;
    ghost var page0 := page;
    var bits: seq<bool> := [];
    r := chunks;
    ClearedNothing(chunks, page);
    while page < end
      invariant page0 <= page <= end && page % BITS_PER_LONG == 0
      invariant |r| == |chunks| && Cleared(chunks, r, page0, page)
      invariant |bits| == page - page0
      invariant forall i :: 0 <= i < |bits| ==> bits[i] == Bit(chunks, page0 + i)
    {
      var idx := page / DIRTY_MEMORY_BLOCK_SIZE;
      var offset := page % DIRTY_MEMORY_BLOCK_SIZE;
      var num := Min(end - page, DIRTY_MEMORY_BLOCK_SIZE - offset);
      WordAligned(page, end);
      ChunkIndex(page, |chunks|);
      var piece := r[idx][offset..offset + num];
      CopyStep(chunks, r, page0, page, piece);
      var _, c := TestAndClear(r[idx], offset, num);
      CopyBits(chunks, bits, piece, page0, page);
      bits := bits + piece;
      ChunkStep(chunks, r, page0, page, num, c);
      r := r[idx := c];
      page := page + num;
    }
    SpanPages(first, last);
    snap := Snapshot(first, last, bits);
  }

  lemma {:induction false} ChunkIndex(page: nat, n: nat)
    requires page < n * DIRTY_MEMORY_BLOCK_SIZE
    ensures page / DIRTY_MEMORY_BLOCK_SIZE < n
  {
  }

  lemma {:induction false} SpanPages(first: nat, last: nat)
    requires first % SNAPSHOT_ALIGN == 0 && last % SNAPSHOT_ALIGN == 0 && first <= last
    ensures (last - first) / TARGET_PAGE_SIZE == last / TARGET_PAGE_SIZE - first / TARGET_PAGE_SIZE
  {
    WholePages(first);
    PagesShift(last, first / TARGET_PAGE_SIZE);
  }

  lemma {:induction false} ClearedNothing(d: seq<Chunk>, lo: nat)
    ensures Cleared(d, d, lo, lo)
  {
  }

  /** The two assertions in the copy loop: chunk pieces start and end on whole words. */
  lemma {:induction false} WordAligned(page: nat, end: nat)
    requires page < end && page % BITS_PER_LONG == 0 && end % BITS_PER_LONG == 0
    ensures var offset := page % DIRTY_MEMORY_BLOCK_SIZE;
      var num := Min(end - page, DIRTY_MEMORY_BLOCK_SIZE - offset);
      offset % BITS_PER_LONG == 0 && num % BITS_PER_LONG == 0 && (page + num) % BITS_PER_LONG == 0
  {
    var a, e, k := page / BITS_PER_LONG, end / BITS_PER_LONG, page / DIRTY_MEMORY_BLOCK_SIZE;
    var words := DIRTY_MEMORY_BLOCK_SIZE / BITS_PER_LONG;
    Words(page % DIRTY_MEMORY_BLOCK_SIZE, a - k * words);
    if end - page < DIRTY_MEMORY_BLOCK_SIZE - page % DIRTY_MEMORY_BLOCK_SIZE {
      Words(end - page, e - a);
    } else {
      Words(DIRTY_MEMORY_BLOCK_SIZE - page % DIRTY_MEMORY_BLOCK_SIZE, (k + 1) * words - a);
      Words(k * DIRTY_MEMORY_BLOCK_SIZE + DIRTY_MEMORY_BLOCK_SIZE, (k + 1) * words);
    }
  }

  lemma {:induction false} Words(bits: int, words: int)
    requires bits == words * BITS_PER_LONG
    ensures bits % BITS_PER_LONG == 0
  {
  }

  lemma {:induction false} CopyBits(d: seq<Chunk>, bits: seq<bool>, piece: seq<bool>, page0: nat, page: nat)
    requires page0 + |bits| == page && page + |piece| <= |d| * DIRTY_MEMORY_BLOCK_SIZE
    requires forall i :: 0 <= i < |bits| ==> bits[i] == Bit(d, page0 + i)
    requires forall i :: 0 <= i < |piece| ==> piece[i] == Bit(d, page + i)
    ensures forall i :: 0 <= i < |bits + piece| ==> (bits + piece)[i] == Bit(d, page0 + i)
  {
  }

  lemma {:induction false} AlignUpPages(x: nat, n: nat)
    requires x <= n * 32768 * SNAPSHOT_ALIGN
    ensures x <= AlignUp(x) && AlignUp(x) % SNAPSHOT_ALIGN == 0
    ensures AlignUp(x) / TARGET_PAGE_SIZE <= n * DIRTY_MEMORY_BLOCK_SIZE &&
      AlignUp(x) / TARGET_PAGE_SIZE % BITS_PER_LONG == 0
  {
    var up := (x + SNAPSHOT_ALIGN - 1) / SNAPSHOT_ALIGN;
    assert up <= n * 32768;
    assert AlignUp(x) / TARGET_PAGE_SIZE == up * BITS_PER_LONG;
  }

  lemma {:induction false} AlignDownPages(x: nat)
    ensures AlignDown(x) <= x && AlignDown(x) % SNAPSHOT_ALIGN == 0 &&
      AlignDown(x) / TARGET_PAGE_SIZE % BITS_PER_LONG == 0
  {
    assert AlignDown(x) / TARGET_PAGE_SIZE == x / SNAPSHOT_ALIGN * BITS_PER_LONG;
  }

  lemma {:induction false} AlignPages(start: nat, length: nat, n: nat)
    requires EndPage(start, length) <= n * DIRTY_MEMORY_BLOCK_SIZE
    ensures AlignDown(start) <= start && start + length <= AlignUp(start + length)
    ensures AlignDown(start) % SNAPSHOT_ALIGN == 0 && AlignUp(start + length) % SNAPSHOT_ALIGN == 0
    ensures AlignUp(start + length) / TARGET_PAGE_SIZE <= n * DIRTY_MEMORY_BLOCK_SIZE
    ensures AlignDown(start) / TARGET_PAGE_SIZE % BITS_PER_LONG == 0 &&
      AlignUp(start + length) / TARGET_PAGE_SIZE % BITS_PER_LONG == 0
    ensures AlignDown(start) / TARGET_PAGE_SIZE <= AlignUp(start + length) / TARGET_PAGE_SIZE
  {
    hide AlignDown, AlignUp;
    AlignUpPages(start + length, n);
    AlignDownPages(start);
  }

  lemma {:induction false} CopyStep(d0: seq<Chunk>, d: seq<Chunk>, lo: nat, page: nat, piece: seq<bool>)
    requires Cleared(d0, d, lo, page) && lo <= page && |piece| > 0 && page + |piece| <= |d| * DIRTY_MEMORY_BLOCK_SIZE
    requires var idx, off := page / DIRTY_MEMORY_BLOCK_SIZE, page % DIRTY_MEMORY_BLOCK_SIZE;
      off + |piece| <= DIRTY_MEMORY_BLOCK_SIZE && piece == d[idx][off..off + |piece|]
    ensures forall i :: 0 <= i < |piece| ==> piece[i] == Bit(d0, page + i)
  {
    var idx, off := page / DIRTY_MEMORY_BLOCK_SIZE, page % DIRTY_MEMORY_BLOCK_SIZE;
    forall i | 0 <= i < |piece| ensures piece[i] == Bit(d0, page + i) {
      var p: nat := page + i;
      assert p / DIRTY_MEMORY_BLOCK_SIZE == idx && p % DIRTY_MEMORY_BLOCK_SIZE == off + i;
      assert Bit(d, p) == Bit(d0, p);
    }
  }

  /** cpu_physical_memory_snapshot_get_dirty answers for the bitmap as it was when the snapshot was taken. */
  method SnapshotGetDirty(snap: Snapshot, start: nat, length: nat, ghost chunks: seq<Chunk>) returns (dirty: bool)
    requires SnapshotOf(snap, chunks) && snap.start <= start && start + length <= snap.end
    ensures EndPage(start, length) <= |chunks| * DIRTY_MEMORY_BLOCK_SIZE
    ensures dirty <==> exists p: nat :: start / TARGET_PAGE_SIZE <= p < EndPage(start, length) && Bit(chunks, p)
  {
    hide EndPage;
    var end := EndPage(start - snap.start, length);
    var page := (start - snap.start) / TARGET_PAGE_SIZE;
    ghost var base := snap.start / TARGET_PAGE_SIZE;
    RelativePages(snap.start, snap.end, start, length);
    ghost var first := page;
    while page < end
      invariant first <= page
      invariant forall i :: first <= i < page && i < end ==> !snap.dirty[i]
    {
      if snap.dirty[page] {
        assert Bit(chunks, base + page);
        return true;
      }
      page := page + 1;
    }
    forall p: nat | start / TARGET_PAGE_SIZE <= p < EndPage(start, length) ensures !Bit(chunks, p) {
      assert !snap.dirty[p - base];
    }
    return false;
  }

  lemma {:induction false} PagesShift(x: nat, k: nat)
    requires k * TARGET_PAGE_SIZE <= x
    ensures (x - k * TARGET_PAGE_SIZE) / TARGET_PAGE_SIZE == x / TARGET_PAGE_SIZE - k
  {
  }

  lemma {:induction false} WholePages(s: nat)
    requires s % SNAPSHOT_ALIGN == 0
    ensures s == s / TARGET_PAGE_SIZE * TARGET_PAGE_SIZE
  {
    var k := s / SNAPSHOT_ALIGN * BITS_PER_LONG;
    assert s == k * TARGET_PAGE_SIZE;
    PagesShift(s, k);
  }

  lemma {:induction false} RelativePages(s: nat, e: nat, start: nat, length: nat)
    requires s % SNAPSHOT_ALIGN == 0 && e % SNAPSHOT_ALIGN == 0 && s <= start && start + length <= e
    ensures (start - s) / TARGET_PAGE_SIZE == start / TARGET_PAGE_SIZE - s / TARGET_PAGE_SIZE
    ensures EndPage(start - s, length) == EndPage(start, length) - s / TARGET_PAGE_SIZE
    ensures (e - s) / TARGET_PAGE_SIZE == e / TARGET_PAGE_SIZE - s / TARGET_PAGE_SIZE
    ensures EndPage(start, length) <= e / TARGET_PAGE_SIZE
  {
    var k := s / TARGET_PAGE_SIZE;
    WholePages(s);
    WholePages(e);
    PagesShift(start, k);
    PagesShift(start + length + TARGET_PAGE_SIZE - 1, k);
    PagesShift(e, k);
  }
}
