/** The page area of a kdump file: one descriptor per dumped page, then the page data. */
module KdumpPages {

  import opened Arith
  import opened Common
  import opened DumpFile
  import opened GuestMemory
  import opened GuestPages

  // Descriptors

  const DESC_SIZE := 24
  const TWO32 := 0x1_0000_0000
  const TWO64 := 0x1_0000_0000_0000_0000

  datatype PageDescriptor = PageDescriptor(offset: nat, size: nat, flags: nat, pageFlags: nat)

  ghost predicate Fits(pd: PageDescriptor) {
    pd.offset < TWO64 && pd.size < TWO32 && pd.flags < TWO32 && pd.pageFlags < TWO64
  }

  /** The byte with value n. */
  function Number(n: nat): Byte
    requires n < 256
  {
    if n == 0 then 0 else Number(n - 1) + 1
  }

  lemma {:induction false} Increment(b: Byte)
    requires b != 255
    ensures (b + 1) as nat == b as nat + 1
  {
  }

  lemma {:induction false} NumberValue(n: nat)
    requires n < 256
    ensures Number(n) as nat == n
  {
    if n > 0 {
      NumberValue(n - 1);
      assert Number(n - 1) != 255;
      Increment(Number(n - 1));
    }
  }

  /** n in w bytes, least significant first; higher bytes are dropped. */
  function Little(n: nat, w: nat): (s: seq<Byte>)
    ensures |s| == w
  {
    if w == 0 then [] else [Number(n % 256)] + Little(n / 256, w - 1)
  }

  function Value(s: seq<Byte>): nat {
    if s == [] then 0 else s[0] as nat + 256 * Value(s[1..])
  }

  ghost function Pow256(w: nat): nat { if w == 0 then 1 else 256 * Pow256(w - 1) }

  lemma {:induction false} ValueCons(b: Byte, s: seq<Byte>)
    ensures Value([b] + s) == b as nat + 256 * Value(s)
  {
    assert ([b] + s)[1..] == s;
  }

  lemma {:induction false} LittleValue(n: nat, w: nat)
    requires n < Pow256(w)
    ensures Value(Little(n, w)) == n
  {
    hide Number, Value;
    if w == 0 {
      NoBytes();
    } else {
      LittleValue(n / 256, w - 1);
      ValueCons(Number(n % 256), Little(n / 256, w - 1));
      NumberValue(n % 256);
    }
  }

  lemma {:induction false} NoBytes()
    ensures Value([]) == 0
  {
  }

  function Encode(pd: PageDescriptor): (s: seq<Byte>)
    ensures |s| == DESC_SIZE
  {
    Little(pd.offset, 8) + Little(pd.size, 4) + Little(pd.flags, 4) + Little(pd.pageFlags, 8)
  }

  function Decode(s: seq<Byte>): PageDescriptor
    requires |s| == DESC_SIZE
  {
    PageDescriptor(Value(s[..8]), Value(s[8..12]), Value(s[12..16]), Value(s[16..]))
  }

  lemma {:induction false} Powers()
    ensures Pow256(4) == TWO32 && Pow256(8) == TWO64
  {
    assert Pow256(2) == 65536;
    assert Pow256(4) == 256 * (256 * Pow256(2));
    assert Pow256(6) == 256 * (256 * Pow256(4));
    assert Pow256(8) == 256 * (256 * Pow256(6));
  }

  lemma {:induction false} DescriptorRoundTrip(pd: PageDescriptor)
    requires Fits(pd)
    ensures Decode(Encode(pd)) == pd
  {
    hide Little, Value, Pow256;
    Powers();
    LittleValue(pd.offset, 8);
    LittleValue(pd.size, 4);
    LittleValue(pd.flags, 4);
    LittleValue(pd.pageFlags, 8);
    var s := Encode(pd);
    assert s[..8] == Little(pd.offset, 8) && s[8..12] == Little(pd.size, 4);
    assert s[12..16] == Little(pd.flags, 4) && s[16..] == Little(pd.pageFlags, 8);
  }

  /** The descriptor area: all descriptors one after the other. */
  ghost function EncodeAll(pds: seq<PageDescriptor>): seq<Byte> {
    if pds == [] then [] else EncodeAll(pds[..|pds| - 1]) + Encode(pds[|pds| - 1])
  }

  lemma {:induction false} EncodeAppend(pds: seq<PageDescriptor>, pd: PageDescriptor)
    ensures EncodeAll(pds + [pd]) == EncodeAll(pds) + Encode(pd)
  {
    assert (pds + [pd])[..|pds|] == pds;
  }

  lemma {:induction false} EncodedAt(pds: seq<PageDescriptor>, k: nat)
    requires k < |pds|
    ensures |EncodeAll(pds)| == DESC_SIZE * |pds|
    ensures EncodeAll(pds)[DESC_SIZE * k..DESC_SIZE * k + DESC_SIZE] == Encode(pds[k])
  {
    hide Encode;
    var init := pds[..|pds| - 1];
    if |pds| == 1 {
      assert EncodeAll(init) == [];
    } else if k < |pds| - 1 {
      EncodedAt(init, k);
    } else {
      EncodedAt(init, 0);
    }
  }

  // Compression

  /** One of zlib, LZO and snappy: its flag, a compressor that may fail, and the matching decompressor. */
  datatype Codec = Codec(flag: nat, compress: seq<Byte> -> Option<seq<Byte>>, decompress: seq<Byte> -> seq<Byte>)

  ghost predicate Inverts(codec: Codec, x: seq<Byte>) {
    codec.compress(x).Some? ==> codec.decompress(codec.compress(x).value) == x
  }

  ghost predicate CodecOk(codec: Codec) {
    codec.flag in {1, 2, 4} && forall x :: Inverts(codec, x)
  }

  /** What a reader makes of a page's stored bytes. */
  ghost function Unpack(codec: Codec, flags: nat, raw: seq<Byte>): seq<Byte> {
    if flags == 0 then raw else codec.decompress(raw)
  }

  /** The k-th page as a reader recovers it from descriptor k of the descriptor area at offset. */
  ghost function ReadPage(rs: seq<Record>, offset: nat, codec: Codec, k: nat): seq<Byte> {
    var pd := Decode(Read(rs, offset + DESC_SIZE * k, DESC_SIZE));
    Unpack(codec, pd.flags, Read(rs, pd.offset, pd.size))
  }

  // DataCache

  /** stream was given to a cache at base: a prefix of it is in the file, the rest is pending at offset. */
  ghost predicate CacheOk(rs: seq<Record>, base: nat, stream: seq<Byte>, pending: seq<Byte>, offset: nat) {
    && |pending| <= |stream| && offset == base + |stream| - |pending|
    && pending == stream[|stream| - |pending|..]
    && Stored(rs, base, stream[..|stream| - |pending|])
  }

  lemma {:induction false} CacheFlush(rs: seq<Record>, base: nat, stream: seq<Byte>, pending: seq<Byte>, offset: nat)
    requires CacheOk(rs, base, stream, pending, offset)
    ensures CacheOk(rs + [Record(offset, pending)], base, stream, [], offset + |pending|)
    ensures SameOutside(rs, rs + [Record(offset, pending)], base, base + |stream|)
  {
    hide Stored, At;
    var n := |stream| - |pending|;
    StoredAppend(rs, base, stream[..n], pending);
    assert stream[..n] + pending == stream == stream[..|stream|];
    AppendOutside(rs, Record(offset, pending));
  }

  lemma {:induction false} CacheAdd(rs: seq<Record>, base: nat, stream: seq<Byte>, pending: seq<Byte>, offset: nat,
                                    data: seq<Byte>)
    requires CacheOk(rs, base, stream, pending, offset)
    ensures CacheOk(rs, base, stream + data, pending + data, offset)
  {
    hide Stored;
    var n := |stream| - |pending|;
    assert (stream + data)[..n] == stream[..n];
    assert (stream + data)[n..] == stream[n..] + data;
  }

  lemma {:induction false} CacheKept(rs: seq<Record>, rs': seq<Record>, base: nat, stream: seq<Byte>,
                                     pending: seq<Byte>, offset: nat, lo: nat, hi: nat)
    requires CacheOk(rs, base, stream, pending, offset) && SameOutside(rs, rs', lo, hi)
    requires base + |stream| <= lo || hi <= base
    ensures CacheOk(rs', base, stream, pending, offset)
  {
    hide Stored, At;
    StoredKept(rs, rs', base, stream[..|stream| - |pending|], lo, hi);
  }

  class DataCache {
    const file: Vmcore
    const buf: array<Byte>
    var dataSize: nat
    var offset: nat
    ghost const base: nat
    /** All bytes given to the cache. */
    ghost var stream: seq<Byte>

    ghost predicate Valid()
      reads this, buf, file
    {
      dataSize <= buf.Length && CacheOk(file.records, base, stream, buf[..dataSize], offset)
    }

    constructor (file: Vmcore, bufSize: nat, offset: nat)
      ensures Valid() && this.file == file && buf.Length == bufSize && fresh(buf) && base == offset && stream == []
      ensures dataSize == 0
    {
      this.file := file;
      dataSize, this.offset := 0, offset;
      buf := new Byte[bufSize](_ => 0);
      base, stream := offset, [];
    }

    /** Without sync the data joins the stream; with sync everything reaches the file. */
    method WriteCache(data: seq<Byte>, sync: bool)
      requires Valid() && |data| <= buf.Length
      modifies this, buf, file
      ensures Valid() && stream == old(stream) + (if sync then [] else data)
      ensures sync ==> Stored(file.records, base, stream)
      ensures SameOutside(old(file.records), file.records, base, base + |old(stream)|)
    {
      hide CacheOk, Stored, SameOutside, At;
      ghost var lo, hi := base, base + |stream|;
      if (!sync && dataSize + |data| > buf.Length) || (sync && dataSize > 0) {
        CacheFlush(file.records, base, stream, buf[..dataSize], offset);
        file.WriteBuffer(offset, buf[..dataSize]);
        offset := offset + dataSize;
        dataSize := 0;
        assert buf[..dataSize] == [];
      } else {
        Unchanged(file.records, lo, hi);
      }
      if !sync {
        ghost var before := buf[..dataSize];
        CacheAdd(file.records, base, stream, before, offset, data);
        forall i | 0 <= i < |data| { buf[dataSize + i] := data[i]; }
        dataSize := dataSize + |data|;
        stream := stream + data;
        assert buf[..dataSize] == before + data;
      } else {
        assert buf[..dataSize] == [];
        Emptied(file.records, base, stream, offset);
      }
    }
  }

  lemma {:induction false} Unchanged(rs: seq<Record>, lo: nat, hi: nat)
    ensures SameOutside(rs, rs, lo, hi)
  {
  }

  lemma {:induction false} Emptied(rs: seq<Record>, base: nat, stream: seq<Byte>, offset: nat)
    requires CacheOk(rs, base, stream, [], offset)
    ensures Stored(rs, base, stream)
  {
    hide Stored;
    assert stream[..|stream|] == stream;
  }

  // What the descriptors promise

  predicate IsZero(data: seq<Byte>) { forall i :: 0 <= i < |data| ==> data[i] == 0 }

  /** pd points at bytes of the data stream that unpack to the page; zero pages all point at the first slot. */
  ghost predicate Describes(codec: Codec, pd: PageDescriptor, page: seq<Byte>, stream: seq<Byte>, base: nat) {
    && Fits(pd) && base <= pd.offset && pd.offset - base + pd.size <= |stream|
    && Unpack(codec, pd.flags, stream[pd.offset - base..pd.offset - base + pd.size]) == page
    && (IsZero(page) ==> pd.offset == base && pd.flags == 0)
  }

  ghost predicate AllDescribed(codec: Codec, pds: seq<PageDescriptor>, pages: seq<Page>, stream: seq<Byte>, base: nat) {
    |pds| == |pages| && forall k :: 0 <= k < |pds| ==> Describes(codec, pds[k], pages[k].data, stream, base)
  }

  lemma {:induction false} DescribesMore(codec: Codec, pd: PageDescriptor, page: seq<Byte>, stream: seq<Byte>,
                                         base: nat, more: seq<Byte>)
    requires Describes(codec, pd, page, stream, base)
    ensures Describes(codec, pd, page, stream + more, base)
  {
    var at := pd.offset - base;
    assert (stream + more)[at..at + pd.size] == stream[at..at + pd.size];
  }

  lemma {:induction false} DescribeNext(codec: Codec, pds: seq<PageDescriptor>, pages: seq<Page>, stream: seq<Byte>,
                                        base: nat, more: seq<Byte>, pd: PageDescriptor, page: Page)
    requires AllDescribed(codec, pds, pages, stream, base) && Describes(codec, pd, page.data, stream + more, base)
    ensures AllDescribed(codec, pds + [pd], pages + [page], stream + more, base)
  {
    hide Describes;
    forall k | 0 <= k < |pds|
      ensures Describes(codec, pds[k], pages[k].data, stream + more, base)
    {
      DescribesMore(codec, pds[k], pages[k].data, stream, base, more);
    }
  }

  /** A reader that follows descriptor k gets page k. */
  lemma {:induction false} ReadBack(rs: seq<Record>, offset: nat, base: nat, codec: Codec, pds: seq<PageDescriptor>,
                                    pages: seq<Page>, stream: seq<Byte>, k: nat)
    requires AllDescribed(codec, pds, pages, stream, base) && k < |pds|
    requires Stored(rs, offset, EncodeAll(pds)) && Stored(rs, base, stream)
    ensures ReadPage(rs, offset, codec, k) == pages[k].data
  {
    hide Stored, At, Encode, Decode, EncodeAll, Read;
    var pd := pds[k];
    EncodedAt(pds, k);
    StoredPart(rs, offset, EncodeAll(pds), DESC_SIZE * k, DESC_SIZE);
    ReadStored(rs, offset + DESC_SIZE * k, Encode(pd));
    DescriptorRoundTrip(pd);
    assert Describes(codec, pd, pages[k].data, stream, base);
    StoredPart(rs, base, stream, pd.offset - base, pd.size);
    ReadStored(rs, pd.offset, stream[pd.offset - base..pd.offset - base + pd.size]);
  }

  // write_dump_pages

  /** The descriptor and the new data bytes of one page; offset is where new data goes. */
  method PackPage(codec: Codec, page: seq<Byte>, pdZero: PageDescriptor, ghost base: nat, offset: nat,
                  ghost stream: seq<Byte>)
    returns (pd: PageDescriptor, data: seq<Byte>)
    requires CodecOk(codec) && |page| < TWO32 && offset == base + |stream| && offset < TWO64
    requires |page| <= |stream| && IsZero(stream[..|page|]) && pdZero == PageDescriptor(base, |page|, 0, 0)
    ensures |data| <= |page| && Describes(codec, pd, page, stream + data, base)
    ensures IsZero(page) ==> data == [] && pd == pdZero
    ensures !IsZero(page) ==>
      if codec.compress(page).Some? && |codec.compress(page).value| < |page|
      then data == codec.compress(page).value && pd.flags == codec.flag
      else data == page && pd.flags == 0
  {
    hide CodecOk;
    if IsZero(page) {
      pd, data := pdZero, [];
      ZeroSlot(codec, page, stream, base);
    } else {
      var packed := codec.compress(page);
      if packed.Some? && |packed.value| < |page| {
        data := packed.value;
        pd := PageDescriptor(offset, |data|, codec.flag, 0);
        CodecInverts(codec, page);
      } else {
        data := page;
        pd := PageDescriptor(offset, |data|, 0, 0);
      }
      assert (stream + data)[|stream|..|stream| + |data|] == data;
    }
  }

  lemma {:induction false} CodecInverts(codec: Codec, page: seq<Byte>)
    requires CodecOk(codec)
    ensures Inverts(codec, page) && codec.flag != 0 && codec.flag < TWO32
  {
  }

  lemma {:induction false} ZeroSlot(codec: Codec, page: seq<Byte>, stream: seq<Byte>, base: nat)
    requires IsZero(page) && |page| < TWO32 && base < TWO64 && |page| <= |stream| && IsZero(stream[..|page|])
    ensures Describes(codec, PageDescriptor(base, |page|, 0, 0), page, stream + [], base)
  {
    assert stream + [] == stream;
    var slot := stream[..|page|];
    assert slot == page by {
      forall i | 0 <= i < |page|
        ensures slot[i] == page[i]
      {
      }
    }
  }

  /** Both areas, with their caches, after the pages done; the data area starts behind n descriptors. */
  ghost predicate Packed(desc: DataCache, data: DataCache, codec: Codec, pds: seq<PageDescriptor>, done: seq<Page>,
                         ps: nat, n: nat)
    reads desc, desc.buf, data, data.buf, desc.file, data.file
  {
    && desc.Valid() && data.Valid()
    && data.base == desc.base + DESC_SIZE * n && |pds| <= n
    && desc.stream == EncodeAll(pds) && |desc.stream| == DESC_SIZE * |pds|
    && AllDescribed(codec, pds, done, data.stream, data.base)
    && ps <= |data.stream| <= (|done| + 1) * ps && IsZero(data.stream[..ps])
  }

  ghost predicate Apart(desc: DataCache, data: DataCache, file: Vmcore) {
    desc != data && desc.buf != data.buf && desc.file == file && data.file == file
  }

  /** The file below n is unchanged. */
  ghost predicate SameBelow(a: seq<Record>, b: seq<Record>, n: nat) {
    forall p: nat :: p < n ==> At(a, p) == At(b, p)
  }

  lemma {:induction false} BelowTrans(a: seq<Record>, b: seq<Record>, c: seq<Record>, n: nat, lo: nat, hi: nat)
    requires SameBelow(a, b, n) && SameOutside(b, c, lo, hi) && n <= lo
    ensures SameBelow(a, c, n)
  {
    hide At;
  }

  lemma {:induction false} BelowTrans2(a: seq<Record>, b: seq<Record>, c: seq<Record>, n: nat)
    requires SameBelow(a, b, n) && SameBelow(b, c, n)
    ensures SameBelow(a, c, n)
  {
    hide At;
  }

  lemma {:induction false} BelowRefl(a: seq<Record>, n: nat)
    ensures SameBelow(a, a, n)
  {
  }

  lemma {:induction false} StreamPrefix(stream: seq<Byte>, more: seq<Byte>, ps: nat)
    requires ps <= |stream|
    ensures (stream + more)[..ps] == stream[..ps]
  {
  }

  /** One round of the page loop. */
  method WritePage(file: Vmcore, desc: DataCache, data: DataCache, codec: Codec, page: Page, pdZero: PageDescriptor,
                   offsetData: nat, ps: nat, ghost n: nat, ghost pds: seq<PageDescriptor>, ghost done: seq<Page>)
    returns (pd: PageDescriptor, newOffset: nat)
    requires Apart(desc, data, file) && Packed(desc, data, codec, pds, done, ps, n) && |pds| < n
    requires CodecOk(codec) && |page.data| == ps < TWO32
    requires desc.buf.Length >= DESC_SIZE && data.buf.Length >= ps
    requires offsetData == data.base + |data.stream| < TWO64 && pdZero == PageDescriptor(data.base, ps, 0, 0)
    modifies file, desc, data, desc.buf, data.buf
    ensures Packed(desc, data, codec, pds + [pd], done + [page], ps, n)
    ensures newOffset == data.base + |data.stream|
    ensures SameBelow(old(file.records), file.records, desc.base)
  {
    hide CacheOk, At, Stored, SameOutside, SameBelow, CodecOk, AllDescribed, Describes, IsZero, Encode, EncodeAll;
    ghost var stream, rs := data.stream, file.records;
    var bytes;
    BelowRefl(rs, desc.base);
    pd, bytes := PackPage(codec, page.data, pdZero, data.base, offsetData, stream);
    DescribeNext(codec, pds, done, stream, data.base, bytes, pd, page);
    StreamPrefix(stream, bytes, ps);
    MulSucc(|done| + 1, ps);
    EncodeAppend(pds, pd);
    newOffset := offsetData;
    if IsZero(page.data) {
      ConcatNothing(stream, bytes);
    } else {
      data.WriteCache(bytes, false);
      newOffset := offsetData + |bytes|;
      CacheKept(rs, file.records, desc.base, desc.stream, desc.buf[..desc.dataSize], desc.offset,
                data.base, data.base + |stream|);
      BelowTrans(rs, rs, file.records, desc.base, data.base, data.base + |stream|);
    }
    ghost var mid, descBefore := file.records, desc.stream;
    desc.WriteCache(Encode(pd), false);
    CacheKept(mid, file.records, data.base, data.stream, data.buf[..data.dataSize], data.offset,
              desc.base, desc.base + |descBefore|);
    BelowTrans(rs, mid, file.records, desc.base, desc.base, desc.base + |descBefore|);
  }

  /** After both caches are synced, the file alone gives back every page. */
  ghost predicate Decodes(rs: seq<Record>, offset: nat, codec: Codec, pages: seq<Page>) {
    forall k: nat :: k < |pages| ==> ReadPage(rs, offset, codec, k) == pages[k].data
  }

  /** Zero pages share the first slot of the data area. */
  ghost predicate ZerosShared(rs: seq<Record>, offset: nat, pages: seq<Page>) {
    forall k: nat :: k < |pages| && IsZero(pages[k].data) ==>
      Decode(Read(rs, offset + DESC_SIZE * k, DESC_SIZE)).offset == offset + DESC_SIZE * |pages|
  }

  lemma {:induction false} DescriptorAt(rs: seq<Record>, offset: nat, pds: seq<PageDescriptor>, k: nat)
    requires k < |pds| && Fits(pds[k]) && Stored(rs, offset, EncodeAll(pds))
    ensures Decode(Read(rs, offset + DESC_SIZE * k, DESC_SIZE)) == pds[k]
  {
    hide Stored, At, Encode, Decode, EncodeAll, Read;
    EncodedAt(pds, k);
    StoredPart(rs, offset, EncodeAll(pds), DESC_SIZE * k, DESC_SIZE);
    ReadStored(rs, offset + DESC_SIZE * k, Encode(pds[k]));
    DescriptorRoundTrip(pds[k]);
  }

  lemma {:induction false} AllReadBack(rs: seq<Record>, offset: nat, codec: Codec, pds: seq<PageDescriptor>,
                                       pages: seq<Page>, stream: seq<Byte>)
    requires AllDescribed(codec, pds, pages, stream, offset + DESC_SIZE * |pages|)
    requires Stored(rs, offset, EncodeAll(pds)) && Stored(rs, offset + DESC_SIZE * |pages|, stream)
    ensures Decodes(rs, offset, codec, pages) && ZerosShared(rs, offset, pages)
  {
    hide Stored, EncodeAll, ReadPage, Read, Decode;
    var base := offset + DESC_SIZE * |pages|;
    forall k: nat | k < |pages|
      ensures ReadPage(rs, offset, codec, k) == pages[k].data
    {
      ReadBack(rs, offset, base, codec, pds, pages, stream, k);
    }
    forall k: nat | k < |pages| && IsZero(pages[k].data)
      ensures Decode(Read(rs, offset + DESC_SIZE * k, DESC_SIZE)).offset == base
    {
      assert Describes(codec, pds[k], pages[k].data, stream, base);
      DescriptorAt(rs, offset, pds, k);
    }
  }

  /** The zero page goes first. */
  lemma {:induction false} ZeroFirst(desc: DataCache, data: DataCache, codec: Codec, ps: nat, n: nat)
    requires desc.Valid() && data.Valid() && data.base == desc.base + DESC_SIZE * n
    requires desc.stream == [] && |data.stream| == ps && IsZero(data.stream)
    ensures Packed(desc, data, codec, [], [], ps, n)
  {
    hide CacheOk;
    assert data.stream[..ps] == data.stream;
  }

  lemma {:induction false} RoomLeft(done: nat, n: nat, ps: nat, base: nat, stream: nat)
    requires done < n && stream <= (done + 1) * ps && base + (n + 1) * ps < TWO64
    ensures base + stream < TWO64
  {
    MulMono(done + 1, n + 1, ps);
  }

  lemma {:induction false} PageSize(blocks: seq<Block>, ps: nat, k: nat)
    requires MemoryOk(blocks, ps) && k < |AllPages(blocks, ps)|
    ensures |AllPages(blocks, ps)[k].data| == ps
  {
    hide AllPages, InSome;
    AllPagesOk(blocks, ps);
  }

  /** The two caches, with the shared zero page already in the data cache. */
  method StartPages(file: Vmcore, ps: nat, offsetDesc: nat, offsetData: nat, ghost codec: Codec, ghost n: nat)
    returns (desc: DataCache, data: DataCache)
    requires offsetData == offsetDesc + DESC_SIZE * n
    modifies file
    ensures fresh(desc) && fresh(data) && fresh(desc.buf) && fresh(data.buf) && Apart(desc, data, file)
    ensures desc.buf.Length == data.buf.Length == 4 * ps && desc.base == offsetDesc && data.base == offsetData
    ensures Packed(desc, data, codec, [], [], ps, n) && |data.stream| == ps
    ensures SameBelow(old(file.records), file.records, offsetDesc)
  {
    hide CacheOk, SameOutside, SameBelow, IsZero, AllDescribed, EncodeAll;
    desc := new DataCache(file, 4 * ps, offsetDesc);
    data := new DataCache(file, 4 * ps, offsetData);
    var zero: seq<Byte> := seq(ps, _ => 0);
    Zeros(zero);
    ghost var start := file.records;
    data.WriteCache(zero, false);
    BelowRefl(start, offsetDesc);
    BelowTrans(start, start, file.records, offsetDesc, data.base, data.base);
    CacheKept(start, file.records, desc.base, [], [], desc.offset, data.base, data.base);
    assert [] + zero == zero && desc.buf[..0] == [];
    ZeroFirst(desc, data, codec, ps, n);
  }

  /**
   * The page area: following descriptor k gives page k, zero pages share one slot, and nothing before the page
   * area is written. The cache must hold a descriptor and offsets must fit 64 bits.
   */
  method WriteDumpPages(file: Vmcore, blocks: seq<Block>, ps: nat, codec: Codec, offsetPage: nat, numDumpable: nat)
    returns (writtenSize: nat)
    requires MemoryOk(blocks, ps) && CodecOk(codec) && numDumpable == |AllPages(blocks, ps)|
    requires DESC_SIZE <= 4 * ps && ps < TWO32
    requires offsetPage + DESC_SIZE * numDumpable + (numDumpable + 1) * ps < TWO64
    modifies file
    ensures Decodes(file.records, offsetPage, codec, AllPages(blocks, ps))
    ensures ZerosShared(file.records, offsetPage, AllPages(blocks, ps))
    ensures SameBelow(old(file.records), file.records, offsetPage)
    ensures writtenSize == numDumpable * ps
  {
    hide CacheOk, SameOutside, SameBelow, CodecOk, AllDescribed, IsZero, EncodeAll, AllPages, Progress, Decodes,
         ZerosShared, Stored;
    var offsetDesc := offsetPage;
    var offsetData := offsetDesc + DESC_SIZE * numDumpable;
    var pdZero := PageDescriptor(offsetData, ps, 0, 0);
    ghost var start := file.records;
    var desc, data := StartPages(file, ps, offsetDesc, offsetData, codec, numDumpable);
    offsetData := offsetData + ps;
    writtenSize := 0;
    ghost var done: seq<Page>, pds: seq<PageDescriptor> := [], [];
    var more, c, page := FirstPage(blocks, ps);
    Bounded(blocks, ps, done, more, c, page);
    while more
      invariant Progress(blocks, ps, done, more, c, page) && |done| <= numDumpable
      invariant |pds| == |done| && writtenSize == |done| * ps
      invariant !more ==> done == AllPages(blocks, ps)
      invariant Apart(desc, data, file) && fresh(desc) && fresh(data) && fresh(desc.buf) && fresh(data.buf)
      invariant Packed(desc, data, codec, pds, done, ps, numDumpable)
      invariant offsetData == data.base + |data.stream|
      invariant SameBelow(start, file.records, offsetPage)
      decreases numDumpable - |done| + if more then 1 else 0
    {
      Current(blocks, ps, done, c, page);
      PageSize(blocks, ps, |done|);
      RoomLeft(|done|, numDumpable, ps, data.base, |data.stream|);
      ghost var rs := file.records;
      var pd;
      pd, offsetData := WritePage(file, desc, data, codec, page, pdZero, offsetData, ps, numDumpable, pds, done);
      BelowTrans2(start, rs, file.records, offsetPage);
      MulSucc(|done|, ps);
      writtenSize := writtenSize + ps;
      ghost var before := done;
      pds, done := pds + [pd], done + [page];
      more, c, page := NextPage(blocks, ps, before, c, page);
      Bounded(blocks, ps, done, more, c, page);
    }
    FinishPages(file, desc, data, codec, pds, done, ps, start);
  }

  lemma {:induction false} Zeros(s: seq<Byte>)
    requires forall i :: 0 <= i < |s| ==> s[i] == 0
    ensures IsZero(s)
  {
  }

  /** The final syncs. */
  method FinishPages(file: Vmcore, desc: DataCache, data: DataCache, ghost codec: Codec,
                     ghost pds: seq<PageDescriptor>, ghost pages: seq<Page>, ghost ps: nat, ghost start: seq<Record>)
    requires Apart(desc, data, file) && Packed(desc, data, codec, pds, pages, ps, |pages|)
    requires SameBelow(start, file.records, desc.base)
    modifies file, desc, data, desc.buf, data.buf
    ensures Decodes(file.records, desc.base, codec, pages) && ZerosShared(file.records, desc.base, pages)
    ensures SameBelow(start, file.records, desc.base)
  {
    hide CacheOk, At, Stored, SameOutside, SameBelow, AllDescribed, IsZero, EncodeAll, Decodes, ZerosShared;
    ghost var rs0, d0, s0 := file.records, desc.stream, data.stream;
    desc.WriteCache([], true);
    ghost var rs1 := file.records;
    assert d0 + [] == d0;
    CacheKept(rs0, rs1, data.base, s0, data.buf[..data.dataSize], data.offset, desc.base, desc.base + |d0|);
    BelowTrans(start, rs0, rs1, desc.base, desc.base, desc.base + |d0|);
    data.WriteCache([], true);
    assert s0 + [] == s0;
    StoredKept(rs1, file.records, desc.base, d0, data.base, data.base + |s0|);
    BelowTrans(start, rs1, file.records, desc.base, data.base, data.base + |s0|);
    AllReadBack(file.records, desc.base, codec, pds, pages, s0);
  }
}
