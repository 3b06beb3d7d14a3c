/** The memory part of an ELF core: the writer's loop and the offsets computed for the program headers. */
module ElfDump {

  import opened Common
  import opened GuestMemory

  /** has_filter, begin and length. */
  datatype Filter = NoFilter | Range(begin: nat, length: nat)

  /** The filter selects nothing of the block. */
  predicate Outside(b: Block, f: Filter) {
    f.Range? && (b.start >= f.begin + f.length || b.end <= f.begin)
  }

  /** The part of a block that the filter selects; empty when lo >= hi. */
  function Lo(b: Block, f: Filter): int { if f.NoFilter? then b.start else Max(f.begin, b.start) }
  function Hi(b: Block, f: Filter): int { if f.NoFilter? then b.end else Min(f.begin + f.length, b.end) }

  function Part(b: Block, f: Filter): seq<Byte> {
    if Outside(b, f) || Lo(b, f) >= Hi(b, f) then [] else b.host[Lo(b, f) - b.start..Hi(b, f) - b.start]
  }

  /** What the memory part of the file must hold: the selected parts one after the other. */
  ghost function Image(blocks: seq<Block>, f: Filter): seq<Byte> {
    if blocks == [] then [] else Image(blocks[..|blocks| - 1], f) + Part(blocks[|blocks| - 1], f)
  }

  lemma {:induction false} ImageLast(blocks: seq<Block>, f: Filter)
    requires blocks != []
    ensures Image(blocks, f) == Image(blocks[..|blocks| - 1], f) + Part(blocks[|blocks| - 1], f)
  {
  }

  lemma {:induction false} ImageConcat(a: seq<Block>, b: seq<Block>, f: Filter)
    ensures Image(a + b, f) == Image(a, f) + Image(b, f)
  {
    if b == [] {
      ConcatNothing(a, b);
      assert Image(b, f) == [];
    } else {
      hide Image, Part;
      var init, last := b[..|b| - 1], b[|b| - 1];
      ConcatLast(a, b);
      calc {
        Image(a + b, f);
        { ImageLast(a + b, f); }
        Image(a + init, f) + Part(last, f);
        { ImageConcat(a, init, f); }
        (Image(a, f) + Image(init, f)) + Part(last, f);
        { Assoc(Image(a, f), Image(init, f), Part(last, f)); }
        Image(a, f) + (Image(init, f) + Part(last, f));
        { ImageLast(b, f); }
        Image(a, f) + Image(b, f);
      }
    }
  }

  lemma {:induction false} ImageOutside(blocks: seq<Block>, f: Filter)
    requires forall i :: 0 <= i < |blocks| ==> Outside(blocks[i], f)
    ensures Image(blocks, f) == []
  {
    if blocks != [] {
      ImageOutside(blocks[..|blocks| - 1], f);
    }
  }

  lemma {:induction false} ImageNext(blocks: seq<Block>, f: Filter, i: nat)
    requires i < |blocks|
    ensures Image(blocks[..i + 1], f) == Image(blocks[..i], f) + Part(blocks[i], f)
  {
    assert blocks[..i + 1][..i] == blocks[..i];
  }

  lemma {:induction false} ImageEmpty(blocks: seq<Block>, f: Filter)
    ensures Image(blocks[..0], f) == []
  {
  }

  lemma {:induction false} PartSize(b: Block, f: Filter)
    ensures |Part(b, f)| == Max(Hi(b, f) - Lo(b, f), 0)
    ensures !Outside(b, f) ==> b.start <= Lo(b, f) && Hi(b, f) <= b.end
    ensures Outside(b, f) ==> Lo(b, f) >= Hi(b, f)
  {
  }

  /** dump_calculate_size. */
  method DumpCalculateSize(blocks: seq<Block>, f: Filter) returns (total: int)
    requires BlocksOk(blocks)
    ensures total == |Image(blocks, f)|
  {
    hide Image, Part;
    ImageEmpty(blocks, f);
    total := 0;
    for i := 0 to |blocks|
      invariant total == |Image(blocks[..i], f)|
    {
      ImageNext(blocks, f, i);
      var b := blocks[i];
      var size;
      if f.Range? {
        var left := Max(f.begin, b.start);
        var right := Min(f.begin + f.length, b.end);
        size := right - left;
        size := if size > 0 then size else 0;
      } else {
        size := b.end - b.start;
      }
      PartSize(b, f);
      total := total + size;
    }
    assert blocks[..|blocks|] == blocks;
  }

  /** Where the mapping of [phys, phys + length) is found in the file. */
  method GetOffsetRange(blocks: seq<Block>, f: Filter, memoryOffset: nat, phys: nat, length: nat)
    returns (offset: Option<nat>, filesz: nat)
    requires BlocksOk(blocks)
    ensures offset.None? <==> forall i :: 0 <= i < |blocks| ==> !(Lo(blocks[i], f) <= phys < Hi(blocks[i], f))
    ensures offset.None? ==> filesz == 0
    ensures offset.Some? ==> exists i :: Located(blocks, f, memoryOffset, phys, length, i, offset.value, filesz)
  {
    hide Image, Part;
    ImageEmpty(blocks, f);
    offset, filesz := None, 0;
    if f.Range? && (phys < f.begin || phys >= f.begin + f.length) {
      return;
    }
    var off := memoryOffset;
    for i := 0 to |blocks|
      invariant off == memoryOffset + |Image(blocks[..i], f)|
      invariant forall j :: 0 <= j < i ==> !(Lo(blocks[j], f) <= phys < Hi(blocks[j], f))
    {
      ImageNext(blocks, f, i);
      var b := blocks[i];
      PartSize(b, f);
      var start, size;
      if f.Range? {
        if Outside(b, f) {
          continue;
        }
        start := if f.begin <= b.start then b.start else f.begin;
        size := b.end - start;
        if f.begin + f.length < b.end {
          size := size - (b.end - (f.begin + f.length));
        }
      } else {
        start := b.start;
        size := b.end - b.start;
      }
      assert start == Lo(b, f) && start + size == Hi(b, f);
      if start <= phys < start + size {
        offset := Some(phys - start + off);
        filesz := if phys + length <= start + size then length else size - (phys - start);
        assert Located(blocks, f, memoryOffset, phys, length, i, offset.value, filesz);
        return;
      }
      off := off + size;
    }
  }

  /** phys lies in the selected part of block i, whose image starts where the earlier parts end. */
  ghost predicate Located(blocks: seq<Block>, f: Filter, memoryOffset: nat, phys: nat, length: nat, i: int,
                          offset: nat, filesz: nat)
    requires BlocksOk(blocks)
  {
    && 0 <= i < |blocks| && Lo(blocks[i], f) <= phys < Hi(blocks[i], f)
    && offset == memoryOffset + |Image(blocks[..i], f)| + phys - Lo(blocks[i], f)
    && filesz == Min(length, Hi(blocks[i], f) - phys)
  }

  lemma {:induction false} ImageAround(blocks: seq<Block>, f: Filter, i: nat)
    requires i < |blocks|
    ensures Image(blocks, f) == (Image(blocks[..i], f) + Part(blocks[i], f)) + Image(blocks[i + 1..], f)
  {
    hide Image, Part;
    assert blocks == blocks[..i + 1] + blocks[i + 1..];
    ImageConcat(blocks[..i + 1], blocks[i + 1..], f);
    ImageNext(blocks, f, i);
  }

  lemma {:induction false} PartAt(b: Block, f: Filter, j: nat)
    requires Lo(b, f) + j < Hi(b, f)
    ensures j < |Part(b, f)| && b.start <= Lo(b, f) + j < b.end && Part(b, f)[j] == b.host[Lo(b, f) + j - b.start]
  {
  }

  lemma {:induction false} MiddleAt<T>(a: seq<T>, b: seq<T>, c: seq<T>, j: nat)
    requires j < |b|
    ensures |a| + j < |(a + b) + c| && ((a + b) + c)[|a| + j] == b[j]
  {
  }

  /** The file bytes that a program header points to are the guest bytes of its mapping. */
  lemma {:induction false} OffsetsAgree(blocks: seq<Block>, f: Filter, memoryOffset: nat, phys: nat, length: nat,
                                        i: int, offset: nat, filesz: nat, k: nat)
    requires BlocksOk(blocks) && Located(blocks, f, memoryOffset, phys, length, i, offset, filesz) && k < filesz
    ensures var at := offset - memoryOffset + k; at < |Image(blocks, f)| && GuestByte(blocks, phys + k) == Some(Image(blocks, f)[at])
  {
    hide Image, Part, GuestByte, BlocksOk;
    var b, j := blocks[i], phys + k - Lo(blocks[i], f);
    ImageAround(blocks, f, i);
    PartAt(b, f, j);
    MiddleAt(Image(blocks[..i], f), Part(b, f), Image(blocks[i + 1..], f), j);
    GuestByteIs(blocks, i, phys + k);
  }

  /** The writer's side of DumpState. */
  class ElfWriter {
    const blocks: seq<Block>
    const filter: Filter
    const pageSize: nat
    var start: int
    var nextBlock: nat
    var file: seq<Byte>
    var writtenSize: nat

    ghost predicate Valid()
      reads this
    {
      BlocksOk(blocks) && pageSize > 0
    }

    /** s->start and s->next_block describe where the selected part of the block begins. */
    ghost predicate Positioned()
      reads this
      requires Valid()
    {
      nextBlock < |blocks| && !Outside(blocks[nextBlock], filter) &&
        start == Lo(blocks[nextBlock], filter) - blocks[nextBlock].start
    }

    constructor (blocks: seq<Block>, filter: Filter, pageSize: nat)
      requires BlocksOk(blocks) && pageSize > 0
      ensures Valid() && this.blocks == blocks && this.filter == filter && file == [] && writtenSize == 0
    {
      this.blocks, this.filter, this.pageSize := blocks, filter, pageSize;
      start, nextBlock, file, writtenSize := 0, 0, [], 0;
    }

    /** get_start_block; false stands for the result -1. */
    method GetStartBlock() returns (ok: bool)
      requires Valid() && blocks != []
      modifies this`start, this`nextBlock
      ensures ok ==> Positioned() && Image(blocks[..nextBlock], filter) == []
      ensures !ok ==> Image(blocks, filter) == []
    {
      if filter.NoFilter? {
        nextBlock, start := 0, 0;
        return true;
      }
      for i := 0 to |blocks|
        invariant forall j :: 0 <= j < i ==> Outside(blocks[j], filter)
      {
        if Outside(blocks[i], filter) {
          continue;
        }
        nextBlock := i;
        start := if filter.begin > blocks[i].start then filter.begin - blocks[i].start else 0;
        ImageOutside(blocks[..i], filter);
        return true;
      }
      ImageOutside(blocks, filter);
      return false;
    }

    /** get_next_block: true while there is another block to write. */
    method GetNextBlock() returns (more: bool)
      requires Valid() && Positioned()
      modifies this`start, this`nextBlock
      ensures more ==> Positioned() && old(nextBlock) < nextBlock
      ensures more ==> Image(blocks[..nextBlock], filter) == Image(blocks[..old(nextBlock) + 1], filter)
      ensures !more ==> Image(blocks, filter) == Image(blocks[..old(nextBlock) + 1], filter)
    {
      hide Image, Part;
      ghost var from := nextBlock + 1;
      var block := nextBlock;
      while true
        invariant old(nextBlock) <= block < |blocks|
        invariant forall j :: from <= j <= block ==> Outside(blocks[j], filter)
        decreases |blocks| - block
      {
        block := block + 1;
        if block == |blocks| {
          SkipOutside(blocks, filter, from, |blocks|);
          assert blocks[..|blocks|] == blocks;
          return false;
        }
        start, nextBlock := 0, block;
        if filter.Range? {
          if Outside(blocks[block], filter) {
            continue;
          }
          if filter.begin > blocks[block].start {
            assert false;
          }
        }
        SkipOutside(blocks, filter, from, block);
        return true;
      }
    }

    /** write_memory: one page per write, then the remainder. */
    method WriteMemory(from: nat, size: nat)
      requires Valid() && nextBlock < |blocks| && from + size <= |blocks[nextBlock].host|
      modifies this`file, this`writtenSize
      ensures file == old(file) + blocks[nextBlock].host[from..from + size] && writtenSize == old(writtenSize) + size
    {
      var host := blocks[nextBlock].host;
      var i := 0;
      while i < size / pageSize
        invariant 0 <= i <= size / pageSize && 0 <= i * pageSize <= size
        invariant file == old(file) + host[from..from + i * pageSize] && writtenSize == old(writtenSize) + i * pageSize
      {
        PageStep(i, size, pageSize);
        file := file + host[from + i * pageSize..from + i * pageSize + pageSize];
        writtenSize := writtenSize + pageSize;
        i := i + 1;
      }
      PageTotal(size, pageSize);
      if size % pageSize != 0 {
        file := file + host[from + i * pageSize..from + i * pageSize + size % pageSize];
        writtenSize := writtenSize + size % pageSize;
      }
    }

    /** dump_iterate. */
    method DumpIterate()
      requires Valid() && Positioned() && Image(blocks[..nextBlock], filter) == []
      modifies this`file, this`writtenSize, this`start, this`nextBlock
      ensures file == old(file) + Image(blocks, filter)
      ensures writtenSize == old(writtenSize) + |Image(blocks, filter)|
    {
      hide Image, Part, Outside, Lo, Hi, BlocksOk;
      var more := true;
      ghost var done: seq<Byte> := [];
      while more
        invariant more ==> Positioned() && done == Image(blocks[..nextBlock], filter)
        invariant !more ==> done == Image(blocks, filter)
        invariant file == old(file) + done && writtenSize == old(writtenSize) + |done|
        decreases if more then |blocks| - nextBlock else 0, more
      {
        var b := blocks[nextBlock];
        var size := b.end - b.start;
        if filter.Range? {
          size := size - start;
          if filter.begin + filter.length < b.end {
            size := size - (b.end - (filter.begin + filter.length));
          }
        }
        SelectedPart(b, filter, start, size);
        ImageNext(blocks, filter, nextBlock);
        WriteMemory(start, size);
        done := done + Part(b, filter);
        more := GetNextBlock();
      }
    }
  }

  /** The memory part of a dump: refused when nothing is selected, complete otherwise. */
  method DumpMemory(w: ElfWriter) returns (ok: bool)
    requires w.Valid() && w.blocks != [] && w.file == [] && w.writtenSize == 0
    modifies w
    ensures ok <==> Image(w.blocks, w.filter) != []
    ensures ok ==> w.file == Image(w.blocks, w.filter) && w.writtenSize == |Image(w.blocks, w.filter)|
  {
    hide Image;
    var total := DumpCalculateSize(w.blocks, w.filter);
    if total == 0 {
      return false;
    }
    ok := w.GetStartBlock();
    if ok {
      w.DumpIterate();
    }
  }

  /** The start and size dump_iterate computes select exactly the block's part. */
  lemma {:induction false} SelectedPart(b: Block, f: Filter, start: int, size: int)
    requires !Outside(b, f) && start == Lo(b, f) - b.start
    requires size == (b.end - b.start) - (if f.Range? then start else 0) -
                     (if f.Range? && f.begin + f.length < b.end then b.end - (f.begin + f.length) else 0)
    ensures 0 <= start && 0 <= size && start + size <= |b.host| && Part(b, f) == b.host[start..start + size]
  {
  }

  lemma {:induction false} SkipOutside(blocks: seq<Block>, f: Filter, from: nat, to: nat)
    requires BlocksOk(blocks) && from <= to <= |blocks| && forall j :: from <= j < to ==> Outside(blocks[j], f)
    ensures Image(blocks[..to], f) == Image(blocks[..from], f)
  {
    assert blocks[..to] == blocks[..from] + blocks[from..to];
    ImageConcat(blocks[..from], blocks[from..to], f);
    ImageOutside(blocks[from..to], f);
  }

  lemma {:induction false} PageStep(i: nat, size: nat, ps: nat)
    requires ps > 0 && i < size / ps
    ensures i * ps + ps <= size && (i + 1) * ps == i * ps + ps
  {
    assert (i + 1) * ps <= size / ps * ps <= size;
  }

  lemma {:induction false} PageTotal(size: nat, ps: nat)
    requires ps > 0
    ensures size / ps * ps + size % ps == size
  {
  }
}
