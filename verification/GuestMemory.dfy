/** Guest physical memory as the dump writers see it. */
module GuestMemory {

  import opened Common

  type Byte = bv8

  /** Guest physical range [start, end) and the bytes behind it. */
  datatype GuestPhysBlock = GuestPhysBlock(start: nat, end: nat, host: seq<Byte>)

  /** Blocks are not empty and have their bytes. */
  type Block = b: GuestPhysBlock | b.start < b.end && |b.host| == b.end - b.start
    witness GuestPhysBlock(0, 1, [0])

  /** Blocks in ascending order without overlap. */
  ghost predicate BlocksOk(blocks: seq<Block>) {
    forall i, j :: 0 <= i < j < |blocks| ==> blocks[i].end <= blocks[j].start
  }

  /** The byte at a guest physical address. */
  ghost function GuestByte(blocks: seq<Block>, addr: nat): Option<Byte> {
    if blocks == [] then None
    else
      var b := blocks[|blocks| - 1];
      if b.start <= addr < b.end then Some(b.host[addr - b.start]) else GuestByte(blocks[..|blocks| - 1], addr)
  }

  lemma {:induction false} GuestByteIs(blocks: seq<Block>, i: nat, addr: nat)
    requires BlocksOk(blocks) && i < |blocks| && blocks[i].start <= addr < blocks[i].end
    ensures GuestByte(blocks, addr) == Some(blocks[i].host[addr - blocks[i].start])
  {
    if i < |blocks| - 1 {
      GuestByteIs(blocks[..|blocks| - 1], i, addr);
    }
  }
}
