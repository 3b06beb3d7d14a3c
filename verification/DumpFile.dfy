/** A flattened vmcore: a list of (offset, bytes) records, replayed in order by its reader. */
module DumpFile {

  import opened Common
  import opened GuestMemory

  datatype Record = Record(offset: nat, data: seq<Byte>)

  /** The byte at a file position once all records are replayed; the last write wins. */
  ghost function At(rs: seq<Record>, p: nat): Option<Byte> {
    if rs == [] then None
    else
      var r := rs[|rs| - 1];
      if r.offset <= p < r.offset + |r.data| then Some(r.data[p - r.offset]) else At(rs[..|rs| - 1], p)
  }

  lemma {:induction false} AtAppend(rs: seq<Record>, r: Record, p: nat)
    ensures At(rs + [r], p) == if r.offset <= p < r.offset + |r.data| then Some(r.data[p - r.offset]) else At(rs, p)
  {
    assert (rs + [r])[..|rs|] == rs;
  }

  /** Nothing outside lo <= p < hi differs. */
  ghost predicate SameOutside(a: seq<Record>, b: seq<Record>, lo: nat, hi: nat) {
    forall p: nat :: p < lo || hi <= p ==> At(a, p) == At(b, p)
  }

  lemma {:induction false} AppendOutside(rs: seq<Record>, r: Record)
    ensures SameOutside(rs, rs + [r], r.offset, r.offset + |r.data|)
  {
    forall p: nat | p < r.offset || r.offset + |r.data| <= p
      ensures At(rs, p) == At(rs + [r], p)
    {
      AtAppend(rs, r, p);
    }
  }

  /** The bytes of data are in the file, starting at off. */
  ghost predicate Stored(rs: seq<Record>, off: nat, data: seq<Byte>) {
    forall i: nat :: i < |data| ==> StoredAt(rs, off, data, i)
  }

  ghost predicate StoredAt(rs: seq<Record>, off: nat, data: seq<Byte>, i: nat)
    requires i < |data|
  {
    At(rs, off + i) == Some(data[i])
  }

  lemma {:induction false} StoredKept(a: seq<Record>, b: seq<Record>, off: nat, data: seq<Byte>, lo: nat, hi: nat)
    requires Stored(a, off, data) && SameOutside(a, b, lo, hi) && (off + |data| <= lo || hi <= off)
    ensures Stored(b, off, data)
  {
    forall i: nat | i < |data|
      ensures StoredAt(b, off, data, i)
    {
      assert StoredAt(a, off, data, i);
    }
  }

  /** Writing right behind stored bytes extends them. */
  lemma {:induction false} StoredAppend(rs: seq<Record>, off: nat, data: seq<Byte>, more: seq<Byte>)
    requires Stored(rs, off, data)
    ensures Stored(rs + [Record(off + |data|, more)], off, data + more)
  {
    var r := Record(off + |data|, more);
    forall i: nat | i < |data + more|
      ensures StoredAt(rs + [r], off, data + more, i)
    {
      AtAppend(rs, r, off + i);
      if i < |data| {
        assert StoredAt(rs, off, data, i);
      }
    }
  }

  lemma {:induction false} StoredPart(rs: seq<Record>, off: nat, data: seq<Byte>, from: nat, n: nat)
    requires Stored(rs, off, data) && from + n <= |data|
    ensures Stored(rs, off + from, data[from..from + n])
  {
    var part, base := data[from..from + n], off + from;
    forall i: nat | i < |part|
      ensures StoredAt(rs, base, part, i)
    {
      assert StoredAt(rs, off, data, from + i);
    }
  }

  /** What a reader gets for n bytes at off; holes read as zero. */
  ghost function Read(rs: seq<Record>, off: nat, n: nat): (s: seq<Byte>)
    ensures |s| == n
  {
    seq(n, i requires 0 <= i < n => match At(rs, off + i) case Some(b) => b case None => 0)
  }

  lemma {:induction false} ReadStored(rs: seq<Record>, off: nat, data: seq<Byte>)
    requires Stored(rs, off, data)
    ensures Read(rs, off, |data|) == data
  {
    forall i: nat | i < |data|
      ensures Read(rs, off, |data|)[i] == data[i]
    {
      assert StoredAt(rs, off, data, i);
    }
  }

  class Vmcore {
    var records: seq<Record>

    constructor ()
      ensures records == []
    {
      records := [];
    }

    method WriteBuffer(offset: nat, data: seq<Byte>)
      modifies this
      ensures records == old(records) + [Record(offset, data)]
    {
      records := records + [Record(offset, data)];
    }
  }
}
