/** Packet framing of the GDB stub: the encoder, and the byte-at-a-time decoder with its buffer. */
module GdbPacket {

  import opened Arith
  import opened Common

  type Byte = n: nat | n < 256

  const MAX_PACKET_LENGTH: nat := 4096
  /** The size of last_packet. */
  const LAST_PACKET_SIZE: nat := MAX_PACKET_LENGTH + 4

  const DOLLAR: Byte := 0x24
  const HASH: Byte := 0x23
  const STAR: Byte := 0x2A
  const BRACE: Byte := 0x7D
  const PLUS: Byte := 0x2B
  const MINUS: Byte := 0x2D
  const SPACE: Byte := 0x20

  /** c ^ 0x20 */
  function Flip(c: Byte): (r: Byte)
    ensures r != c && (r / 0x20) % 2 != (c / 0x20) % 2 && r % 0x20 == c % 0x20
  {
    if (c / 0x20) % 2 == 1 then c - 0x20 else c + 0x20
  }

  lemma {:induction false} FlipFlip(c: Byte)
    ensures Flip(Flip(c)) == c
  {
  }

  function ToHex(v: nat): Byte
    requires v < 16
  {
    if v < 10 then v + 0x30 else v - 10 + 0x61
  }

  function FromHex(v: Byte): nat {
    if 0x30 <= v <= 0x39 then v - 0x30
    else if 0x41 <= v <= 0x46 then v - 0x41 + 10
    else if 0x61 <= v <= 0x66 then v - 0x61 + 10
    else 0
  }

  predicate IsXDigit(v: Byte) {
    0x30 <= v <= 0x39 || 0x41 <= v <= 0x46 || 0x61 <= v <= 0x66
  }

  lemma {:induction false} HexRoundTrip(v: nat)
    requires v < 16
    ensures IsXDigit(ToHex(v)) && FromHex(ToHex(v)) == v
  {
  }

  // ---------------------------------------------------------------- encoder

  predicate Special(c: Byte) {
    c == HASH || c == DOLLAR || c == STAR || c == BRACE
  }

  function EscapeByte(c: Byte): seq<Byte> {
    if Special(c) then [BRACE, Flip(c)] else [c]
  }

  function Escape(mem: seq<Byte>): seq<Byte> {
    if mem == [] then [] else Escape(mem[..|mem| - 1]) + EscapeByte(mem[|mem| - 1])
  }

  /** memtox. */
  method MemToX(mem: seq<Byte>) returns (buf: seq<Byte>)
    ensures buf == Escape(mem)
  {
    buf := [];
    var i := 0;
    while i < |mem|
      invariant 0 <= i <= |mem| && buf == Escape(mem[..i])
    {
      assert mem[..i + 1][..i] == mem[..i];
      var c := mem[i];
      if Special(c) {
        buf := buf + [BRACE];
        buf := buf + [Flip(c)];
        assert buf == Escape(mem[..i]) + [BRACE, Flip(c)];
      } else {
        buf := buf + [c];
      }
      i := i + 1;
    }
    assert mem[..|mem|] == mem;
  }

  /** A byte read through a signed char. */
  function SChar(b: Byte): int { if b >= 128 then b - 256 else b }

  function SignedSum(bs: seq<Byte>): int {
    if bs == [] then 0 else SignedSum(bs[..|bs| - 1]) + SChar(bs[|bs| - 1])
  }

  function Sum(bs: seq<Byte>): nat {
    if bs == [] then 0 else Sum(bs[..|bs| - 1]) + bs[|bs| - 1]
  }

  /** Summing signed chars gives the same checksum as summing bytes. */
  lemma {:induction false} SignedSumMod(bs: seq<Byte>)
    ensures SignedSum(bs) % 256 == Sum(bs) % 256
  {
    if bs != [] {
      var init := bs[..|bs| - 1];
      SignedSumMod(init);
      SignedMod(SignedSum(init), Sum(init), bs[|bs| - 1]);
    }
  }

  lemma {:induction false} SignedMod(a: int, b: int, x: Byte)
    requires a % 256 == b % 256
    ensures (a + SChar(x)) % 256 == (b + x) % 256
  {
    var k := a / 256 - b / 256 - (if x >= 128 then 1 else 0);
    assert a + SChar(x) == b + x + k * 256;
    DivModUnique(a + SChar(x), 256, (b + x) / 256 + k, (b + x) % 256);
  }

  /** '$', the payload, '#' and the two checksum digits. */
  function Frame(buf: seq<Byte>): seq<Byte> {
    [DOLLAR] + buf + [HASH, ToHex(Sum(buf) % 256 / 16), ToHex(Sum(buf) % 16)]
  }

  /** The checksum loop. */
  method Checksum(buf: seq<Byte>) returns (csum: int)
    ensures csum / 16 % 16 == Sum(buf) % 256 / 16 && csum % 16 == Sum(buf) % 16
  {
    csum := 0;
    for i := 0 to |buf|
      invariant csum == SignedSum(buf[..i])
    {
      assert buf[..i + 1][..i] == buf[..i];
      csum := csum + SChar(buf[i]);
    }
    assert buf[..|buf|] == buf;
    SignedSumMod(buf);
    LowDigits(csum, Sum(buf));
  }

  /**
   * put_packet_binary: the packet is built in last_packet, whose size nothing checks. A write beyond the array ends
   * the model's run of it with inBounds false, which happens exactly when the text is longer than MAX_PACKET_LENGTH.
   */
  method PutPacketBinary(last: array<Byte>, buf: seq<Byte>) returns (inBounds: bool, len: nat)
    requires last.Length == LAST_PACKET_SIZE
    modifies last
    ensures inBounds <==> |buf| <= MAX_PACKET_LENGTH
    ensures inBounds ==> len == |buf| + 4 && last[..len] == Frame(buf)
  {
    hide Sum, ToHex, SignedSum;
    len := 0;
    last[0] := DOLLAR;
    if 1 + |buf| > last.Length {
      return false, len;
    }
    forall i | 1 <= i <= |buf| { last[i] := buf[i - 1]; }
    var csum := Checksum(buf);
    var p := 1 + |buf|;
    if p + 3 > last.Length {
      return false, len;
    }
    last[p] := HASH;
    last[p + 1] := ToHex(csum / 16 % 16);
    last[p + 2] := ToHex(csum % 16);
    inBounds, len := true, p + 3;
    Framed(last[..len], buf);
  }

  lemma {:induction false} Framed(packet: seq<Byte>, buf: seq<Byte>)
    requires |packet| == |buf| + 4 && packet[0] == DOLLAR && packet[|buf| + 1] == HASH
    requires forall i :: 1 <= i <= |buf| ==> packet[i] == buf[i - 1]
    requires packet[|buf| + 2] == ToHex(Sum(buf) % 256 / 16) && packet[|buf| + 3] == ToHex(Sum(buf) % 16)
    ensures packet == Frame(buf)
  {
    hide Sum, ToHex;
  }

  /** (csum >> 4) & 0xf and csum & 0xf depend only on csum modulo 256. */
  lemma {:induction false} LowDigits(a: int, b: int)
    requires a % 256 == b % 256
    ensures a / 16 % 16 == b % 256 / 16 && a % 16 == b % 16
  {
    LowDigitsOf(a / 256, a % 256);
    LowDigitsOf(b / 256, b % 256);
  }

  lemma {:induction false} LowDigitsOf(k: int, r: nat)
    requires r < 256
    ensures (k * 256 + r) / 16 % 16 == r / 16 && (k * 256 + r) % 16 == r % 16
  {
    assert (k * 256 + r) / 16 == k * 16 + r / 16;
    assert k * 256 + r == (k * 16 + r / 16) * 16 + r % 16;
  }

  // ---------------------------------------------------------------- decoder, as a function

  datatype RSState = Idle | GetLine | GetLineEsc | GetLineRle | Checksum1 | Checksum2

  /** What the decoder does besides changing its own state. */
  datatype Event = Sent(bytes: seq<Byte>) | StopVm | Handled(line: seq<Byte>)

  /** GDBState as far as gdb_read_byte uses it; `line` is line_buf up to line_buf_index. */
  datatype Parser = Parser(state: RSState, line: seq<Byte>, sum: nat, csum: nat, last: seq<Byte>, out: seq<Event>)

  function Repeat(c: Byte, n: nat): (r: seq<Byte>)
    ensures |r| == n && forall i :: 0 <= i < n ==> r[i] == c
  {
    seq(n, _ => c)
  }

  /** The state switch of gdb_read_byte. */
  function Parse(p: Parser, ch: Byte, reply: seq<Byte>): Parser {
    match p.state
    case Idle =>
      if ch == DOLLAR then p.(line := [], sum := 0, state := GetLine) else p
    case GetLine =>
      if ch == BRACE then p.(state := GetLineEsc, sum := p.sum + ch)
      else if ch == STAR then p.(state := GetLineRle, sum := p.sum + ch)
      else if ch == HASH then p.(state := Checksum1)
      else if |p.line| >= MAX_PACKET_LENGTH - 1 then p.(state := Idle)
      else p.(line := p.line + [ch], sum := p.sum + ch)
    case GetLineEsc =>
      if ch == HASH then p.(state := Checksum1)
      else if |p.line| >= MAX_PACKET_LENGTH - 1 then p.(state := Idle)
      else p.(line := p.line + [Flip(ch)], sum := p.sum + ch, state := GetLine)
    case GetLineRle =>
      if ch < SPACE then p.(state := GetLine)
      else
        var repeat := ch - SPACE + 3;
        if |p.line| + repeat >= MAX_PACKET_LENGTH - 1 then p.(state := Idle)
        else if |p.line| < 1 then p.(state := GetLine)
        else p.(line := p.line + Repeat(p.line[|p.line| - 1], repeat), sum := p.sum + ch, state := GetLine)
    case Checksum1 =>
      if !IsXDigit(ch) then p.(state := GetLine)
      else p.(csum := FromHex(ch) * 16, state := Checksum2)
    case Checksum2 =>
      if !IsXDigit(ch) then p.(state := GetLine)
      else
        var csum := p.csum + FromHex(ch);
        if csum != p.sum % 256 then p.(csum := csum, out := p.out + [Sent([MINUS])], state := Idle)
        else p.(csum := csum, out := p.out + [Sent([PLUS]), Handled(p.line)], last := reply, state := Idle)
  }

  /** gdb_read_byte; `running` is the VM's run state and `reply` what gdb_handle_packet leaves in last_packet. */
  function Step(p: Parser, ch: Byte, running: bool, reply: seq<Byte>): Parser {
    var p1 := if p.last != [] && ch == MINUS then p.(out := p.out + [Sent(p.last)]) else p;
    var p2 := if p.last != [] && (ch == PLUS || ch == DOLLAR) then p1.(last := []) else p1;
    if p.last != [] && ch != DOLLAR then p2
    else if running then p2.(out := p2.out + [StopVm])
    else Parse(p2, ch, reply)
  }

  function Feed(p: Parser, bs: seq<Byte>, reply: seq<Byte>): Parser
    decreases |bs|
  {
    if bs == [] then p else Feed(Step(p, bs[0], false, reply), bs[1..], reply)
  }

  lemma {:induction false} FeedConcat(p: Parser, a: seq<Byte>, b: seq<Byte>, reply: seq<Byte>)
    ensures Feed(p, a + b, reply) == Feed(Feed(p, a, reply), b, reply)
    decreases |a|
  {
    if a == [] {
      assert a + b == b;
    } else {
      assert (a + b)[1..] == a[1..] + b;
      FeedConcat(Step(p, a[0], false, reply), a[1..], b, reply);
    }
  }

  // ---------------------------------------------------------------- decoder, as an object

  class GDBState {
    var state: RSState
    const lineBuf: array<Byte>
    var lineBufIndex: nat
    var lineSum: nat
    var lineCsum: nat
    var lastPacket: seq<Byte>
    var out: seq<Event>

    /** The buffer always has room for the terminating zero. */
    ghost predicate Valid()
      reads this
    {
      lineBuf.Length == MAX_PACKET_LENGTH && lineBufIndex <= MAX_PACKET_LENGTH - 1
    }

    ghost function Abs(): Parser
      reads this, lineBuf
      requires Valid()
    {
      Parser(state, lineBuf[..lineBufIndex], lineSum, lineCsum, lastPacket, out)
    }

    constructor ()
      ensures Valid() && Abs() == Parser(Idle, [], 0, 0, [], []) && fresh(lineBuf)
    {
      lineBuf := new Byte[MAX_PACKET_LENGTH];
      state, lineBufIndex, lineSum, lineCsum, lastPacket, out := Idle, 0, 0, 0, [], [];
    }

    /** gdb_read_byte. */
    method ReadByte(ch: Byte, running: bool, reply: seq<Byte>)
      requires Valid()
      modifies this, lineBuf
      ensures Valid() && Abs() == Step(old(Abs()), ch, running, reply)
    {
      if |lastPacket| != 0 {
        if ch == MINUS {
          out := out + [Sent(lastPacket)];
        }
        if ch == PLUS || ch == DOLLAR {
          lastPacket := [];
        }
        if ch != DOLLAR {
          return;
        }
      }
      if running {
        out := out + [StopVm];
      } else {
        Switch(ch, reply);
      }
    }

    method Switch(ch: Byte, reply: seq<Byte>)
      requires Valid()
      modifies this, lineBuf
      ensures Valid() && Abs() == Parse(old(Abs()), ch, reply)
    {
      match state {
        case Idle =>
          if ch == DOLLAR {
            lineBufIndex, lineSum, state := 0, 0, GetLine;
          }
        case GetLine =>
          if ch == BRACE {
            state, lineSum := GetLineEsc, lineSum + ch;
          } else if ch == STAR {
            state, lineSum := GetLineRle, lineSum + ch;
          } else if ch == HASH {
            state := Checksum1;
          } else if lineBufIndex >= lineBuf.Length - 1 {
            state := Idle;
          } else {
            lineBuf[lineBufIndex] := ch;
            lineBufIndex, lineSum := lineBufIndex + 1, lineSum + ch;
          }
        case GetLineEsc =>
          if ch == HASH {
            state := Checksum1;
          } else if lineBufIndex >= lineBuf.Length - 1 {
            state := Idle;
          } else {
            lineBuf[lineBufIndex] := Flip(ch);
            lineBufIndex, lineSum, state := lineBufIndex + 1, lineSum + ch, GetLine;
          }
        case GetLineRle =>
          if ch < SPACE {
            state := GetLine;
          } else {
            var repeat := ch - SPACE + 3;
            if lineBufIndex + repeat >= lineBuf.Length - 1 {
              state := Idle;
            } else if lineBufIndex < 1 {
              state := GetLine;
            } else {
              Fill(lineBuf[lineBufIndex - 1], repeat);
              lineSum, state := lineSum + ch, GetLine;
            }
          }
        case Checksum1 =>
          if !IsXDigit(ch) {
            state := GetLine;
          } else {
            lineBuf[lineBufIndex] := 0;
            lineCsum, state := FromHex(ch) * 16, Checksum2;
          }
        case Checksum2 =>
          if !IsXDigit(ch) {
            state := GetLine;
          } else {
            lineCsum := lineCsum + FromHex(ch);
            if lineCsum != lineSum % 256 {
              out := out + [Sent([MINUS])];
            } else {
              out := out + [Sent([PLUS]), Handled(lineBuf[..lineBufIndex])];
              lastPacket := reply;
            }
            state := Idle;
          }
      }
    }

    /** memset of the repeated character. */
    method Fill(c: Byte, n: nat)
      requires Valid() && lineBufIndex + n <= MAX_PACKET_LENGTH - 1
      modifies lineBuf, this`lineBufIndex
      ensures Valid() && lineBufIndex == old(lineBufIndex) + n
      ensures lineBuf[..lineBufIndex] == old(lineBuf[..lineBufIndex]) + Repeat(c, n)
    {
      var start := lineBufIndex;
      for i := 0 to n
        invariant lineBuf[..start] == old(lineBuf[..lineBufIndex])
        invariant forall k :: start <= k < start + i ==> lineBuf[k] == c
      {
        lineBuf[start + i] := c;
      }
      lineBufIndex := start + n;
      assert lineBuf[..lineBufIndex] == lineBuf[..start] + lineBuf[start..lineBufIndex];
    }
  }

  // ---------------------------------------------------------------- what a packet body means

  /** The items a body is made of: plain bytes, escaped bytes, and run-length repeats of the last byte. */
  datatype Item = Plain(c: Byte) | Escaped(c: Byte) | Run(n: nat)

  predicate ItemOk(it: Item) {
    match it
    case Plain(c) => c != BRACE && c != STAR && c != HASH
    case Escaped(c) => Flip(c) != HASH
    case Run(n) => 3 <= n <= 226
  }

  function Encode(it: Item): seq<Byte>
    requires ItemOk(it)
  {
    match it
    case Plain(c) => [c]
    case Escaped(c) => [BRACE, Flip(c)]
    case Run(n) => [STAR, n - 3 + SPACE]
  }

  function EncodeAll(items: seq<Item>): seq<Byte>
    requires forall i :: 0 <= i < |items| ==> ItemOk(items[i])
  {
    if items == [] then [] else EncodeAll(items[..|items| - 1]) + Encode(items[|items| - 1])
  }

  /** A line and one item more. */
  function Extend(line: seq<Byte>, it: Item): seq<Byte> {
    match it
    case Plain(c) => line + [c]
    case Escaped(c) => line + [c]
    case Run(n) => if line == [] then line else line + Repeat(line[|line| - 1], n)
  }

  /** The text that the items stand for. */
  function Expand(items: seq<Item>): seq<Byte> {
    if items == [] then [] else Extend(Expand(items[..|items| - 1]), items[|items| - 1])
  }

  /** The line buffer can take the item after `used` bytes. */
  predicate Takes(it: Item, used: nat) {
    if it.Run? then used >= 1 && used + it.n < MAX_PACKET_LENGTH - 1 else used < MAX_PACKET_LENGTH - 1
  }

  /** Every item fits when its turn comes. */
  ghost predicate Fits(items: seq<Item>) {
    forall i :: 0 <= i < |items| ==> ItemOk(items[i]) && Takes(items[i], |Expand(items[..i])|)
  }

  lemma {:induction false} SumConcat(a: seq<Byte>, b: seq<Byte>)
    ensures Sum(a + b) == Sum(a) + Sum(b)
  {
    if b == [] {
      assert a + b == a;
    } else {
      assert (a + b)[..|a + b| - 1] == a + b[..|b| - 1];
      SumConcat(a, b[..|b| - 1]);
    }
  }

  lemma {:induction false} FeedTwo(p: Parser, a: Byte, b: Byte, reply: seq<Byte>)
    ensures Feed(p, [a], reply) == Step(p, a, false, reply)
    ensures Feed(p, [a, b], reply) == Step(Step(p, a, false, reply), b, false, reply)
  {
    assert [a, b][1..] == [b];
    assert Feed(Step(p, a, false, reply), [b], reply) == Step(Step(p, a, false, reply), b, false, reply);
  }

  /** The decoder in the middle of a packet whose bytes so far are `bs` and stand for `line`. */
  function Reading(p: Parser, line: seq<Byte>, sum: nat): Parser {
    p.(state := GetLine, line := line, sum := sum)
  }

  lemma {:induction false} FeedItem(p: Parser, it: Item, line: seq<Byte>, sum: nat, reply: seq<Byte>)
    requires ItemOk(it) && Takes(it, |line|) && p.last == []
    ensures Feed(Reading(p, line, sum), Encode(it), reply) == Reading(p, Extend(line, it), sum + Sum(Encode(it)))
  {
    var q := Reading(p, line, sum);
    match it {
      case Plain(c) =>
        FeedTwo(q, c, c, reply);
        SumTwo(c, c);
      case Escaped(c) =>
        FlipFlip(c);
        FeedTwo(q, BRACE, Flip(c), reply);
        SumTwo(BRACE, Flip(c));
      case Run(n) =>
        FeedTwo(q, STAR, n - 3 + SPACE, reply);
        SumTwo(STAR, n - 3 + SPACE);
    }
  }

  lemma {:induction false} SumTwo(a: Byte, b: Byte)
    ensures Sum([a]) == a && Sum([a, b]) == a + b
  {
    assert [a][..0] == [] && [a, b][..1] == [a];
  }

  /** All but the last of items that fit, fit. */
  lemma {:induction false} FitsInit(items: seq<Item>)
    requires Fits(items) && items != []
    ensures Fits(items[..|items| - 1]) && ItemOk(items[|items| - 1])
    ensures Takes(items[|items| - 1], |Expand(items[..|items| - 1])|)
  {
    hide Expand, Takes, ItemOk;
    var init := items[..|items| - 1];
    forall i | 0 <= i < |init|
      ensures ItemOk(init[i]) && Takes(init[i], |Expand(init[..i])|)
    {
      assert init[i] == items[i] && init[..i] == items[..i];
    }
  }

  lemma {:induction false} EncodeLast(items: seq<Item>)
    requires items != [] && forall i :: 0 <= i < |items| ==> ItemOk(items[i])
    ensures EncodeAll(items) == EncodeAll(items[..|items| - 1]) + Encode(items[|items| - 1])
  {
  }

  lemma {:induction false} ExpandLast(items: seq<Item>)
    requires items != []
    ensures Expand(items) == Extend(Expand(items[..|items| - 1]), items[|items| - 1])
  {
  }

  lemma {:induction false} NoItems(p: Parser, reply: seq<Byte>)
    ensures EncodeAll([]) == [] && Expand([]) == [] && Sum([]) == 0 && Feed(p, [], reply) == p
  {
  }

  /** Feeding the encoding of items that fit leaves exactly their expansion in the buffer. */
  lemma {:induction false} FeedItems(p: Parser, items: seq<Item>, reply: seq<Byte>)
    requires Fits(items) && p.last == []
    ensures Feed(Reading(p, [], 0), EncodeAll(items), reply) == Reading(p, Expand(items), Sum(EncodeAll(items)))
  {
    hide Feed, Sum, EncodeAll, Expand, Takes, Encode, Extend;
    if items == [] {
      NoItems(Reading(p, [], 0), reply);
    } else {
      var init, it := items[..|items| - 1], items[|items| - 1];
      FitsInit(items);
      FeedItems(p, init, reply);
      EncodeLast(items);
      ExpandLast(items);
      FeedConcat(Reading(p, [], 0), EncodeAll(init), Encode(it), reply);
      FeedItem(p, it, Expand(init), Sum(EncodeAll(init)), reply);
      SumConcat(EncodeAll(init), Encode(it));
    }
  }

  /** The end of a packet with the right checksum: acknowledged and handed over. */
  lemma {:induction false} FeedTrailer(p: Parser, line: seq<Byte>, sum: nat, reply: seq<Byte>)
    requires p.last == []
    ensures var q := Feed(Reading(p, line, sum), [HASH, ToHex(sum % 256 / 16), ToHex(sum % 16)], reply);
      q.state == Idle && q.out == p.out + [Sent([PLUS]), Handled(line)] && q.last == reply
  {
    var a, b := ToHex(sum % 256 / 16), ToHex(sum % 16);
    HexRoundTrip(sum % 256 / 16);
    HexRoundTrip(sum % 16);
    var q0 := Reading(p, line, sum);
    var q1 := Step(q0, HASH, false, reply);
    FeedTwo(q1, a, b, reply);
    assert [HASH, a, b][1..] == [a, b];
    assert Feed(q0, [HASH, a, b], reply) == Feed(q1, [a, b], reply);
    assert sum % 256 / 16 * 16 + sum % 16 == sum % 256;
  }

  /** Any well-formed packet, with escapes and runs, is acknowledged and decoded to what it stands for. */
  lemma {:induction false} PacketDecodes(p: Parser, items: seq<Item>, reply: seq<Byte>)
    requires Fits(items) && p.state == Idle && p.last == []
    ensures var q := Feed(p, Frame(EncodeAll(items)), reply);
      q.state == Idle && q.out == p.out + [Sent([PLUS]), Handled(Expand(items))] && q.last == reply
  {
    hide Sum, ToHex, Expand, EncodeAll, Takes;
    var body := EncodeAll(items);
    var trailer := [HASH, ToHex(Sum(body) % 256 / 16), ToHex(Sum(body) % 16)];
    assert Frame(body) == [DOLLAR] + (body + trailer);
    FeedConcat(p, [DOLLAR], body + trailer, reply);
    FeedTwo(p, DOLLAR, DOLLAR, reply);
    assert Step(p, DOLLAR, false, reply) == Reading(p, [], 0);
    FeedConcat(Reading(p, [], 0), body, trailer, reply);
    FeedItems(p, items, reply);
    FeedTrailer(p, Expand(items), Sum(body), reply);
  }

  // ---------------------------------------------------------------- memtox round trip

  function ItemOf(c: Byte): Item { if Special(c) then Escaped(c) else Plain(c) }

  function Items(x: seq<Byte>): seq<Item> {
    seq(|x|, i requires 0 <= i < |x| => ItemOf(x[i]))
  }

  lemma {:induction false} ItemOfOk(c: Byte)
    ensures ItemOk(ItemOf(c)) && Encode(ItemOf(c)) == EscapeByte(c)
  {
  }

  lemma {:induction false} ItemsOk(x: seq<Byte>)
    ensures forall i :: 0 <= i < |x| ==> ItemOk(Items(x)[i])
  {
    hide ItemOk, ItemOf;
    forall i | 0 <= i < |x|
      ensures ItemOk(Items(x)[i])
    {
      ItemOfOk(x[i]);
    }
  }

  lemma {:induction false} ExtendPlain(line: seq<Byte>, c: Byte)
    ensures Extend(line, ItemOf(c)) == line + [c]
  {
  }

  lemma {:induction false} ItemsLast(x: seq<Byte>)
    requires x != []
    ensures |Items(x)| == |x| && Items(x)[|x| - 1] == ItemOf(x[|x| - 1])
  {
  }

  /** The items of a text stand for it and are written as its escaped form. */
  lemma {:induction false} ItemsOf(x: seq<Byte>)
    ensures forall i :: 0 <= i < |x| ==> ItemOk(Items(x)[i])
    ensures Expand(Items(x)) == x && EncodeAll(Items(x)) == Escape(x)
  {
    ItemsOk(x);
    if x != [] {
      hide Items, ItemOk, ItemOf, Expand, EncodeAll, Escape, EscapeByte, Extend, Encode;
      var init, c := x[..|x| - 1], x[|x| - 1];
      ItemsLast(x);
      ItemsPrefix(x, |x| - 1);
      ItemsOf(init);
      ItemOfOk(c);
      ExpandLast(Items(x));
      ExtendPlain(init, c);
      EncodeLast(Items(x));
      EscapeLast(x);
    }
  }

  lemma {:induction false} ItemsFit(x: seq<Byte>)
    requires |x| <= MAX_PACKET_LENGTH - 1
    ensures Fits(Items(x))
  {
    ItemsOf(x);
    hide Expand;
    forall i | 0 <= i < |Items(x)| ensures Takes(Items(x)[i], |Expand(Items(x)[..i])|) {
      ItemsPrefix(x, i);
      ItemsOf(x[..i]);
    }
  }

  lemma {:induction false} ItemsPrefix(x: seq<Byte>, i: nat)
    requires i <= |x|
    ensures Items(x)[..i] == Items(x[..i])
  {
  }

  /** Escaped text contains no packet start. */
  lemma {:induction false} EscapeNoDollar(x: seq<Byte>, i: nat)
    requires i < |Escape(x)|
    ensures Escape(x)[i] != DOLLAR
  {
    var init := x[..|x| - 1];
    if i < |Escape(init)| {
      EscapeNoDollar(init, i);
    }
  }

  /** Garbage between packets is ignored. */
  lemma {:induction false} IdleIgnores(p: Parser, bs: seq<Byte>, reply: seq<Byte>)
    requires p.state == Idle && p.last == [] && forall i :: 0 <= i < |bs| ==> bs[i] != DOLLAR
    ensures Feed(p, bs, reply) == p
    decreases |bs|
  {
    if bs != [] {
      IdleIgnores(p, bs[1..], reply);
    }
  }

  lemma {:induction false} EscapeLast(x: seq<Byte>)
    requires x != []
    ensures Escape(x) == Escape(x[..|x| - 1]) + EscapeByte(x[|x| - 1])
  {
  }

  lemma {:induction false} EscapeSplit(x: seq<Byte>, k: nat)
    requires k <= |x|
    ensures Escape(x) == Escape(x[..k]) + Escape(x[k..])
    decreases |x|
  {
    if k == |x| {
      assert x[..k] == x && x[k..] == [];
    } else {
      hide Escape, EscapeByte;
      var init, tail, last := x[..|x| - 1], x[k..], x[|x| - 1];
      SliceFacts(x, k);
      calc {
        Escape(x);
        { EscapeLast(x); }
        Escape(init) + EscapeByte(last);
        { EscapeSplit(init, k); }
        (Escape(x[..k]) + Escape(init[k..])) + EscapeByte(last);
        { Assoc(Escape(x[..k]), Escape(init[k..]), EscapeByte(last)); }
        Escape(x[..k]) + (Escape(init[k..]) + EscapeByte(last));
        { EscapeLast(tail); }
        Escape(x[..k]) + Escape(tail);
      }
    }
  }

  lemma {:induction false} SliceFacts(x: seq<Byte>, k: nat)
    requires k < |x|
    ensures var init, tail := x[..|x| - 1], x[k..];
      init[..k] == x[..k] && init[k..] == tail[..|tail| - 1] && tail[|tail| - 1] == x[|x| - 1]
  {
  }

  lemma {:induction false} EscapeFirst(x: seq<Byte>)
    requires x != []
    ensures Escape(x) == EscapeByte(x[0]) + Escape(x[1..])
  {
    EscapeSplit(x, 1);
    assert x[..1] == [x[0]] && [x[0]][..0] == [];
    assert Escape([x[0]]) == EscapeByte(x[0]);
  }

  /** One byte too many: the decoder gives the packet up. */
  lemma {:induction false} OverrunIdle(p: Parser, line: seq<Byte>, sum: nat, c: Byte, reply: seq<Byte>)
    requires |line| == MAX_PACKET_LENGTH - 1 && p.last == []
    ensures var q := Feed(Reading(p, line, sum), EscapeByte(c), reply);
      q.state == Idle && q.last == [] && q.out == p.out
  {
    var q := Reading(p, line, sum);
    if Special(c) {
      FeedTwo(q, BRACE, Flip(c), reply);
    } else {
      FeedTwo(q, c, c, reply);
    }
  }

  /** A text longer than the buffer is not delivered and not acknowledged. */
  lemma {:induction false} LongPacketLost(p: Parser, x: seq<Byte>, reply: seq<Byte>)
    requires p.state == Idle && p.last == [] && |x| > MAX_PACKET_LENGTH - 1
    ensures var q := Feed(p, Frame(Escape(x)), reply); q.state == Idle && q.out == p.out
  {
    hide Sum, ToHex, Escape, Parse;
    var k := MAX_PACKET_LENGTH - 1;
    var body := Escape(x);
    var head, rest := x[..k], x[k..];
    var trailer := [HASH, ToHex(Sum(body) % 256 / 16), ToHex(Sum(body) % 16)];
    EscapeSplit(x, k);
    EscapeFirst(rest);
    var tail := Escape(rest[1..]) + trailer;
    assert Frame(body) == [DOLLAR] + (Escape(head) + (EscapeByte(rest[0]) + tail));
    FeedConcat(p, [DOLLAR], Escape(head) + (EscapeByte(rest[0]) + tail), reply);
    FeedTwo(p, DOLLAR, DOLLAR, reply);
    StartsReading(p, reply);
    FeedConcat(Reading(p, [], 0), Escape(head), EscapeByte(rest[0]) + tail, reply);
    ItemsOf(head);
    ItemsFit(head);
    FeedItems(p, Items(head), reply);
    FeedConcat(Reading(p, head, Sum(Escape(head))), EscapeByte(rest[0]), tail, reply);
    OverrunIdle(p, head, Sum(Escape(head)), rest[0], reply);
    TailNoDollar(rest[1..], Sum(body));
    IdleIgnores(Feed(Reading(p, head, Sum(Escape(head))), EscapeByte(rest[0]), reply), tail, reply);
  }

  lemma {:induction false} StartsReading(p: Parser, reply: seq<Byte>)
    requires p.state == Idle && p.last == []
    ensures Step(p, DOLLAR, false, reply) == Reading(p, [], 0)
  {
  }

  lemma {:induction false} TailNoDollar(x: seq<Byte>, sum: nat)
    ensures var tail := Escape(x) + [HASH, ToHex(sum % 256 / 16), ToHex(sum % 16)];
      forall i :: 0 <= i < |tail| ==> tail[i] != DOLLAR
  {
    forall i | 0 <= i < |Escape(x)| ensures Escape(x)[i] != DOLLAR { EscapeNoDollar(x, i); }
  }

  /** The decoder alone: an escaped, framed text is handled unchanged exactly when it fits the line buffer. */
  lemma {:induction false} DecoderLimit(p: Parser, x: seq<Byte>, reply: seq<Byte>)
    requires p.state == Idle && p.last == []
    ensures Feed(p, Frame(Escape(x)), reply).out == p.out + [Sent([PLUS]), Handled(x)] <==> |x| <= MAX_PACKET_LENGTH - 1
  {
    hide Frame, Feed, Escape;
    if |x| <= MAX_PACKET_LENGTH - 1 {
      ItemsOf(x);
      ItemsFit(x);
      PacketDecodes(p, Items(x), reply);
    } else {
      LongPacketLost(p, x, reply);
    }
  }

  // ---------------------------------------------------------------- both ends

  /** Escaping at most doubles a text. */
  lemma {:induction false} EscapeLength(x: seq<Byte>)
    ensures |x| <= |Escape(x)| <= 2 * |x|
  {
    if x != [] { EscapeLength(x[..|x| - 1]); }
  }

  lemma {:induction false} FrameLength(buf: seq<Byte>)
    ensures |Frame(buf)| == |buf| + 4
  {
    hide Sum, ToHex;
  }

  /** The packet fits last_packet and the other side handles it unchanged. */
  ghost predicate Delivered(p: Parser, x: seq<Byte>, reply: seq<Byte>) {
    && |Frame(Escape(x))| <= LAST_PACKET_SIZE
    && Feed(p, Frame(Escape(x)), reply).out == p.out + [Sent([PLUS]), Handled(x)]
  }

  /**
   * memtox followed by put_packet_binary, undone by the decoder: the encoder limits the escaped text, the decoder the
   * text itself. Up to half the packet length both limits are met whatever the text is.
   */
  lemma {:induction false} PacketRoundTrip(p: Parser, x: seq<Byte>, reply: seq<Byte>)
    requires p.state == Idle && p.last == []
    ensures Delivered(p, x, reply) <==> |Escape(x)| <= MAX_PACKET_LENGTH && |x| <= MAX_PACKET_LENGTH - 1
    ensures |x| <= MAX_PACKET_LENGTH / 2 ==> Delivered(p, x, reply)
  {
    hide Frame, Feed, Escape;
    FrameLength(Escape(x));
    EscapeLength(x);
    DecoderLimit(p, x, reply);
  }

  /** A text that the decoder could take but the encoder's buffer cannot hold. */
  lemma {:induction false} EscapedTooLong(n: nat)
    ensures |Escape(Repeat(HASH, n))| == 2 * n
    ensures n == 2049 ==> |Escape(Repeat(HASH, n))| > MAX_PACKET_LENGTH && n <= MAX_PACKET_LENGTH - 1
  {
    if n > 0 {
      assert Repeat(HASH, n)[..n - 1] == Repeat(HASH, n - 1);
      EscapedTooLong(n - 1);
    }
  }

  const LETTER_M: Byte := 0x6D
  const LETTER_L: Byte := 0x6C

  /** The part of a document that one read answers with, after a letter that tells whether more follows. */
  function Chunk(xml: seq<Byte>, addr: nat, len: nat): seq<Byte>
    requires addr <= |xml|
  {
    var n := Min(len, (MAX_PACKET_LENGTH - 5) / 2);
    if n < |xml| - addr then [LETTER_M] + xml[addr..addr + n] else [LETTER_L] + xml[addr..]
  }

  lemma {:induction false} EscapeTagged(tag: Byte, x: seq<Byte>)
    requires !Special(tag)
    ensures Escape([tag] + x) == [tag] + Escape(x)
  {
    EscapeFirst([tag] + x);
    assert ([tag] + x)[1..] == x;
  }

  /** The answer to a qXfer:features:read request; None is the error reply for an offset beyond the document. */
  method FeaturesRead(xml: seq<Byte>, addr: nat, len: nat) returns (buf: Option<seq<Byte>>)
    ensures buf.None? <==> addr > |xml|
    ensures buf.Some? ==> buf.value == Escape(Chunk(xml, addr, len)) && |buf.value| <= MAX_PACKET_LENGTH - 4
  {
    hide Escape;
    if addr > |xml| {
      return None;
    }
    var n := if len > (MAX_PACKET_LENGTH - 5) / 2 then (MAX_PACKET_LENGTH - 5) / 2 else len;
    var tag, part;
    if n < |xml| - addr {
      tag, part := LETTER_M, xml[addr..addr + n];
    } else {
      tag, part := LETTER_L, xml[addr..];
    }
    EscapeLength(part);
    EscapeTagged(tag, part);
    var text := MemToX(part);
    buf := Some([tag] + text);
  }

  /** So every such answer fits last_packet and reaches the other side unchanged. */
  lemma {:induction false} FeaturesDelivered(p: Parser, xml: seq<Byte>, addr: nat, len: nat, reply: seq<Byte>)
    requires p.state == Idle && p.last == [] && addr <= |xml|
    ensures Delivered(p, Chunk(xml, addr, len), reply)
  {
    hide Delivered;
    PacketRoundTrip(p, Chunk(xml, addr, len), reply);
  }
}
