/** The message that carries a node's registered memory to its peers. */
module Wire {

  type Byte = b: int | 0 <= b < 256

  /** `struct hmp_mr_info`: two 64-bit values and a 32-bit key. */
  datatype MrInfo = MrInfo(addr: nat, length: nat, rkey: nat)

  datatype MsgType = INIT | NORMAL | READ | WRITE | FINISH | DONE

  function Power256(n: nat): (p: nat)
    ensures p > 0
  {
    if n == 0 then 1 else 256 * Power256(n - 1)
  }

  predicate Fits(mr: MrInfo) {
    mr.addr < Power256(8) && mr.length < Power256(8) && mr.rkey < Power256(4)
  }

  function TypeCode(t: MsgType): nat {
    match t
    case INIT => 0
    case NORMAL => 1
    case READ => 2
    case WRITE => 3
    case FINISH => 4
    case DONE => 5
  }

  // ----- little-endian numbers -----

  /** `value` in `width` bytes, the lowest first; `memcpy` of an integer. */
  function Bytes(value: nat, width: nat): (s: seq<Byte>)
    ensures |s| == width
  {
    if width == 0 then [] else [value % 256] + Bytes(value / 256, width - 1)
  }

  function Number(s: seq<Byte>): nat {
    if s == [] then 0 else s[0] + 256 * Number(s[1..])
  }

  lemma {:induction false} NumberOfBytes(value: nat, width: nat)
    requires value < Power256(width)
    ensures Number(Bytes(value, width)) == value
  {
    if width > 0 {
      assert value / 256 < Power256(width - 1);
      NumberOfBytes(value / 256, width - 1);
    }
  }

  // ----- building and reading -----

  /** The data of `hmp_build_init_msg`: base address, length and remote key. */
  function InitData(mr: MrInfo): (s: seq<Byte>)
    ensures |s| == 20
  {
    Bytes(mr.addr, 8) + Bytes(mr.length, 8) + Bytes(mr.rkey, 4)
  }

  /** `hmp_send_task_create`: type and size in four bytes each, then the data. */
  function Message(t: MsgType, data: seq<Byte>): (s: seq<Byte>)
    ensures |s| == 8 + |data|
  {
    Bytes(TypeCode(t), 4) + Bytes(|data|, 4) + data
  }

  function InitMessage(mr: MrInfo): (s: seq<Byte>)
    ensures |s| == 28
  {
    Message(INIT, InitData(mr))
  }

  /** A receive slot after `msg` arrived in it: the message lies at its start. */
  predicate Arrived(slot: seq<Byte>, msg: seq<Byte>) {
    msg <= slot
  }

  function TypeField(slot: seq<Byte>): nat
    requires |slot| >= 4
  {
    Number(slot[..4])
  }

  /** The reads of `hmp_handle_mr_msg`. */
  function MrFields(slot: seq<Byte>): MrInfo
    requires |slot| >= 28
  {
    MrInfo(Number(slot[8..16]), Number(slot[16..24]), Number(slot[24..28]))
  }

  /** The place of each field: the type in the first four bytes, the size in the next four, then the data. */
  lemma {:induction false} MessageParts(t: MsgType, data: seq<Byte>)
    ensures var m := Message(t, data);
      m[..4] == Bytes(TypeCode(t), 4) && m[4..8] == Bytes(|data|, 4) && m[8..] == data
  {
    ThreeParts(Bytes(TypeCode(t), 4), Bytes(|data|, 4), data);
  }

  lemma {:induction false} ThreeParts(a: seq<Byte>, b: seq<Byte>, c: seq<Byte>)
    requires |a| == 4 && |b| == 4
    ensures var m := a + b + c; m[..4] == a && m[4..8] == b && m[8..] == c
  {
    assert (a + b + c)[..8] == a + b;
  }

  lemma {:induction false} TypeCodesFit(t: MsgType)
    ensures TypeCode(t) < Power256(4) && (TypeCode(t) == 0 <==> t == INIT)
  {
    assert Power256(4) >= 256 by {
      assert Power256(1) == 256 && Power256(2) == 65536 && Power256(3) == 16777216;
    }
  }

  /** The codes of the message types, in the order of their declaration. */
  lemma {:induction false} TypeCodes()
    ensures TypeCode(INIT) == 0 && TypeCode(NORMAL) == 1 && TypeCode(READ) == 2
    ensures TypeCode(WRITE) == 3 && TypeCode(FINISH) == 4 && TypeCode(DONE) == 5
  {
  }

  /** Byte `i` of a number counts 256^i. */
  lemma {:induction false} ByteAt(value: nat, width: nat, i: nat)
    requires i < width
    ensures Bytes(value, width)[i] == value / Power256(i) % 256
  {
    if i > 0 {
      ByteAt(value / 256, width - 1, i - 1);
      DivideTwice(value, Power256(i - 1));
    }
  }

  lemma {:induction false} ProductGrows(d: nat, a: nat, b: nat)
    requires a < b
    ensures d * a + d <= d * b
  {
    assert d * b == d * a + d + d * (b - a - 1);
  }

  lemma {:induction false} Quotient(v: nat, d: nat, q: nat, r: nat)
    requires v == d * q + r && r < d
    ensures v / d == q
  {
    Euclid(v, d);
    if v / d < q {
      ProductGrows(d, v / d, q);
    } else if v / d > q {
      ProductGrows(d, q, v / d);
    }
  }

  lemma {:induction false} Euclid(v: nat, d: nat)
    requires d > 0
    ensures v == d * (v / d) + v % d && v % d < d
  {
  }

  lemma {:induction false} DivideTwice(value: nat, p: nat)
    requires p > 0
    ensures value / 256 / p == value / (256 * p)
  {
    var a := value / 256;
    var q, r := a / p, a % p;
    assert a == p * q + r && 256 * (p * q) == (256 * p) * q;
    Quotient(value, 256 * p, q, 256 * r + value % 256);
  }

  lemma {:induction false} NextByte(value: nat, width: nat, rest: seq<Byte>)
    requires Bytes(value / 256, width) == rest
    ensures Bytes(value, width + 1) == [value % 256] + rest
  {
  }

  /** The first message of a node with these values, byte by byte. */
  lemma {:induction false} KnownMessage(mr: MrInfo)
    requires mr == MrInfo(0x0102_0304_0506_0708, 4096, 0x0a0b_0c0d)
    ensures InitMessage(mr)[..8] == [0, 0, 0, 0, 20, 0, 0, 0]
    ensures InitMessage(mr)[8..16] == [8, 7, 6, 5, 4, 3, 2, 1]
    ensures InitMessage(mr)[16..24] == [0, 16, 0, 0, 0, 0, 0, 0]
    ensures InitMessage(mr)[24..28] == [13, 12, 11, 10]
  {
    InitMessageParts(mr);
    MessageParts(INIT, InitData(mr));
    KnownAddress(mr.addr);
    KnownLength(mr.length);
    KnownKey(mr.rkey);
    KnownSmall(20, 0);
    var m := InitMessage(mr);
    assert m[..8] == m[..4] + m[4..8];
  }

  lemma {:induction false} KnownAddress(v: nat)
    requires v == 0x0102_0304_0506_0708
    ensures Bytes(v, 8) == [8, 7, 6, 5, 4, 3, 2, 1]
  {
    NextByte(0x01, 0, []);
    NextByte(0x0102, 1, [1]);
    NextByte(0x01_0203, 2, [2, 1]);
    NextByte(0x0102_0304, 3, [3, 2, 1]);
    NextByte(0x01_0203_0405, 4, [4, 3, 2, 1]);
    NextByte(0x0102_0304_0506, 5, [5, 4, 3, 2, 1]);
    NextByte(0x01_0203_0405_0607, 6, [6, 5, 4, 3, 2, 1]);
    NextByte(v, 7, [7, 6, 5, 4, 3, 2, 1]);
  }

  lemma {:induction false} KnownLength(v: nat)
    requires v == 4096
    ensures Bytes(v, 8) == [0, 16, 0, 0, 0, 0, 0, 0]
  {
    NextByte(0, 0, []);
    NextByte(0, 1, [0]);
    NextByte(0, 2, [0, 0]);
    NextByte(0, 3, [0, 0, 0]);
    NextByte(0, 4, [0, 0, 0, 0]);
    NextByte(0, 5, [0, 0, 0, 0, 0]);
    NextByte(16, 6, [0, 0, 0, 0, 0, 0]);
    NextByte(v, 7, [16, 0, 0, 0, 0, 0, 0]);
  }

  lemma {:induction false} KnownKey(v: nat)
    requires v == 0x0a0b_0c0d
    ensures Bytes(v, 4) == [13, 12, 11, 10]
  {
    NextByte(0x0a, 0, []);
    NextByte(0x0a0b, 1, [10]);
    NextByte(0x0a_0b0c, 2, [11, 10]);
    NextByte(v, 3, [12, 11, 10]);
  }

  lemma {:induction false} KnownSmall(v: nat, z: nat)
    requires v == 20 && z == 0
    ensures Bytes(v, 4) == [20, 0, 0, 0] && Bytes(z, 4) == [0, 0, 0, 0]
  {
    NextByte(0, 0, []);
    NextByte(0, 1, [0]);
    NextByte(0, 2, [0, 0]);
    NextByte(v, 3, [0, 0, 0]);
    NextByte(z, 3, [0, 0, 0]);
  }

  /** The parts of five pieces put together. */
  lemma {:induction false} FivePieces(h: seq<Byte>, z: seq<Byte>, a: seq<Byte>, l: seq<Byte>, r: seq<Byte>)
    requires |h| == 4 && |z| == 4 && |a| == 8 && |l| == 8 && |r| == 4
    ensures var m := h + z + (a + l + r);
      |m| == 28 && m[..4] == h && m[8..16] == a && m[16..24] == l && m[24..28] == r
  {
    var d := a + l + r;
    assert d[..8] == a && d[8..16] == l && d[16..20] == r;
    TailPart(h + z, d, 0, 8);
    TailPart(h + z, d, 8, 16);
    TailPart(h + z, d, 16, 20);
    PrefixPart(h, h + (z + d), 0, 4);
    assert h[0..4] == h && h + z + d == h + (z + d);
  }

  lemma {:induction false} TailPart(u: seq<Byte>, d: seq<Byte>, i: nat, j: nat)
    requires i <= j <= |d|
    ensures (u + d)[|u| + i..|u| + j] == d[i..j]
  {
  }

  lemma {:induction false} InitMessageParts(mr: MrInfo)
    ensures var m := InitMessage(mr);
      && m[..4] == Bytes(0, 4) && m[8..16] == Bytes(mr.addr, 8)
      && m[16..24] == Bytes(mr.length, 8) && m[24..28] == Bytes(mr.rkey, 4)
  {
    FivePieces(Bytes(0, 4), Bytes(20, 4), Bytes(mr.addr, 8), Bytes(mr.length, 8), Bytes(mr.rkey, 4));
  }

  lemma {:induction false} PrefixPart(m: seq<Byte>, slot: seq<Byte>, i: nat, j: nat)
    requires m <= slot && i <= j <= |m|
    ensures slot[i..j] == m[i..j]
  {
  }

  /** What is read from a slot is what the sender registered. */
  lemma {:induction false} InitMessageRead(mr: MrInfo, slot: seq<Byte>)
    requires Fits(mr) && |slot| == 40 && Arrived(slot, InitMessage(mr))
    ensures TypeField(slot) == TypeCode(INIT) && MrFields(slot) == mr
  {
    var m := InitMessage(mr);
    InitMessageParts(mr);
    NumberOfBytes(0, 4);
    NumberOfBytes(mr.addr, 8);
    NumberOfBytes(mr.length, 8);
    NumberOfBytes(mr.rkey, 4);
    PrefixPart(m, slot, 0, 4);
    PrefixPart(m, slot, 8, 16);
    PrefixPart(m, slot, 16, 24);
    PrefixPart(m, slot, 24, 28);
  }

  // ----- the copies into the send slot -----

  /** `memcpy` into the slot at `at`. */
  method CopyIn(slot: array<Byte>, at: nat, src: seq<Byte>)
    requires at + |src| <= slot.Length
    modifies slot
    ensures slot[..] == old(slot[..at]) + src + old(slot[at + |src|..])
  {
    var i := 0;
    while i < |src|
      invariant 0 <= i <= |src|
      invariant forall j :: 0 <= j < slot.Length ==> slot[j] == if at <= j < at + i then src[j - at] else old(slot[j])
    {
      slot[at + i] := src[i];
      i := i + 1;
    }
  }

  /** `hmp_send_task_create`: the message lies at the start of the slot and nothing behind it
      changes. */
  method WriteMessage(slot: array<Byte>, t: MsgType, data: seq<Byte>)
    requires 8 + |data| <= slot.Length
    modifies slot
    ensures slot[..] == Message(t, data) + old(slot[8 + |data|..])
  {
    ghost var before := slot[..];
    CopyIn(slot, 0, Bytes(TypeCode(t), 4));
    ghost var first := slot[..];
    assert first == Bytes(TypeCode(t), 4) + before[4..];
    CopyIn(slot, 4, Bytes(|data|, 4));
    ghost var second := slot[..];
    assert second == first[..4] + Bytes(|data|, 4) + first[8..];
    CopyIn(slot, 8, data);
    assert slot[..] == second[..8] + data + second[8 + |data|..];
    ThreeCopies(before, first, second, Bytes(TypeCode(t), 4), Bytes(|data|, 4), data);
  }

  lemma {:induction false} ThreeCopies(before: seq<Byte>, first: seq<Byte>, second: seq<Byte>, a: seq<Byte>,
                                       b: seq<Byte>, c: seq<Byte>)
    requires |a| == 4 && |b| == 4 && 8 + |c| <= |before|
    requires first == a + before[4..] && second == first[..4] + b + first[8..]
    ensures second[..8] + c + second[8 + |c|..] == a + b + c + before[8 + |c|..]
  {
    assert first[8..] == before[8..];
    assert second == a + b + before[8..];
    assert second[8 + |c|..] == before[8 + |c|..];
  }
}
