/** Global addresses: the node number in the top 16 bits, the offset below. */
module Address {

  const OFFSETS: int := 281474976710656
  const INT64: int := 0x8000_0000_0000_0000

  type Int64 = x: int | -INT64 <= x < INT64

  /** The remainder of C, which has the sign of the dividend. */
  function Remainder(t: int, m: int): int
    requires m > 0
  {
    if t >= 0 then t % m else -((-t) % m)
  }

  datatype Place = Place(id: nat, offset: int) | AssertFails

  /** `hmp_get_hm_node_id`: an arithmetic shift, a remainder and an assertion. */
  function Split(addr: Int64, nodes: nat): Place {
    var id := addr / OFFSETS;
    if 0 <= id < nodes then Place(id, Remainder(addr, OFFSETS)) else AssertFails
  }

  /** `hmp_get_hybrid_mempool_addr` plus an offset. */
  function Global(id: nat, offset: nat): int {
    id * OFFSETS + offset
  }

  lemma {:induction false} SplitGlobal(id: nat, offset: nat, nodes: nat)
    requires id < nodes <= 8 && offset < OFFSETS
    ensures -INT64 <= Global(id, offset) < INT64
    ensures Split(Global(id, offset), nodes) == Place(id, offset)
  {
  }

  /** The assertion holds for exactly the addresses of the cluster, and nothing is lost. */
  lemma {:induction false} SplitExact(addr: Int64, nodes: nat)
    requires nodes <= 8
    ensures Split(addr, nodes).Place? <==> 0 <= addr < nodes * OFFSETS
    ensures Split(addr, nodes).Place? ==>
      var p := Split(addr, nodes); 0 <= p.offset < OFFSETS && Global(p.id, p.offset) == addr
  {
  }

  // ----- the bits of an address -----

  /** The number with these binary digits, the lowest first. */
  function Value(bits: seq<bool>): nat {
    if bits == [] then 0 else (if bits[0] then 1 else 0) + 2 * Value(bits[1..])
  }

  function TwoTo(n: nat): nat {
    if n == 0 then 1 else 2 * TwoTo(n - 1)
  }

  lemma {:induction false} TwoTo48()
    ensures TwoTo(48) == 0x1_0000_0000_0000 && TwoTo(15) == 0x8000
  {
    assert TwoTo(8) == 0x100 && TwoTo(15) == 0x8000 && TwoTo(16) == 0x1_0000;
    assert TwoTo(24) == 0x100_0000 && TwoTo(32) == 0x1_0000_0000 && TwoTo(40) == 0x100_0000_0000;
  }

  lemma {:induction false} ValueBound(bits: seq<bool>)
    ensures Value(bits) < TwoTo(|bits|)
  {
    if bits != [] {
      ValueBound(bits[1..]);
    }
  }

  lemma {:induction false} Twice(p: nat, v: nat)
    ensures (2 * p) * v == 2 * (p * v)
  {
  }

  lemma {:induction false} ValueParts(low: seq<bool>, high: seq<bool>)
    ensures Value(low + high) == Value(low) + TwoTo(|low|) * Value(high)
  {
    if low == [] {
      assert low + high == high;
    } else {
      ValueParts(low[1..], high);
      Twice(TwoTo(|low| - 1), Value(high));
      assert (low + high)[1..] == low[1..] + high;
    }
  }

  /** The value of 64 bits, by the top 16 and the low 48 of them. */
  lemma {:induction false} ValueIn48(bits: seq<bool>)
    requires |bits| == 64
    ensures Value(bits) == Value(bits[48..]) * 0x1_0000_0000_0000 + Value(bits[..48])
    ensures Value(bits[..48]) < 0x1_0000_0000_0000
  {
    TwoTo48();
    ValueParts(bits[..48], bits[48..]);
    ValueBound(bits[..48]);
    assert bits == bits[..48] + bits[48..];
  }

  /** Without a sign bit the top 16 bits have a value below 2^15. */
  lemma {:induction false} TopBound(bits: seq<bool>)
    requires |bits| == 64 && !bits[63]
    ensures Value(bits[48..]) < 0x8000
  {
    var top := bits[48..];
    TwoTo48();
    ValueBound(top[..15]);
    ValueParts(top[..15], top[15..]);
    assert top == top[..15] + top[15..] && top[15..] == [false] && [false][1..] == [];
    assert Value([false]) == 0;
  }

  /** Of the 64 bits of an address the top 16 are the node and the low 48 the offset. */
  lemma {:induction false} SplitBits(bits: seq<bool>, nodes: nat)
    requires |bits| == 64 && !bits[63]
    ensures Value(bits) < 0x8000_0000_0000_0000
    ensures Split(Value(bits), nodes) ==
      if Value(bits[48..]) < nodes then Place(Value(bits[48..]), Value(bits[..48])) else AssertFails
  {
    ValueIn48(bits);
    TopBound(bits);
  }

  /** The top 16 bits of a global address are its node, the low 48 its offset. */
  lemma {:induction false} GlobalBits(id: nat, offset: nat, bits: seq<bool>)
    requires offset < 0x1_0000_0000_0000 && |bits| == 64 && Value(bits) == Global(id, offset)
    ensures Value(bits[48..]) == id && Value(bits[..48]) == offset
  {
    ValueIn48(bits);
  }

  /** A node's base shifted by 48 places, and what a read of a place in it is sent to. */
  lemma {:induction false} GlobalShift(id: nat, offset: nat)
    requires id < 8 && offset < 0x1_0000_0000_0000
    ensures Global(id, offset) == id * 0x1_0000_0000_0000 + offset
    ensures Split(id * 0x1_0000_0000_0000 + offset, id + 1) == Place(id, offset)
    ensures Split(id * 0x1_0000_0000_0000 + offset, id) == AssertFails
  {
  }
}
