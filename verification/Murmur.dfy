/** MurmurHash3 for 32-bit platforms with seed 0: a fold over little-endian words, each of
    whose steps is one-to-one. */
module Murmur {

  type Byte = bv8
  type Word = bv32

  // ----- the steps -----

  /** `rotl32` by the two distances in use. */
  function RotL15(x: Word): Word { (x << 15) | (x >> 17) }

  function RotL13(x: Word): Word { (x << 13) | (x >> 19) }

  /** The products in use; the factors are `c1`, `c2`, 5 and the two of `fmix32`. */
  function MulC1(x: Word): Word { x * 0xcc9e2d51 }

  function MulC2(x: Word): Word { x * 0x1b873593 }

  function MulAdd(x: Word): Word { x * 5 + 0xe6546b64 }

  function MulF1(x: Word): Word { x * 0x85ebca6b }

  function MulF2(x: Word): Word { x * 0xc2b2ae35 }

  function Fold16(x: Word): Word { x ^ (x >> 16) }

  function Fold13(x: Word): Word { x ^ (x >> 13) }

  function Xor(x: Word, y: Word): Word { x ^ y }

  /** The mixing of a key word. */
  function MixKey(k: Word): Word {
    MulC2(RotL15(MulC1(k)))
  }

  /** One turn of the body loop: the key word `k` is mixed into the state `h`. */
  function Step(h: Word, k: Word): Word {
    MulAdd(RotL13(Xor(h, MixKey(k))))
  }

  /** `fmix32`. */
  function FMix(h: Word): Word {
    Fold16(MulF2(Fold13(MulF1(Fold16(h)))))
  }

  // ----- every step is one-to-one -----

  lemma {:induction false} RotL15OneToOne(x: Word, y: Word)
    ensures RotL15(x) == RotL15(y) ==> x == y
  {
  }

  lemma {:induction false} RotL13OneToOne(x: Word, y: Word)
    ensures RotL13(x) == RotL13(y) ==> x == y
  {
  }

  function UnMulC1(x: Word): Word { x * 0xdee13bb1 }

  lemma {:induction false} MulC1Inverse(x: Word)
    ensures UnMulC1(MulC1(x)) == x
  {
    MulC1Product(x);
  }

  lemma {:induction false} MulC1Product(x: Word)
    ensures UnMulC1(x * 0xcc9e2d51) == x
  {
  }

  lemma {:induction false} MulC1OneToOne(x: Word, y: Word)
    ensures MulC1(x) == MulC1(y) ==> x == y
  {
    MulC1Inverse(x);
    MulC1Inverse(y);
  }

  function UnMulC2(x: Word): Word { x * 0x56ed309b }

  lemma {:induction false} MulC2Inverse(x: Word)
    ensures UnMulC2(MulC2(x)) == x
  {
    MulC2Product(x);
  }

  lemma {:induction false} MulC2Product(x: Word)
    ensures UnMulC2(x * 0x1b873593) == x
  {
  }

  lemma {:induction false} MulC2OneToOne(x: Word, y: Word)
    ensures MulC2(x) == MulC2(y) ==> x == y
  {
    MulC2Inverse(x);
    MulC2Inverse(y);
  }

  lemma {:induction false} MulAddOneToOne(x: Word, y: Word)
    ensures MulAdd(x) == MulAdd(y) ==> x == y
  {
  }

  function UnMulF1(x: Word): Word { x * 0xa5cb9243 }

  lemma {:induction false} MulF1Inverse(x: Word)
    ensures UnMulF1(MulF1(x)) == x
  {
    MulF1Product(x);
  }

  lemma {:induction false} MulF1Product(x: Word)
    ensures UnMulF1(x * 0x85ebca6b) == x
  {
  }

  lemma {:induction false} MulF1OneToOne(x: Word, y: Word)
    ensures MulF1(x) == MulF1(y) ==> x == y
  {
    MulF1Inverse(x);
    MulF1Inverse(y);
  }

  function UnMulF2(x: Word): Word { x * 0x7ed1b41d }

  lemma {:induction false} MulF2Inverse(x: Word)
    ensures UnMulF2(MulF2(x)) == x
  {
    MulF2Product(x);
  }

  lemma {:induction false} MulF2Product(x: Word)
    ensures UnMulF2(x * 0xc2b2ae35) == x
  {
  }

  lemma {:induction false} MulF2OneToOne(x: Word, y: Word)
    ensures MulF2(x) == MulF2(y) ==> x == y
  {
    MulF2Inverse(x);
    MulF2Inverse(y);
  }

  function Unfold13(x: Word): Word { x ^ (x >> 13) ^ (x >> 26) }

  lemma {:induction false} FoldBits(x: Word)
    ensures Fold16(x ^ (x >> 16)) == x && Unfold13(x ^ (x >> 13)) == x
  {
  }

  lemma {:induction false} FoldInverse(x: Word)
    ensures Fold16(Fold16(x)) == x && Unfold13(Fold13(x)) == x
  {
    FoldBits(x);
  }

  lemma {:induction false} Fold16OneToOne(x: Word, y: Word)
    ensures Fold16(x) == Fold16(y) ==> x == y
  {
    FoldInverse(x);
    FoldInverse(y);
  }

  lemma {:induction false} Fold13OneToOne(x: Word, y: Word)
    ensures Fold13(x) == Fold13(y) ==> x == y
  {
    FoldInverse(x);
    FoldInverse(y);
  }

  lemma {:induction false} XorOneToOne(x: Word, y: Word, z: Word)
    ensures Xor(x, z) == Xor(y, z) ==> x == y
    ensures Xor(z, x) == Xor(z, y) ==> x == y
  {
  }

  lemma {:induction false} MixKeyOneToOne(k: Word, k': Word)
    ensures MixKey(k) == MixKey(k') ==> k == k'
  {
    MulC2OneToOne(RotL15(MulC1(k)), RotL15(MulC1(k')));
    RotL15OneToOne(MulC1(k), MulC1(k'));
    MulC1OneToOne(k, k');
  }

  /** With either argument fixed, a step is one-to-one in the other. */
  lemma {:induction false} StepOneToOne(h: Word, h': Word, k: Word, k': Word)
    requires Step(h, k) == Step(h', k')
    ensures k == k' ==> h == h'
    ensures h == h' ==> k == k'
  {
    MulAddOneToOne(RotL13(Xor(h, MixKey(k))), RotL13(Xor(h', MixKey(k'))));
    RotL13OneToOne(Xor(h, MixKey(k)), Xor(h', MixKey(k')));
    XorOneToOne(h, h', MixKey(k));
    XorOneToOne(MixKey(k), MixKey(k'), h);
    MixKeyOneToOne(k, k');
  }

  lemma {:induction false} FMixOneToOne(h: Word, h': Word)
    ensures FMix(h) == FMix(h') ==> h == h'
  {
    Fold16OneToOne(MulF2(Fold13(MulF1(Fold16(h)))), MulF2(Fold13(MulF1(Fold16(h')))));
    MulF2OneToOne(Fold13(MulF1(Fold16(h))), Fold13(MulF1(Fold16(h'))));
    Fold13OneToOne(MulF1(Fold16(h)), MulF1(Fold16(h')));
    MulF1OneToOne(Fold16(h), Fold16(h'));
    Fold16OneToOne(h, h');
  }

  /** The finalisation for a key of `n` bytes. */
  function Finish(h: Word, n: nat): Word
    requires n < 0x8000_0000
  {
    FMix(Xor(h, n as Word))
  }

  lemma {:induction false} FinishOneToOne(h: Word, h': Word, n: nat)
    requires n < 0x8000_0000
    ensures Finish(h, n) == Finish(h', n) ==> h == h'
  {
    FMixOneToOne(Xor(h, n as Word), Xor(h', n as Word));
    XorOneToOne(h, h', n as Word);
  }

  // ----- the hash as a fold -----

  function ShiftIn(b: Byte, w: Word): Word { (b as Word) | (w << 8) }

  /** The bytes as one number, the first byte lowest. */
  function LittleEndian(s: seq<Byte>): Word {
    if s == [] then 0 else ShiftIn(s[0], LittleEndian(s[1..]))
  }

  /** The state after the words of `key`, and after the one to three bytes that remain. */
  function HashFrom(h: Word, key: seq<Byte>): Word
    decreases |key|
  {
    if |key| >= 4 then HashFrom(Step(h, LittleEndian(key[..4])), key[4..])
    else if key == [] then h
    else Xor(h, MixKey(LittleEndian(key)))
  }

  function Hash(key: seq<Byte>): Word
    requires |key| < 0x8000_0000
  {
    Finish(HashFrom(0, key), |key|)
  }

  // ----- no collision inside one word -----

  lemma {:induction false} LittleEndianSmall(s: seq<Byte>)
    requires |s| <= 3
    ensures LittleEndian(s) < 0x0100_0000
    ensures |s| <= 2 ==> LittleEndian(s) < 0x0001_0000
    ensures |s| <= 1 ==> LittleEndian(s) < 0x0000_0100
    ensures |s| == 0 ==> LittleEndian(s) == 0
  {
    if s != [] {
      LittleEndianSmall(s[1..]);
      ShiftInByte(s[0], LittleEndian(s[1..]));
    }
  }

  lemma {:induction false} ShiftInByte(b: Byte, w: Word)
    ensures w == 0 ==> ShiftIn(b, w) < 0x0000_0100
    ensures w < 0x0000_0100 ==> ShiftIn(b, w) < 0x0001_0000
    ensures w < 0x0001_0000 ==> ShiftIn(b, w) < 0x0100_0000
  {
  }

  lemma {:induction false} ShiftInInjective(b: Byte, w: Word, b': Byte, w': Word)
    requires w < 0x0100_0000 && w' < 0x0100_0000
    requires ShiftIn(b, w) == ShiftIn(b', w')
    ensures b == b' && w == w'
  {
  }

  lemma {:induction false} LittleEndianInjective(s: seq<Byte>, t: seq<Byte>)
    requires |s| == |t| <= 4 && LittleEndian(s) == LittleEndian(t)
    ensures s == t
  {
    if s != [] {
      LittleEndianSmall(s[1..]);
      LittleEndianSmall(t[1..]);
      ShiftInInjective(s[0], LittleEndian(s[1..]), t[0], LittleEndian(t[1..]));
      LittleEndianInjective(s[1..], t[1..]);
      assert s == [s[0]] + s[1..] && t == [t[0]] + t[1..];
    }
  }

  /** Different states stay different over the same bytes. */
  lemma {:induction false} StatesStayApart(h: Word, h': Word, key: seq<Byte>)
    requires HashFrom(h, key) == HashFrom(h', key)
    ensures h == h'
    decreases |key|
  {
    if |key| >= 4 {
      var k := LittleEndian(key[..4]);
      StatesStayApart(Step(h, k), Step(h', k), key[4..]);
      StepOneToOne(h, h', k, k);
    } else if key != [] {
      XorOneToOne(h, h', MixKey(LittleEndian(key)));
    }
  }

  /** The keys differ at most in the `c`th aligned word, or in the tail if that is the `c`th. */
  ghost predicate DifferOnlyAt(s: seq<Byte>, t: seq<Byte>, c: nat) {
    |s| == |t| && forall i :: 0 <= i < |s| && i / 4 != c ==> s[i] == t[i]
  }

  lemma {:induction false} FoldInjectiveAt(h: Word, s: seq<Byte>, t: seq<Byte>, c: nat)
    requires DifferOnlyAt(s, t, c) && HashFrom(h, s) == HashFrom(h, t)
    ensures s == t
    decreases |s|
  {
    if |s| >= 4 {
      var k, k' := LittleEndian(s[..4]), LittleEndian(t[..4]);
      assert s == s[..4] + s[4..] && t == t[..4] + t[4..];
      if c == 0 {
        assert s[4..] == t[4..];
        StatesStayApart(Step(h, k), Step(h, k'), s[4..]);
        StepOneToOne(h, h, k, k');
        LittleEndianInjective(s[..4], t[..4]);
      } else {
        assert s[..4] == t[..4];
        forall i | 0 <= i < |s| - 4 && i / 4 != c - 1 ensures s[4..][i] == t[4..][i] {
          assert (i + 4) / 4 == i / 4 + 1;
        }
        FoldInjectiveAt(Step(h, k), s[4..], t[4..], c - 1);
      }
    } else if s != [] {
      XorOneToOne(MixKey(LittleEndian(s)), MixKey(LittleEndian(t)), h);
      MixKeyOneToOne(LittleEndian(s), LittleEndian(t));
      LittleEndianInjective(s, t);
    }
  }

  /** Two keys of the same length that differ in exactly one aligned word, or only in the
      tail, never collide. */
  lemma {:induction false} NoCollisionInOneWord(s: seq<Byte>, t: seq<Byte>, c: nat)
    requires DifferOnlyAt(s, t, c) && |s| < 0x8000_0000
    ensures Hash(s) == Hash(t) <==> s == t
  {
    if Hash(s) == Hash(t) {
      FinishOneToOne(HashFrom(0, s), HashFrom(0, t), |s|);
      FoldInjectiveAt(0, s, t, c);
    }
  }

  /** The hash is one-to-one on the keys of any one length up to four. */
  lemma {:induction false} InjectiveOnShortKeys(s: seq<Byte>, t: seq<Byte>)
    requires |s| == |t| <= 4
    ensures Hash(s) == Hash(t) <==> s == t
  {
    NoCollisionInOneWord(s, t, 0);
  }

  // ----- the loop and the switch -----

  /** `fmix32`, step by step. */
  method FMix32(h0: Word) returns (h: Word)
    ensures h == FMix(h0)
  {
    h := h0;
    h := Fold16(h);
    h := MulF1(h);
    h := Fold13(h);
    h := MulF2(h);
    h := Fold16(h);
  }

  /** `h1 ^= length; fmix32(h1)`. */
  method Finalize(h0: Word, length: nat) returns (h: Word)
    requires length < 0x8000_0000
    ensures h == Finish(h0, length)
  {
    h := FMix32(Xor(h0, length as Word));
  }

  /** The three steps on a key word. */
  method MixWord(k0: Word) returns (k1: Word)
    ensures k1 == MixKey(k0)
  {
    k1 := MulC1(k0);
    k1 := RotL15(k1);
    k1 := MulC2(k1);
  }

  /** A key word mixed into the state. */
  method MixBlock(h0: Word, k0: Word) returns (h1: Word)
    ensures h1 == Step(h0, k0)
  {
    var k1 := MixWord(k0);
    h1 := Xor(h0, k1);
    h1 := RotL13(h1);
    h1 := MulAdd(h1);
  }

  function In8(b: Byte): Word { (b as Word) << 8 }

  function In16(b: Byte): Word { (b as Word) << 16 }

  /** What the fall-through cases of the switch collect, highest byte first. */
  function TailKey(tail: seq<Byte>): Word
    requires |tail| < 4
  {
    var k3 := if |tail| == 3 then Xor(0, In16(tail[2])) else 0;
    var k2 := if |tail| >= 2 then Xor(k3, In8(tail[1])) else k3;
    if |tail| >= 1 then Xor(k2, tail[0] as Word) else k2
  }

  lemma {:induction false} TailBytes1(a: Byte)
    ensures Xor(0, a as Word) == ShiftIn(a, 0)
  {
  }

  lemma {:induction false} TailBytes2(a: Byte, b: Byte)
    ensures (0 ^ ((b as Word) << 8)) ^ (a as Word) == (a as Word) | (((b as Word) | (0 << 8)) << 8)
  {
  }

  lemma {:induction false} TailBytes3(a: Byte, b: Byte, c: Byte)
    ensures ((0 ^ ((c as Word) << 16)) ^ ((b as Word) << 8)) ^ (a as Word)
         == (a as Word) | (((b as Word) | (((c as Word) | (0 << 8)) << 8)) << 8)
  {
  }

  lemma {:induction false} TailOfTwo(tail: seq<Byte>)
    requires |tail| == 2
    ensures TailKey(tail) == LittleEndian(tail)
  {
    TailWord(tail);
    TailBytes2(tail[0], tail[1]);
  }

  lemma {:induction false} TailOfThree(tail: seq<Byte>)
    requires |tail| == 3
    ensures TailKey(tail) == LittleEndian(tail)
  {
    TailWord(tail);
    TailBytes3(tail[0], tail[1], tail[2]);
  }

  /** The fall-through cases collect the tail as a little-endian number. */
  lemma {:induction false} TailKeyIsLittleEndian(tail: seq<Byte>)
    requires |tail| < 4
    ensures TailKey(tail) == LittleEndian(tail)
  {
    if |tail| == 1 {
      TailWord(tail);
      TailBytes1(tail[0]);
    } else if |tail| == 2 {
      TailOfTwo(tail);
    } else if |tail| == 3 {
      TailOfThree(tail);
    }
  }

  lemma {:induction false} FoldSuffix(h: Word, key: seq<Byte>, j: nat)
    requires j + 4 <= |key|
    ensures HashFrom(h, key[j..]) == HashFrom(Step(h, LittleEndian(key[j..j + 4])), key[j + 4..])
  {
    assert key[j..][..4] == key[j..j + 4] && key[j..][4..] == key[j + 4..];
  }

  lemma {:induction false} TailWord(tail: seq<Byte>)
    requires 0 < |tail| < 4
    ensures LittleEndian(tail) ==
      if |tail| == 1 then ShiftIn(tail[0], 0)
      else if |tail| == 2 then ShiftIn(tail[0], ShiftIn(tail[1], 0))
      else ShiftIn(tail[0], ShiftIn(tail[1], ShiftIn(tail[2], 0)))
  {
    var t1 := tail[1..];
    if |tail| > 1 {
      var t2 := t1[1..];
      assert |tail| > 2 ==> LittleEndian(t2) == ShiftIn(tail[2], LittleEndian(t2[1..]));
      assert LittleEndian(t1) == ShiftIn(tail[1], LittleEndian(t2));
    }
  }

  /** `getblock32`, on a little-endian machine. */
  method GetBlock(data: array<Byte>, at: nat, ghost key: seq<Byte>) returns (k: Word)
    requires at + 4 <= |key| <= data.Length && key == data[..|key|]
    ensures k == LittleEndian(key[at..at + 4])
  {
    var bytes := data[at..at + 4];
    assert bytes == key[at..at + 4] == [data[at], data[at + 1], data[at + 2], data[at + 3]];
    WordOfFour(data[at], data[at + 1], data[at + 2], data[at + 3]);
    k := LittleEndian(bytes);
  }

  lemma {:induction false} WordOfFour(a: Byte, b: Byte, c: Byte, d: Byte)
    ensures LittleEndian([a, b, c, d]) == ShiftIn(a, ShiftIn(b, ShiftIn(c, ShiftIn(d, 0))))
  {
    var w := [a, b, c, d];
    assert w[1..] == [b, c, d] && [b, c, d][1..] == [c, d] && [c, d][1..] == [d] && [d][1..] == [];
    assert LittleEndian([d]) == ShiftIn(d, LittleEndian([d][1..]));
    assert LittleEndian([c, d]) == ShiftIn(c, LittleEndian([c, d][1..]));
    assert LittleEndian([b, c, d]) == ShiftIn(b, LittleEndian([b, c, d][1..]));
    assert LittleEndian(w) == ShiftIn(a, LittleEndian(w[1..]));
  }

  /** The body loop: the blocks are counted up from `-nblocks` to 0 behind the end of the last one. */
  method Body(data: array<Byte>, length: nat, nblocks: int) returns (h1: Word, ghost touched: seq<int>)
    requires length <= data.Length && nblocks == length / 4
    ensures HashFrom(h1, data[nblocks * 4..length]) == HashFrom(0, data[..length])
    ensures |touched| == nblocks * 4 && forall j :: 0 <= j < |touched| ==> touched[j] == j
  {
    h1, touched := 0, [];
    ghost var key := data[..length];
    var end := nblocks * 4;
    var i := -nblocks;
    while i != 0
      invariant -nblocks <= i <= 0 && |touched| == end + 4 * i
      invariant forall j :: 0 <= j < |touched| ==> touched[j] == j
      invariant HashFrom(h1, key[end + 4 * i..]) == HashFrom(0, key)
      decreases -i
    {
      var at := end + 4 * i;
      var k1 := GetBlock(data, at, key);
      FoldSuffix(h1, key, at);
      touched := touched + [at, at + 1, at + 2, at + 3];
      h1 := MixBlock(h1, k1);
      i := i + 1;
    }
    assert key[end..] == data[end..length];
  }

  /** The fall-through switch over the last one to three bytes. */
  method Collect(data: array<Byte>, length: nat, end: int) returns (k1: Word, ghost touched: seq<int>)
    requires length <= data.Length && 0 <= end <= length < end + 4
    ensures k1 == TailKey(data[end..length])
    ensures |touched| == length - end && forall j :: 0 <= j < |touched| ==> touched[j] == length - 1 - j
  {
    k1, touched := 0, [];
    var rest := length - end;
    if rest == 3 {
      k1 := Xor(k1, In16(data[end + 2]));
      touched := touched + [end + 2];
    }
    if rest >= 2 {
      k1 := Xor(k1, In8(data[end + 1]));
      touched := touched + [end + 1];
    }
    if rest >= 1 {
      k1 := Xor(k1, data[end] as Word);
      touched := touched + [end];
    }
  }

  /** `murmur_hash`; `touched` lists the positions that were read, in order. */
  method MurmurHash(data: array<Byte>, length: nat) returns (h: Word, ghost touched: seq<int>)
    requires length <= data.Length && length < 0x8000_0000
    ensures h == Hash(data[..length])
    ensures |touched| == length && forall j :: 0 <= j < length ==> j in touched
  {
    var nblocks := length / 4;
    var h1, k1;
    ghost var last;
    h1, touched := Body(data, length, nblocks);
    ghost var tail := data[nblocks * 4..length];
    k1, last := Collect(data, length, nblocks * 4);
    TailKeyIsLittleEndian(tail);
    if length % 4 != 0 {
      k1 := MixWord(k1);
      h1 := Xor(h1, k1);
    }
    EveryPosition(touched, last, length);
    touched := touched + last;
    h := Finalize(h1, length);
  }

  lemma {:induction false} EveryPosition(first: seq<int>, last: seq<int>, n: nat)
    requires |first| + |last| == n
    requires forall j :: 0 <= j < |first| ==> first[j] == j
    requires forall j :: 0 <= j < |last| ==> last[j] == n - 1 - j
    ensures forall j :: 0 <= j < n ==> j in first + last
  {
    forall j | 0 <= j < n ensures j in first + last {
      if j < |first| {
        assert (first + last)[j] == j;
      } else {
        assert (first + last)[|first| + n - 1 - j] == j;
      }
    }
  }
}
