/** The hash in the constants of its definition, and the hashes of some keys as numbers. */
module MurmurValues {
  import opened Murmur

  // ----- the steps in full -----

  lemma {:induction false} RotL15InFull(x: Word)
    ensures RotL15(x) == (x << 15) | (x >> 17)
  {
  }

  lemma {:induction false} RotL13InFull(x: Word)
    ensures RotL13(x) == (x << 13) | (x >> 19)
  {
  }

  lemma {:induction false} MulC1InFull(x: Word)
    ensures MulC1(x) == x * 0xcc9e2d51
  {
  }

  lemma {:induction false} MulC2InFull(x: Word)
    ensures MulC2(x) == x * 0x1b873593
  {
  }

  lemma {:induction false} MulAddInFull(x: Word)
    ensures MulAdd(x) == x * 5 + 0xe6546b64
  {
  }

  lemma {:induction false} MulF1InFull(x: Word)
    ensures MulF1(x) == x * 0x85ebca6b
  {
  }

  lemma {:induction false} MulF2InFull(x: Word)
    ensures MulF2(x) == x * 0xc2b2ae35
  {
  }

  lemma {:induction false} FoldsInFull(x: Word)
    ensures Fold16(x) == x ^ (x >> 16) && Fold13(x) == x ^ (x >> 13)
  {
  }

  lemma {:induction false} XorInFull(x: Word, y: Word)
    ensures Xor(x, y) == x ^ y
  {
  }

  /** One turn of the body loop, assignment by assignment: `a`, `b` and `m` are the values that the
      key word takes, `x` and `r` those that the state takes. */
  lemma {:induction false} StepInFull(h: Word, k: Word) returns (a: Word, b: Word, m: Word, x: Word, r: Word)
    ensures a == k * 0xcc9e2d51
    ensures b == (a << 15) | (a >> 17)
    ensures m == b * 0x1b873593
    ensures x == h ^ m
    ensures r == (x << 13) | (x >> 19)
    ensures Step(h, k) == r * 5 + 0xe6546b64
    ensures MixKey(k) == m
  {
    a := MulC1(k);
    MulC1InFull(k);
    b := RotL15(a);
    RotL15InFull(a);
    m := MulC2(b);
    MulC2InFull(b);
    x := Xor(h, m);
    XorInFull(h, m);
    r := RotL13(x);
    RotL13InFull(x);
    MulAddInFull(r);
  }

  /** The finalisation, assignment by assignment. */
  lemma {:induction false} FinishInFull(h: Word, n: nat) returns (x: Word, a: Word, b: Word, c: Word, d: Word)
    requires n < 0x8000_0000
    ensures x == h ^ (n as Word)
    ensures a == x ^ (x >> 16)
    ensures b == a * 0x85ebca6b
    ensures c == b ^ (b >> 13)
    ensures d == c * 0xc2b2ae35
    ensures Finish(h, n) == d ^ (d >> 16)
  {
    x := Xor(h, n as Word);
    XorInFull(h, n as Word);
    a := Fold16(x);
    FoldsInFull(x);
    b := MulF1(a);
    MulF1InFull(a);
    c := Fold13(b);
    FoldsInFull(b);
    d := MulF2(c);
    MulF2InFull(c);
    FoldsInFull(d);
  }

  // ----- keys of known hash -----

  /** A key that has the bytes of the word `k` at `i`. */
  lemma {:induction false} NextWord(h: Word, key: seq<Byte>, i: nat, k: Word)
    requires i + 4 <= |key| && ShiftIn(key[i], ShiftIn(key[i + 1], ShiftIn(key[i + 2], ShiftIn(key[i + 3], 0)))) == k
    ensures HashFrom(h, key[i..]) == HashFrom(Step(h, k), key[i + 4..])
  {
    FoldSuffix(h, key, i);
    WordOfFour(key[i], key[i + 1], key[i + 2], key[i + 3]);
    assert key[i..i + 4] == [key[i], key[i + 1], key[i + 2], key[i + 3]];
  }

  lemma {:induction false} ThreeTail()
    ensures HashFrom(0, [97, 98, 99]) == 0xa7349db7
  {
    TailWord([97, 98, 99]);
    assert MulC1(0x636261) == 0x9b9b2db1 && RotL15(0x9b9b2db1) == 0x96d8cdcd && MulC2(0x96d8cdcd) == 0xa7349db7;
    assert Xor(0, 0xa7349db7) == 0xa7349db7;
  }

  lemma {:induction false} ThreeFinish()
    ensures Finish(0xa7349db7, 3) == 0xb3dd93fa
  {
    assert Xor(0xa7349db7, 3) == 0xa7349db4 && Fold16(0xa7349db4) == 0xa7343a80 && MulF1(0xa7343a80) == 0x4c7d7380;
    assert Fold13(0x4c7d7380) == 0x4c7f106b && MulF2(0x4c7f106b) == 0xb3dd2027 && Fold16(0xb3dd2027) == 0xb3dd93fa;
  }

  /** A tail alone: "abc". */
  lemma {:induction false} Three()
    ensures Hash([97, 98, 99]) == 0xb3dd93fa
  {
    ThreeTail();
    ThreeFinish();
  }

  lemma {:induction false} ZerosWord()
    ensures ShiftIn(0, ShiftIn(0, ShiftIn(0, ShiftIn(0, 0)))) == 0
    ensures Step(0, 0) == 0xe6546b64
  {
    assert MulC1(0) == 0 && RotL15(0) == 0 && MulC2(0) == 0;
    assert Xor(0, 0) == 0 && RotL13(0) == 0;
    assert MulAdd(0) == 0xe6546b64;
  }

  lemma {:induction false} ZerosFinish()
    ensures Finish(0xe6546b64, 4) == 0x2362f9de
  {
    assert Xor(0xe6546b64, 4) == 0xe6546b60 && Fold16(0xe6546b60) == 0xe6548d34 && MulF1(0xe6548d34) == 0x9f7e0cbc;
    assert Fold13(0x9f7e0cbc) == 0x9f7af74c && MulF2(0x9f7af74c) == 0x2362dabc && Fold16(0x2362dabc) == 0x2362f9de;
  }

  /** Four zero bytes. */
  lemma {:induction false} Zeros()
    ensures Hash([0, 0, 0, 0]) == 0x2362f9de
  {
    ZerosWord();
    var key: seq<Byte> := [0, 0, 0, 0];
    NextWord(0, key, 0, 0);
    assert key[0..] == key && key[4..] == [];
    ZerosFinish();
  }

  lemma {:induction false} FourWord()
    ensures ShiftIn(116, ShiftIn(101, ShiftIn(115, ShiftIn(116, 0)))) == 0x74736574
    ensures Step(0, 0x74736574) == 0x7985975b
  {
    assert MulC1(0x74736574) == 0x2ef07db4 && RotL15(0x2ef07db4) == 0x3eda1778 && MulC2(0x3eda1778) == 0x465f51e8;
    assert Xor(0, 0x465f51e8) == 0x465f51e8 && RotL13(0x465f51e8) == 0xea3d08cb;
    assert MulAdd(0xea3d08cb) == 0x7985975b;
  }

  lemma {:induction false} FourFinish()
    ensures Finish(0x7985975b, 4) == 0xba6bd213
  {
    assert Xor(0x7985975b, 4) == 0x7985975f && Fold16(0x7985975f) == 0x7985eeda && MulF1(0x7985eeda) == 0xfd90d91e;
    assert Fold13(0xfd90d91e) == 0xfd973598 && MulF2(0xfd973598) == 0xba6b6878 && Fold16(0xba6b6878) == 0xba6bd213;
  }

  /** One word: "test". */
  lemma {:induction false} Four()
    ensures Hash([116, 101, 115, 116]) == 0xba6bd213
  {
    FourWord();
    var key: seq<Byte> := [116, 101, 115, 116];
    NextWord(0, key, 0, 0x74736574);
    assert key[0..] == key && key[4..] == [];
    FourFinish();
  }

  lemma {:induction false} SevenWord()
    ensures ShiftIn(1, ShiftIn(2, ShiftIn(3, ShiftIn(4, 0)))) == 0x4030201
    ensures Step(0, 0x4030201) == 0x4eb26727
  {
    assert MulC1(0x4030201) == 0xd4ebcf51 && RotL15(0xd4ebcf51) == 0xe7a8ea75 && MulC2(0xe7a8ea75) == 0xf93bda2f;
    assert Xor(0, 0xf93bda2f) == 0xf93bda2f && RotL13(0xf93bda2f) == 0x7b45ff27;
    assert MulAdd(0x7b45ff27) == 0x4eb26727;
  }

  lemma {:induction false} SevenTail()
    ensures HashFrom(0x4eb26727, [5, 6, 7]) == 0x54f8b6cd
  {
    TailWord([5, 6, 7]);
    assert MulC1(0x70605) == 0xf15dc895 && RotL15(0xf15dc895) == 0xe44af8ae && MulC2(0xe44af8ae) == 0x1a4ad1ea;
    assert Xor(0x4eb26727, 0x1a4ad1ea) == 0x54f8b6cd;
  }

  lemma {:induction false} SevenFinish()
    ensures Finish(0x54f8b6cd, 7) == 0xfc5897b5
  {
    assert Xor(0x54f8b6cd, 7) == 0x54f8b6ca && Fold16(0x54f8b6ca) == 0x54f8e232 && MulF1(0x54f8e232) == 0x8467fee6;
    assert Fold13(0x8467fee6) == 0x8463ddd9 && MulF2(0x8463ddd9) == 0xfc586bed && Fold16(0xfc586bed) == 0xfc5897b5;
  }

  /** One word and a tail. */
  lemma {:induction false} Seven()
    ensures Hash([1, 2, 3, 4, 5, 6, 7]) == 0xfc5897b5
  {
    var key: seq<Byte> := [1, 2, 3, 4, 5, 6, 7];
    SevenWord();
    NextWord(0, key, 0, 0x4030201);
    assert key[0..] == key && key[4..] == [5, 6, 7];
    SevenTail();
    SevenFinish();
  }

  lemma {:induction false} RingWord1()
    ensures ShiftIn(49, ShiftIn(48, ShiftIn(46, ShiftIn(48, 0)))) == 0x302e3031
    ensures Step(0, 0x302e3031) == 0x82bbd69c
  {
    assert MulC1(0x302e3031) == 0x2753dc81 && RotL15(0x2753dc81) == 0xee4093a9 && MulC2(0xee4093a9) == 0xdec5c70b;
    assert Xor(0, 0xdec5c70b) == 0xdec5c70b && RotL13(0xdec5c70b) == 0xb8e17bd8;
    assert MulAdd(0xb8e17bd8) == 0x82bbd69c;
  }

  lemma {:induction false} RingWord2()
    ensures ShiftIn(46, ShiftIn(48, ShiftIn(46, ShiftIn(49, 0)))) == 0x312e302e
    ensures Step(0x82bbd69c, 0x312e302e) == 0xac458775
  {
    assert MulC1(0x312e302e) == 0x1279548e && RotL15(0x1279548e) == 0xaa47093c && MulC2(0xaa47093c) == 0xae57b974;
    assert Xor(0x82bbd69c, 0xae57b974) == 0x2cec6fe8 && RotL13(0x2cec6fe8) == 0x8dfd059d;
    assert MulAdd(0x8dfd059d) == 0xac458775;
  }

  lemma {:induction false} RingWord3()
    ensures ShiftIn(56, ShiftIn(48, ShiftIn(56, ShiftIn(48, 0)))) == 0x30383038
    ensures Step(0xac458775, 0x30383038) == 0x839510b6
  {
    assert MulC1(0x30383038) == 0x84d119b8 && RotL15(0x84d119b8) == 0x8cdc4268 && MulC2(0x8cdc4268) == 0x7911a9b8;
    assert Xor(0xac458775, 0x7911a9b8) == 0xd5542ecd && RotL13(0xd5542ecd) == 0x85d9baaa;
    assert MulAdd(0x85d9baaa) == 0x839510b6;
  }

  lemma {:induction false} RingTail()
    ensures HashFrom(0x839510b6, [0]) == 0x839510b6
  {
    TailWord([0]);
    assert MulC1(0) == 0 && RotL15(0) == 0 && MulC2(0) == 0;
    assert Xor(0x839510b6, 0) == 0x839510b6;
  }

  lemma {:induction false} RingFinish()
    ensures Finish(0x839510b6, 13) == 0x89722e1e
  {
    assert Xor(0x839510b6, 13) == 0x839510bb && Fold16(0x839510bb) == 0x8395932e && MulF1(0x8395932e) == 0x6e0d03a;
    assert Fold13(0x6e0d03a) == 0x6e0e73c && MulF2(0x6e0e73c) == 0x8972a76c && Fold16(0x8972a76c) == 0x89722e1e;
  }

  /** The text of the address 10.0.0.1 with port 8080, and its closing zero. */
  const RING: seq<Byte> := [49, 48, 46, 48, 46, 48, 46, 49, 56, 48, 56, 48, 0]

  lemma {:induction false} RingPart1()
    ensures HashFrom(0, RING[0..]) == HashFrom(0x82bbd69c, RING[4..])
  {
    RingWord1();
    NextWord(0, RING, 0, 0x302e3031);
  }

  lemma {:induction false} RingPart2()
    ensures HashFrom(0x82bbd69c, RING[4..]) == HashFrom(0xac458775, RING[8..])
  {
    RingWord2();
    NextWord(0x82bbd69c, RING, 4, 0x312e302e);
  }

  lemma {:induction false} RingPart3()
    ensures HashFrom(0xac458775, RING[8..]) == HashFrom(0x839510b6, RING[12..])
  {
    RingWord3();
    NextWord(0xac458775, RING, 8, 0x30383038);
  }

  /** Three words and a tail. */
  lemma {:induction false} Ring()
    ensures Hash(RING) == 0x89722e1e
  {
    RingPart1();
    RingPart2();
    RingPart3();
    assert RING[0..] == RING && RING[12..] == [0];
    RingTail();
    RingFinish();
  }

  lemma {:induction false} HashOfRing(key: seq<Byte>)
    requires key == RING
    ensures Hash(key) == 0x89722e1e
  {
    Ring();
  }

  /** The empty key. */
  lemma {:induction false} Empty()
    ensures Hash([]) == 0
  {
    assert Xor(0, 0) == 0 && Fold16(0) == 0 && MulF1(0) == 0 && Fold13(0) == 0 && MulF2(0) == 0;
  }
}
