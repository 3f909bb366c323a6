/** The text that a node is hashed by: its address and its port with nothing between them. */
module KeyText {
  import opened Decimal
  import Murmur
  import MurmurValues

  datatype NodeInfo = NodeInfo(addr: seq<Murmur.Byte>, port: int)

  /** The characters of decimal digits. */
  function Text(digits: seq<nat>): (s: seq<Murmur.Byte>)
    requires AreDigits(digits)
    ensures |s| == |digits| && forall i :: 0 <= i < |s| ==> s[i] == Character(digits[i])
  {
    seq(|digits|, i requires 0 <= i < |digits| => Character(digits[i]))
  }

  function Character(digit: nat): Murmur.Byte
    requires digit < 10
  {
    (48 + digit) as Murmur.Byte
  }

  /** `snprintf` of "%d" into ten bytes keeps at most nine characters. */
  function PortText(port: int): (s: seq<Murmur.Byte>)
    ensures |s| <= 9
  {
    var t := if port < 0 then [45] + Text(Digits(-port)) else Text(Digits(port));
    if |t| > 9 then t[..9] else t
  }

  /** Address and port text with nothing between them, and the closing zero. */
  function KeyBytes(node: NodeInfo): seq<Murmur.Byte> {
    node.addr + PortText(node.port) + [0]
  }

  /** The address buffer of a node holds at most 17 characters, none of them zero. */
  predicate Fits(node: NodeInfo) {
    |node.addr| < 18 && forall i :: 0 <= i < |node.addr| ==> node.addr[i] != 0
  }

  /** The unsigned value of the hash. */
  function KeyOf(node: NodeInfo): nat
    requires Fits(node)
  {
    Murmur.Hash(KeyBytes(node)) as nat
  }

  // ----- reading a text back -----

  function CharacterValue(c: Murmur.Byte): int {
    c as int - 48
  }

  predicate IsDecimal(c: Murmur.Byte) {
    48 <= c <= 57
  }

  /** The value of decimal characters. */
  function NumberOf(t: seq<Murmur.Byte>): int {
    if t == [] then 0 else 10 * NumberOf(t[..|t| - 1]) + CharacterValue(t[|t| - 1])
  }

  /** Decimal characters without a leading zero. */
  predicate IsNumeral(t: seq<Murmur.Byte>) {
    |t| > 0 && (forall i :: 0 <= i < |t| ==> IsDecimal(t[i])) && (t[0] == 48 ==> |t| == 1)
  }

  /** The text of a number, with a minus sign if it is negative. */
  predicate IsTextOf(t: seq<Murmur.Byte>, n: int) {
    if n >= 0 then IsNumeral(t) && NumberOf(t) == n
    else |t| > 0 && t[0] == 45 && IsNumeral(t[1..]) && NumberOf(t[1..]) == -n
  }

  /** What a buffer of ten characters keeps of a text, beside the closing zero. */
  function Kept(t: seq<Murmur.Byte>): seq<Murmur.Byte> {
    if |t| > 9 then t[..9] else t
  }

  lemma {:induction false} CharacterReads(digit: nat)
    requires digit < 10
    ensures IsDecimal(Character(digit)) && CharacterValue(Character(digit)) == digit
    ensures Character(digit) == 48 <==> digit == 0
  {
  }

  lemma {:induction false} TextReads(s: seq<nat>)
    requires AreDigits(s)
    ensures NumberOf(Text(s)) == Value(s) && forall i :: 0 <= i < |s| ==> IsDecimal(Text(s)[i])
  {
    if s != [] {
      var n := |s| - 1;
      TextReads(s[..n]);
      CharacterReads(s[n]);
      assert Text(s)[..n] == Text(s[..n]);
      forall i | 0 <= i < |s| ensures IsDecimal(Text(s)[i]) {
        CharacterReads(s[i]);
      }
    }
  }

  lemma {:induction false} NumeralOf(n: nat)
    ensures IsNumeral(Text(Digits(n))) && NumberOf(Text(Digits(n))) == n
  {
    TextReads(Digits(n));
    DigitsValue(n);
    CharacterReads(Digits(n)[0]);
  }

  /** The whole text of a port. */
  function FullText(port: int): seq<Murmur.Byte> {
    if port < 0 then [45] + Text(Digits(-port)) else Text(Digits(port))
  }

  lemma {:induction false} FullTextReads(port: int)
    ensures IsTextOf(FullText(port), port)
  {
    if port < 0 {
      NumeralOf(-port);
      assert ([45] + Text(Digits(-port)))[1..] == Text(Digits(-port));
    } else {
      NumeralOf(port);
    }
  }

  lemma {:induction false} TextHasNoZero(t: seq<Murmur.Byte>, n: int)
    requires IsTextOf(t, n)
    ensures forall i :: 0 <= i < |t| ==> t[i] != 0
  {
    forall i | 0 <= i < |t| ensures t[i] != 0 {
      if n < 0 && i > 0 {
        assert IsDecimal(t[1..][i - 1]);
      } else if n >= 0 {
        assert IsDecimal(t[i]);
      }
    }
  }

  /** The port text is the text of the port, as far as the buffer holds it. */
  lemma {:induction false} PortTextKept(port: int)
    ensures PortText(port) == Kept(FullText(port))
  {
  }

  // ----- the key buffer -----

  /** `memcpy` into the buffer. */
  method CopyTo(buffer: array<Murmur.Byte>, at: nat, src: seq<Murmur.Byte>)
    requires at + |src| <= buffer.Length
    modifies buffer
    ensures buffer[at..at + |src|] == src && buffer[..at] == old(buffer[..at])
  {
    var i := 0;
    while i < |src|
      invariant 0 <= i <= |src|
      invariant forall j :: 0 <= j < i ==> buffer[at + j] == src[j]
      invariant forall j :: 0 <= j < at ==> buffer[j] == old(buffer[j])
    {
      buffer[at + i] := src[i];
      i := i + 1;
    }
  }

  /** `strlen`. */
  method Length(buffer: array<Murmur.Byte>, ghost end: nat) returns (n: nat)
    requires end < buffer.Length && buffer[end] == 0
    ensures n <= end && buffer[n] == 0 && forall i :: 0 <= i < n ==> buffer[i] != 0
  {
    n := 0;
    while buffer[n] != 0
      invariant n <= end && forall i :: 0 <= i < n ==> buffer[i] != 0
      decreases end - n
    {
      n := n + 1;
    }
  }

  /** The two copies: the address, the characters of the port and one zero. */
  method CopyBoth(buffer: array<Murmur.Byte>, addr: seq<Murmur.Byte>, port: seq<Murmur.Byte>)
    requires |addr| + |port| < buffer.Length
    modifies buffer
    ensures buffer[..|addr| + |port| + 1] == addr + port + [0]
  {
    CopyTo(buffer, 0, addr);
    CopyTo(buffer, |addr|, port + [0]);
    var end := |addr| + |port| + 1;
    assert buffer[..end] == buffer[..|addr|] + buffer[|addr|..end];
  }

  /** `strlen` of characters with a zero behind them. */
  method LengthOf(buffer: array<Murmur.Byte>, ghost characters: seq<Murmur.Byte>) returns (n: nat)
    requires |characters| < buffer.Length && buffer[..|characters| + 1] == characters + [0]
    requires forall i :: 0 <= i < |characters| ==> characters[i] != 0
    ensures n == |characters|
  {
    ghost var all := buffer[..|characters| + 1];
    assert all[|characters|] == 0 && forall i :: 0 <= i < |characters| ==> all[i] == characters[i];
    n := Length(buffer, |characters|);
    assert buffer[n] == all[n];
  }

  /** The buffer that is hashed, and its length without the closing zero. */
  method BuildKey(node: NodeInfo) returns (buffer: array<Murmur.Byte>, length: nat, ghost text: seq<Murmur.Byte>)
    requires Fits(node)
    ensures buffer.Length == 50 && length < 50 && IsTextOf(text, node.port)
    ensures length == |node.addr| + |Kept(text)| && buffer[..length + 1] == node.addr + Kept(text) + [0]
    ensures buffer[..length + 1] == KeyBytes(node)
  {
    buffer := new Murmur.Byte[50];
    text := FullText(node.port);
    FullTextReads(node.port);
    PortTextKept(node.port);
    TextHasNoZero(text, node.port);
    CopyBoth(buffer, node.addr, PortText(node.port));
    length := LengthOf(buffer, node.addr + Kept(text));
  }

  /** The key of a node: the hash of its address, the characters of its port and one zero. */
  method NodeKey(node: NodeInfo) returns (key: nat, ghost text: seq<Murmur.Byte>)
    requires Fits(node)
    ensures key == KeyOf(node)
    ensures IsTextOf(text, node.port) && |Kept(text)| <= 9
    ensures key == Murmur.Hash(node.addr + Kept(text) + [0]) as nat
  {
    var buffer, length;
    buffer, length, text := BuildKey(node);
    ghost var touched;
    var hash;
    hash, touched := Murmur.MurmurHash(buffer, length + 1);
    key := hash as nat;
  }

  /** Nodes whose key texts differ in one aligned word at most have the same key only if the texts
      are the same. */
  lemma {:induction false} KeysInOneWord(a: NodeInfo, b: NodeInfo, c: nat)
    requires Fits(a) && Fits(b) && Murmur.DifferOnlyAt(KeyBytes(a), KeyBytes(b), c)
    ensures KeyOf(a) == KeyOf(b) <==> KeyBytes(a) == KeyBytes(b)
  {
    Murmur.NoCollisionInOneWord(KeyBytes(a), KeyBytes(b), c);
    WordOfValue(Murmur.Hash(KeyBytes(a)));
    WordOfValue(Murmur.Hash(KeyBytes(b)));
  }

  lemma {:induction false} WordOfValue(u: Murmur.Word)
    ensures u as int < 0x1_0000_0000 && (u as int) as Murmur.Word == u
  {
  }

  // ----- port texts -----

  lemma {:induction false} CharacterOneToOne(m: nat, n: nat)
    requires m < 10 && n < 10 && Character(m) == Character(n)
    ensures m == n
  {
  }

  lemma {:induction false} CharacterIsNoSign(m: nat)
    requires m < 10
    ensures Character(m) != 45
  {
  }

  predicate AreDigits(s: seq<nat>) {
    forall i :: 0 <= i < |s| ==> s[i] < 10
  }

  lemma {:induction false} TextOneToOne(s: seq<nat>, t: seq<nat>)
    requires AreDigits(s) && AreDigits(t) && Text(s) == Text(t)
    ensures s == t
  {
    forall i | 0 <= i < |s| ensures s[i] == t[i] {
      assert Text(s)[i] == Text(t)[i];
      CharacterOneToOne(s[i], t[i]);
    }
  }

  lemma {:induction false} TextAppend(s: seq<nat>, t: seq<nat>)
    requires AreDigits(s) && AreDigits(t)
    ensures Text(s + t) == Text(s) + Text(t)
  {
  }

  lemma {:induction false} TextHead(s: seq<nat>, k: nat)
    requires AreDigits(s) && k <= |s|
    ensures Text(s)[..k] == Text(s[..k])
  {
  }

  /** What the text of a port shows: a sign, and as many leading digits as there is room for. */
  datatype Shown = Shown(negative: bool, value: nat)

  function ShownOf(port: int): Shown {
    if port < 0 then Shown(true, Leading(-port, 8)) else Shown(false, Leading(port, 9))
  }

  function Sign(negative: bool): seq<Murmur.Byte> {
    if negative then [45] else []
  }

  function ShownText(p: Shown): seq<Murmur.Byte> {
    Sign(p.negative) + Text(Digits(p.value))
  }

  lemma {:induction false} PortTextShown(port: int)
    ensures PortText(port) == ShownText(ShownOf(port))
  {
    var n, k := if port < 0 then -port else port, if port < 0 then 8 else 9;
    LeadingDigits(n, k);
    if |Digits(n)| > k {
      TextHead(Digits(n), k);
    }
  }

  /** Only the first character can be a sign. */
  lemma {:induction false} SignFirst(p: Shown, i: nat)
    requires i < |ShownText(p)|
    ensures ShownText(p)[i] == 45 <==> i == 0 && p.negative
  {
    var d := Digits(p.value);
    if !(i == 0 && p.negative) {
      var j := if p.negative then i - 1 else i;
      assert ShownText(p)[i] == Text(d)[j];
      CharacterIsNoSign(d[j]);
    }
  }

  lemma {:induction false} ShownOneToOne(p: Shown, q: Shown)
    requires ShownText(p) == ShownText(q)
    ensures p == q
  {
    SignFirst(p, 0);
    SignFirst(q, 0);
    assert Text(Digits(p.value)) == ShownText(p)[|Sign(p.negative)|..];
    assert Text(Digits(q.value)) == ShownText(q)[|Sign(q.negative)|..];
    TextOneToOne(Digits(p.value), Digits(q.value));
    DigitsOneToOne(p.value, q.value);
  }

  // ----- nodes with the same key text -----

  /** The sign or leading digits of what `a`'s port shows stand at the end of `b`'s address, and `b`'s port
      shows the rest. */
  ghost predicate Moved(a: NodeInfo, b: NodeInfo) {
    var p, q := ShownOf(a.port), ShownOf(b.port);
    && !q.negative
    && ((p.negative && b.addr == a.addr + Sign(true) && p.value == q.value)
        || exists high: nat :: MovedDigits(a, b, high))
  }

  predicate MovedDigits(a: NodeInfo, b: NodeInfo, high: nat) {
    var p, q := ShownOf(a.port), ShownOf(b.port);
    high > 0 && b.addr == a.addr + Sign(p.negative) + Text(Digits(high)) && p.value == Behind(high, q.value)
  }

  /** Two nodes have the same key text exactly if they show the same, or the beginning of one's port
      stands at the end of the other's address: nothing separates address and port. */
  lemma {:induction false} SameKeyText(a: NodeInfo, b: NodeInfo)
    ensures KeyBytes(a) == KeyBytes(b) <==>
      (a.addr == b.addr && ShownOf(a.port) == ShownOf(b.port)) || Moved(a, b) || Moved(b, a)
  {
    KeyTexts(a, b);
    if PlainText(a) == PlainText(b) {
      if |a.addr| <= |b.addr| {
        TextsMeet(a, b);
      } else {
        TextsMeet(b, a);
      }
    }
    if Moved(a, b) {
      MovedTexts(a, b);
    }
    if Moved(b, a) {
      MovedTexts(b, a);
    }
  }

  function PlainText(a: NodeInfo): seq<Murmur.Byte> {
    a.addr + ShownText(ShownOf(a.port))
  }

  lemma {:induction false} KeyTexts(a: NodeInfo, b: NodeInfo)
    ensures KeyBytes(a) == KeyBytes(b) <==> PlainText(a) == PlainText(b)
  {
    PortTextShown(a.port);
    PortTextShown(b.port);
    var x, y := PlainText(a), PlainText(b);
    assert KeyBytes(a) == x + [0] && KeyBytes(b) == y + [0];
    assert (x + [0])[..|x|] == x && (y + [0])[..|y|] == y;
    assert KeyBytes(a) == KeyBytes(b) ==> |x| == |y|;
  }

  lemma {:induction false} MovedTexts(a: NodeInfo, b: NodeInfo)
    requires Moved(a, b)
    ensures PlainText(a) == PlainText(b) && |a.addr| < |b.addr|
  {
    if high: nat :| MovedDigits(a, b, high) {
      MovedDigitsTexts(a, b, high);
    } else {
      MovedSign(a, b);
    }
  }

  lemma {:induction false} MovedSign(a: NodeInfo, b: NodeInfo)
    requires var p, q := ShownOf(a.port), ShownOf(b.port);
      p.negative && !q.negative && b.addr == a.addr + Sign(true) && p.value == q.value
    ensures PlainText(a) == PlainText(b) && |a.addr| < |b.addr|
  {
    SignBetween(a.addr, ShownOf(a.port), ShownOf(b.port));
  }

  lemma {:induction false} SignBetween(addr: seq<Murmur.Byte>, p: Shown, q: Shown)
    requires p.negative && !q.negative && p.value == q.value
    ensures addr + ShownText(p) == addr + Sign(true) + ShownText(q)
  {
    NoSign(q);
    Associate(addr, Sign(true), Text(Digits(q.value)));
  }

  lemma {:induction false} NoSign(q: Shown)
    requires !q.negative
    ensures ShownText(q) == Text(Digits(q.value))
  {
  }

  lemma {:induction false} Associate<X>(a: seq<X>, b: seq<X>, c: seq<X>)
    ensures a + b + c == a + (b + c)
  {
  }

  lemma {:induction false} MovedDigitsTexts(a: NodeInfo, b: NodeInfo, high: nat)
    requires !ShownOf(b.port).negative && MovedDigits(a, b, high)
    ensures PlainText(a) == PlainText(b) && |a.addr| < |b.addr|
  {
    var p, q := ShownOf(a.port), ShownOf(b.port);
    var t, u := Text(Digits(high)), Text(Digits(q.value));
    DigitsBehind(high, q.value);
    TextAppend(Digits(high), Digits(q.value));
    assert ShownText(q) == u && ShownText(p) == Sign(p.negative) + (t + u);
    FourParts(a.addr, Sign(p.negative), t, u);
  }

  lemma {:induction false} FourParts<X>(a: seq<X>, b: seq<X>, c: seq<X>, d: seq<X>)
    ensures a + b + c + d == a + (b + (c + d))
  {
  }

  /** Of two ways to divide a sequence the longer head holds the beginning of the other tail. */
  lemma {:induction false} Overlap<X>(a: seq<X>, d: seq<X>, b: seq<X>, e: seq<X>)
    requires a + d == b + e && |a| <= |b|
    ensures var k := |b| - |a|; k <= |d| && b == a + d[..k] && d[k..] == e
  {
    var s, k := a + d, |b| - |a|;
    assert s[..|b|] == b && s[|b|..] == e;
    assert s[..|b|] == a + d[..k] && s[|b|..] == d[k..];
  }

  lemma {:induction false} TextTail(d: seq<nat>, e: seq<nat>, k: nat)
    requires AreDigits(d) && AreDigits(e) && k <= |d| && Text(d)[k..] == Text(e)
    ensures d == d[..k] + e && Text(d)[..k] == Text(d[..k])
  {
    TextHead(d, k);
    assert Text(d) == Text(d)[..k] + Text(d)[k..];
    TextAppend(d[..k], e);
    TextOneToOne(d, d[..k] + e);
  }

  /** What the first `k` characters of a shown port leave, `k > 0`. */
  lemma {:induction false} ShownTail(p: Shown, q: Shown, k: nat) returns (j: nat)
    requires 0 < k <= |ShownText(p)| && ShownText(p)[k..] == ShownText(q)
    ensures !q.negative && k == |Sign(p.negative)| + j && j <= |Digits(p.value)|
    ensures Digits(p.value) == Digits(p.value)[..j] + Digits(q.value)
    ensures ShownText(p)[..k] == Sign(p.negative) + Text(Digits(p.value)[..j])
  {
    var d, e := Digits(p.value), Digits(q.value);
    assert |ShownText(q)| > 0 && ShownText(q)[0] == ShownText(p)[k];
    SignFirst(p, k);
    SignFirst(q, 0);
    j := k - |Sign(p.negative)|;
    assert ShownText(q) == Text(e);
    assert ShownText(p)[k..] == Text(d)[j..];
    assert ShownText(p)[..k] == Sign(p.negative) + Text(d)[..j];
    TextTail(d, e, j);
  }

  /** What stands between two addresses when the texts after them meet, `k > 0` characters on. */
  lemma {:induction false} ShownMeet(p: Shown, q: Shown, k: nat) returns (j: nat, high: nat)
    requires 0 < k <= |ShownText(p)| && ShownText(p)[k..] == ShownText(q)
    ensures !q.negative
    ensures if j == 0 then p.negative && p.value == q.value && ShownText(p)[..k] == Sign(true)
            else high > 0 && p.value == Behind(high, q.value) &&
                 ShownText(p)[..k] == Sign(p.negative) + Text(Digits(high))
  {
    j := ShownTail(p, q, k);
    high := 0;
    var z := Digits(p.value)[..j];
    if j == 0 {
      assert z + Digits(q.value) == Digits(q.value) && Text(z) == [] && Sign(true) + [] == Sign(true);
      DigitsOneToOne(p.value, q.value);
    } else {
      high := DigitsSplit(p.value, z, q.value);
    }
  }

  lemma {:induction false} AddressesMeet(x: seq<Murmur.Byte>, y: seq<Murmur.Byte>, p: Shown, q: Shown)
    returns (high: nat)
    requires |x| <= |y| && x + ShownText(p) == y + ShownText(q)
    ensures
      || (x == y && p == q)
      || (!q.negative && p.negative && y == x + Sign(true) && p.value == q.value)
      || (!q.negative && high > 0 && y == x + Sign(p.negative) + Text(Digits(high)) && p.value == Behind(high, q.value))
  {
    var k := |y| - |x|;
    Overlap(x, ShownText(p), y, ShownText(q));
    high := 0;
    if k == 0 {
      ShownOneToOne(p, q);
    } else {
      var j;
      j, high := ShownMeet(p, q, k);
      if j != 0 {
        Associate(x, Sign(p.negative), Text(Digits(high)));
      }
    }
  }

  lemma {:induction false} TextsMeet(a: NodeInfo, b: NodeInfo)
    requires |a.addr| <= |b.addr| && PlainText(a) == PlainText(b)
    ensures (a.addr == b.addr && ShownOf(a.port) == ShownOf(b.port)) || Moved(a, b)
  {
    var high := AddressesMeet(a.addr, b.addr, ShownOf(a.port), ShownOf(b.port));
    assert MovedDigits(a, b, high) ==> exists h: nat :: MovedDigits(a, b, h);
  }

  /** Such nodes share a key; when characters moved they are different nodes. */
  lemma {:induction false} SharedKey(a: NodeInfo, b: NodeInfo)
    requires Fits(a) && Fits(b) && (Moved(a, b) || (a.addr == b.addr && ShownOf(a.port) == ShownOf(b.port)))
    ensures KeyOf(a) == KeyOf(b) && (Moved(a, b) ==> a != b)
  {
    SameKeyText(a, b);
    if Moved(a, b) {
      MovedTexts(a, b);
    }
  }

  /** The address 10.0.0.1. */
  const ADDRESS: seq<Murmur.Byte> := [49, 48, 46, 48, 46, 48, 46, 49]

  lemma {:induction false} DigitsOf8080()
    ensures Digits(8080) == [8, 0, 8, 0]
  {
    assert Digits(8) == [8] && Digits(80) == Digits(8) + [0] && Digits(808) == Digits(80) + [8];
    assert Digits(8080) == Digits(808) + [0];
  }

  lemma {:induction false} CharactersOf8080()
    ensures Text([8, 0, 8, 0]) == [56, 48, 56, 48]
  {
  }

  lemma {:induction false} KeyBytesOf8080(a: NodeInfo)
    requires a.addr == ADDRESS && a.port == 8080
    ensures KeyBytes(a) == MurmurValues.RING
  {
    DigitsOf8080();
    CharactersOf8080();
    assert PortText(a.port) == [56, 48, 56, 48];
  }

  lemma {:induction false} HashOf8080(a: NodeInfo)
    requires a.addr == ADDRESS && a.port == 8080
    ensures Murmur.Hash(KeyBytes(a)) == 0x89722e1e
  {
    KeyBytesOf8080(a);
    MurmurValues.HashOfRing(KeyBytes(a));
  }

  lemma {:induction false} ExampleFits(a: NodeInfo)
    requires a.addr == ADDRESS
    ensures Fits(a)
  {
  }

  lemma {:induction false} KeyFromHash(a: NodeInfo, hash: Murmur.Word)
    requires Fits(a) && Murmur.Hash(KeyBytes(a)) == hash
    ensures KeyOf(a) == hash as nat
  {
  }

  lemma {:induction false} ValueOfKey(hash: Murmur.Word)
    requires hash == 0x89722e1e
    ensures hash as nat == 0x89722e1e
  {
  }

  /** The key of 10.0.0.1 with port 8080. */
  lemma {:induction false} KeyExample(a: NodeInfo)
    requires a.addr == ADDRESS && a.port == 8080
    ensures Fits(a) && KeyOf(a) == 0x89722e1e
  {
    ExampleFits(a);
    HashOf8080(a);
    var hash := Murmur.Hash(KeyBytes(a));
    KeyFromHash(a, hash);
    ValueOfKey(hash);
  }

  /** 10.0.0.1 with port 12345, and 10.0.0.11 with port 2345. */
  lemma {:induction false} SharedKeyExample()
    ensures var a, b := NodeInfo(ADDRESS, 12345), NodeInfo(ADDRESS + [49], 2345);
      a != b && Fits(a) && Fits(b) && KeyOf(a) == KeyOf(b)
  {
    var a, b := NodeInfo(ADDRESS, 12345), NodeInfo(ADDRESS + [49], 2345);
    ShortLeading(12345, 9);
    ShortLeading(2345, 9);
    BehindUnfold(1, 2345);
    BehindUnfold(1, 234);
    BehindUnfold(1, 23);
    BehindUnfold(1, 2);
    assert Text(Digits(1)) == [49];
    assert b.addr == a.addr + Sign(false) + Text(Digits(1));
    assert MovedDigits(a, b, 1);
    SharedKey(a, b);
  }

  lemma {:induction false} ShortLeading(n: nat, k: nat)
    requires n < 100_000 && k >= 5
    ensures Leading(n, k) == n
  {
    DigitsBound(n);
    if |Digits(n)| > 5 {
      Pow10Monotone(5, |Digits(n)| - 1);
      assert false;
    }
  }
}
