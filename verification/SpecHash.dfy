/** FNV-1a over bytes with 64-bit wrap-around, and how an edit of one byte always shows in the hash. */
module SpecHash {
  import opened Collections

  type byte = b: nat | b < 256

  const MODULUS := 0x1_0000_0000_0000_0000
  const OFFSET_BASIS := 0xcbf29ce484222325
  const PRIME := 0x100000001b3
  const INVERSE := 0xce965057aff6957b      // PRIME * INVERSE is 1 modulo 2^64

  type word = h: nat | h < MODULUS

  function Power2(n: nat): nat { if n == 0 then 1 else 2 * Power2(n - 1) }

  /** The exclusive or of two `n`-bit numbers. */
  function Xor(a: nat, b: nat, n: nat): nat {
    if n == 0 then 0 else (a % 2 + b % 2) % 2 + 2 * Xor(a / 2, b / 2, n - 1)
  }

  lemma {:induction false} XorFits(a: nat, b: nat, n: nat)
    ensures Xor(a, b, n) < Power2(n)
  {
    if n > 0 {
      XorFits(a / 2, b / 2, n - 1);
    }
  }

  lemma LowBit(low: nat, r: nat)
    requires low < 2
    ensures (low + 2 * r) % 2 == low && (low + 2 * r) / 2 == r
  {
  }

  lemma BitTwice(a: nat, b: nat)
    ensures ((a % 2 + b % 2) % 2 + b % 2) % 2 == a % 2
  {
  }

  lemma {:induction false} XorUndoes(a: nat, b: nat, n: nat)
    requires a < Power2(n)
    ensures Xor(Xor(a, b, n), b, n) == a
  {
    if n > 0 {
      var low, r := (a % 2 + b % 2) % 2, Xor(a / 2, b / 2, n - 1);
      LowBit(low, r);
      BitTwice(a, b);
      assert Xor(a, b, n) == low + 2 * r;
      XorUndoes(a / 2, b / 2, n - 1);
      assert Xor(low + 2 * r, b, n) == a % 2 + 2 * Xor(r, b / 2, n - 1);
    }
  }

  lemma {:induction false} XorCommutes(a: nat, b: nat, n: nat)
    ensures Xor(a, b, n) == Xor(b, a, n)
  {
    if n > 0 {
      XorCommutes(a / 2, b / 2, n - 1);
    }
  }

  lemma EightBits()
    ensures Power2(8) == 256
  {
    assert Power2(4) == 16;
  }

  /** `h ^ b`: only the low eight bits of the state meet the byte. */
  function MixByte(h: word, b: byte): (r: word)
    ensures r / 256 == h / 256
  {
    EightBits();
    XorFits(h % 256, b, 8);
    h - h % 256 + Xor(h % 256, b, 8)
  }

  /** One round: exclusive or, then a wrapping multiplication. */
  function Step(h: word, b: byte): word { MixByte(h, b) * PRIME % MODULUS }

  /** The round undone. */
  function Unstep(h: word, b: byte): word { MixByte(h * INVERSE % MODULUS, b) }

  lemma MixUndoes(h: word, b: byte)
    ensures MixByte(MixByte(h, b), b) == h
  {
    EightBits();
    XorFits(h % 256, b, 8);
    XorUndoes(h % 256, b, 8);
    assert MixByte(h, b) % 256 == Xor(h % 256, b, 8);
  }

  lemma TimesPrimeTimesInverse(x: word)
    ensures (x * PRIME % MODULUS) * INVERSE % MODULUS == x
    ensures (x * INVERSE % MODULUS) * PRIME % MODULUS == x
  {
    var p, q := x * PRIME / MODULUS, x * INVERSE / MODULUS;
    assert x * PRIME == p * MODULUS + x * PRIME % MODULUS;
    assert x * INVERSE == q * MODULUS + x * INVERSE % MODULUS;
    assert PRIME * INVERSE == 887285111055 * MODULUS + 1;
    Remainder((x * PRIME % MODULUS) * INVERSE, x * 887285111055 - p * INVERSE, x);
    Remainder((x * INVERSE % MODULUS) * PRIME, x * 887285111055 - q * PRIME, x);
  }

  lemma Remainder(n: int, k: int, r: word)
    requires n == k * MODULUS + r
    ensures n % MODULUS == r
  {
  }

  /** Each round is a bijection on the state: it can be undone, and whatever state is wanted it is the round
      of exactly one state. */
  lemma StepIsBijection(h: word, b: byte)
    ensures Unstep(Step(h, b), b) == h
    ensures Step(Unstep(h, b), b) == h
  {
    TimesPrimeTimesInverse(MixByte(h, b));
    MixUndoes(h, b);
    TimesPrimeTimesInverse(h);
    MixUndoes(h * INVERSE % MODULUS, b);
  }

  /** Two different bytes take the same state to different states. */
  lemma StepTellsBytes(h: word, b: byte, c: byte)
    requires Step(h, b) == Step(h, c)
    ensures b == c
  {
    TimesPrimeTimesInverse(MixByte(h, b));
    TimesPrimeTimesInverse(MixByte(h, c));
    assert MixByte(h, b) == MixByte(h, c);
    EightBits();
    var low := h % 256;
    XorCommutes(low, b, 8);
    XorCommutes(low, c, 8);
    XorUndoes(b, low, 8);
    XorUndoes(c, low, 8);
  }

  function HashFrom(h: word, bytes: seq<byte>): word
    decreases |bytes|
  {
    if bytes == [] then h else Step(HashFrom(h, bytes[..|bytes| - 1]), bytes[|bytes| - 1])
  }

  /** Equal ends of a common tail come from equal states. */
  lemma {:induction false} HashTellsStates(g: word, h: word, tail: seq<byte>)
    requires HashFrom(g, tail) == HashFrom(h, tail)
    ensures g == h
    decreases |tail|
  {
    hide Step;
    if tail != [] {
      var n := |tail| - 1;
      StepIsBijection(HashFrom(g, tail[..n]), tail[n]);
      StepIsBijection(HashFrom(h, tail[..n]), tail[n]);
      HashTellsStates(g, h, tail[..n]);
    }
  }

  lemma {:induction false} HashConcat(h: word, a: seq<byte>, b: seq<byte>)
    ensures HashFrom(h, a + b) == HashFrom(HashFrom(h, a), b)
    decreases |b|
  {
    hide Step;
    if b == [] {
      assert a + b == a;
    } else {
      var n := |b| - 1;
      assert (a + b)[..|a + b| - 1] == a + b[..n];
      HashConcat(h, a, b[..n]);
    }
  }

  /** The same but for one byte. */
  ghost predicate OneByteApart(x: seq<byte>, y: seq<byte>) {
    |x| == |y| && exists i :: 0 <= i < |x| && x[i] != y[i] && y == x[i := y[i]]
  }

  lemma ReplaceOne(p: seq<byte>, x: byte, y: byte, s: seq<byte>)
    requires x != y
    ensures OneByteApart(p + [x] + s, p + [y] + s)
  {
    var a, b := p + [x] + s, p + [y] + s;
    assert a[|p|] == x && b[|p|] == y && b == a[|p| := b[|p|]];
  }

  lemma HashAround(h: word, p: seq<byte>, b: byte, s: seq<byte>)
    ensures HashFrom(h, p + [b] + s) == HashFrom(Step(HashFrom(h, p), b), s)
  {
    hide Step;
    HashConcat(h, p + [b], s);
    assert (p + [b])[..|p|] == p;
  }

  /** Two inputs of equal length that differ in exactly one byte never hash alike. */
  lemma OneByteShows(x: seq<byte>, y: seq<byte>)
    requires OneByteApart(x, y)
    ensures HashFrom(OFFSET_BASIS, x) != HashFrom(OFFSET_BASIS, y)
  {
    hide Step, HashFrom;
    var i :| 0 <= i < |x| && x[i] != y[i] && y == x[i := y[i]];
    var p, s := x[..i], x[i + 1..];
    var h := HashFrom(OFFSET_BASIS, p);
    assert x == p + [x[i]] + s && y == p + [y[i]] + s;
    HashAround(OFFSET_BASIS, p, x[i], s);
    HashAround(OFFSET_BASIS, p, y[i], s);
    if HashFrom(OFFSET_BASIS, x) == HashFrom(OFFSET_BASIS, y) {
      HashTellsStates(Step(h, x[i]), Step(h, y[i]), s);
      StepTellsBytes(h, x[i], y[i]);
    }
  }

  // ------------------------------------------------------------- sixteen digits

  function Digit(n: nat): char
    requires n < 16
  {
    if n < 10 then ('0' as int + n) as char else ('a' as int + n - 10) as char
  }

  /** `n` digits, most significant first. */
  function HexDigits(h: nat, n: nat): (s: string)
    ensures |s| == n
  {
    if n == 0 then [] else HexDigits(h / 16, n - 1) + [Digit(h % 16)]
  }

  function Power16(n: nat): nat { if n == 0 then 1 else 16 * Power16(n - 1) }

  lemma {:induction false} HexDigitsTell(g: nat, h: nat, n: nat)
    requires g < Power16(n) && h < Power16(n) && HexDigits(g, n) == HexDigits(h, n)
    ensures g == h
  {
    if n > 0 {
      var x, y := HexDigits(g, n), HexDigits(h, n);
      assert x[n - 1] == Digit(g % 16) && y[n - 1] == Digit(h % 16);
      assert x[..n - 1] == HexDigits(g / 16, n - 1) && y[..n - 1] == HexDigits(h / 16, n - 1);
      HexDigitsTell(g / 16, h / 16, n - 1);
    }
  }

  function Fnv1aHex(bytes: seq<byte>): string { HexDigits(HashFrom(OFFSET_BASIS, bytes), 16) }

  method ComputeFnv1aHex(bytes: seq<byte>) returns (s: string)
    ensures s == Fnv1aHex(bytes)
  {
    hide HexDigits;
    var h: word := OFFSET_BASIS;
    for i := 0 to |bytes|
      invariant h == HashFrom(OFFSET_BASIS, bytes[..i])
    {
      assert bytes[..i + 1][..i] == bytes[..i];
      var mixed := MixByte(h, bytes[i]);
      h := mixed * PRIME % MODULUS;
    }
    assert bytes[..|bytes|] == bytes;
    s := HexDigits(h, 16);
  }

  lemma SixteenDigitsHold()
    ensures Power16(16) == MODULUS
  {
    assert Power16(4) == 0x1_0000;
    assert Power16(8) == 0x1_0000_0000;
    assert Power16(12) == 0x1_0000_0000_0000;
  }

  /** The digits show the difference too. */
  lemma OneByteShowsInHex(x: seq<byte>, y: seq<byte>)
    requires OneByteApart(x, y)
    ensures Fnv1aHex(x) != Fnv1aHex(y)
  {
    hide HashFrom, HexDigits, Power16, OneByteApart;
    OneByteShows(x, y);
    SixteenDigitsHold();
    if Fnv1aHex(x) == Fnv1aHex(y) {
      HexDigitsTell(HashFrom(OFFSET_BASIS, x), HashFrom(OFFSET_BASIS, y), 16);
    }
  }

  // ------------------------------------------------------- published values

  lemma FirstXor()
    ensures Xor(0x25, 0x61, 8) == 0x44
  {
    assert Xor(0x2, 0x6, 4) == 0x4;
  }

  lemma FirstMix()
    ensures MixByte(0xcbf29ce484222325, 0x61) == 0xcbf29ce484222344
  {
    hide Xor;
    FirstXor();
    assert 0xcbf29ce484222325 % 256 == 0x25;
  }

  lemma FirstRound()
    ensures Step(0xcbf29ce484222325, 0x61) == 0xaf63dc4c8601ec8c
  {
    hide MixByte;
    FirstMix();
    Remainder(0xcbf29ce484222344 * PRIME, 875948729822, 0xaf63dc4c8601ec8c);
  }

  lemma NoDigits()
    ensures HexDigits(0, 0) == ""
  {
  }

  /** One more digit at the end. */
  lemma OneDigit(h: nat, n: nat, s: string, d: nat, t: string)
    requires HexDigits(h, n) == s && d < 16 && t == s + [if d < 10 then ('0' as int + d) as char else ('a' as int + d - 10) as char]
    ensures HexDigits(16 * h + d, n + 1) == t
  {
    assert (16 * h + d) / 16 == h && (16 * h + d) % 16 == d;
  }

  lemma BasisDigits4()
    ensures HexDigits(0xcbf2, 4) == "cbf2"
  {
    hide HexDigits, Digit;
    NoDigits();
    OneDigit(0, 0, "", 0xc, "c");
    OneDigit(0xc, 1, "c", 0xb, "cb");
    OneDigit(0xcb, 2, "cb", 0xf, "cbf");
    OneDigit(0xcbf, 3, "cbf", 0x2, "cbf2");
  }

  lemma BasisDigits8()
    ensures HexDigits(0xcbf29ce4, 8) == "cbf29ce4"
  {
    hide HexDigits, Digit;
    BasisDigits4();
    OneDigit(0xcbf2, 4, "cbf2", 0x9, "cbf29");
    OneDigit(0xcbf29, 5, "cbf29", 0xc, "cbf29c");
    OneDigit(0xcbf29c, 6, "cbf29c", 0xe, "cbf29ce");
    OneDigit(0xcbf29ce, 7, "cbf29ce", 0x4, "cbf29ce4");
  }

  lemma BasisDigits12()
    ensures HexDigits(0xcbf29ce48422, 12) == "cbf29ce48422"
  {
    hide HexDigits, Digit;
    BasisDigits8();
    OneDigit(0xcbf29ce4, 8, "cbf29ce4", 0x8, "cbf29ce48");
    OneDigit(0xcbf29ce48, 9, "cbf29ce48", 0x4, "cbf29ce484");
    OneDigit(0xcbf29ce484, 10, "cbf29ce484", 0x2, "cbf29ce4842");
    OneDigit(0xcbf29ce4842, 11, "cbf29ce4842", 0x2, "cbf29ce48422");
  }

  lemma BasisDigits16()
    ensures HexDigits(0xcbf29ce484222325, 16) == "cbf29ce484222325"
  {
    hide HexDigits, Digit;
    BasisDigits12();
    OneDigit(0xcbf29ce48422, 12, "cbf29ce48422", 0x2, "cbf29ce484222");
    OneDigit(0xcbf29ce484222, 13, "cbf29ce484222", 0x3, "cbf29ce4842223");
    OneDigit(0xcbf29ce4842223, 14, "cbf29ce4842223", 0x2, "cbf29ce48422232");
    OneDigit(0xcbf29ce48422232, 15, "cbf29ce48422232", 0x5, "cbf29ce484222325");
  }

  lemma LetterDigits4()
    ensures HexDigits(0xaf63, 4) == "af63"
  {
    hide HexDigits, Digit;
    NoDigits();
    OneDigit(0, 0, "", 0xa, "a");
    OneDigit(0xa, 1, "a", 0xf, "af");
    OneDigit(0xaf, 2, "af", 0x6, "af6");
    OneDigit(0xaf6, 3, "af6", 0x3, "af63");
  }

  lemma LetterDigits8()
    ensures HexDigits(0xaf63dc4c, 8) == "af63dc4c"
  {
    hide HexDigits, Digit;
    LetterDigits4();
    OneDigit(0xaf63, 4, "af63", 0xd, "af63d");
    OneDigit(0xaf63d, 5, "af63d", 0xc, "af63dc");
    OneDigit(0xaf63dc, 6, "af63dc", 0x4, "af63dc4");
    OneDigit(0xaf63dc4, 7, "af63dc4", 0xc, "af63dc4c");
  }

  lemma LetterDigits12()
    ensures HexDigits(0xaf63dc4c8601, 12) == "af63dc4c8601"
  {
    hide HexDigits, Digit;
    LetterDigits8();
    OneDigit(0xaf63dc4c, 8, "af63dc4c", 0x8, "af63dc4c8");
    OneDigit(0xaf63dc4c8, 9, "af63dc4c8", 0x6, "af63dc4c86");
    OneDigit(0xaf63dc4c86, 10, "af63dc4c86", 0x0, "af63dc4c860");
    OneDigit(0xaf63dc4c860, 11, "af63dc4c860", 0x1, "af63dc4c8601");
  }

  lemma LetterDigits16()
    ensures HexDigits(0xaf63dc4c8601ec8c, 16) == "af63dc4c8601ec8c"
  {
    hide HexDigits, Digit;
    LetterDigits12();
    OneDigit(0xaf63dc4c8601, 12, "af63dc4c8601", 0xe, "af63dc4c8601e");
    OneDigit(0xaf63dc4c8601e, 13, "af63dc4c8601e", 0xc, "af63dc4c8601ec");
    OneDigit(0xaf63dc4c8601ec, 14, "af63dc4c8601ec", 0x8, "af63dc4c8601ec8");
    OneDigit(0xaf63dc4c8601ec8, 15, "af63dc4c8601ec8", 0xc, "af63dc4c8601ec8c");
  }

  /** FNV-1a's published 64-bit values for the empty text and for `a`. */
  lemma PublishedValues()
    ensures Fnv1aHex([]) == "cbf29ce484222325"
    ensures Fnv1aHex([0x61]) == "af63dc4c8601ec8c"
  {
    hide Step, HexDigits;
    FirstRound();
    BasisDigits16();
    LetterDigits16();
    assert [0x61][..0] == [];
  }
}
