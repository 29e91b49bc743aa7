/** The bit-serial reflected CRC-32 of dma/sniff_crc: what it detects, and why appending
    the register to a message drives the check value to zero. A machine word is modelled
    by its bits, least significant first, which is also the transmission order. */
module Crc32 {
  import opened Wrappers

  /** No bit set: as a word, the value 0; as a pattern of flipped bits, no change. */
  predicate Quiet(s: seq<bool>) {
    forall i :: 0 <= i < |s| ==> !s[i]
  }

  /** Bit `i` of an unsigned value. */
  predicate BitAt(v: nat, i: nat) {
    if i == 0 then v % 2 == 1 else BitAt(v / 2, i - 1)
  }

  function WordOf(v: nat): (w: Word)
    ensures forall i :: 0 <= i < 32 ==> w[i] == BitAt(v, i)
  {
    seq(32, i requires 0 <= i < 32 => BitAt(v, i))
  }

  const CRC32_INIT: Word := WordOf(0xFFFF_FFFF)
  const POLYNOMIAL: Word := WordOf(0xEDB8_8320)

  /** The value of these bits, least significant first. */
  function Number(bits: seq<bool>): nat {
    if bits == [] then 0 else (if bits[0] then 1 else 0) + 2 * Number(bits[1..])
  }

  lemma {:induction false} BitsOf(bits: seq<bool>, i: nat)
    requires i < |bits|
    ensures BitAt(Number(bits), i) == bits[i]
  {
    if i > 0 { BitsOf(bits[1..], i - 1); }
  }

  lemma WordIs(w: Word)
    ensures WordOf(Number(w)) == w
  {
    forall i | 0 <= i < 32 ensures WordOf(Number(w))[i] == w[i] { BitsOf(w, i); }
  }

  function Digit(d: nat): (bits: seq<bool>)
    ensures |bits| == 4
  {
    [d % 2 == 1, d / 2 % 2 == 1, d / 4 % 2 == 1, d / 8 % 2 == 1]
  }

  lemma DigitSum(d: nat)
    requires d < 16
    ensures d == d % 2 + 2 * (d / 2 % 2) + 4 * (d / 4 % 2) + 8 * (d / 8 % 2)
  {
  }

  lemma NextDigit(d: nat, rest: seq<bool>)
    requires d < 16
    ensures Number(Digit(d) + rest) == d + 16 * Number(rest)
  {
    hide Number;
    DigitSum(d);
    var bits := Digit(d) + rest;
    FirstBit(bits);
    FirstBit(bits[1..]);
    FirstBit(bits[1..][1..]);
    FirstBit(bits[1..][1..][1..]);
    assert bits[1..][1..][1..][1..] == rest;
  }

  lemma FirstBit(bits: seq<bool>)
    requires bits != []
    ensures Number(bits) == (if bits[0] then 1 else 0) + 2 * Number(bits[1..])
  {
  }

  /** A word of these eight hexadecimal digits, from the least up. */
  lemma EightDigits(a: nat, b: nat, c: nat, d: nat, e: nat, f: nat, g: nat, h: nat) returns (w: Word)
    requires a < 16 && b < 16 && c < 16 && d < 16 && e < 16 && f < 16 && g < 16 && h < 16
    ensures w == WordOf(a + 16 * (b + 16 * (c + 16 * (d + 16 * (e + 16 * (f + 16 * (g + 16 * h)))))))
    ensures w[..4] == Digit(a) && w[4..8] == Digit(b) && w[8..12] == Digit(c) && w[12..16] == Digit(d)
    ensures w[16..20] == Digit(e) && w[20..24] == Digit(f) && w[24..28] == Digit(g) && w[28..] == Digit(h)
  {
    hide Number, WordOf, Digit;
    assert Number([]) == 0 by { NoBits(); }
    var top := Digit(h) + [];
    NextDigit(h, []);
    NextDigit(g, top);
    NextDigit(f, Digit(g) + top);
    NextDigit(e, Digit(f) + (Digit(g) + top));
    var high := Digit(e) + (Digit(f) + (Digit(g) + top));
    NextDigit(d, high);
    NextDigit(c, Digit(d) + high);
    NextDigit(b, Digit(c) + (Digit(d) + high));
    NextDigit(a, Digit(b) + (Digit(c) + (Digit(d) + high)));
    w := Digit(a) + (Digit(b) + (Digit(c) + (Digit(d) + high)));
    WordIs(w);
  }

  lemma NoBits()
    ensures Number([]) == 0
  {
  }

  /** Which powers the generator of IEEE 802.3, section 3.2.9, has below the 32nd. */
  predicate HasPower(e: int) {
    e in {26, 23, 22, 16, 12, 11, 10, 8, 7, 5, 4, 2, 1, 0}
  }

  lemma Quarter(w: Word, k: nat, d: nat)
    requires k <= 28 && w[k..k + 4] == Digit(d)
    ensures w[k] == Digit(d)[0] && w[k + 1] == Digit(d)[1] && w[k + 2] == Digit(d)[2] && w[k + 3] == Digit(d)[3]
  {
    assert w[k + 1] == w[k..k + 4][1] && w[k + 2] == w[k..k + 4][2] && w[k + 3] == w[k..k + 4][3];
  }

  /** Bit `i` of the constant is the coefficient of the power 31 - i. */
  lemma Generator()
    ensures forall i :: 0 <= i < 32 ==> (POLYNOMIAL[i] <==> HasPower(31 - i))
  {
    hide WordOf, Digit;
    var w := EightDigits(0x0, 0x2, 0x3, 0x8, 0x8, 0xB, 0xD, 0xE);
    assert w == POLYNOMIAL && w[28..] == w[28..32];
    Quarter(w, 0, 0x0);
    Quarter(w, 4, 0x2);
    Quarter(w, 8, 0x3);
    Quarter(w, 12, 0x8);
    Quarter(w, 16, 0x8);
    Quarter(w, 20, 0xB);
    Quarter(w, 24, 0xD);
    Quarter(w, 28, 0xE);
    DigitBits();
  }

  lemma DigitBits()
    ensures Digit(0x0) == [false, false, false, false] && Digit(0x2) == [false, true, false, false]
    ensures Digit(0x3) == [true, true, false, false] && Digit(0x8) == [false, false, false, true]
    ensures Digit(0xB) == [true, true, false, true] && Digit(0xD) == [true, false, true, true]
    ensures Digit(0xE) == [false, true, true, true] && Digit(0xF) == [true, true, true, true]
  {
  }

  /** The initial register is all ones. */
  lemma InitialOnes()
    ensures forall i :: 0 <= i < 32 ==> CRC32_INIT[i]
  {
    hide WordOf, Digit;
    DigitBits();
    var w := EightDigits(15, 15, 15, 15, 15, 15, 15, 15);
    Quarter(w, 0, 15);
    Quarter(w, 4, 15);
    Quarter(w, 8, 15);
    Quarter(w, 12, 15);
    Quarter(w, 16, 15);
    Quarter(w, 20, 15);
    Quarter(w, 24, 15);
    assert w[28..] == w[28..32];
    Quarter(w, 28, 15);
    assert CRC32_INIT == w;
  }

  /** `a ^ b` */
  function Xor(a: seq<bool>, b: seq<bool>): (c: seq<bool>)
    requires |a| == |b|
    ensures |c| == |a| && forall i :: 0 <= i < |c| ==> c[i] == (a[i] != b[i])
  {
    seq(|a|, i requires 0 <= i < |a| => a[i] != b[i])
  }

  /** `w >> 1` */
  function Shr(w: Word): Word {
    w[1..] + [false]
  }

  /** Zero extension of a byte, or of part of a word, to a whole word. */
  function Extend(bits: seq<bool>): (w: Word)
    requires |bits| <= 32
    ensures forall i :: 0 <= i < 32 ==> w[i] == (i < |bits| && bits[i])
  {
    bits + seq(32 - |bits|, _ => false)
  }

  /** One inner-loop iteration: shift, and fold in the polynomial when the low bits differ. */
  function Step(crc: Word, bit: bool): Word {
    if crc[0] != bit then Xor(Shr(crc), POLYNOMIAL) else Shr(crc)
  }

  function CrcBits(crc: Word, bits: seq<bool>): Word
    decreases |bits|
  {
    if bits == [] then crc else CrcBits(Step(crc, bits[0]), bits[1..])
  }

  function MessageBits(msg: seq<Octet>): (bits: seq<bool>)
    ensures |bits| == 8 * |msg|
  {
    if msg == [] then [] else msg[0] + MessageBits(msg[1..])
  }

  function CrcBytes(crc: Word, msg: seq<Octet>): Word {
    CrcBits(crc, MessageBits(msg))
  }

  /** A word in memory order, as a little-endian store leaves it. */
  function LittleEndian(w: Word): (bytes: seq<Octet>)
    ensures |bytes| == 4
  {
    [w[..8], w[8..16], w[16..24], w[24..]]
  }

  function Protected(msg: seq<Octet>): seq<Octet> {
    msg + LittleEndian(CrcBytes(CRC32_INIT, msg))
  }

  // ----- The step is linear over GF(2), and invertible on a zero bit

  lemma StepLinear(a: Word, b: Word, x: bool, y: bool)
    ensures Step(Xor(a, b), x != y) == Xor(Step(a, x), Step(b, y))
  {
  }

  lemma {:induction false} CrcLinear(a: Word, b: Word, m: seq<bool>, e: seq<bool>)
    requires |m| == |e|
    ensures CrcBits(Xor(a, b), Xor(m, e)) == Xor(CrcBits(a, m), CrcBits(b, e))
    decreases |m|
  {
    if m != [] {
      StepLinear(a, b, m[0], e[0]);
      assert Xor(m, e)[1..] == Xor(m[1..], e[1..]);
      CrcLinear(Step(a, m[0]), Step(b, e[0]), m[1..], e[1..]);
    }
  }

  lemma TopOfPolynomial()
    ensures POLYNOMIAL[31]
  {
    Generator();
  }

  lemma StepOnZeroBit(c: Word)
    ensures Quiet(Step(c, false)) <==> Quiet(c)
  {
    TopOfPolynomial();
    if c[0] {
      assert Step(c, false)[31];
    } else {
      assert forall i :: 1 <= i < 32 ==> c[i] == Step(c, false)[i - 1];
      assert forall i :: 0 <= i < 31 ==> Step(c, false)[i] == c[i + 1];
    }
  }

  lemma {:induction false} QuietTail(c: Word, tail: seq<bool>)
    requires Quiet(tail)
    ensures Quiet(CrcBits(c, tail)) <==> Quiet(c)
    decreases |tail|
  {
    if tail != [] {
      StepOnZeroBit(c);
      QuietTail(Step(c, tail[0]), tail[1..]);
    }
  }

  lemma ExtendedStep(c: Word, bits: seq<bool>)
    requires 0 < |bits| <= 32
    ensures Step(Xor(c, Extend(bits)), false) == Xor(Step(c, bits[0]), Extend(bits[1..]))
  {
    var l, r := Step(Xor(c, Extend(bits)), false), Xor(Step(c, bits[0]), Extend(bits[1..]));
    forall i | 0 <= i < 32
      ensures l[i] == r[i]
    {
      if i < 31 {
        assert Extend(bits)[i + 1] == Extend(bits[1..])[i];
      }
    }
  }

  /** At most 32 bits leave zero exactly when they equal the low bits of the register, the
      rest of the register being zero. */
  lemma {:induction false} ShortFeed(c: Word, bits: seq<bool>)
    requires |bits| <= 32
    ensures Quiet(CrcBits(c, bits)) <==> Quiet(Xor(c, Extend(bits)))
    decreases |bits|
  {
    if bits == [] {
      assert Xor(c, Extend(bits)) == c;
    } else {
      ExtendedStep(c, bits);
      StepOnZeroBit(Xor(c, Extend(bits)));
      ShortFeed(Step(c, bits[0]), bits[1..]);
    }
  }

  // ----- Concatenation

  lemma {:induction false} CrcConcat(c: Word, a: seq<bool>, b: seq<bool>)
    ensures CrcBits(c, a + b) == CrcBits(CrcBits(c, a), b)
    decreases |a|
  {
    if a == [] {
      assert a + b == b;
    } else {
      assert (a + b)[1..] == a[1..] + b;
      CrcConcat(Step(c, a[0]), a[1..], b);
    }
  }

  lemma {:induction false} MessageBitsConcat(a: seq<Octet>, b: seq<Octet>)
    ensures MessageBits(a + b) == MessageBits(a) + MessageBits(b)
  {
    if a == [] {
      assert a + b == b;
    } else {
      assert (a + b)[1..] == a[1..] + b;
      MessageBitsConcat(a[1..], b);
    }
  }

  lemma CrcBytesConcat(c: Word, a: seq<Octet>, b: seq<Octet>)
    ensures CrcBytes(c, a + b) == CrcBytes(CrcBytes(c, a), b)
  {
    MessageBitsConcat(a, b);
    CrcConcat(c, MessageBits(a), MessageBits(b));
  }

  function Whole(chunks: seq<seq<Octet>>): seq<Octet> {
    if chunks == [] then [] else chunks[0] + Whole(chunks[1..])
  }

  /** The register handed on from chunk to chunk. */
  function CrcChunks(c: Word, chunks: seq<seq<Octet>>): Word
    decreases |chunks|
  {
    if chunks == [] then c else CrcChunks(CrcBytes(c, chunks[0]), chunks[1..])
  }

  /** Any chunking of a message gives the register of the whole. */
  lemma {:induction false} Chunking(c: Word, chunks: seq<seq<Octet>>)
    ensures CrcChunks(c, chunks) == CrcBytes(c, Whole(chunks))
    decreases |chunks|
  {
    if chunks != [] {
      CrcBytesConcat(c, chunks[0], Whole(chunks[1..]));
      Chunking(CrcBytes(c, chunks[0]), chunks[1..]);
    }
  }

  // ----- Residue

  lemma LittleEndianBits(w: Word)
    ensures MessageBits(LittleEndian(w)) == w
  {
    var b := LittleEndian(w);
    assert MessageBits(b[3..]) == b[3];
    assert MessageBits(b[2..]) == b[2] + MessageBits(b[3..]);
    assert MessageBits(b[1..]) == b[1] + MessageBits(b[2..]);
  }

  /** The register, appended to the message that produced it, always cancels exactly. */
  lemma Residue(init: Word, msg: seq<Octet>)
    ensures Quiet(CrcBytes(init, msg + LittleEndian(CrcBytes(init, msg))))
  {
    var w := CrcBytes(init, msg);
    CrcBytesConcat(init, msg, LittleEndian(w));
    LittleEndianBits(w);
    ShortFeed(w, w);
  }

  // ----- Detection

  /** Whether a corrupted block still checks depends on the pattern of flipped bits alone:
      it does exactly when that pattern leaves a zero register at zero. */
  lemma CheckOfCorruption(init: Word, good: seq<Octet>, bad: seq<Octet>, zero: Word)
    requires |good| == |bad| && Quiet(CrcBytes(init, good)) && Quiet(zero)
    ensures Quiet(CrcBytes(init, bad)) <==> Quiet(CrcBits(zero, Xor(MessageBits(good), MessageBits(bad))))
  {
    CrcLinear(init, init, MessageBits(good), MessageBits(bad));
    assert Xor(init, init) == zero;
    assert Xor(CrcBytes(init, good), CrcBytes(init, bad)) == CrcBytes(init, bad);
  }

  lemma {:induction false} DifferentBytesDifferInABit(a: seq<Octet>, b: seq<Octet>) returns (i: nat)
    requires |a| == |b| && a != b
    ensures i < 8 * |a| && MessageBits(a)[i] != MessageBits(b)[i]
  {
    if a[0] == b[0] {
      assert a == [a[0]] + a[1..] && b == [b[0]] + b[1..];
      var j := DifferentBytesDifferInABit(a[1..], b[1..]);
      i := j + 8;
    } else {
      i :| 0 <= i < 8 && a[0][i] != b[0][i];
    }
  }

  lemma QuietSurround(zero: Word, head: seq<bool>, window: seq<bool>, tail: seq<bool>)
    requires Quiet(zero) && Quiet(head) && Quiet(tail)
    ensures Quiet(CrcBits(zero, head))
    ensures Quiet(CrcBits(zero, head + (window + tail))) <==> Quiet(CrcBits(CrcBits(zero, head), window))
  {
    QuietTail(zero, head);
    CrcConcat(zero, head, window + tail);
    CrcConcat(CrcBits(zero, head), window, tail);
    QuietTail(CrcBits(CrcBits(zero, head), window), tail);
  }

  /** A non-zero pattern inside a 32-bit window leaves a non-zero register. */
  lemma BurstPattern(zero: Word, e: seq<bool>, k: nat, i: nat)
    requires Quiet(zero) && k <= i < |e| && e[i]
    requires forall j :: 0 <= j < |e| && e[j] ==> k <= j < k + 32
    ensures !Quiet(CrcBits(zero, e))
  {
    var end := if k + 32 <= |e| then k + 32 else |e|;
    var head, window, tail := e[..k], e[k..end], e[end..];
    assert e == head + (window + tail);
    QuietSurround(zero, head, window, tail);
    var c := CrcBits(zero, head);
    assert Xor(c, Extend(window))[i - k];
    ShortFeed(c, window);
  }

  /** Of a block that checks, any change confined to 32 consecutive transmitted bits is detected. */
  lemma {:induction false} BurstBreaksCheck(init: Word, good: seq<Octet>, bad: seq<Octet>, k: nat)
    requires |bad| == |good| && bad != good && Quiet(CrcBytes(init, good))
    requires forall i :: 0 <= i < 8 * |bad| && MessageBits(bad)[i] != MessageBits(good)[i] ==> k <= i < k + 32
    ensures !Quiet(CrcBytes(init, bad))
  {
    var zero := Xor(init, init);
    CheckOfCorruption(init, good, bad, zero);
    var i := DifferentBytesDifferInABit(good, bad);
    BurstPattern(zero, Xor(MessageBits(good), MessageBits(bad)), k, i);
  }

  /** Any change to a protected message confined to 32 consecutive transmitted bits is detected. */
  lemma BurstDetected(msg: seq<Octet>, bad: seq<Octet>, k: nat)
    requires |bad| == |Protected(msg)| && bad != Protected(msg)
    requires forall i :: 0 <= i < 8 * |bad| && MessageBits(bad)[i] != MessageBits(Protected(msg))[i]
               ==> k <= i < k + 32
    ensures !Quiet(CrcBytes(CRC32_INIT, bad))
  {
    Residue(CRC32_INIT, msg);
    BurstBreaksCheck(CRC32_INIT, Protected(msg), bad, k);
  }

  lemma {:induction false} BitOfByte(msg: seq<Octet>, i: nat)
    requires i < 8 * |msg|
    ensures MessageBits(msg)[i] == msg[i / 8][i % 8]
  {
    if i >= 8 {
      BitOfByte(msg[1..], i - 8);
    }
  }

  /** Hence any change to any single byte is detected. */
  lemma SingleByteDetected(msg: seq<Octet>, n: nat, b: Octet)
    requires n < |Protected(msg)| && b != Protected(msg)[n]
    ensures !Quiet(CrcBytes(CRC32_INIT, Protected(msg)[n := b]))
  {
    var good := Protected(msg);
    var bad := good[n := b];
    forall i | 0 <= i < 8 * |bad| && MessageBits(bad)[i] != MessageBits(good)[i]
      ensures 8 * n <= i < 8 * n + 32
    {
      BitOfByte(good, i);
      BitOfByte(bad, i);
    }
    assert bad[n] != good[n];
    BurstDetected(msg, bad, 8 * n);
  }

  /** 32 bits is the best possible: the 33-bit generator pattern goes unnoticed wherever it falls. */
  lemma BurstBoundIsSharp(zero: Word, head: seq<bool>, tail: seq<bool>)
    requires Quiet(zero) && Quiet(head) && Quiet(tail)
    ensures Quiet(CrcBits(zero, head + ([true] + POLYNOMIAL + tail)))
  {
    QuietSurround(zero, head, [true] + POLYNOMIAL, tail);
    GeneratorUnnoticed(CrcBits(zero, head));
  }

  lemma GeneratorUnnoticed(zero: Word)
    requires Quiet(zero)
    ensures Quiet(CrcBits(zero, [true] + POLYNOMIAL))
  {
    assert ([true] + POLYNOMIAL)[1..] == POLYNOMIAL;
    assert Step(zero, true) == POLYNOMIAL;
    ShortFeed(POLYNOMIAL, POLYNOMIAL);
  }

  /** The bytes of these bits. */
  function Octets(bits: seq<bool>): (bytes: seq<Octet>)
    requires |bits| % 8 == 0
    ensures 8 * |bytes| == |bits|
    decreases |bits|
  {
    if bits == [] then [] else [bits[..8]] + Octets(bits[8..])
  }

  lemma {:induction false} BitsOfOctets(bits: seq<bool>)
    requires |bits| % 8 == 0
    ensures MessageBits(Octets(bits)) == bits
    decreases |bits|
  {
    if bits != [] {
      BitsOfOctets(bits[8..]);
      assert Octets(bits)[1..] == Octets(bits[8..]);
    }
  }

  /** On buffers: every block that checks and has room for 33 bits has, wherever one puts them, another of the
      same length that differs from it there alone and checks as well. */
  lemma BurstMissed(init: Word, good: seq<Octet>, k: nat) returns (bad: seq<Octet>)
    requires Quiet(CrcBytes(init, good)) && k + 33 <= 8 * |good|
    ensures |bad| == |good| && bad != good && Quiet(CrcBytes(init, bad))
    ensures forall i :: 0 <= i < 8 * |good| && MessageBits(bad)[i] != MessageBits(good)[i] ==> k <= i < k + 33
  {
    var zero, bits := Xor(init, init), MessageBits(good);
    var head, tail := seq(k, _ => false), seq(|bits| - k - 33, _ => false);
    var pattern := head + ([true] + POLYNOMIAL + tail);
    bad := Octets(Xor(bits, pattern));
    BitsOfOctets(Xor(bits, pattern));
    hide MessageBits, Octets;
    assert Xor(bits, MessageBits(bad)) == pattern;
    CheckOfCorruption(init, good, bad, zero);
    BurstBoundIsSharp(zero, head, tail);
    assert pattern[k];
  }

  /** So of every protected message of at least one byte some change to 33 bits in a row goes unnoticed. */
  lemma ProtectionMissed(msg: seq<Octet>, k: nat) returns (bad: seq<Octet>)
    requires k + 33 <= 8 * |Protected(msg)|
    ensures |bad| == |Protected(msg)| && bad != Protected(msg) && Quiet(CrcBytes(CRC32_INIT, bad))
    ensures forall i :: 0 <= i < 8 * |bad| && MessageBits(bad)[i] != MessageBits(Protected(msg))[i] ==> k <= i < k + 33
  {
    Residue(CRC32_INIT, msg);
    bad := BurstMissed(CRC32_INIT, Protected(msg), k);
  }

  // ----- The code

  lemma PrefixOfShr(w: Word, n: nat)
    requires 0 < n <= 32
    ensures Shr(w)[..n - 1] == w[..n][1..]
  {
  }

  /** soft_crc32_block over `length` bytes of `buf` from `bytp`. */
  method Crc32Block(init: Word, buf: array<Octet>, bytp: nat, length: nat) returns (crc: Word)
    requires bytp + length <= buf.Length
    ensures crc == CrcBytes(init, buf[bytp..bytp + length])
  {
    crc := init;
    var p, remaining := bytp, length;
    while remaining != 0
      invariant bytp <= p <= p + remaining == bytp + length
      invariant CrcBytes(crc, buf[p..bytp + length]) == CrcBytes(init, buf[bytp..bytp + length])
    {
      ghost var todo, before := buf[p..bytp + length], crc;
      var byte32 := Extend(buf[p]);
      p, remaining := p + 1, remaining - 1;
      var bit := 8;
      assert byte32[..8] == todo[0];
      while bit != 0
        invariant 0 <= bit <= 8
        invariant CrcBits(crc, byte32[..bit]) == CrcBits(before, todo[0])
        decreases bit
      {
        PrefixOfShr(byte32, bit);
        crc := if Xor(crc, byte32)[0] then Xor(Shr(crc), POLYNOMIAL) else Shr(crc);
        byte32 := Shr(byte32);
        bit := bit - 1;
      }
      assert todo[1..] == buf[p..bytp + length];
      CrcConcat(before, todo[0], MessageBits(todo[1..]));
    }
  }

  /** The append in `main`: protect the first bytes of `src` by storing their CRC after them. */
  method AppendCrc(src: array<Octet>, dataLen: nat)
    requires src.Length == dataLen + 4
    modifies src
    ensures src[..] == Protected(old(src[..dataLen]))
    ensures Quiet(CrcBytes(CRC32_INIT, src[..]))
  {
    ghost var msg := src[..dataLen];
    var crc := Crc32Block(CRC32_INIT, src, 0, dataLen);
    var bytes := LittleEndian(crc);
    src[dataLen] := bytes[0];
    src[dataLen + 1] := bytes[1];
    src[dataLen + 2] := bytes[2];
    src[dataLen + 3] := bytes[3];
    assert src[dataLen..] == bytes;
    assert src[..] == src[..dataLen] + src[dataLen..];
    Residue(CRC32_INIT, msg);
  }
}
