/** The hand-written SHA-256 digest, proved against the Secure Hash Standard (FIPS 180-4). */
module Sha256 {
  newtype byte = x: int | 0 <= x < 0x100

  type word = x: nat | x < 0x1_0000_0000

  // ---------- FIPS 180-4, sections 3.2, 4.1.2, 4.2.2 and 5.3.3 ----------

  /** Rotation to the right, as section 3.2 writes it. */
  function RotR(x: bv32, n: bv32): bv32
    requires 0 < n < 32
  {
    (x >> n) | (x << (32 - n))
  }

  function Xor3(a: bv32, b: bv32, c: bv32): bv32 { a ^ b ^ c }

  // Addition modulo 2^32.

  function Sum2(a: bv32, b: bv32): bv32 { a + b }

  function Sum4(a: bv32, b: bv32, c: bv32, d: bv32): bv32 { Sum2(Sum2(Sum2(a, b), c), d) }

  function Ch(x: bv32, y: bv32, z: bv32): bv32 { (x & y) ^ (!x & z) }

  function Maj(x: bv32, y: bv32, z: bv32): bv32 { Xor3(x & y, x & z, y & z) }

  function BigSigma0(x: bv32): bv32 { Xor3(RotR(x, 2), RotR(x, 13), RotR(x, 22)) }

  function BigSigma1(x: bv32): bv32 { Xor3(RotR(x, 6), RotR(x, 11), RotR(x, 25)) }

  function SmallSigma0(x: bv32): bv32 { Xor3(RotR(x, 7), RotR(x, 18), x >> 3) }

  function SmallSigma1(x: bv32): bv32 { Xor3(RotR(x, 17), RotR(x, 19), x >> 10) }

  /** The 64 round constants, eight to a row. */
  const K: seq<word> := K0 + K1 + K2 + K3 + K4 + K5 + K6 + K7

  const K0: seq<word> := [
    0x428a2f98, 0x71374491, 0xb5c0fbcf, 0xe9b5dba5, 0x3956c25b, 0x59f111f1, 0x923f82a4, 0xab1c5ed5]
  const K1: seq<word> := [
    0xd807aa98, 0x12835b01, 0x243185be, 0x550c7dc3, 0x72be5d74, 0x80deb1fe, 0x9bdc06a7, 0xc19bf174]
  const K2: seq<word> := [
    0xe49b69c1, 0xefbe4786, 0x0fc19dc6, 0x240ca1cc, 0x2de92c6f, 0x4a7484aa, 0x5cb0a9dc, 0x76f988da]
  const K3: seq<word> := [
    0x983e5152, 0xa831c66d, 0xb00327c8, 0xbf597fc7, 0xc6e00bf3, 0xd5a79147, 0x06ca6351, 0x14292967]
  const K4: seq<word> := [
    0x27b70a85, 0x2e1b2138, 0x4d2c6dfc, 0x53380d13, 0x650a7354, 0x766a0abb, 0x81c2c92e, 0x92722c85]
  const K5: seq<word> := [
    0xa2bfe8a1, 0xa81a664b, 0xc24b8b70, 0xc76c51a3, 0xd192e819, 0xd6990624, 0xf40e3585, 0x106aa070]
  const K6: seq<word> := [
    0x19a4c116, 0x1e376c08, 0x2748774c, 0x34b0bcb5, 0x391c0cb3, 0x4ed8aa4a, 0x5b9cca4f, 0x682e6ff3]
  const K7: seq<word> := [
    0x748f82ee, 0x78a5636f, 0x84c87814, 0x8cc70208, 0x90befffa, 0xa4506ceb, 0xbef9a3f7, 0xc67178f2]

  /** The eight working variables, and also a hash value. */
  datatype Regs = Regs(a: bv32, b: bv32, c: bv32, d: bv32, e: bv32, f: bv32, g: bv32, h: bv32)

  /** The eight words of the first hash value. */
  const H: seq<word> := [0x6a09e667, 0xbb67ae85, 0x3c6ef372, 0xa54ff53a,
                         0x510e527f, 0x9b05688c, 0x1f83d9ab, 0x5be0cd19]

  function InitialHash(): Regs {
    Regs(HashWord(0), HashWord(1), HashWord(2), HashWord(3), HashWord(4), HashWord(5), HashWord(6), HashWord(7))
  }

  function HashWord(i: nat): bv32
    requires i < 8
  {
    H[i] as bv32
  }

  // ---------- Section 5.1.1: padding ----------

  function Zeros(k: nat): seq<byte> { seq(k, _ => 0) }

  /** The last `len` hexadecimal digits of a number, most significant first. */
  function Digits(n: nat, len: nat): (r: seq<nat>)
    ensures |r| == len && forall i | 0 <= i < len :: r[i] < 16
  {
    if len == 0 then [] else Digits(n / 16, len - 1) + [n % 16]
  }

  /** The eight bytes of a 64-bit number, two digits to a byte. */
  function BigEndian64(n: nat): (r: seq<byte>)
    ensures |r| == 8
  {
    var digits := Digits(n, 16);
    seq(8, i requires 0 <= i < 8 => (16 * digits[2 * i] + digits[2 * i + 1]) as byte)
  }

  /** The length in bits, in 64 bits. */
  function BitLength(bytes: nat): nat { (bytes * 8) % 0x1_0000_0000_0000_0000 }

  /** The message, one set bit and zero bits up to the byte, k zero bytes, and the length in bits. */
  function PaddedBy(data: seq<byte>, k: nat): seq<byte> {
    data + [0x80] + Zeros(k) + BigEndian64(BitLength(|data|))
  }

  predicate FillsBlocks(length: nat, k: nat) { (length + 1 + k + 8) % 64 == 0 }

  /** `padded` has whole blocks, with the fewest zero bytes that allow it. */
  ghost predicate IsPadding(data: seq<byte>, padded: seq<byte>) {
    exists k: nat :: padded == PaddedBy(data, k) && IsFewest(|data|, k)
  }

  ghost predicate IsFewest(length: nat, k: nat) {
    FillsBlocks(length, k) && forall fewer: nat | fewer < k :: !FillsBlocks(length, fewer)
  }

  /** The padding of a message. */
  function Padded(data: seq<byte>): seq<byte> {
    PaddedBy(data, (119 - |data| % 64) % 64)
  }

  lemma FewestIsResidue(length: nat, k: nat)
    ensures IsFewest(length, k) <==> k == (119 - length % 64) % 64
  {
    var r := (119 - length % 64) % 64;
    assert FillsBlocks(length, r);
    assert forall fewer: nat | fewer < r :: !FillsBlocks(length, fewer);
  }

  /** The padding of section 5.1.1 exists, is unique, and is what Padded computes. */
  lemma PaddingIsUnique(data: seq<byte>, padded: seq<byte>)
    ensures IsPadding(data, padded) <==> padded == Padded(data)
    ensures |Padded(data)| % 64 == 0 && |Padded(data)| <= |data| + 72
  {
    var r := (119 - |data| % 64) % 64;
    FewestIsResidue(|data|, r);
    if IsPadding(data, padded) {
      var k: nat :| padded == PaddedBy(data, k) && IsFewest(|data|, k);
      FewestIsResidue(|data|, k);
    }
  }

  function Pow16(len: nat): nat { if len == 0 then 1 else 16 * Pow16(len - 1) }

  lemma {:induction false} DigitsInjective(x: nat, y: nat, len: nat)
    requires x < Pow16(len) && y < Pow16(len)
    requires Digits(x, len) == Digits(y, len)
    ensures x == y
  {
    if len > 0 {
      var xs, ys := Digits(x / 16, len - 1), Digits(y / 16, len - 1);
      assert xs == Digits(x, len)[..len - 1] && ys == Digits(y, len)[..len - 1];
      assert x % 16 == Digits(x, len)[len - 1] == Digits(y, len)[len - 1] == y % 16;
      DigitsInjective(x / 16, y / 16, len - 1);
    }
  }

  lemma BigEndian64Injective(x: nat, y: nat)
    requires x < 0x1_0000_0000_0000_0000 && y < 0x1_0000_0000_0000_0000
    requires BigEndian64(x) == BigEndian64(y)
    ensures x == y
  {
    var xs, ys := Digits(x, 16), Digits(y, 16);
    forall i | 0 <= i < 8
      ensures xs[2 * i] == ys[2 * i] && xs[2 * i + 1] == ys[2 * i + 1]
    {
      assert BigEndian64(x)[i] as nat == 16 * xs[2 * i] + xs[2 * i + 1];
      assert BigEndian64(y)[i] as nat == 16 * ys[2 * i] + ys[2 * i + 1];
    }
    forall j | 0 <= j < 16
      ensures xs[j] == ys[j]
    {
      assert j == 2 * (j / 2) || j == 2 * (j / 2) + 1;
    }
    assert Pow16(8) == 0x1_0000_0000;
    assert Pow16(16) == 0x1_0000_0000_0000_0000;
    DigitsInjective(x, y, 16);
  }

  lemma NearbyLengths(a: nat, b: nat)
    requires BitLength(a) == BitLength(b) && -64 < a - b < 64
    ensures a == b
  {
  }

  lemma PaddedParts(x: seq<byte>)
    ensures var n := |Padded(x)|;
      && |x| + 9 <= n <= |x| + 72
      && Padded(x)[..|x|] == x
      && Padded(x)[n - 8..] == BigEndian64(BitLength(|x|))
  {
    hide BigEndian64, BitLength;
  }

  /** Different messages never have the same padding, however long they are. */
  lemma PaddingInjective(x: seq<byte>, y: seq<byte>)
    ensures Padded(x) == Padded(y) <==> x == y
  {
    hide Padded, BigEndian64, BitLength;
    if Padded(x) == Padded(y) {
      PaddedParts(x);
      PaddedParts(y);
      BitLengthBound(|x|);
      BitLengthBound(|y|);
      BigEndian64Injective(BitLength(|x|), BitLength(|y|));
      NearbyLengths(|x|, |y|);
    }
  }

  lemma BitLengthBound(n: nat)
    ensures BitLength(n) < 0x1_0000_0000_0000_0000
  {
  }

  // ---------- Section 6.2.2: the digest ----------

  /** The t-th big-endian word of a block. */
  function MessageWord(block: seq<byte>, t: nat): bv32
    requires |block| == 64 && t < 16
  {
    (block[4 * t] as bv32 << 24) | (block[4 * t + 1] as bv32 << 16)
    | (block[4 * t + 2] as bv32 << 8) | (block[4 * t + 3] as bv32)
  }

  function Schedule(block: seq<byte>, t: nat): bv32
    requires |block| == 64
  {
    if t < 16 then MessageWord(block, t)
    else Expand(Schedule(block, t - 2), Schedule(block, t - 7), Schedule(block, t - 15), Schedule(block, t - 16))
  }

  function Expand(w2: bv32, w7: bv32, w15: bv32, w16: bv32): bv32 {
    Sum4(w16, SmallSigma0(w15), w7, SmallSigma1(w2))
  }

  function Round(r: Regs, k: bv32, w: bv32): Regs {
    var t1 := Sum2(Sum4(r.h, BigSigma1(r.e), Ch(r.e, r.f, r.g), k), w);
    var t2 := Sum2(BigSigma0(r.a), Maj(r.a, r.b, r.c));
    Regs(Sum2(t1, t2), r.a, r.b, r.c, Sum2(r.d, t1), r.e, r.f, r.g)
  }

  /** The working variables after the first t rounds on a block. */
  function Rounds(r: Regs, block: seq<byte>, t: nat): Regs
    requires |block| == 64 && t <= 64
  {
    if t == 0 then r else Round(Rounds(r, block, t - 1), K[t - 1] as bv32, Schedule(block, t - 1))
  }

  lemma RoundsStep(r: Regs, block: seq<byte>, t: nat)
    requires |block| == 64 && t < 64
    ensures Rounds(r, block, t + 1) == Round(Rounds(r, block, t), K[t] as bv32, Schedule(block, t))
  {
    hide Round, Schedule;
  }

  function Add(x: Regs, y: Regs): Regs {
    Regs(Sum2(x.a, y.a), Sum2(x.b, y.b), Sum2(x.c, y.c), Sum2(x.d, y.d),
         Sum2(x.e, y.e), Sum2(x.f, y.f), Sum2(x.g, y.g), Sum2(x.h, y.h))
  }

  /** The hash value after the first n blocks of a padded message. */
  function Hash(padded: seq<byte>, n: nat): Regs
    requires 64 * n <= |padded|
  {
    if n == 0 then InitialHash()
    else
      var prior := Hash(padded, n - 1);
      Add(prior, Rounds(prior, padded[64 * (n - 1)..64 * n], 64))
  }

  function HexDigit(d: nat): char
    requires d < 16
  {
    "0123456789abcdef"[d]
  }

  /** A word in eight hexadecimal digits. */
  function HexWord(x: bv32): (r: string)
    ensures |r| == 8
  {
    Hex8(x as nat)
  }

  function Hex8(n: nat): (r: string)
    ensures |r| == 8
  {
    var digits := Digits(n, 8);
    seq(8, i requires 0 <= i < 8 => HexDigit(digits[i]))
  }

  function HexHash(r: Regs): (s: string)
    ensures |s| == 64
  {
    HexWord(r.a) + HexWord(r.b) + HexWord(r.c) + HexWord(r.d)
    + HexWord(r.e) + HexWord(r.f) + HexWord(r.g) + HexWord(r.h)
  }

  /** The digest of the standard, in hexadecimal. */
  function Digest(data: seq<byte>): string {
    PaddingIsUnique(data, Padded(data));
    HexHash(Hash(Padded(data), |Padded(data)| / 64))
  }

  lemma Hex8Injective(x: nat, y: nat)
    requires x < 0x1_0000_0000 && y < 0x1_0000_0000 && Hex8(x) == Hex8(y)
    ensures x == y
  {
    var xs, ys := Digits(x, 8), Digits(y, 8);
    forall i | 0 <= i < 8
      ensures xs[i] == ys[i]
    {
      assert HexDigit(xs[i]) == Hex8(x)[i] == Hex8(y)[i] == HexDigit(ys[i]);
    }
    assert Pow16(8) == 0x1_0000_0000;
    DigitsInjective(x, y, 8);
  }

  lemma WordAsNatInjective(x: bv32, y: bv32)
    requires x as nat == y as nat
    ensures x == y
  {
    assert (x as nat) as bv32 == x;
    assert (y as nat) as bv32 == y;
  }

  lemma HexWordInjective(x: bv32, y: bv32)
    requires HexWord(x) == HexWord(y)
    ensures x == y
  {
    hide Hex8;
    Hex8Injective(x as nat, y as nat);
    WordAsNatInjective(x, y);
  }

  /** The text names the hash value. */
  lemma HexHashInjective(r: Regs, s: Regs)
    requires HexHash(r) == HexHash(s)
    ensures r == s
  {
    hide HexWord;
    var x, y := HexWord(r.a) + HexWord(r.b), HexWord(s.a) + HexWord(s.b);
    var x', y' := x + HexWord(r.c) + HexWord(r.d), y + HexWord(s.c) + HexWord(s.d);
    var x'', y'' := x' + HexWord(r.e) + HexWord(r.f), y' + HexWord(s.e) + HexWord(s.f);
    SplitWord(x'' + HexWord(r.g), y'' + HexWord(s.g), r.h, s.h);
    SplitWord(x'', y'', r.g, s.g);
    SplitWord(x' + HexWord(r.e), y' + HexWord(s.e), r.f, s.f);
    SplitWord(x', y', r.e, s.e);
    SplitWord(x + HexWord(r.c), y + HexWord(s.c), r.d, s.d);
    SplitWord(x, y, r.c, s.c);
    SplitWord(HexWord(r.a), HexWord(s.a), r.b, s.b);
    HexWordInjective(r.a, s.a);
  }

  lemma SplitWord(x: string, y: string, v: bv32, w: bv32)
    requires x + HexWord(v) == y + HexWord(w)
    ensures x == y && v == w
  {
    hide HexWord;
    assert |x| == |y|;
    assert x == (x + HexWord(v))[..|x|] && y == (y + HexWord(w))[..|y|];
    assert HexWord(v) == (x + HexWord(v))[|x|..] && HexWord(w) == (y + HexWord(w))[|y|..];
    HexWordInjective(v, w);
  }

  // ---------- The program ----------

  lemma RotateRightIsRotR(x: bv32)
    ensures x.RotateRight(2) == RotR(x, 2) && x.RotateRight(6) == RotR(x, 6)
    ensures x.RotateRight(7) == RotR(x, 7) && x.RotateRight(11) == RotR(x, 11)
    ensures x.RotateRight(13) == RotR(x, 13) && x.RotateRight(17) == RotR(x, 17)
    ensures x.RotateRight(18) == RotR(x, 18) && x.RotateRight(19) == RotR(x, 19)
    ensures x.RotateRight(22) == RotR(x, 22) && x.RotateRight(25) == RotR(x, 25)
  {
  }

  /** How many bytes are missing until the length fits at the end of a block. */
  function Gap(n: nat): nat { if n % 64 <= 56 then 56 - n % 64 else 120 - n % 64 }

  lemma GapShrinks(n: nat)
    ensures n % 64 == 56 <==> (n + 8) % 64 == 0
    ensures n % 64 != 56 ==> Gap(n + 1) < Gap(n)
  {
    var q, r := n / 64, n % 64;
    assert n == 64 * q + r;
    if r < 56 {
      assert (n + 1) % 64 == r + 1;
    } else if r == 56 {
      assert (n + 8) % 64 == 0;
    } else if r < 63 {
      assert (n + 1) % 64 == r + 1;
    } else {
      assert (n + 1) % 64 == 0;
    }
  }

  method Pad(data: seq<byte>) returns (msg: seq<byte>)
    ensures IsPadding(data, msg)
  {
    hide Gap, BitLength, BigEndian64;
    var bitLen := BitLength(|data|);
    msg := data + [0x80];
    ghost var k: nat := 0;
    while |msg| % 64 != 56
      invariant msg == data + [0x80] + Zeros(k)
      invariant forall fewer: nat | fewer < k :: !FillsBlocks(|data|, fewer)
      decreases Gap(|msg|)
    {
      GapShrinks(|msg|);
      msg := msg + [0];
      k := k + 1;
    }
    GapShrinks(|msg|);
    msg := msg + BigEndian64(bitLen);
    assert msg == PaddedBy(data, k);
  }

  // The six mixing functions as the program writes them, with the processor's rotation.

  function Gamma0(x: bv32): bv32 { Xor3(x.RotateRight(7), x.RotateRight(18), x >> 3) }

  function Gamma1(x: bv32): bv32 { Xor3(x.RotateRight(17), x.RotateRight(19), x >> 10) }

  function Sum0(x: bv32): bv32 { Xor3(x.RotateRight(2), x.RotateRight(13), x.RotateRight(22)) }

  function Sum1(x: bv32): bv32 { Xor3(x.RotateRight(6), x.RotateRight(11), x.RotateRight(25)) }

  lemma MixingFunctionsAgree(x: bv32)
    ensures Gamma0(x) == SmallSigma0(x) && Gamma1(x) == SmallSigma1(x)
    ensures Sum0(x) == BigSigma0(x) && Sum1(x) == BigSigma1(x)
  {
    hide Xor3;
    RotateRightIsRotR(x);
  }

  /** The schedule step as the program computes it. */
  function Extend(w16: bv32, w15: bv32, w7: bv32, w2: bv32): bv32 {
    Sum4(w16, Gamma0(w15), w7, Gamma1(w2))
  }

  lemma ExtendIsExpand(w16: bv32, w15: bv32, w7: bv32, w2: bv32)
    ensures Extend(w16, w15, w7, w2) == Expand(w2, w7, w15, w16)
  {
    hide Gamma0, Gamma1, SmallSigma0, SmallSigma1, Sum4;
    MixingFunctionsAgree(w15);
    MixingFunctionsAgree(w2);
  }

  /** Fills the 64 schedule words of one block, over the words of the block before it. */
  method FillSchedule(w: array<bv32>, chunk: seq<byte>)
    requires w.Length == 64 && |chunk| == 64
    modifies w
    ensures forall t | 0 <= t < 64 :: w[t] == Schedule(chunk, t)
  {
    hide Extend, Expand, MessageWord;
    for i := 0 to 16
      invariant forall t | 0 <= t < i :: w[t] == Schedule(chunk, t)
    {
      w[i] := MessageWord(chunk, i);
    }
    for i := 16 to 64
      invariant forall t | 0 <= t < i :: w[t] == Schedule(chunk, t)
    {
      ExtendIsExpand(w[i - 16], w[i - 15], w[i - 7], w[i - 2]);
      w[i] := Extend(w[i - 16], w[i - 15], w[i - 7], w[i - 2]);
    }
  }

  function RegsOf(h: array<bv32>): Regs
    requires h.Length == 8
    reads h
  {
    Regs(h[0], h[1], h[2], h[3], h[4], h[5], h[6], h[7])
  }

  /** One block: 64 rounds on rotated local variables, then added into the hash value in place. */
  method Compress(h: array<bv32>, w: array<bv32>, chunk: seq<byte>)
    requires h.Length == 8 && w.Length == 64 && h != w && |chunk| == 64
    modifies h, w
    ensures RegsOf(h) == Add(old(RegsOf(h)), Rounds(old(RegsOf(h)), chunk, 64))
  {
    hide Sum2, Sum4, Sum0, Sum1, BigSigma0, BigSigma1, Ch, Maj, Schedule;
    FillSchedule(w, chunk);
    ghost var start := RegsOf(h);
    var a, b, c, d, e, f, g, hh := h[0], h[1], h[2], h[3], h[4], h[5], h[6], h[7];
    for i := 0 to 64
      invariant Regs(a, b, c, d, e, f, g, hh) == Rounds(start, chunk, i)
      invariant RegsOf(h) == start && forall t | 0 <= t < 64 :: w[t] == Schedule(chunk, t)
    {
      MixingFunctionsAgree(e);
      MixingFunctionsAgree(a);
      RoundsStep(start, chunk, i);
      var temp1 := Sum2(Sum4(hh, Sum1(e), Ch(e, f, g), K[i] as bv32), w[i]);
      var temp2 := Sum2(Sum0(a), Maj(a, b, c));
      hh := g;
      g := f;
      f := e;
      e := Sum2(d, temp1);
      d := c;
      c := b;
      b := a;
      a := Sum2(temp1, temp2);
    }
    h[0] := Sum2(h[0], a);
    h[1] := Sum2(h[1], b);
    h[2] := Sum2(h[2], c);
    h[3] := Sum2(h[3], d);
    h[4] := Sum2(h[4], e);
    h[5] := Sum2(h[5], f);
    h[6] := Sum2(h[6], g);
    h[7] := Sum2(h[7], hh);
  }

  lemma HashStep(padded: seq<byte>, n: nat)
    requires 64 * n + 64 <= |padded|
    ensures Hash(padded, n + 1) == Add(Hash(padded, n), Rounds(Hash(padded, n), padded[64 * n..64 * n + 64], 64))
  {
    hide Rounds, Add;
  }

  method NewHash() returns (h: array<bv32>)
    ensures fresh(h) && h.Length == 8 && RegsOf(h) == InitialHash()
  {
    hide HashWord;
    h := new bv32[8](i requires 0 <= i < 8 => HashWord(i));
  }

  method Sha256Hex(data: seq<byte>) returns (out: string)
    ensures out == Digest(data)
  {
    hide Add, Rounds, InitialHash, Padded, HexHash, RegsOf, IsPadding;
    var msg := Pad(data);
    PaddingIsUnique(data, msg);
    var h := NewHash();
    var w := new bv32[64];
    for block := 0 to |msg| / 64
      invariant RegsOf(h) == Hash(msg, block)
    {
      HashStep(msg, block);
      Compress(h, w, msg[64 * block..64 * block + 64]);
    }
    out := PrintHash(h);
  }

  method PrintHash(h: array<bv32>) returns (out: string)
    requires h.Length == 8
    ensures out == HexHash(RegsOf(h))
  {
    hide HexWord, HexHash;
    out := "";
    for i := 0 to 8
      invariant out == HexPrefix(h[..], i)
    {
      out := out + HexWord(h[i]);
    }
    HexPrefixIsHexHash(h);
  }

  /** The hexadecimal digits of the first n words. */
  function HexPrefix(words: seq<bv32>, n: nat): string
    requires n <= |words|
  {
    if n == 0 then "" else HexPrefix(words, n - 1) + HexWord(words[n - 1])
  }

  lemma HexPrefixIsHexHash(h: array<bv32>)
    requires h.Length == 8
    ensures HexPrefix(h[..], 8) == HexHash(RegsOf(h))
  {
    hide HexWord;
    var ws := h[..];
    assert HexPrefix(ws, 1) == HexWord(ws[0]);
    assert HexPrefix(ws, 2) == HexPrefix(ws, 1) + HexWord(ws[1]);
    assert HexPrefix(ws, 4) == HexPrefix(ws, 2) + HexWord(ws[2]) + HexWord(ws[3]);
    assert HexPrefix(ws, 6) == HexPrefix(ws, 4) + HexWord(ws[4]) + HexWord(ws[5]);
    assert HexPrefix(ws, 8) == HexPrefix(ws, 6) + HexWord(ws[6]) + HexWord(ws[7]);
  }
}
