/** What the parts of SHA-256 that program and standard share compute, said in other words. */
module Sha256Laws {
  import opened Sha256

  // ---------- Bits ----------

  /** Ch chooses: it is y where x is set, and z where it is clear. */
  lemma ChChooses(x: bv32, y: bv32, z: bv32)
    ensures Ch(x, y, z) & x == y & x
    ensures Ch(x, y, z) & !x == z & !x
  {
  }

  /** Maj takes the majority: it is x where x and y agree, and z where they differ. */
  lemma MajIsMajority(x: bv32, y: bv32, z: bv32)
    ensures Maj(x, y, z) & !(x ^ y) == x & !(x ^ y)
    ensures Maj(x, y, z) & (x ^ y) == z & (x ^ y)
  {
  }

  /** The exclusive or of three words is x where y and z agree, and flips x where they differ. */
  lemma Xor3IsParity(x: bv32, y: bv32, z: bv32)
    ensures Xor3(x, y, z) & !(y ^ z) == x & !(y ^ z)
    ensures Xor3(x, y, z) & (y ^ z) == !x & (y ^ z)
  {
  }

  /** Addition counts on by ones. */
  lemma SumStarts(a: bv32)
    ensures Sum2(a, 0) == a
  {
  }

  lemma SumCounts(a: bv32, b: bv32)
    ensures Sum2(a, b + 1) == Sum2(a, b) + 1
  {
  }

  lemma ByteFits(b: byte)
    ensures b as bv32 <= 0xff
  {
  }

  lemma FourBytes(a: bv32, b: bv32, c: bv32, d: bv32)
    requires a <= 0xff && b <= 0xff && c <= 0xff && d <= 0xff
    ensures var w := (a << 24) | (b << 16) | (c << 8) | d;
      w >> 24 == a && (w >> 16) & 0xff == b && (w >> 8) & 0xff == c && w & 0xff == d
  {
  }

  /** A word holds its four bytes, the first one in the highest place. */
  lemma MessageWordIsBigEndian(block: seq<byte>, t: nat)
    requires |block| == 64 && t < 16
    ensures var w := MessageWord(block, t);
      && w >> 24 == block[4 * t] as bv32
      && (w >> 16) & 0xff == block[4 * t + 1] as bv32
      && (w >> 8) & 0xff == block[4 * t + 2] as bv32
      && w & 0xff == block[4 * t + 3] as bv32
  {
    ByteFits(block[4 * t]);
    ByteFits(block[4 * t + 1]);
    ByteFits(block[4 * t + 2]);
    ByteFits(block[4 * t + 3]);
    FourBytes(block[4 * t] as bv32, block[4 * t + 1] as bv32, block[4 * t + 2] as bv32, block[4 * t + 3] as bv32);
  }

  // ---------- Digits ----------

  function Read(digits: seq<nat>, base: nat): nat {
    if digits == [] then 0 else base * Read(digits[..|digits| - 1], base) + digits[|digits| - 1]
  }

  /** The digits of a number, read from the left, give its value modulo the power that fits. */
  lemma {:induction false} DigitsRead(n: nat, len: nat) returns (k: nat)
    ensures n == k * Pow16(len) + Read(Digits(n, len), 16) && Read(Digits(n, len), 16) < Pow16(len)
  {
    if len == 0 {
      k := n;
    } else {
      k := DigitsRead(n / 16, len - 1);
      var r := Read(Digits(n / 16, len - 1), 16);
      assert Digits(n, len)[..len - 1] == Digits(n / 16, len - 1);
      DigitStep(n, k, Pow16(len - 1), r);
    }
  }

  lemma DigitStep(n: nat, k: nat, p: nat, r: nat)
    requires n / 16 == k * p + r && r < p
    ensures n == k * (16 * p) + (16 * r + n % 16) && 16 * r + n % 16 < 16 * p
  {
    assert n == 16 * (k * p + r) + n % 16;
    assert k * (16 * p) == 16 * (k * p);
  }

  lemma NumberRead(n: nat, len: nat)
    requires n < Pow16(len)
    ensures Read(Digits(n, len), 16) == n
  {
    var k := DigitsRead(n, len);
    Multiple(k, Pow16(len));
  }

  lemma Multiple(k: nat, p: nat)
    ensures k == 0 || k * p >= p
  {
  }

  /** Two digits to a byte. */
  lemma {:induction false} ReadPairs(digits: seq<nat>, bytes: seq<nat>)
    requires |digits| == 2 * |bytes|
    requires forall i | 0 <= i < |bytes| :: bytes[i] == 16 * digits[2 * i] + digits[2 * i + 1]
    ensures Read(bytes, 256) == Read(digits, 16)
  {
    if bytes != [] {
      var n := |bytes| - 1;
      ReadPairs(digits[..2 * n], bytes[..n]);
      assert digits[..2 * n + 1][..2 * n] == digits[..2 * n];
      assert digits[..|digits| - 1] == digits[..2 * n + 1];
      assert Read(digits[..2 * n + 1], 16) == 16 * Read(digits[..2 * n], 16) + digits[2 * n];
    }
  }

  function Numbers(bytes: seq<byte>): seq<nat> { seq(|bytes|, i requires 0 <= i < |bytes| => bytes[i] as nat) }

  lemma BigEndian64Reads(n: nat)
    requires n < 0x1_0000_0000_0000_0000
    ensures Read(Numbers(BigEndian64(n)), 256) == n
  {
    assert Pow16(8) == 0x1_0000_0000;
    assert Pow16(16) == 0x1_0000_0000_0000_0000;
    var digits, bytes := Digits(n, 16), Numbers(BigEndian64(n));
    forall i | 0 <= i < |bytes|
      ensures bytes[i] == 16 * digits[2 * i] + digits[2 * i + 1]
    {
      assert BigEndian64(n)[i] as nat == 16 * digits[2 * i] + digits[2 * i + 1];
    }
    ReadPairs(digits, bytes);
    NumberRead(n, 16);
  }

  /** The padding of a message ends with its length in bits as a 64-bit number. */
  lemma PaddingEndsWithLength(data: seq<byte>)
    requires |data| < 0x2000_0000_0000_0000
    ensures |Padded(data)| >= |data| + 9 && Padded(data)[..|data|] == data
    ensures Read(Numbers(Padded(data)[|Padded(data)| - 8..]), 256) == 8 * |data|
  {
    hide Padded, BigEndian64;
    PaddedParts(data);
    BigEndian64Reads(8 * |data|);
  }

  /** The sixteen digits in order. */
  lemma HexDigitInOrder(d: nat)
    requires d < 16
    ensures HexDigit(d) as int == if d < 10 then '0' as int + d else 'a' as int + (d - 10)
  {
  }

  function HexValue(c: char): int {
    if '0' <= c <= '9' then c as int - '0' as int else c as int - 'a' as int + 10
  }

  function ReadHex(s: string): int {
    if s == "" then 0 else 16 * ReadHex(s[..|s| - 1]) + HexValue(s[|s| - 1])
  }

  lemma {:induction false} HexReads(s: string, digits: seq<nat>)
    requires |s| == |digits| && forall i | 0 <= i < |s| :: digits[i] < 16 && s[i] == HexDigit(digits[i])
    ensures ReadHex(s) == Read(digits, 16)
  {
    if s != "" {
      HexReads(s[..|s| - 1], digits[..|s| - 1]);
      HexDigitInOrder(digits[|s| - 1]);
    }
  }

  /** A printed word reads as the word. */
  lemma HexWordReads(x: bv32)
    ensures ReadHex(HexWord(x)) == x as nat
  {
    hide Hex8;
    WordBound(x);
    Hex8Reads(x as nat);
  }

  lemma WordBound(x: bv32)
    ensures x as nat < 0x1_0000_0000
  {
  }

  lemma Hex8Reads(n: nat)
    requires n < 0x1_0000_0000
    ensures ReadHex(Hex8(n)) == n
  {
    assert Pow16(8) == 0x1_0000_0000;
    HexReads(Hex8(n), Digits(n, 8));
    NumberRead(n, 8);
  }
}
