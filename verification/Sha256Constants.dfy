/** The constants of SHA-256 are what sections 4.2.2 and 5.3.3 of FIPS 180-4 say: the first 32 bits of the
    fractional parts of the cube roots of the first 64 primes and of the square roots of the first eight. */
module Sha256Constants {
  import opened Sha256

  // ---------- The first 64 primes ----------

  const PRIMES: seq<nat> := P0 + P1 + P2 + P3 + P4 + P5 + P6 + P7

  const P0: seq<nat> := [2, 3, 5, 7, 11, 13, 17, 19]
  const P1: seq<nat> := [23, 29, 31, 37, 41, 43, 47, 53]
  const P2: seq<nat> := [59, 61, 67, 71, 73, 79, 83, 89]
  const P3: seq<nat> := [97, 101, 103, 107, 109, 113, 127, 131]
  const P4: seq<nat> := [137, 139, 149, 151, 157, 163, 167, 173]
  const P5: seq<nat> := [179, 181, 191, 193, 197, 199, 211, 223]
  const P6: seq<nat> := [227, 229, 233, 239, 241, 251, 257, 263]
  const P7: seq<nat> := [269, 271, 277, 281, 283, 293, 307, 311]

  predicate IsPrime(n: nat) {
    n >= 2 && forall d | 2 <= d < n :: n % d != 0
  }

  predicate PassesTrial(n: nat) {
    && (n % 2 != 0 || n == 2) && (n % 3 != 0 || n == 3) && (n % 5 != 0 || n == 5) && (n % 7 != 0 || n == 7)
    && (n % 11 != 0 || n == 11) && (n % 13 != 0 || n == 13) && (n % 17 != 0 || n == 17)
  }

  /** Below the square of 18 it is enough to try the primes up to 17. */
  lemma TrialDivision(n: nat)
    requires 2 <= n < 324
    ensures IsPrime(n) <==> PassesTrial(n)
  {
    if PassesTrial(n) {
      forall d | 2 <= d < n
        ensures n % d != 0
      {
        if n % d == 0 {
          var q := n / d;
          assert n == d * q;
          SmallFactor(n, d, q);
        }
      }
    }
  }

  lemma SmallFactor(n: nat, d: nat, q: nat)
    requires n == d * q && 2 <= d < n < 324
    ensures !PassesTrial(n)
  {
    assert 2 <= q < n;
    if d <= 17 {
      SmallDivisor(n, d, q);
    } else {
      ProductIsLarge(d, q);
      SmallDivisor(n, q, d);
    }
  }

  lemma ProductIsLarge(d: nat, q: nat)
    ensures d >= 18 && q >= 18 ==> d * q >= 324
  {
    if d >= 18 && q >= 18 {
      assert d * q == 18 * q + (d - 18) * q;
    }
  }

  lemma Divides(n: nat, p: nat, k: nat)
    requires p in {2, 3, 5, 7, 11, 13, 17} && n == p * k && k >= 2
    ensures !PassesTrial(n)
  {
    hide PassesTrial;
    match p
    case 2 => FailsAt2(n, k);
    case 3 => FailsAt3(n, k);
    case 5 => FailsAt5(n, k);
    case 7 => FailsAt7(n, k);
    case 11 => FailsAt11(n, k);
    case 13 => FailsAt13(n, k);
    case 17 => FailsAt17(n, k);
  }

  lemma FailsAt2(n: nat, k: nat)
    requires n == 2 * k && k >= 2
    ensures !PassesTrial(n)
  {
    hide PassesTrial;
    assert n % 2 == 0;
    Fails(n);
  }

  lemma FailsAt3(n: nat, k: nat)
    requires n == 3 * k && k >= 2
    ensures !PassesTrial(n)
  {
    hide PassesTrial;
    assert n % 3 == 0;
    Fails(n);
  }

  lemma FailsAt5(n: nat, k: nat)
    requires n == 5 * k && k >= 2
    ensures !PassesTrial(n)
  {
    hide PassesTrial;
    assert n % 5 == 0;
    Fails(n);
  }

  lemma FailsAt7(n: nat, k: nat)
    requires n == 7 * k && k >= 2
    ensures !PassesTrial(n)
  {
    hide PassesTrial;
    assert n % 7 == 0;
    Fails(n);
  }

  lemma FailsAt11(n: nat, k: nat)
    requires n == 11 * k && k >= 2
    ensures !PassesTrial(n)
  {
    hide PassesTrial;
    assert n % 11 == 0;
    Fails(n);
  }

  lemma FailsAt13(n: nat, k: nat)
    requires n == 13 * k && k >= 2
    ensures !PassesTrial(n)
  {
    hide PassesTrial;
    assert n % 13 == 0;
    Fails(n);
  }

  lemma FailsAt17(n: nat, k: nat)
    requires n == 17 * k && k >= 2
    ensures !PassesTrial(n)
  {
    hide PassesTrial;
    assert n % 17 == 0;
    Fails(n);
  }

  lemma Fails(n: nat)
    ensures PassesTrial(n) ==>
      && (n % 2 == 0 ==> n == 2) && (n % 3 == 0 ==> n == 3) && (n % 5 == 0 ==> n == 5) && (n % 7 == 0 ==> n == 7)
      && (n % 11 == 0 ==> n == 11) && (n % 13 == 0 ==> n == 13) && (n % 17 == 0 ==> n == 17)
  {
  }

  lemma SmallDivisor(n: nat, d: nat, q: nat)
    requires n == d * q && 2 <= d <= 17 && 2 <= q
    ensures !PassesTrial(n)
  {
    hide PassesTrial;
    match d
    case 2 => Divides(n, 2, q);
    case 3 => Divides(n, 3, q);
    case 4 => Divides(n, 2, 2 * q);
    case 5 => Divides(n, 5, q);
    case 6 => Divides(n, 2, 3 * q);
    case 7 => Divides(n, 7, q);
    case 8 => Divides(n, 2, 4 * q);
    case 9 => Divides(n, 3, 3 * q);
    case 10 => Divides(n, 2, 5 * q);
    case 11 => Divides(n, 11, q);
    case 12 => Divides(n, 2, 6 * q);
    case 13 => Divides(n, 13, q);
    case 14 => Divides(n, 2, 7 * q);
    case 15 => Divides(n, 3, 5 * q);
    case 16 => Divides(n, 2, 8 * q);
    case 17 => Divides(n, 17, q);
  }

  lemma Trial0(n: nat)
    requires 2 <= n < 8
    ensures PassesTrial(n) <==> n in {2, 3, 5, 7}
  {
  }

  lemma Trial1(n: nat)
    requires 8 <= n < 20
    ensures PassesTrial(n) <==> n in {11, 13, 17, 19}
  {
  }

  lemma Trial2(n: nat)
    requires 20 <= n < 38
    ensures PassesTrial(n) <==> n in {23, 29, 31, 37}
  {
  }

  lemma Trial3(n: nat)
    requires 38 <= n < 54
    ensures PassesTrial(n) <==> n in {41, 43, 47, 53}
  {
  }

  lemma Trial4(n: nat)
    requires 54 <= n < 72
    ensures PassesTrial(n) <==> n in {59, 61, 67, 71}
  {
  }

  lemma Trial5(n: nat)
    requires 72 <= n < 90
    ensures PassesTrial(n) <==> n in {73, 79, 83, 89}
  {
  }

  lemma Trial6(n: nat)
    requires 90 <= n < 108
    ensures PassesTrial(n) <==> n in {97, 101, 103, 107}
  {
  }

  lemma Trial7(n: nat)
    requires 108 <= n < 132
    ensures PassesTrial(n) <==> n in {109, 113, 127, 131}
  {
  }

  lemma Trial8(n: nat)
    requires 132 <= n < 152
    ensures PassesTrial(n) <==> n in {137, 139, 149, 151}
  {
  }

  lemma Trial9(n: nat)
    requires 152 <= n < 174
    ensures PassesTrial(n) <==> n in {157, 163, 167, 173}
  {
  }

  lemma Trial10(n: nat)
    requires 174 <= n < 194
    ensures PassesTrial(n) <==> n in {179, 181, 191, 193}
  {
  }

  lemma Trial11(n: nat)
    requires 194 <= n < 224
    ensures PassesTrial(n) <==> n in {197, 199, 211, 223}
  {
  }

  lemma Trial12(n: nat)
    requires 224 <= n < 240
    ensures PassesTrial(n) <==> n in {227, 229, 233, 239}
  {
  }

  lemma Trial13(n: nat)
    requires 240 <= n < 264
    ensures PassesTrial(n) <==> n in {241, 251, 257, 263}
  {
  }

  lemma Trial14(n: nat)
    requires 264 <= n < 282
    ensures PassesTrial(n) <==> n in {269, 271, 277, 281}
  {
  }

  lemma Trial15(n: nat)
    requires 282 <= n < 312
    ensures PassesTrial(n) <==> n in {283, 293, 307, 311}
  {
  }

  lemma InRows(n: nat)
    ensures n in PRIMES <==> n in P0 || n in P1 || n in P2 || n in P3 || n in P4 || n in P5 || n in P6 || n in P7
  {
  }

  /** The list holds exactly the primes up to its last one. */
  lemma PrimesAreAll(n: nat)
    requires 2 <= n <= 311
    ensures n in PRIMES <==> IsPrime(n)
  {
    hide PassesTrial, IsPrime;
    TrialDivision(n);
    InRows(n);
    if n < 8 {
      Trial0(n);
    } else if n < 20 {
      Trial1(n);
    } else if n < 38 {
      Trial2(n);
    } else if n < 54 {
      Trial3(n);
    } else if n < 72 {
      Trial4(n);
    } else if n < 90 {
      Trial5(n);
    } else if n < 108 {
      Trial6(n);
    } else if n < 132 {
      Trial7(n);
    } else if n < 152 {
      Trial8(n);
    } else if n < 174 {
      Trial9(n);
    } else if n < 194 {
      Trial10(n);
    } else if n < 224 {
      Trial11(n);
    } else if n < 240 {
      Trial12(n);
    } else if n < 264 {
      Trial13(n);
    } else if n < 282 {
      Trial14(n);
    } else {
      Trial15(n);
    }
  }

  /** The rows of both lists. */
  lemma Rows(i: nat)
    requires i < 64
    ensures |PRIMES| == 64 && |K| == 64
    ensures 0 <= i < 8 ==> PRIMES[i] == P0[i - 0] && K[i] == K0[i - 0]
    ensures 8 <= i < 16 ==> PRIMES[i] == P1[i - 8] && K[i] == K1[i - 8]
    ensures 16 <= i < 24 ==> PRIMES[i] == P2[i - 16] && K[i] == K2[i - 16]
    ensures 24 <= i < 32 ==> PRIMES[i] == P3[i - 24] && K[i] == K3[i - 24]
    ensures 32 <= i < 40 ==> PRIMES[i] == P4[i - 32] && K[i] == K4[i - 32]
    ensures 40 <= i < 48 ==> PRIMES[i] == P5[i - 40] && K[i] == K5[i - 40]
    ensures 48 <= i < 56 ==> PRIMES[i] == P6[i - 48] && K[i] == K6[i - 48]
    ensures 56 <= i < 64 ==> PRIMES[i] == P7[i - 56] && K[i] == K7[i - 56]
  {
  }

  lemma RowAscends(ps: seq<nat>, j: nat)
    requires |ps| == 8 && ps[0] < ps[1] < ps[2] < ps[3] < ps[4] < ps[5] < ps[6] < ps[7] && j < 7
    ensures ps[j] < ps[j + 1]
  {
  }

  lemma PrimesAscend(i: nat)
    requires i < 63
    ensures |PRIMES| == 64 && PRIMES[i] < PRIMES[i + 1]
  {
    Rows(i);
    Rows(i + 1);
    hide PRIMES;
    if i < 7 {
      RowAscends(P0, i);
    } else if i == 7 {
      assert P0[7] < P1[0];
    } else if i < 15 {
      RowAscends(P1, i - 8);
    } else if i == 15 {
      assert P1[7] < P2[0];
    } else if i < 23 {
      RowAscends(P2, i - 16);
    } else if i == 23 {
      assert P2[7] < P3[0];
    } else if i < 31 {
      RowAscends(P3, i - 24);
    } else if i == 31 {
      assert P3[7] < P4[0];
    } else if i < 39 {
      RowAscends(P4, i - 32);
    } else if i == 39 {
      assert P4[7] < P5[0];
    } else if i < 47 {
      RowAscends(P5, i - 40);
    } else if i == 47 {
      assert P5[7] < P6[0];
    } else if i < 55 {
      RowAscends(P6, i - 48);
    } else if i == 55 {
      assert P6[7] < P7[0];
    } else {
      RowAscends(P7, i - 56);
    }
  }

  // ---------- Roots ----------

  const ONE: nat := 0x1_0000_0000

  /** k is the fraction of the cube root of p in 32 bits, behind the whole part c. */
  predicate IsCubeRoot(p: nat, c: nat, k: nat) {
    var r := c * ONE + k;
    k < ONE && r * r * r <= p * ONE * ONE * ONE < (r + 1) * (r + 1) * (r + 1)
  }

  predicate IsSquareRoot(p: nat, c: nat, h: nat) {
    var r := c * ONE + h;
    h < ONE && r * r <= p * ONE * ONE < (r + 1) * (r + 1)
  }

  lemma Cubes0(j: nat)
    requires j < 8
    ensures exists c :: IsCubeRoot(P0[j], c, K0[j])
  {
    assert IsCubeRoot(P0[0], 1, K0[0]);
    assert IsCubeRoot(P0[1], 1, K0[1]);
    assert IsCubeRoot(P0[2], 1, K0[2]);
    assert IsCubeRoot(P0[3], 1, K0[3]);
    assert IsCubeRoot(P0[4], 2, K0[4]);
    assert IsCubeRoot(P0[5], 2, K0[5]);
    assert IsCubeRoot(P0[6], 2, K0[6]);
    assert IsCubeRoot(P0[7], 2, K0[7]);
  }

  lemma Cubes1(j: nat)
    requires j < 8
    ensures exists c :: IsCubeRoot(P1[j], c, K1[j])
  {
    assert IsCubeRoot(P1[0], 2, K1[0]);
    assert IsCubeRoot(P1[1], 3, K1[1]);
    assert IsCubeRoot(P1[2], 3, K1[2]);
    assert IsCubeRoot(P1[3], 3, K1[3]);
    assert IsCubeRoot(P1[4], 3, K1[4]);
    assert IsCubeRoot(P1[5], 3, K1[5]);
    assert IsCubeRoot(P1[6], 3, K1[6]);
    assert IsCubeRoot(P1[7], 3, K1[7]);
  }

  lemma Cubes2(j: nat)
    requires j < 8
    ensures exists c :: IsCubeRoot(P2[j], c, K2[j])
  {
    assert IsCubeRoot(P2[0], 3, K2[0]);
    assert IsCubeRoot(P2[1], 3, K2[1]);
    assert IsCubeRoot(P2[2], 4, K2[2]);
    assert IsCubeRoot(P2[3], 4, K2[3]);
    assert IsCubeRoot(P2[4], 4, K2[4]);
    assert IsCubeRoot(P2[5], 4, K2[5]);
    assert IsCubeRoot(P2[6], 4, K2[6]);
    assert IsCubeRoot(P2[7], 4, K2[7]);
  }

  lemma Cubes3(j: nat)
    requires j < 8
    ensures exists c :: IsCubeRoot(P3[j], c, K3[j])
  {
    assert IsCubeRoot(P3[0], 4, K3[0]);
    assert IsCubeRoot(P3[1], 4, K3[1]);
    assert IsCubeRoot(P3[2], 4, K3[2]);
    assert IsCubeRoot(P3[3], 4, K3[3]);
    assert IsCubeRoot(P3[4], 4, K3[4]);
    assert IsCubeRoot(P3[5], 4, K3[5]);
    assert IsCubeRoot(P3[6], 5, K3[6]);
    assert IsCubeRoot(P3[7], 5, K3[7]);
  }

  lemma Cubes4(j: nat)
    requires j < 8
    ensures exists c :: IsCubeRoot(P4[j], c, K4[j])
  {
    assert IsCubeRoot(P4[0], 5, K4[0]);
    assert IsCubeRoot(P4[1], 5, K4[1]);
    assert IsCubeRoot(P4[2], 5, K4[2]);
    assert IsCubeRoot(P4[3], 5, K4[3]);
    assert IsCubeRoot(P4[4], 5, K4[4]);
    assert IsCubeRoot(P4[5], 5, K4[5]);
    assert IsCubeRoot(P4[6], 5, K4[6]);
    assert IsCubeRoot(P4[7], 5, K4[7]);
  }

  lemma Cubes5(j: nat)
    requires j < 8
    ensures exists c :: IsCubeRoot(P5[j], c, K5[j])
  {
    assert IsCubeRoot(P5[0], 5, K5[0]);
    assert IsCubeRoot(P5[1], 5, K5[1]);
    assert IsCubeRoot(P5[2], 5, K5[2]);
    assert IsCubeRoot(P5[3], 5, K5[3]);
    assert IsCubeRoot(P5[4], 5, K5[4]);
    assert IsCubeRoot(P5[5], 5, K5[5]);
    assert IsCubeRoot(P5[6], 5, K5[6]);
    assert IsCubeRoot(P5[7], 6, K5[7]);
  }

  lemma Cubes6(j: nat)
    requires j < 8
    ensures exists c :: IsCubeRoot(P6[j], c, K6[j])
  {
    assert IsCubeRoot(P6[0], 6, K6[0]);
    assert IsCubeRoot(P6[1], 6, K6[1]);
    assert IsCubeRoot(P6[2], 6, K6[2]);
    assert IsCubeRoot(P6[3], 6, K6[3]);
    assert IsCubeRoot(P6[4], 6, K6[4]);
    assert IsCubeRoot(P6[5], 6, K6[5]);
    assert IsCubeRoot(P6[6], 6, K6[6]);
    assert IsCubeRoot(P6[7], 6, K6[7]);
  }

  lemma Cubes7(j: nat)
    requires j < 8
    ensures exists c :: IsCubeRoot(P7[j], c, K7[j])
  {
    assert IsCubeRoot(P7[0], 6, K7[0]);
    assert IsCubeRoot(P7[1], 6, K7[1]);
    assert IsCubeRoot(P7[2], 6, K7[2]);
    assert IsCubeRoot(P7[3], 6, K7[3]);
    assert IsCubeRoot(P7[4], 6, K7[4]);
    assert IsCubeRoot(P7[5], 6, K7[5]);
    assert IsCubeRoot(P7[6], 6, K7[6]);
    assert IsCubeRoot(P7[7], 6, K7[7]);
  }

  /** Round constant number i is the fraction of the cube root of prime number i. */
  lemma ConstantsAreCubeRoots(i: nat)
    requires i < 64
    ensures |PRIMES| == 64 && exists c :: IsCubeRoot(PRIMES[i], c, K[i])
  {
    hide IsCubeRoot;
    Rows(i);
    if i < 8 {
      Cubes0(i);
    } else if i < 16 {
      Cubes1(i - 8);
    } else if i < 24 {
      Cubes2(i - 16);
    } else if i < 32 {
      Cubes3(i - 24);
    } else if i < 40 {
      Cubes4(i - 32);
    } else if i < 48 {
      Cubes5(i - 40);
    } else if i < 56 {
      Cubes6(i - 48);
    } else {
      Cubes7(i - 56);
    }
  }

  /** Word number i of the first hash value is the fraction of the square root of prime number i. */
  lemma HashWordsAreSquareRoots(i: nat)
    requires i < 8
    ensures exists c :: IsSquareRoot(P0[i], c, H[i])
  {
    assert IsSquareRoot(P0[0], 1, H[0]);
    assert IsSquareRoot(P0[1], 1, H[1]);
    assert IsSquareRoot(P0[2], 2, H[2]);
    assert IsSquareRoot(P0[3], 2, H[3]);
    assert IsSquareRoot(P0[4], 3, H[4]);
    assert IsSquareRoot(P0[5], 3, H[5]);
    assert IsSquareRoot(P0[6], 4, H[6]);
    assert IsSquareRoot(P0[7], 4, H[7]);
  }
}
