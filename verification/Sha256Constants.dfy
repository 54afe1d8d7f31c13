/**
The constants of SHA-256 (FIPS 180-4, sections 4.2.2 and 5.3.3), and a proof that they are what
the standard says: bits of the cube and square roots of the first primes.
*/
module Sha256Constants {

  type Word = x: int | 0 <= x < 0x1_0000_0000

  const K0: seq<Word> := [0x428a2f98, 0x71374491, 0xb5c0fbcf, 0xe9b5dba5]
  const K1: seq<Word> := [0x3956c25b, 0x59f111f1, 0x923f82a4, 0xab1c5ed5]
  const K2: seq<Word> := [0xd807aa98, 0x12835b01, 0x243185be, 0x550c7dc3]
  const K3: seq<Word> := [0x72be5d74, 0x80deb1fe, 0x9bdc06a7, 0xc19bf174]
  const K4: seq<Word> := [0xe49b69c1, 0xefbe4786, 0x0fc19dc6, 0x240ca1cc]
  const K5: seq<Word> := [0x2de92c6f, 0x4a7484aa, 0x5cb0a9dc, 0x76f988da]
  const K6: seq<Word> := [0x983e5152, 0xa831c66d, 0xb00327c8, 0xbf597fc7]
  const K7: seq<Word> := [0xc6e00bf3, 0xd5a79147, 0x06ca6351, 0x14292967]
  const K8: seq<Word> := [0x27b70a85, 0x2e1b2138, 0x4d2c6dfc, 0x53380d13]
  const K9: seq<Word> := [0x650a7354, 0x766a0abb, 0x81c2c92e, 0x92722c85]
  const K10: seq<Word> := [0xa2bfe8a1, 0xa81a664b, 0xc24b8b70, 0xc76c51a3]
  const K11: seq<Word> := [0xd192e819, 0xd6990624, 0xf40e3585, 0x106aa070]
  const K12: seq<Word> := [0x19a4c116, 0x1e376c08, 0x2748774c, 0x34b0bcb5]
  const K13: seq<Word> := [0x391c0cb3, 0x4ed8aa4a, 0x5b9cca4f, 0x682e6ff3]
  const K14: seq<Word> := [0x748f82ee, 0x78a5636f, 0x84c87814, 0x8cc70208]
  const K15: seq<Word> := [0x90befffa, 0xa4506ceb, 0xbef9a3f7, 0xc67178f2]

  const KA: seq<Word> := K0 + K1 + K2 + K3
  const KB: seq<Word> := K4 + K5 + K6 + K7
  const KC: seq<Word> := K8 + K9 + K10 + K11
  const KD: seq<Word> := K12 + K13 + K14 + K15

  /** The constants of the 64 rounds. */
  const K: seq<Word> := KA + KB + KC + KD

  /** The initial hash value. */
  const H0: seq<Word> :=
    [0x6a09e667, 0xbb67ae85, 0x3c6ef372, 0xa54ff53a] +
    [0x510e527f, 0x9b05688c, 0x1f83d9ab, 0x5be0cd19]

  const P0: seq<nat> := [2, 3, 5, 7]
  const P1: seq<nat> := [11, 13, 17, 19]
  const P2: seq<nat> := [23, 29, 31, 37]
  const P3: seq<nat> := [41, 43, 47, 53]
  const P4: seq<nat> := [59, 61, 67, 71]
  const P5: seq<nat> := [73, 79, 83, 89]
  const P6: seq<nat> := [97, 101, 103, 107]
  const P7: seq<nat> := [109, 113, 127, 131]
  const P8: seq<nat> := [137, 139, 149, 151]
  const P9: seq<nat> := [157, 163, 167, 173]
  const P10: seq<nat> := [179, 181, 191, 193]
  const P11: seq<nat> := [197, 199, 211, 223]
  const P12: seq<nat> := [227, 229, 233, 239]
  const P13: seq<nat> := [241, 251, 257, 263]
  const P14: seq<nat> := [269, 271, 277, 281]
  const P15: seq<nat> := [283, 293, 307, 311]

  const PA: seq<nat> := P0 + P1 + P2 + P3
  const PB: seq<nat> := P4 + P5 + P6 + P7
  const PC: seq<nat> := P8 + P9 + P10 + P11
  const PD: seq<nat> := P12 + P13 + P14 + P15

  /** The first 64 primes. */
  const PRIMES: seq<nat> := PA + PB + PC + PD

  function Square(n: nat): nat {
    n * n
  }

  function Cube(n: nat): nat {
    n * n * n
  }

  /** k is the first 32 bits of the fractional part of the cube root of p: root / 2^32 is that
      root cut off after 32 binary places. */
  ghost predicate CubeRootBits(p: nat, k: Word) {
    exists root: nat | root % 0x1_0000_0000 == k :: IsCubeRoot(root, p)
  }

  predicate IsCubeRoot(root: nat, p: nat) {
    Cube(root) <= p * Cube(0x1_0000_0000) < Cube(root + 1)
  }

  ghost predicate SquareRootBits(p: nat, k: Word) {
    exists root: nat | root % 0x1_0000_0000 == k :: IsSquareRoot(root, p)
  }

  predicate IsSquareRoot(root: nat, p: nat) {
    Square(root) <= p * Square(0x1_0000_0000) < Square(root + 1)
  }

  lemma CubeRootOf(root: nat, p: nat)
    requires IsCubeRoot(root, p)
    ensures CubeRootBits(p, root % 0x1_0000_0000)
  {
  }

  lemma SquareRootOf(root: nat, p: nat)
    requires IsSquareRoot(root, p)
    ensures SquareRootBits(p, root % 0x1_0000_0000)
  {
  }

  /** `good` holds of each two members at the same place. */
  ghost predicate Each(good: (nat, Word) -> bool, ps: seq<nat>, ks: seq<Word>) {
    |ps| == |ks| && forall t | 0 <= t < |ps| :: good(ps[t], ks[t])
  }

  lemma EachOfTwo(good: (nat, Word) -> bool, ps: seq<nat>, ks: seq<Word>, ps': seq<nat>, ks': seq<Word>)
    requires Each(good, ps, ks) && Each(good, ps', ks')
    ensures Each(good, ps + ps', ks + ks')
  {
  }

  lemma EachOfFour(good: (nat, Word) -> bool, ps: seq<nat>, ks: seq<Word>)
    requires |ps| == |ks| == 4
    requires good(ps[0], ks[0]) && good(ps[1], ks[1]) && good(ps[2], ks[2]) && good(ps[3], ks[3])
    ensures Each(good, ps, ks)
  {
  }

  predicate IsPrime(n: nat) {
    n >= 2 && forall d | 2 <= d < n :: n % d != 0
  }

  /** No prime below 18 divides n, but for n itself. */
  predicate Passes(n: nat) {
    && (n % 2 != 0 || n == 2) && (n % 3 != 0 || n == 3) && (n % 5 != 0 || n == 5) && (n % 7 != 0 || n == 7)
    && (n % 11 != 0 || n == 11) && (n % 13 != 0 || n == 13) && (n % 17 != 0 || n == 17)
  }

  /** None of lo..hi passes. */
  predicate Gap(lo: nat, hi: nat)
    decreases hi
  {
    hi <= lo || (!Passes(hi - 1) && Gap(lo, hi - 1))
  }

  /** q is the next number after p that passes. */
  predicate Next(p: nat, q: nat) {
    p < q && Passes(q) && Gap(p + 1, q)
  }

  /** One after the other, what passes after p. */
  ghost predicate Follow(p: nat, qs: seq<nat>) {
    forall i | 0 <= i < |qs| :: Link(p, qs, i)
  }

  predicate Link(p: nat, qs: seq<nat>, i: nat)
    requires i < |qs|
  {
    Next(if i == 0 then p else qs[i - 1], qs[i])
  }

  lemma FollowFour(p: nat, qs: seq<nat>)
    requires |qs| == 4 && Next(p, qs[0]) && Next(qs[0], qs[1]) && Next(qs[1], qs[2]) && Next(qs[2], qs[3])
    ensures Follow(p, qs)
  {
  }

  lemma FollowOn(p: nat, qs: seq<nat>, rs: seq<nat>)
    requires qs != [] && Follow(p, qs) && Follow(qs[|qs| - 1], rs)
    ensures Follow(p, qs + rs)
  {
    var all := qs + rs;
    forall i | 0 <= i < |all|
      ensures Link(p, all, i)
    {
      if i < |qs| {
        assert Link(p, qs, i);
      } else {
        assert Link(qs[|qs| - 1], rs, i - |qs|);
      }
    }
  }

  lemma FollowFront(p: nat, qs: seq<nat>)
    requires qs != [] && Follow(p, qs)
    ensures Follow(p, qs[..|qs| - 1])
    ensures Next(if |qs| == 1 then p else qs[|qs| - 2], qs[|qs| - 1])
  {
    assert Link(p, qs, |qs| - 1);
    var front := qs[..|qs| - 1];
    forall i | 0 <= i < |front|
      ensures Link(p, front, i)
    {
      assert Link(p, qs, i);
    }
  }

  lemma Row0()
    ensures Follow(1, P0) && Each(CubeRootBits, P0, K0)
  {
    FollowFour(1, P0);
    CubeRootOf(0x1428a2f98, 2);
    CubeRootOf(0x171374491, 3);
    CubeRootOf(0x1b5c0fbcf, 5);
    CubeRootOf(0x1e9b5dba5, 7);
    EachOfFour(CubeRootBits, P0, K0);
  }

  lemma Row1()
    ensures Follow(7, P1) && Each(CubeRootBits, P1, K1)
  {
    FollowFour(7, P1);
    CubeRootOf(0x23956c25b, 11);
    CubeRootOf(0x259f111f1, 13);
    CubeRootOf(0x2923f82a4, 17);
    CubeRootOf(0x2ab1c5ed5, 19);
    EachOfFour(CubeRootBits, P1, K1);
  }

  lemma Row2()
    ensures Follow(19, P2) && Each(CubeRootBits, P2, K2)
  {
    FollowFour(19, P2);
    CubeRootOf(0x2d807aa98, 23);
    CubeRootOf(0x312835b01, 29);
    CubeRootOf(0x3243185be, 31);
    CubeRootOf(0x3550c7dc3, 37);
    EachOfFour(CubeRootBits, P2, K2);
  }

  lemma Row3()
    ensures Follow(37, P3) && Each(CubeRootBits, P3, K3)
  {
    FollowFour(37, P3);
    CubeRootOf(0x372be5d74, 41);
    CubeRootOf(0x380deb1fe, 43);
    CubeRootOf(0x39bdc06a7, 47);
    CubeRootOf(0x3c19bf174, 53);
    EachOfFour(CubeRootBits, P3, K3);
  }

  lemma Row4()
    ensures Follow(53, P4) && Each(CubeRootBits, P4, K4)
  {
    FollowFour(53, P4);
    CubeRootOf(0x3e49b69c1, 59);
    CubeRootOf(0x3efbe4786, 61);
    CubeRootOf(0x40fc19dc6, 67);
    CubeRootOf(0x4240ca1cc, 71);
    EachOfFour(CubeRootBits, P4, K4);
  }

  lemma Row5()
    ensures Follow(71, P5) && Each(CubeRootBits, P5, K5)
  {
    FollowFour(71, P5);
    CubeRootOf(0x42de92c6f, 73);
    CubeRootOf(0x44a7484aa, 79);
    CubeRootOf(0x45cb0a9dc, 83);
    CubeRootOf(0x476f988da, 89);
    EachOfFour(CubeRootBits, P5, K5);
  }

  lemma Row6()
    ensures Follow(89, P6) && Each(CubeRootBits, P6, K6)
  {
    FollowFour(89, P6);
    CubeRootOf(0x4983e5152, 97);
    CubeRootOf(0x4a831c66d, 101);
    CubeRootOf(0x4b00327c8, 103);
    CubeRootOf(0x4bf597fc7, 107);
    EachOfFour(CubeRootBits, P6, K6);
  }

  lemma Row7()
    ensures Follow(107, P7) && Each(CubeRootBits, P7, K7)
  {
    FollowFour(107, P7);
    CubeRootOf(0x4c6e00bf3, 109);
    CubeRootOf(0x4d5a79147, 113);
    CubeRootOf(0x506ca6351, 127);
    CubeRootOf(0x514292967, 131);
    EachOfFour(CubeRootBits, P7, K7);
  }

  lemma Row8()
    ensures Follow(131, P8) && Each(CubeRootBits, P8, K8)
  {
    FollowFour(131, P8);
    CubeRootOf(0x527b70a85, 137);
    CubeRootOf(0x52e1b2138, 139);
    CubeRootOf(0x54d2c6dfc, 149);
    CubeRootOf(0x553380d13, 151);
    EachOfFour(CubeRootBits, P8, K8);
  }

  lemma Row9()
    ensures Follow(151, P9) && Each(CubeRootBits, P9, K9)
  {
    FollowFour(151, P9);
    CubeRootOf(0x5650a7354, 157);
    CubeRootOf(0x5766a0abb, 163);
    CubeRootOf(0x581c2c92e, 167);
    CubeRootOf(0x592722c85, 173);
    EachOfFour(CubeRootBits, P9, K9);
  }

  lemma Row10()
    ensures Follow(173, P10) && Each(CubeRootBits, P10, K10)
  {
    FollowFour(173, P10);
    CubeRootOf(0x5a2bfe8a1, 179);
    CubeRootOf(0x5a81a664b, 181);
    CubeRootOf(0x5c24b8b70, 191);
    CubeRootOf(0x5c76c51a3, 193);
    EachOfFour(CubeRootBits, P10, K10);
  }

  lemma Row11()
    ensures Follow(193, P11) && Each(CubeRootBits, P11, K11)
  {
    FollowFour(193, P11);
    CubeRootOf(0x5d192e819, 197);
    CubeRootOf(0x5d6990624, 199);
    CubeRootOf(0x5f40e3585, 211);
    CubeRootOf(0x6106aa070, 223);
    EachOfFour(CubeRootBits, P11, K11);
  }

  lemma Row12()
    ensures Follow(223, P12) && Each(CubeRootBits, P12, K12)
  {
    FollowFour(223, P12);
    CubeRootOf(0x619a4c116, 227);
    CubeRootOf(0x61e376c08, 229);
    CubeRootOf(0x62748774c, 233);
    CubeRootOf(0x634b0bcb5, 239);
    EachOfFour(CubeRootBits, P12, K12);
  }

  lemma Row13()
    ensures Follow(239, P13) && Each(CubeRootBits, P13, K13)
  {
    FollowFour(239, P13);
    CubeRootOf(0x6391c0cb3, 241);
    CubeRootOf(0x64ed8aa4a, 251);
    CubeRootOf(0x65b9cca4f, 257);
    CubeRootOf(0x6682e6ff3, 263);
    EachOfFour(CubeRootBits, P13, K13);
  }

  lemma Row14()
    ensures Follow(263, P14) && Each(CubeRootBits, P14, K14)
  {
    FollowFour(263, P14);
    CubeRootOf(0x6748f82ee, 269);
    CubeRootOf(0x678a5636f, 271);
    CubeRootOf(0x684c87814, 277);
    CubeRootOf(0x68cc70208, 281);
    EachOfFour(CubeRootBits, P14, K14);
  }

  lemma Row15()
    ensures Follow(281, P15) && Each(CubeRootBits, P15, K15)
  {
    FollowFour(281, P15);
    CubeRootOf(0x690befffa, 283);
    CubeRootOf(0x6a4506ceb, 293);
    CubeRootOf(0x6bef9a3f7, 307);
    CubeRootOf(0x6c67178f2, 311);
    EachOfFour(CubeRootBits, P15, K15);
  }

  /** What holds of two runs of rows holds of both together. */
  lemma Joined(p: nat, ps: seq<nat>, ks: seq<Word>, qs: seq<nat>, ls: seq<Word>)
    requires ps != [] && Follow(p, ps) && Each(CubeRootBits, ps, ks)
    requires Follow(ps[|ps| - 1], qs) && Each(CubeRootBits, qs, ls)
    ensures Follow(p, ps + qs) && Each(CubeRootBits, ps + qs, ks + ls)
  {
    FollowOn(p, ps, qs);
    EachOfTwo(CubeRootBits, ps, ks, qs, ls);
  }

  lemma RowsA()
    ensures Follow(1, PA) && Each(CubeRootBits, PA, KA)
  {
    Row0();
    Row1();
    Row2();
    Row3();
    Joined(1, P0, K0, P1, K1);
    Joined(1, P0 + P1, K0 + K1, P2, K2);
    Joined(1, P0 + P1 + P2, K0 + K1 + K2, P3, K3);
  }

  lemma RowsB()
    ensures Follow(53, PB) && Each(CubeRootBits, PB, KB)
  {
    Row4();
    Row5();
    Row6();
    Row7();
    Joined(53, P4, K4, P5, K5);
    Joined(53, P4 + P5, K4 + K5, P6, K6);
    Joined(53, P4 + P5 + P6, K4 + K5 + K6, P7, K7);
  }

  lemma RowsC()
    ensures Follow(131, PC) && Each(CubeRootBits, PC, KC)
  {
    Row8();
    Row9();
    Row10();
    Row11();
    Joined(131, P8, K8, P9, K9);
    Joined(131, P8 + P9, K8 + K9, P10, K10);
    Joined(131, P8 + P9 + P10, K8 + K9 + K10, P11, K11);
  }

  lemma RowsD()
    ensures Follow(223, PD) && Each(CubeRootBits, PD, KD)
  {
    Row12();
    Row13();
    Row14();
    Row15();
    Joined(223, P12, K12, P13, K13);
    Joined(223, P12 + P13, K12 + K13, P14, K14);
    Joined(223, P12 + P13 + P14, K12 + K13 + K14, P15, K15);
  }

  lemma Rows()
    ensures Follow(1, PRIMES) && Each(CubeRootBits, PRIMES, K)
  {
    RowsA();
    RowsB();
    RowsC();
    RowsD();
    Joined(1, PA, KA, PB, KB);
    Joined(1, PA + PB, KA + KB, PC, KC);
    Joined(1, PA + PB + PC, KA + KB + KC, PD, KD);
  }

  /** The round constants are the first 32 bits of the fractional parts of the cube roots. */
  lemma ConstantsAreCubeRoots()
    ensures Each(CubeRootBits, PRIMES, K)
  {
    Rows();
  }

  lemma SquareRoots()
    ensures Each(SquareRootBits, P0, H0[..4]) && Each(SquareRootBits, P1, H0[4..])
  {
    SquareRootOf(0x16a09e667, 2);
    SquareRootOf(0x1bb67ae85, 3);
    SquareRootOf(0x23c6ef372, 5);
    SquareRootOf(0x2a54ff53a, 7);
    SquareRootOf(0x3510e527f, 11);
    SquareRootOf(0x39b05688c, 13);
    SquareRootOf(0x41f83d9ab, 17);
    SquareRootOf(0x45be0cd19, 19);
    EachOfFour(SquareRootBits, P0, H0[..4]);
    EachOfFour(SquareRootBits, P1, H0[4..]);
  }

  /** The initial hash value: of the square roots of the first eight. */
  lemma InitialIsSquareRoots()
    ensures Each(SquareRootBits, P0 + P1, H0)
  {
    SquareRoots();
    EachOfTwo(SquareRootBits, P0, H0[..4], P1, H0[4..]);
    assert H0 == H0[..4] + H0[4..];
  }

  // ---- the primes ------------------------------------------------------------------------

  lemma {:induction false} GapHas(lo: nat, hi: nat, n: nat)
    requires Gap(lo, hi) && lo <= n < hi
    ensures !Passes(n)
  {
    if n < hi - 1 {
      GapHas(lo, hi - 1, n);
    }
  }

  /** What follows one after the other is in order, and all that passes. */
  lemma {:induction false} FollowHas(p: nat, qs: seq<nat>, n: nat)
    requires qs != [] && Follow(p, qs) && p < n <= qs[|qs| - 1]
    ensures n in qs <==> Passes(n)
  {
    var last := qs[|qs| - 1];
    var front := qs[..|qs| - 1];
    var before := if front == [] then p else front[|front| - 1];
    FollowFront(p, qs);
    if n == last {
      assert n in qs;
    } else if before < n {
      GapHas(before + 1, last, n);
      Ascend(p, front);
    } else {
      FollowHas(p, front, n);
      assert qs == front + [last];
    }
  }

  lemma {:induction false} Ascend(p: nat, qs: seq<nat>)
    requires Follow(p, qs)
    ensures forall i | 0 <= i < |qs| :: p < qs[i] <= qs[|qs| - 1]
    ensures forall i, j | 0 <= i < j < |qs| :: qs[i] < qs[j]
  {
    if |qs| > 0 {
      FollowFront(p, qs);
      Ascend(p, qs[..|qs| - 1]);
    }
  }

  lemma Product(a: nat, b: nat, c: nat)
    requires a <= b
    ensures 0 <= a * c <= b * c
  {
  }

  lemma Divides(n: nat, d: nat, e: nat)
    requires n == d * e && e > 0
    ensures n % e == 0
  {
    var q := n / e;
    assert n == q * e + n % e;
    if d < q {
      Product(d + 1, q, e);
    } else if q < d {
      Product(q + 1, d, e);
    }
  }

  lemma DividesOn(n: nat, m: nat, p: nat)
    requires m > 0 && p > 0 && n % m == 0 && m % p == 0
    ensures n % p == 0
  {
    var a, b := n / m, m / p;
    assert n == a * m && m == b * p;
    assert a * (b * p) == (a * b) * p;
    Divides(n, a * b, p);
  }

  /** A divisor, or what it leaves, is below 18. */
  lemma SmallDivisor(n: nat, d: nat) returns (m: nat)
    requires n < 312 && 2 <= d < n && n % d == 0
    ensures 2 <= m < 18 && m < n && n % m == 0
  {
    var e := n / d;
    assert n == e * d;
    m := d;
    if d >= 18 {
      m := e;
      Divides(n, d, e);
      if e >= 18 {
        Product(18, e, d);
      }
      if e <= 1 {
        Product(e, 1, d);
      }
      Product(2, d, e);
    }
  }

  lemma NotPassing(n: nat, p: nat)
    requires p in {2, 3, 5, 7, 11, 13, 17} && n % p == 0 && n != p
    ensures !Passes(n)
  {
  }

  /** A number with a divisor below 18 has a prime divisor there. */
  lemma SmallPrime(n: nat, m: nat)
    requires 2 <= m < 18 && m < n && n % m == 0
    ensures !Passes(n)
  {
    var p := if m % 2 == 0 then 2 else if m % 3 == 0 then 3 else m;
    DividesOn(n, m, p);
    NotPassing(n, p);
  }

  lemma PassesIffPrime(n: nat)
    requires 2 <= n < 312
    ensures Passes(n) <==> IsPrime(n)
  {
    if Passes(n) {
      forall d | 2 <= d < n
        ensures n % d != 0
      {
        if n % d == 0 {
          var m := SmallDivisor(n, d);
          SmallPrime(n, m);
        }
      }
    } else {
      var d := if n % 2 == 0 && n != 2 then 2 else if n % 3 == 0 && n != 3 then 3 else if n % 5 == 0 && n != 5 then 5
               else if n % 7 == 0 && n != 7 then 7 else if n % 11 == 0 && n != 11 then 11
               else if n % 13 == 0 && n != 13 then 13 else 17;
      NotPrime(n, d);
    }
  }

  lemma NotPrime(n: nat, d: nat)
    requires n > 0 && d >= 2 && n % d == 0 && n != d
    ensures !IsPrime(n)
  {
    var q := n / d;
    assert n == q * d;
    if q == 0 {
      Product(q, 0, d);
    } else {
      Product(1, q, d);
    }
  }

  /** The list is the first 64 primes: all primes up to 311, in order. */
  lemma ListIsThePrimes()
    ensures |PRIMES| == 64
    ensures forall n | 2 <= n <= 311 :: n in PRIMES <==> IsPrime(n)
    ensures forall i, j | 0 <= i < j < |PRIMES| :: PRIMES[i] < PRIMES[j]
  {
    Rows();
    Ascend(1, PRIMES);
    assert PRIMES[63] == P15[3];
    forall n: nat | 2 <= n <= 311
      ensures n in PRIMES <==> IsPrime(n)
    {
      FollowHas(1, PRIMES, n);
      PassesIffPrime(n);
    }
  }
}
