/**
SHA-256 as FIPS 180-4 defines it, on bytes. Words are numbers below 2^32 and addition is written
out modulo 2^32 (section 2.2.2).
*/
module Sha256Spec {
  import opened Hexadecimal
  import opened Sha256Constants

  type Byte = x: int | 0 <= x < 0x100

  // ---- operations on words (section 3.2) -------------------------------------------------

  function Pow2(k: nat): (r: nat)
    ensures r > 0
  {
    if k == 0 then 1 else 2 * Pow2(k - 1)
  }

  lemma Pow2Of32()
    ensures Pow2(32) == 0x1_0000_0000
  {
    assert Pow2(8) == 0x100;
    assert Pow2(16) == 0x100 * Pow2(8);
    assert Pow2(24) == 0x100 * Pow2(16);
    assert Pow2(32) == 0x100 * Pow2(24);
  }

  lemma {:induction false} Pow2Sum(j: nat, k: nat)
    ensures Pow2(j + k) == Pow2(j) * Pow2(k)
  {
    if j > 0 {
      Pow2Sum(j - 1, k);
    }
  }

  predicate Bit(x: nat) {
    x % 2 == 1
  }

  /** `op` on the k low bits of x and y. */
  function Bits(op: (bool, bool) -> bool, x: nat, y: nat, k: nat): nat
    decreases k, x, y
  {
    if k == 0 then 0
    else (if op(Bit(x), Bit(y)) then 1 else 0) + 2 * Bits(op, x / 2, y / 2, k - 1)
  }

  lemma {:induction false} BitsFit(op: (bool, bool) -> bool, x: nat, y: nat, k: nat)
    ensures Bits(op, x, y, k) < Pow2(k)
  {
    if k > 0 {
      BitsFit(op, x / 2, y / 2, k - 1);
    }
  }

  predicate Both(a: bool, b: bool) {
    a && b
  }

  predicate Either(a: bool, b: bool) {
    a || b
  }

  predicate Differ(a: bool, b: bool) {
    a != b
  }

  function Bitwise(op: (bool, bool) -> bool, x: Word, y: Word): Word {
    BitsFit(op, x, y, 32);
    Pow2Of32();
    Bits(op, x, y, 32)
  }

  function And(x: Word, y: Word): Word {
    Bitwise(Both, x, y)
  }

  function Or(x: Word, y: Word): Word {
    Bitwise(Either, x, y)
  }

  function Xor(x: Word, y: Word): Word {
    Bitwise(Differ, x, y)
  }

  function Not(x: Word): Word {
    0x1_0000_0000 - 1 - x
  }

  function Div(x: nat, d: nat): nat
    requires d > 0
  {
    x / d
  }

  function Mod(x: nat, d: nat): nat
    requires d > 0
  {
    x % d
  }

  lemma Times(a: nat, b: nat, c: nat)
    requires a <= b
    ensures 0 <= a * c <= b * c
  {
  }

  lemma DivMod(x: nat, d: nat)
    requires d > 0
    ensures x == Div(x, d) * d + Mod(x, d) && Mod(x, d) < d && Div(x, d) <= x
  {
    var q := x / d;
    if q > x {
      Times(1, d, q);
    }
  }

  lemma Divided(x: nat, d: nat, q: nat, r: nat)
    requires x == q * d + r && r < d
    ensures Div(x, d) == q && Mod(x, d) == r
  {
    var k := x / d;
    assert x == k * d + x % d;
    if k < q {
      Times(k + 1, q, d);
    } else if k > q {
      Times(q + 1, k, d);
    }
  }

  lemma HighPart(x: nat, d: nat, e: nat)
    requires d > 0 && x < d * e
    ensures Div(x, d) < e
  {
    DivMod(x, d);
    var q := Div(x, d);
    if q >= e {
      Times(e, q, d);
    }
  }

  /** SHR: the n low bits dropped. */
  function Shr(n: nat, x: Word): Word {
    DivMod(x, Pow2(n));
    Div(x, Pow2(n))
  }

  /** ROTR: the n low bits moved to the top. */
  function Rotr(n: nat, x: Word): Word
    requires n <= 32
  {
    RotrFits(n, x);
    Div(x, Pow2(n)) + Mod(x, Pow2(n)) * Pow2(32 - n)
  }

  lemma Rotated(x: nat, d: nat, e: nat)
    requires d > 0 && x < d * e
    ensures Div(x, d) < e && 0 <= Mod(x, d) * e <= d * e - e
  {
    HighPart(x, d, e);
    DivMod(x, d);
    Times(Mod(x, d), d - 1, e);
  }

  lemma RotrFits(n: nat, x: Word)
    requires n <= 32
    ensures Div(x, Pow2(n)) < Pow2(32 - n)
    ensures 0 <= Mod(x, Pow2(n)) * Pow2(32 - n) <= 0x1_0000_0000 - Pow2(32 - n)
  {
    Pow2Of32();
    Pow2Sum(n, 32 - n);
    Rotated(x, Pow2(n), Pow2(32 - n));
  }

  // ---- functions (section 4.1.2) ---------------------------------------------------------

  function Ch(x: Word, y: Word, z: Word): Word {
    Xor(And(x, y), And(Not(x), z))
  }

  function Maj(x: Word, y: Word, z: Word): Word {
    Xor(Xor(And(x, y), And(x, z)), And(y, z))
  }

  function BigSigma0(x: Word): Word {
    Xor(Xor(Rotr(2, x), Rotr(13, x)), Rotr(22, x))
  }

  function BigSigma1(x: Word): Word {
    Xor(Xor(Rotr(6, x), Rotr(11, x)), Rotr(25, x))
  }

  function SmallSigma0(x: Word): Word {
    Xor(Xor(Rotr(7, x), Rotr(18, x)), Shr(3, x))
  }

  function SmallSigma1(x: Word): Word {
    Xor(Xor(Rotr(17, x), Rotr(19, x)), Shr(10, x))
  }

  // ---- the message (section 5) -----------------------------------------------------------

  /** x in k bytes, most significant first. */
  function BigEndian(x: nat, k: nat): (r: seq<Byte>)
    ensures |r| == k
  {
    if k == 0 then [] else BigEndian(x / 256, k - 1) + [x % 256]
  }

  function Zeros(n: nat): (r: seq<Byte>)
    ensures |r| == n
  {
    seq(n, _ => 0)
  }

  function One(): seq<Byte> {
    [0x80]
  }

  /** Section 5.1.1: a one bit, the fewest zero bits that leave 64 bits of the last block, and in
      these the message's length in bits. */
  function Padded(data: seq<Byte>): seq<Byte> {
    data + One() + Zeros((55 - |data|) % 64) + BigEndian(8 * |data|, 8)
  }

  /** The padding fills the blocks with as few bytes as will do. */
  lemma PaddedLength(data: seq<Byte>)
    ensures |Padded(data)| % 64 == 0
    ensures |data| + 9 <= |Padded(data)| < |data| + 9 + 64
    ensures |Padded(data)| == (|data| + 9 + 63) / 64 * 64
  {
  }

  type Block = b: seq<Word> | |b| == 16 witness seq(16, _ => 0)

  /** The word at byte k. */
  function WordAt(m: seq<Byte>, k: nat): Word
    requires k + 4 <= |m|
  {
    0x100_0000 * (m[k] as int) + 0x1_0000 * (m[k + 1] as int) + 0x100 * (m[k + 2] as int) + m[k + 3] as int
  }

  function BlockAt(m: seq<Byte>, k: nat): Block
    requires k + 64 <= |m|
  {
    seq(16, i requires 0 <= i < 16 => WordAt(m, k + 4 * i))
  }

  // ---- the computation (section 6.2.2) ---------------------------------------------------

  function ScheduleWord(w: seq<Word>): Word
    requires |w| >= 16
  {
    ScheduleWith(SmallSigma0, SmallSigma1, w)
  }

  function ScheduleWith(sigma0: Word -> Word, sigma1: Word -> Word, w: seq<Word>): Word
    requires |w| >= 16
  {
    var t := |w|;
    (sigma1(w[t - 2]) + w[t - 7] + sigma0(w[t - 15]) + w[t - 16]) % 0x1_0000_0000
  }

  /** The first n words of the message schedule. */
  function Schedule(b: Block, n: nat): (w: seq<Word>)
    requires n >= 16
    ensures |w| == n
  {
    if n == 16 then b else Schedule(b, n - 1) + [ScheduleWord(Schedule(b, n - 1))]
  }

  datatype Vars = Vars(a: Word, b: Word, c: Word, d: Word, e: Word, f: Word, g: Word, h: Word)

  function T1(v: Vars, k: Word, w: Word): Word {
    T1With(BigSigma1, Ch, v, k, w)
  }

  function T2(v: Vars): Word {
    T2With(BigSigma0, Maj, v)
  }

  function T1With(sigma: Word -> Word, ch: (Word, Word, Word) -> Word, v: Vars, k: Word, w: Word): Word {
    (v.h + sigma(v.e) + ch(v.e, v.f, v.g) + k + w) % 0x1_0000_0000
  }

  function T2With(sigma: Word -> Word, maj: (Word, Word, Word) -> Word, v: Vars): Word {
    (sigma(v.a) + maj(v.a, v.b, v.c)) % 0x1_0000_0000
  }

  function Round(v: Vars, k: Word, w: Word): Vars {
    Mixed(v, T1(v, k, w), T2(v))
  }

  function Mixed(v: Vars, t1: Word, t2: Word): Vars {
    Vars((t1 + t2) % 0x1_0000_0000, v.a, v.b, v.c, (v.d + t1) % 0x1_0000_0000, v.e, v.f, v.g)
  }

  function Rounds(v: Vars, w: seq<Word>, n: nat): Vars
    requires n <= |w| && n <= 64
  {
    if n == 0 then v else Round(Rounds(v, w, n - 1), K[n - 1], w[n - 1])
  }

  function Added(x: Vars, y: Vars): Vars {
    Vars((x.a + y.a) % 0x1_0000_0000, (x.b + y.b) % 0x1_0000_0000,
         (x.c + y.c) % 0x1_0000_0000, (x.d + y.d) % 0x1_0000_0000,
         (x.e + y.e) % 0x1_0000_0000, (x.f + y.f) % 0x1_0000_0000,
         (x.g + y.g) % 0x1_0000_0000, (x.h + y.h) % 0x1_0000_0000)
  }

  function Initial(): Vars {
    Vars(H0[0], H0[1], H0[2], H0[3], H0[4], H0[5], H0[6], H0[7])
  }

  function Compression(before: Vars, b: Block): Vars {
    Added(before, Rounds(before, Schedule(b, 64), 64))
  }

  /** The hash value after n blocks of m. */
  function Hash(m: seq<Byte>, n: nat): Vars
    requires 64 * n <= |m|
  {
    Iterated(Compression, m, n)
  }

  function Iterated(compression: (Vars, Block) -> Vars, m: seq<Byte>, n: nat): Vars
    requires 64 * n <= |m|
  {
    if n == 0 then Initial() else compression(Iterated(compression, m, n - 1), BlockAt(m, 64 * (n - 1)))
  }

  function Sha256(data: seq<Byte>): Vars {
    Hash(Padded(data), |Padded(data)| / 64)
  }

  /** x as k hexadecimal digits. */
  function Digits(x: nat, k: nat): string {
    if k == 0 then "" else Digits(x / 16, k - 1) + [HexDigit(x % 16)]
  }

  function Text(words: seq<Word>): string {
    if words == [] then "" else Text(words[..|words| - 1]) + Digits(words[|words| - 1], 8)
  }

  function Words(v: Vars): seq<Word> {
    [v.a, v.b, v.c, v.d, v.e, v.f, v.g, v.h]
  }
}
