/**
`sha256Fallback` of the web page (app.js): SHA-256 in JavaScript, refined from FIPS 180-4.
JavaScript's numbers are integers here: doubles are exact for every length an array can have,
and a multiplication by eight keeps them so. Its bitwise operators give signed 32-bit results,
and stores into a Uint32Array are mod 2^32.
*/
module Sha256 {
  import opened Hexadecimal
  import opened Sha256Constants
  import opened Sha256Spec

  // ---- JavaScript's operators ------------------------------------------------------------

  function ToUint32(x: int): Word {
    x % 0x1_0000_0000
  }

  function ToInt32(x: int): int {
    var u := ToUint32(x);
    if u >= 0x8000_0000 then u - 0x1_0000_0000 else u
  }

  type Operator = (Word, Word) -> Word

  /** A bitwise operator on numbers: &, | and ^ for `And`, `Or` and `Xor`. */
  function Js(op: Operator, x: int, y: int): int {
    ToInt32(op(ToUint32(x), ToUint32(y)))
  }

  /** ~x, x << n, x >>> n */
  function Tilde(x: int): int {
    -ToInt32(x) - 1
  }

  function ShiftLeft(x: int, n: nat): int {
    ToInt32(ToUint32(x) * Pow2(n))
  }

  function ShiftRight(x: int, n: nat): Word {
    Shr(n, ToUint32(x))
  }

  /** The inner function `rotr`. */
  function RotateRight(x: int, n: nat): int
    requires n <= 32
  {
    Js(Or, ShiftRight(x, n), ShiftLeft(x, 32 - n))
  }

  /** The number p, negative or not, has the 32 bits of the word x. */
  predicate Stands(p: int, x: Word) {
    ToUint32(p) == x
  }

  lemma SignDoesNotMatter(x: int)
    ensures ToUint32(ToInt32(x)) == ToUint32(x)
  {
  }

  lemma Two(op: Operator, p: int, q: int, x: Word, y: Word)
    requires Stands(p, x) && Stands(q, y)
    ensures Stands(Js(op, p, q), op(x, y))
  {
    SignDoesNotMatter(op(x, y));
  }

  lemma Three(op: Operator, p: int, q: int, r: int, x: Word, y: Word, z: Word)
    requires Stands(p, x) && Stands(q, y) && Stands(r, z)
    ensures Stands(Js(op, Js(op, p, q), r), op(op(x, y), z))
  {
    Two(op, p, q, x, y);
    Two(op, Js(op, p, q), r, op(x, y), z);
  }

  // ---- rotation --------------------------------------------------------------------------

  lemma OrBit(low: nat, high: nat, k: nat)
    requires k > 0
    ensures Bits(Either, low, 2 * high, k) == low % 2 + 2 * Bits(Either, low / 2, high, k - 1)
  {
  }

  lemma {:induction false} OrZero(x: nat, k: nat)
    requires x < Pow2(k)
    ensures Bits(Either, 0, x, k) == x
  {
    if k > 0 {
      OrZero(x / 2, k - 1);
    }
  }

  /** Or of a number with low bits only and one with high bits only is their sum. */
  lemma {:induction false} OrDisjoint(low: nat, high: nat, j: nat, k: nat)
    requires j <= k && low < Pow2(j) && high < Pow2(k - j)
    ensures 0 <= high * Pow2(j)
    ensures Bits(Either, low, high * Pow2(j), k) == low + high * Pow2(j)
  {
    if j == 0 {
      OrZero(high, k);
    } else {
      OrDisjoint(low / 2, high, j - 1, k - 1);
      OrBit(low, high * Pow2(j - 1), k);
      Doubled(high, Pow2(j - 1));
    }
  }

  lemma Doubled(x: nat, y: nat)
    ensures x * (2 * y) == 2 * (x * y)
  {
  }

  lemma Regroup(x: nat, q: nat, r: nat, d: nat, e: nat)
    requires x == q * d + r
    ensures x * e == q * (d * e) + r * e
  {
  }

  /** The low bits of x, shifted up by a rotation. */
  function Top(n: nat, x: Word): Word
    requires n <= 32
  {
    RotrFits(n, x);
    Mod(x, Pow2(n)) * Pow2(32 - n)
  }

  /** What `x << 32 - n` does not push out. */
  lemma ShiftedLeft(x: Word, n: nat)
    requires n <= 32
    ensures Stands(ShiftLeft(x, 32 - n), Top(n, x))
  {
    var d, e := Pow2(n), Pow2(32 - n);
    Pow2Of32();
    Pow2Sum(n, 32 - n);
    DivMod(x, d);
    RotrFits(n, x);
    Regroup(x, Div(x, d), Mod(x, d), d, e);
    Divided(x * e, 0x1_0000_0000, Div(x, d), Mod(x, d) * e);
    SignDoesNotMatter(x * e);
  }

  lemma ShiftedRight(x: Word, n: nat)
    ensures Stands(ShiftRight(x, n), Shr(n, x))
  {
  }

  lemma OrIsRotation(x: Word, n: nat)
    requires n <= 32
    ensures Or(Shr(n, x), Top(n, x)) == Rotr(n, x)
  {
    RotrFits(n, x);
    DivMod(x, Pow2(n));
    OrDisjoint(Div(x, Pow2(n)), Mod(x, Pow2(n)), 32 - n, 32);
  }

  lemma RotateRightIsRotr(x: Word, n: nat)
    requires n <= 32
    ensures Stands(RotateRight(x, n), Rotr(n, x))
  {
    ShiftedLeft(x, n);
    OrIsRotation(x, n);
    ShiftedRight(x, n);
    Two(Or, ShiftRight(x, n), ShiftLeft(x, 32 - n), Shr(n, x), Top(n, x));
  }

  // ---- the expressions of the loops ------------------------------------------------------

  function JsSmallSigma0(x: int): int {
    Js(Xor, Js(Xor, RotateRight(x, 7), RotateRight(x, 18)), ShiftRight(x, 3))
  }

  function JsSmallSigma1(x: int): int {
    Js(Xor, Js(Xor, RotateRight(x, 17), RotateRight(x, 19)), ShiftRight(x, 10))
  }

  function JsBigSigma0(x: int): int {
    Js(Xor, Js(Xor, RotateRight(x, 2), RotateRight(x, 13)), RotateRight(x, 22))
  }

  function JsBigSigma1(x: int): int {
    Js(Xor, Js(Xor, RotateRight(x, 6), RotateRight(x, 11)), RotateRight(x, 25))
  }

  function JsCh(x: int, y: int, z: int): int {
    Js(Xor, Js(And, x, y), Js(And, Tilde(x), z))
  }

  function JsMaj(x: int, y: int, z: int): int {
    Js(Xor, Js(Xor, Js(And, x, y), Js(And, x, z)), Js(And, y, z))
  }

  lemma SmallSigma0Stands(x: Word)
    ensures Stands(JsSmallSigma0(x), SmallSigma0(x))
  {
    RotateRightIsRotr(x, 7);
    RotateRightIsRotr(x, 18);
    ShiftedRight(x, 3);
    Three(Xor, RotateRight(x, 7), RotateRight(x, 18), ShiftRight(x, 3), Rotr(7, x), Rotr(18, x), Shr(3, x));
  }

  lemma SmallSigma1Stands(x: Word)
    ensures Stands(JsSmallSigma1(x), SmallSigma1(x))
  {
    RotateRightIsRotr(x, 17);
    RotateRightIsRotr(x, 19);
    ShiftedRight(x, 10);
    Three(Xor, RotateRight(x, 17), RotateRight(x, 19), ShiftRight(x, 10), Rotr(17, x), Rotr(19, x), Shr(10, x));
  }

  lemma BigSigma0Stands(x: Word)
    ensures Stands(JsBigSigma0(x), BigSigma0(x))
  {
    RotateRightIsRotr(x, 2);
    RotateRightIsRotr(x, 13);
    RotateRightIsRotr(x, 22);
    Three(Xor, RotateRight(x, 2), RotateRight(x, 13), RotateRight(x, 22), Rotr(2, x), Rotr(13, x), Rotr(22, x));
  }

  lemma BigSigma1Stands(x: Word)
    ensures Stands(JsBigSigma1(x), BigSigma1(x))
  {
    RotateRightIsRotr(x, 6);
    RotateRightIsRotr(x, 11);
    RotateRightIsRotr(x, 25);
    Three(Xor, RotateRight(x, 6), RotateRight(x, 11), RotateRight(x, 25), Rotr(6, x), Rotr(11, x), Rotr(25, x));
  }

  lemma TildeStands(x: Word)
    ensures Stands(Tilde(x), Not(x))
  {
  }

  lemma ChStands(x: Word, y: Word, z: Word)
    ensures Stands(JsCh(x, y, z), Ch(x, y, z))
  {
    TildeStands(x);
    Two(And, x, y, x, y);
    Two(And, Tilde(x), z, Not(x), z);
    Two(Xor, Js(And, x, y), Js(And, Tilde(x), z), And(x, y), And(Not(x), z));
  }

  lemma MajStands(x: Word, y: Word, z: Word)
    ensures Stands(JsMaj(x, y, z), Maj(x, y, z))
  {
    Two(And, x, y, x, y);
    Two(And, x, z, x, z);
    Two(And, y, z, y, z);
    Three(Xor, Js(And, x, y), Js(And, x, z), Js(And, y, z), And(x, y), And(x, z), And(y, z));
  }

  // ---- the message schedule --------------------------------------------------------------

  function JsScheduleWord(w: seq<Word>, i: nat): Word
    requires 16 <= i <= |w|
  {
    JsScheduleWith(JsSmallSigma0, JsSmallSigma1, w, i)
  }

  function JsScheduleWith(sigma0: int -> int, sigma1: int -> int, w: seq<Word>, i: nat): Word
    requires 16 <= i <= |w|
  {
    ToUint32(w[i - 16] + sigma0(w[i - 15]) + w[i - 7] + sigma1(w[i - 2]))
  }

  lemma SumOfFour(sigma0: Word -> Word, sigma1: Word -> Word, sigma0': int -> int, sigma1': int -> int, w: seq<Word>)
    requires |w| >= 16
    requires Stands(sigma0'(w[|w| - 15]), sigma0(w[|w| - 15])) && Stands(sigma1'(w[|w| - 2]), sigma1(w[|w| - 2]))
    ensures JsScheduleWith(sigma0', sigma1', w, |w|) == ScheduleWith(sigma0, sigma1, w)
  {
  }

  lemma ScheduleWordAgrees(w: seq<Word>)
    requires |w| >= 16
    ensures JsScheduleWord(w, |w|) == ScheduleWord(w)
  {
    SmallSigma0Stands(w[|w| - 15]);
    SmallSigma1Stands(w[|w| - 2]);
    SumOfFour(SmallSigma0, SmallSigma1, JsSmallSigma0, JsSmallSigma1, w);
  }

  lemma Grows(w: array<Word>, i: nat)
    requires i < w.Length
    ensures w[..i + 1] == w[..i] + [w[i]]
  {
  }

  method LoadBlock(m: array<Byte>, off: nat, w: array<Word>)
    requires off + 64 <= m.Length && w.Length == 64
    modifies w
    ensures w[..16] == BlockAt(m[..], off)
  {
    ghost var b := BlockAt(m[..], off);
    for i := 0 to 16
      invariant w[..i] == b[..i]
    {
      w[i] := WordAt(m[..], off + 4 * i);
      Grows(w, i);
    }
  }

  method ExtendOne(w: array<Word>, i: nat, ghost b: Block)
    requires 16 <= i < w.Length && w[..i] == Schedule(b, i)
    modifies w
    ensures w[..i + 1] == Schedule(b, i + 1)
  {
    ScheduleWordAgrees(w[..i]);
    var word := JsScheduleWord(w[..i], i);
    ghost var before := w[..i];
    w[i] := word;
    Grows(w, i);
    assert w[..i] == before;
  }

  method Extend(w: array<Word>)
    requires w.Length == 64
    modifies w
    ensures w[..] == Schedule(old(w[..16]), 64)
  {
    ghost var b: Block := w[..16];
    for i := 16 to 64
      invariant w[..i] == Schedule(b, i)
    {
      ExtendOne(w, i, b);
    }
    assert w[..] == w[..64];
  }

  // ---- the rounds ------------------------------------------------------------------------

  function JsT1(v: Vars, k: Word, w: Word): Word {
    JsT1With(JsBigSigma1, JsCh, v, k, w)
  }

  function JsT2(v: Vars): Word {
    JsT2With(JsBigSigma0, JsMaj, v)
  }

  function JsT1With(sigma: int -> int, ch: (int, int, int) -> int, v: Vars, k: Word, w: Word): Word {
    ToUint32(v.h + sigma(v.e) + ch(v.e, v.f, v.g) + k + w)
  }

  function JsT2With(sigma: int -> int, maj: (int, int, int) -> int, v: Vars): Word {
    ToUint32(sigma(v.a) + maj(v.a, v.b, v.c))
  }

  lemma SumOfFive(sigma: Word -> Word, ch: (Word, Word, Word) -> Word, sigma': int -> int, ch': (int, int, int) -> int,
                  v: Vars, k: Word, w: Word)
    requires Stands(sigma'(v.e), sigma(v.e)) && Stands(ch'(v.e, v.f, v.g), ch(v.e, v.f, v.g))
    ensures JsT1With(sigma', ch', v, k, w) == T1With(sigma, ch, v, k, w)
  {
  }

  lemma SumOfTwo(sigma: Word -> Word, maj: (Word, Word, Word) -> Word, sigma': int -> int, maj': (int, int, int) -> int,
                 v: Vars)
    requires Stands(sigma'(v.a), sigma(v.a)) && Stands(maj'(v.a, v.b, v.c), maj(v.a, v.b, v.c))
    ensures JsT2With(sigma', maj', v) == T2With(sigma, maj, v)
  {
  }

  lemma T1Agrees(v: Vars, k: Word, w: Word)
    ensures JsT1(v, k, w) == T1(v, k, w)
  {
    BigSigma1Stands(v.e);
    ChStands(v.e, v.f, v.g);
    SumOfFive(BigSigma1, Ch, JsBigSigma1, JsCh, v, k, w);
  }

  lemma T2Agrees(v: Vars)
    ensures JsT2(v) == T2(v)
  {
    BigSigma0Stands(v.a);
    MajStands(v.a, v.b, v.c);
    SumOfTwo(BigSigma0, Maj, JsBigSigma0, JsMaj, v);
  }

  lemma RoundIs(v: Vars, k: Word, w: Word)
    ensures Round(v, k, w) == Mixed(v, JsT1(v, k, w), JsT2(v))
  {
    T1Agrees(v, k, w);
    T2Agrees(v);
  }

  method MoveDown(v: Vars, t1: Word, t2: Word) returns (r: Vars)
    ensures r == Mixed(v, t1, t2)
  {
    var a, b, c, d, e, f, g, h := v.a, v.b, v.c, v.d, v.e, v.f, v.g, v.h;
    h := g;
    g := f;
    f := e;
    e := ToUint32(d + t1);
    d := c;
    c := b;
    b := a;
    a := ToUint32(t1 + t2);
    r := Vars(a, b, c, d, e, f, g, h);
  }

  /** The body of the rounds' loop. */
  method MixOne(v: Vars, k: Word, w: Word) returns (r: Vars)
    ensures r == Round(v, k, w)
  {
    RoundIs(v, k, w);
    r := MoveDown(v, JsT1(v, k, w), JsT2(v));
  }

  method Mix(v: Vars, w: array<Word>) returns (r: Vars)
    requires w.Length == 64
    ensures r == Rounds(v, w[..], 64)
  {
    r := v;
    for i := 0 to 64
      invariant r == Rounds(v, w[..], i)
    {
      r := MixOne(r, K[i], w[i]);
    }
  }

  // ---- padding, the blocks and the text --------------------------------------------------

  method SetUint32(m: array<Byte>, at: nat, v: int)
    requires at + 4 <= m.Length
    modifies m
    ensures m[..] == old(m[..at]) + BigEndian(ToUint32(v), 4) + old(m[at + 4..])
  {
    var u := ToUint32(v);
    m[at], m[at + 1], m[at + 2], m[at + 3] := u / 0x100_0000, u / 0x1_0000 % 256, u / 256 % 256, u % 256;
    FourBytes(u);
    assert m[..] == m[..at] + m[at..at + 4] + m[at + 4..];
  }

  lemma FourBytes(u: Word)
    ensures BigEndian(u, 4) == [u / 0x100_0000, u / 0x1_0000 % 256, u / 256 % 256, u % 256]
  {
    assert BigEndian(u / 0x100_0000, 1) == [u / 0x100_0000];
    assert BigEndian(u / 0x1_0000, 2) == BigEndian(u / 0x100_0000, 1) + [u / 0x1_0000 % 256];
    assert BigEndian(u / 256, 3) == BigEndian(u / 0x1_0000, 2) + [u / 256 % 256];
  }

  function Pow256(k: nat): nat {
    if k == 0 then 1 else 256 * Pow256(k - 1)
  }

  /** Only the low k bytes are written. */
  lemma {:induction false} HighIgnored(high: nat, low: nat, k: nat)
    ensures 0 <= high * Pow256(k) && BigEndian(high * Pow256(k) + low, k) == BigEndian(low, k)
  {
    if k > 0 {
      HighIgnored(high, low / 256, k - 1);
      Scaled(high, Pow256(k - 1));
    }
  }

  lemma Scaled(x: nat, y: nat)
    ensures x * (256 * y) == 256 * (x * y)
  {
  }

  lemma TopBytes(x: nat)
    ensures BigEndian(x, 8) == BigEndian(x / 0x1_0000_0000, 4) + BigEndian(x, 4)
  {
    assert BigEndian(x / 0x100_0000, 5) == BigEndian(x / 0x1_0000_0000, 4) + [x / 0x100_0000 % 256];
    assert BigEndian(x / 0x1_0000, 6) == BigEndian(x / 0x100_0000, 5) + [x / 0x1_0000 % 256];
    assert BigEndian(x / 0x100, 7) == BigEndian(x / 0x1_0000, 6) + [x / 0x100 % 256];
    assert BigEndian(x / 0x100_0000, 1) == [x / 0x100_0000 % 256];
    assert BigEndian(x / 0x1_0000, 2) == BigEndian(x / 0x100_0000, 1) + [x / 0x1_0000 % 256];
    assert BigEndian(x / 0x100, 3) == BigEndian(x / 0x1_0000, 2) + [x / 0x100 % 256];
  }

  lemma LowWord(x: nat)
    ensures BigEndian(ToUint32(x), 4) == BigEndian(x, 4)
  {
    assert Pow256(1) == 256 && Pow256(2) == 0x1_0000 && Pow256(4) == 0x1_0000_0000;
    HighIgnored(x / 0x1_0000_0000, ToUint32(x), 4);
  }

  lemma HighWord(n: nat)
    requires n < 0x2000_0000_0000_0000
    ensures ToUint32(n / 0x2000_0000) == 8 * n / 0x1_0000_0000
  {
  }

  /** The two words at the end hold the length in bits. */
  lemma LengthWords(n: nat)
    requires n < 0x2000_0000_0000_0000
    ensures BigEndian(ToUint32(n / 0x2000_0000), 4) + BigEndian(ToUint32(n * 8), 4) == BigEndian(8 * n, 8)
  {
    TopBytes(8 * n);
    LowWord(8 * n);
    HighWord(n);
  }

  method WriteLength(m: array<Byte>, len: nat, ghost front: seq<Byte>)
    requires len < 0x2000_0000_0000_0000 && m[..] == front + Zeros(8)
    modifies m
    ensures m[..] == front + BigEndian(8 * len, 8)
  {
    var total := m.Length;
    SetUint32(m, total - 8, len / 0x2000_0000);
    SetUint32(m, total - 4, len * 8);
    LengthWords(len);
  }

  method Pad(data: seq<Byte>) returns (m: array<Byte>)
    requires |data| < 0x2000_0000_0000_0000
    ensures fresh(m) && m[..] == Padded(data)
  {
    var len := |data|;
    var total := (len + 9 + 63) / 64 * 64;
    ghost var z := total - len - 9;
    m := new Byte[total](_ => 0);
    forall i | 0 <= i < len {
      m[i] := data[i];
    }
    m[len] := 0x80;
    assert m[..] == data + One() + Zeros(z) + Zeros(8);
    WriteLength(m, len, data + One() + Zeros(z));
    PaddedLength(data);
  }

  // ---- the digest ------------------------------------------------------------------------

  method Compress(m: array<Byte>, off: nat, w: array<Word>, before: Vars) returns (after: Vars)
    requires off + 64 <= m.Length && w.Length == 64
    modifies w
    ensures after == Rounds(before, Schedule(BlockAt(m[..], off), 64), 64)
  {
    LoadBlock(m, off, w);
    Extend(w);
    after := Mix(before, w);
  }

  /** `H[0] += a; ...`: stores into a Uint32Array. */
  method Accumulate(H: array<Word>, ghost v: Vars, x: Vars)
    requires H.Length == 8 && H[..] == Words(v)
    modifies H
    ensures H[..] == Words(Added(v, x))
  {
    H[0] := ToUint32(H[0] + x.a);
    H[1] := ToUint32(H[1] + x.b);
    H[2] := ToUint32(H[2] + x.c);
    H[3] := ToUint32(H[3] + x.d);
    H[4] := ToUint32(H[4] + x.e);
    H[5] := ToUint32(H[5] + x.f);
    H[6] := ToUint32(H[6] + x.g);
    H[7] := ToUint32(H[7] + x.h);
  }

  function PadStart(s: string, width: nat): string {
    if |s| < width then "0" + PadStart(s, width - 1) else s
  }

  /** `[...H].map((x) => x.toString(16).padStart(8, "0")).join("")` */
  function Shown(words: seq<Word>): string {
    if words == [] then "" else Shown(words[..|words| - 1]) + PadStart(Hex(words[|words| - 1]), 8)
  }

  lemma {:induction false} PadStartAppend(s: string, c: char, width: nat)
    requires width > 0
    ensures PadStart(s + [c], width) == PadStart(s, width - 1) + [c]
  {
    if |s| + 1 < width {
      PadStartAppend(s, c, width - 1);
    }
  }

  lemma {:induction false} PadStartIsDigits(x: nat, k: nat)
    requires k > 0 && x < Pow16(k)
    ensures PadStart(Hex(x), k) == Digits(x, k)
  {
    var d := HexDigit(x % 16);
    if x < 16 {
      assert Hex(x) == "" + [d];
      PadStartAppend("", d, k);
      ZeroDigits(k - 1);
    } else {
      PadStartAppend(Hex(x / 16), d, k);
      PadStartIsDigits(x / 16, k - 1);
    }
  }

  lemma {:induction false} ZeroDigits(k: nat)
    ensures PadStart("", k) == Digits(0, k)
    ensures "0" + Digits(0, k) == Digits(0, k) + "0"
  {
    if k > 0 {
      ZeroDigits(k - 1);
    }
  }

  lemma {:induction false} ShownIsText(words: seq<Word>)
    ensures Shown(words) == Text(words)
  {
    if words != [] {
      ShownIsText(words[..|words| - 1]);
      assert Pow16(4) == 0x1_0000 && Pow16(8) == 0x1_0000 * Pow16(4);
      PadStartIsDigits(words[|words| - 1], 8);
    }
  }

  method NewHash() returns (H: array<Word>)
    ensures fresh(H) && H.Length == 8 && H[..] == Words(Initial())
  {
    H := new Word[8](i requires 0 <= i < 8 => H0[i]);
  }

  lemma SameVars(x: Vars, y: Vars)
    requires Words(x) == Words(y)
    ensures x == y
  {
    assert forall i | 0 <= i < 8 :: Words(x)[i] == Words(y)[i];
  }

  method HashBlock(m: array<Byte>, off: nat, w: array<Word>, H: array<Word>, ghost v: Vars)
    requires off + 64 <= m.Length && w.Length == 64 && H.Length == 8 && H != w
    requires H[..] == Words(v)
    modifies w, H
    ensures H[..] == Words(Compression(v, BlockAt(old(m[..]), off)))
  {
    var before := Vars(H[0], H[1], H[2], H[3], H[4], H[5], H[6], H[7]);
    SameVars(before, v);
    var x := Compress(m, off, w, before);
    Accumulate(H, v, x);
  }

  method HashNext(m: array<Byte>, n: nat, w: array<Word>, H: array<Word>)
    requires 64 * n + 64 <= m.Length && w.Length == 64 && H.Length == 8 && H != w
    requires H[..] == Words(Hash(m[..], n))
    modifies w, H
    ensures H[..] == Words(Hash(old(m[..]), n + 1))
  {
    ghost var v := Hash(m[..], n);
    HashBlock(m, 64 * n, w, H, v);
  }

  method HashBlocks(m: array<Byte>) returns (H: array<Word>)
    requires m.Length % 64 == 0
    ensures H[..] == Words(Hash(m[..], m.Length / 64))
  {
    H := NewHash();
    var w := new Word[64];
    ghost var bytes := m[..];
    for n := 0 to m.Length / 64
      invariant m[..] == bytes && H[..] == Words(Hash(bytes, n))
      invariant fresh(H) && fresh(w) && H != w && H.Length == 8
    {
      HashNext(m, n, w, H);
    }
  }

  /** Main result: the page's fallback is SHA-256, for every array of bytes. */
  method Sha256Fallback(data: seq<Byte>) returns (text: string)
    requires |data| < 0x2000_0000_0000_0000
    ensures text == Text(Words(Sha256(data)))
  {
    var m := Pad(data);
    PaddedLength(data);
    var H := HashBlocks(m);
    ShownIsText(H[..]);
    text := Shown(H[..]);
  }
}
