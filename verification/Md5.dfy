/** The compression of MD5 (src/md5.c): four rounds of sixteen steps in which the registers change roles instead of
    values, against the steps of section 3.4 of RFC 1321. */
module Md5 {
  import opened ByteImage

  function Plus(a: bv32, b: bv32): bv32 {
    a + b
  }

  function Rol(v: bv32, s: bv32): bv32
    requires s <= 32
  {
    (v << s) | (v >> (32 - s))
  }

  // RFC 1321, section 3.4

  function F(x: bv32, y: bv32, z: bv32): bv32 {
    (x & y) | (!x & z)
  }

  function G(x: bv32, y: bv32, z: bv32): bv32 {
    (x & z) | (y & !z)
  }

  function H(x: bv32, y: bv32, z: bv32): bv32 {
    x ^ y ^ z
  }

  function I(x: bv32, y: bv32, z: bv32): bv32 {
    y ^ (x | !z)
  }

  function Mix(t: nat, x: bv32, y: bv32, z: bv32): bv32 {
    if t < 16 then F(x, y, z) else if t < 32 then G(x, y, z) else if t < 48 then H(x, y, z) else I(x, y, z)
  }

  /** Which word step t takes. */
  function WordIndex(t: nat): (k: nat)
    ensures k < 16
  {
    if t < 16 then t else if t < 32 then (1 + 5 * t) % 16 else if t < 48 then (5 + 3 * t) % 16 else 7 * t % 16
  }

  /** How far step t rotates. */
  function Turn(t: nat): (s: bv32)
    ensures s <= 32
  {
    if t < 16 then (if t % 4 == 0 then 7 else if t % 4 == 1 then 12 else if t % 4 == 2 then 17 else 22)
    else if t < 32 then (if t % 4 == 0 then 5 else if t % 4 == 1 then 9 else if t % 4 == 2 then 14 else 20)
    else if t < 48 then (if t % 4 == 0 then 4 else if t % 4 == 1 then 11 else if t % 4 == 2 then 16 else 23)
    else if t % 4 == 0 then 6 else if t % 4 == 1 then 10 else if t % 4 == 2 then 15 else 21
  }

  // T[i], i = 1 to 64, for each of the four rounds

  const SINES1: seq<bv32> := [
    0xd76aa478, 0xe8c7b756, 0x242070db, 0xc1bdceee, 0xf57c0faf, 0x4787c62a, 0xa8304613, 0xfd469501,
    0x698098d8, 0x8b44f7af, 0xffff5bb1, 0x895cd7be, 0x6b901122, 0xfd987193, 0xa679438e, 0x49b40821
  ]

  const SINES2: seq<bv32> := [
    0xf61e2562, 0xc040b340, 0x265e5a51, 0xe9b6c7aa, 0xd62f105d, 0x02441453, 0xd8a1e681, 0xe7d3fbc8,
    0x21e1cde6, 0xc33707d6, 0xf4d50d87, 0x455a14ed, 0xa9e3e905, 0xfcefa3f8, 0x676f02d9, 0x8d2a4c8a
  ]

  const SINES3: seq<bv32> := [
    0xfffa3942, 0x8771f681, 0x6d9d6122, 0xfde5380c, 0xa4beea44, 0x4bdecfa9, 0xf6bb4b60, 0xbebfbc70,
    0x289b7ec6, 0xeaa127fa, 0xd4ef3085, 0x04881d05, 0xd9d4d039, 0xe6db99e5, 0x1fa27cf8, 0xc4ac5665
  ]

  const SINES4: seq<bv32> := [
    0xf4292244, 0x432aff97, 0xab9423a7, 0xfc93a039, 0x655b59c3, 0x8f0ccc92, 0xffeff47d, 0x85845dd1,
    0x6fa87e4f, 0xfe2ce6e0, 0xa3014314, 0x4e0811a1, 0xf7537e82, 0xbd3af235, 0x2ad7d2bb, 0xeb86d391
  ]

  function Sine(t: nat): bv32
    requires t < 64
  {
    if t < 16 then SINES1[t] else if t < 32 then SINES2[t - 16] else if t < 48 then SINES3[t - 32] else SINES4[t - 48]
  }

  datatype Regs = Regs(a: bv32, b: bv32, c: bv32, d: bv32)

  /** a = b + ((a + f(b, c, d) + X[k] + T[i]) <<< s), and the registers move on by one. */
  function Step(r: Regs, t: nat, block: seq<bv32>): Regs
    requires |block| == 16 && t < 64
  {
    var v := Plus(Plus(Plus(r.a, Mix(t, r.b, r.c, r.d)), block[WordIndex(t)]), Sine(t));
    Regs(r.d, Plus(r.b, Rol(v, Turn(t))), r.b, r.c)
  }

  /** The registers before step t. */
  function Steps(h: Regs, block: seq<bv32>, t: nat): Regs
    requires |block| == 16 && t <= 64
    decreases t, block
  {
    if t == 0 then h else Step(Steps(h, block, t - 1), t - 1, block)
  }

  function Sum(h: Regs, r: Regs): Regs {
    Regs(Plus(r.a, h.a), Plus(r.b, h.b), Plus(r.c, h.c), Plus(r.d, h.d))
  }

  /** The chaining value after a block. */
  function Compress(h: Regs, block: seq<bv32>): Regs
    requires |block| == 16
  {
    Sum(h, Steps(h, block, 64))
  }

  // The source

  function FF(b: bv32, c: bv32, d: bv32): bv32 {
    d ^ (b & (c ^ d))
  }

  function FG(b: bv32, c: bv32, d: bv32): bv32 {
    FF(d, b, c)
  }

  function FI(b: bv32, c: bv32, d: bv32): bv32 {
    c ^ (b | !d)
  }

  /** Which of them step t of the source uses. */
  function SourceMix(t: nat, b: bv32, c: bv32, d: bv32): bv32 {
    if t < 16 then FF(b, c, d) else if t < 32 then FG(b, c, d) else if t < 48 then H(b, c, d) else FI(b, c, d)
  }

  lemma FFIsF(b: bv32, c: bv32, d: bv32)
    ensures d ^ (b & (c ^ d)) == (b & c) | (!b & d)
  {
  }

  lemma FGIsG(b: bv32, c: bv32, d: bv32)
    ensures c ^ (d & (b ^ c)) == (b & d) | (c & !d)
  {
  }

  lemma FFIs(b: bv32, c: bv32, d: bv32)
    ensures FF(b, c, d) == F(b, c, d) && FG(b, c, d) == G(b, c, d)
  {
    FFIsF(b, c, d);
    FGIsG(b, c, d);
  }

  lemma FIIs(b: bv32, c: bv32, d: bv32)
    ensures FI(b, c, d) == I(b, c, d)
  {
  }

  lemma SourceMixIsMix(t: nat, b: bv32, c: bv32, d: bv32)
    ensures SourceMix(t, b, c, d) == Mix(t, b, c, d)
  {
    hide FF, FG, FI, F, G, H, I;
    FFIs(b, c, d);
    FIIs(b, c, d);
  }

  /** The words and rotations that the 64 lines of the source name. */
  const WORDS: seq<seq<nat>> := [
    [0, 1, 2, 3, 4, 5, 6, 7, 8, 9, 10, 11, 12, 13, 14, 15],
    [1, 6, 11, 0, 5, 10, 15, 4, 9, 14, 3, 8, 13, 2, 7, 12],
    [5, 8, 11, 14, 1, 4, 7, 10, 13, 0, 3, 6, 9, 12, 15, 2],
    [0, 7, 14, 5, 12, 3, 10, 1, 8, 15, 6, 13, 4, 11, 2, 9]
  ]

  const TURNS: seq<seq<bv32>> := [
    [7, 12, 17, 22, 7, 12, 17, 22, 7, 12, 17, 22, 7, 12, 17, 22],
    [5, 9, 14, 20, 5, 9, 14, 20, 5, 9, 14, 20, 5, 9, 14, 20],
    [4, 11, 16, 23, 4, 11, 16, 23, 4, 11, 16, 23, 4, 11, 16, 23],
    [6, 10, 15, 21, 6, 10, 15, 21, 6, 10, 15, 21, 6, 10, 15, 21]
  ]

  function LineWord(t: nat): nat
    requires t < 64
  {
    WORDS[t / 16][t % 16]
  }

  function LineTurn(t: nat): bv32
    requires t < 64
  {
    TURNS[t / 16][t % 16]
  }

  predicate LineOk(t: nat)
    requires t < 64
  {
    LineWord(t) == WordIndex(t) && LineTurn(t) == Turn(t)
  }

  lemma FirstLines(t: nat)
    requires 0 <= t < 16
    ensures LineOk(t)
  {
    assert t == 0 || t == 1 || t == 2 || t == 3 || t == 4 || t == 5 || t == 6 || t == 7
           || t == 8 || t == 9 || t == 10 || t == 11 || t == 12 || t == 13 || t == 14 || t == 15;
  }

  lemma SecondLines(t: nat)
    requires 16 <= t < 32
    ensures LineOk(t)
  {
    assert t == 16 || t == 17 || t == 18 || t == 19 || t == 20 || t == 21 || t == 22 || t == 23
           || t == 24 || t == 25 || t == 26 || t == 27 || t == 28 || t == 29 || t == 30 || t == 31;
  }

  lemma ThirdLines(t: nat)
    requires 32 <= t < 48
    ensures LineOk(t)
  {
    assert t == 32 || t == 33 || t == 34 || t == 35 || t == 36 || t == 37 || t == 38 || t == 39
           || t == 40 || t == 41 || t == 42 || t == 43 || t == 44 || t == 45 || t == 46 || t == 47;
  }

  lemma LastLines(t: nat)
    requires 48 <= t < 64
    ensures LineOk(t)
  {
    assert t == 48 || t == 49 || t == 50 || t == 51 || t == 52 || t == 53 || t == 54 || t == 55
           || t == 56 || t == 57 || t == 58 || t == 59 || t == 60 || t == 61 || t == 62 || t == 63;
  }


  lemma LinesAre(t: nat)
    requires t < 64
    ensures LineWord(t) == WordIndex(t) && LineTurn(t) == Turn(t)
  {
    if t < 16 { FirstLines(t); } else if t < 32 { SecondLines(t); } else if t < 48 { ThirdLines(t); }
    else { LastLines(t); }
    hide LineWord, LineTurn;
  }

  /** a += f (b, c, d) + word + T adds in another order. */
  lemma SumOrder(a: bv32, f: bv32, w: bv32, k: bv32)
    ensures Plus(a, Plus(Plus(f, w), k)) == Plus(Plus(Plus(a, f), w), k)
  {
    hide *;
    PlusAssoc(a, Plus(f, w), k);
    PlusAssoc(a, f, w);
  }

  lemma PlusAssoc(a: bv32, b: bv32, c: bv32)
    ensures Plus(Plus(a, b), c) == Plus(a, Plus(b, c))
  {
    hide *;
    PlusIs(a, b);
    PlusIs(b, c);
    PlusBits(a, b, c);
  }

  lemma PlusIs(a: bv32, b: bv32)
    ensures Plus(a, b) == a + b
  {
  }

  lemma PlusBits(a: bv32, b: bv32, c: bv32)
    ensures Plus(a + b, c) == Plus(a, b + c)
  {
  }

  lemma StepsNext(h: Regs, block: seq<bv32>, t: nat)
    requires |block| == 16 && t < 64
    ensures Steps(h, block, t + 1) == Step(Steps(h, block, t), t, block)
  {
  }

  lemma StepIs(r: Regs, t: nat, block: seq<bv32>)
    requires |block| == 16 && t < 64
    ensures Step(r, t, block)
            == Regs(r.d, Plus(r.b, Rol(Plus(Plus(Plus(r.a, Mix(t, r.b, r.c, r.d)), block[WordIndex(t)]), Sine(t)),
                                       Turn(t))), r.b, r.c)
  {
    hide Plus, Rol, Mix, WordIndex, Turn;
  }

  /** OP: one step. Only a gets a new value; the caller passes the registers on in new roles. */
  method Op(a: bv32, b: bv32, c: bv32, d: bv32, t: nat, block: seq<bv32>, ghost h: Regs) returns (a': bv32)
    requires |block| == 16 && t < 64 && Steps(h, block, t) == Regs(a, b, c, d)
    ensures Steps(h, block, t + 1) == Regs(d, a', b, c)
  {
    hide *;
    LinesAre(t);
    var v := Plus(a, Plus(Plus(SourceMix(t, b, c, d), block[LineWord(t)]), Sine(t)));
    a' := Plus(Rol(v, LineTurn(t)), b);
    SourceMixIsMix(t, b, c, d);
    SumOrder(a, Mix(t, b, c, d), block[WordIndex(t)], Sine(t));
    PlusComm(Rol(v, Turn(t)), b);
    StepsNext(h, block, t);
    StepIs(Regs(a, b, c, d), t, block);
  }

  lemma PlusComm(a: bv32, b: bv32)
    ensures Plus(a, b) == Plus(b, a)
  {
  }

  /** The 64 steps of one block; after four the registers have their first roles again. */
  method ProcessOne(h: Regs, block: seq<bv32>) returns (r: Regs)
    requires |block| == 16
    ensures r == Compress(h, block)
  {
    hide *;
    StepsStart(h, block);
    var a, b, c, d := h.a, h.b, h.c, h.d;
    var t := 0;
    while t < 64
      invariant t <= 64 && t % 4 == 0 && Steps(h, block, t) == Regs(a, b, c, d)
    {
      a := Op(a, b, c, d, t, block, h);
      d := Op(d, a, b, c, t + 1, block, h);
      c := Op(c, d, a, b, t + 2, block, h);
      b := Op(b, c, d, a, t + 3, block, h);
      t := t + 4;
    }
    r := Sum(h, Regs(a, b, c, d));
    CompressIs(h, block);
  }

  lemma StepsStart(h: Regs, block: seq<bv32>)
    requires |block| == 16
    ensures Steps(h, block, 0) == Regs(h.a, h.b, h.c, h.d)
  {
  }

  lemma CompressIs(h: Regs, block: seq<bv32>)
    requires |block| == 16
    ensures Compress(h, block) == Sum(h, Steps(h, block, 64))
  {
  }

  // Blocks of bytes

  /** Four bytes as a word, least significant first (SWAP). */
  function Word(b0: Byte, b1: Byte, b2: Byte, b3: Byte): bv32 {
    ((b3 as bv32) << 24) | ((b2 as bv32) << 16) | ((b1 as bv32) << 8) | (b0 as bv32)
  }

  function Words(bytes: seq<Byte>): (block: seq<bv32>)
    requires |bytes| == 64
    ensures |block| == 16
  {
    seq(16, i requires 0 <= i < 16 => Word(bytes[4 * i], bytes[4 * i + 1], bytes[4 * i + 2], bytes[4 * i + 3]))
  }

  /** Compressing a block given as 64 bytes. */
  function CompressBytes(h: Regs, bytes: seq<Byte>): Regs {
    if |bytes| == 64 then Compress(h, Words(bytes)) else h
  }

  const INIT := Regs(0x67452301, 0xefcdab89, 0x98badcfe, 0x10325476)

  /** One turn of the loop of md5_process_block. */
  method CompressBlock(h: Regs, bytes: seq<Byte>) returns (r: Regs)
    requires |bytes| == 64
    ensures r == CompressBytes(h, bytes)
  {
    hide Compress, Words;
    r := ProcessOne(h, Words(bytes));
  }
}
