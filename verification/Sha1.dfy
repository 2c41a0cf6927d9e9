/** The compression of SHA-1 (src/sha.c): a message schedule kept in 16 words that are overwritten in turn
    and registers that change roles instead of values, against the 80-word schedule and the rotating
    registers of FIPS 180-1, section 7. */
module Sha1 {
  import opened ByteImage

  function Rol1(v: bv32): bv32 {
    (v << 1) | (v >> 31)
  }

  function Rol5(v: bv32): bv32 {
    (v << 5) | (v >> 27)
  }

  function Rol30(v: bv32): bv32 {
    (v << 30) | (v >> 2)
  }

  // Modulo 2^32, rotating multiplies by a power of two and brings the bits that leave back in at the bottom.

  lemma Rol1Doubles(v: bv32)
    ensures Rol1(v) == 2 * v + v / 0x8000_0000
  {
  }

  lemma Rol5Multiplies(v: bv32)
    ensures Rol5(v) == 32 * v + v / 0x800_0000
  {
  }

  lemma Rol30Multiplies(v: bv32)
    ensures Rol30(v) == 0x4000_0000 * v + v / 4
  {
  }

  // FIPS 180-1, sections 5 to 7

  function Choose(b: bv32, c: bv32, d: bv32): bv32 {
    (b & c) | (!b & d)
  }

  function Parity(b: bv32, c: bv32, d: bv32): bv32 {
    b ^ c ^ d
  }

  function Majority(b: bv32, c: bv32, d: bv32): bv32 {
    (b & c) | (b & d) | (c & d)
  }

  function F(t: nat, b: bv32, c: bv32, d: bv32): bv32 {
    if t < 20 then Choose(b, c, d) else if t < 40 then Parity(b, c, d) else if t < 60 then Majority(b, c, d)
    else Parity(b, c, d)
  }

  function K(t: nat): bv32 {
    if t < 20 then 0x5a827999 else if t < 40 then 0x6ed9eba1 else if t < 60 then 0x8f1bbcdc else 0xca62c1d6
  }

  function Xor4(a: bv32, b: bv32, c: bv32, d: bv32): bv32 {
    a ^ b ^ c ^ d
  }

  function Plus(a: bv32, b: bv32): bv32 {
    a + b
  }

  /** W(t) */
  function W(block: seq<bv32>, t: nat): bv32
    requires |block| == 16
    decreases t, block
  {
    if t < 16 then block[t]
    else Rol1(Xor4(W(block, t - 3), W(block, t - 8), W(block, t - 14), W(block, t - 16)))
  }

  datatype Regs = Regs(a: bv32, b: bv32, c: bv32, d: bv32, e: bv32)

  /** TEMP of step t. */
  function Temp(r: Regs, t: nat, w: bv32): bv32 {
    Plus(Plus(Plus(Plus(Rol5(r.a), F(t, r.b, r.c, r.d)), r.e), w), K(t))
  }

  function Step(r: Regs, t: nat, w: bv32): Regs {
    Regs(Temp(r, t, w), r.a, Rol30(r.b), r.c, r.d)
  }

  /** The registers before step t. */
  function Steps(h: Regs, block: seq<bv32>, t: nat): Regs
    requires |block| == 16
    decreases t, block
  {
    if t == 0 then h else Step(Steps(h, block, t - 1), t - 1, W(block, t - 1))
  }

  function Sum(h: Regs, r: Regs): Regs {
    Regs(Plus(h.a, r.a), Plus(h.b, r.b), Plus(h.c, r.c), Plus(h.d, r.d), Plus(h.e, r.e))
  }

  /** The chaining value after a block. */
  function Compress(h: Regs, block: seq<bv32>): Regs
    requires |block| == 16
  {
    Sum(h, Steps(h, block, 80))
  }

  // The source

  function F1(b: bv32, c: bv32, d: bv32): bv32 {
    d ^ (b & (c ^ d))
  }

  function F3(b: bv32, c: bv32, d: bv32): bv32 {
    (b & c) | (d & (b | c))
  }

  lemma F1IsChoose(b: bv32, c: bv32, d: bv32)
    ensures F1(b, c, d) == Choose(b, c, d)
  {
    ChooseBits(b, c, d);
  }

  lemma ChooseBits(b: bv32, c: bv32, d: bv32)
    ensures d ^ (b & (c ^ d)) == (b & c) | (!b & d)
  {
  }

  lemma F3IsMajority(b: bv32, c: bv32, d: bv32)
    ensures F3(b, c, d) == Majority(b, c, d)
  {
    MajorityBits(b, c, d);
  }

  lemma MajorityBits(b: bv32, c: bv32, d: bv32)
    ensures (b & c) | (d & (b | c)) == (b & c) | (b & d) | (c & d)
  {
  }

  /** Which function and constant round t of the source uses. */
  function SourceF(t: nat, b: bv32, c: bv32, d: bv32): bv32 {
    if t < 20 then F1(b, c, d) else if t < 40 then Parity(b, c, d) else if t < 60 then F3(b, c, d) else Parity(b, c, d)
  }

  lemma SourceFIsF(t: nat, b: bv32, c: bv32, d: bv32)
    ensures SourceF(t, b, c, d) == F(t, b, c, d)
  {
    F1IsChoose(b, c, d);
    F3IsMajority(b, c, d);
    hide F1, F3, Choose, Majority, Parity;
  }

  lemma PlusComm(a: bv32, b: bv32)
    ensures Plus(a, b) == Plus(b, a)
  {
  }

  lemma PlusAssoc(a: bv32, b: bv32, c: bv32)
    ensures Plus(Plus(a, b), c) == Plus(a, Plus(b, c))
  {
    hide *;
    PlusIs(a, b);
    PlusIs(b, c);
    PlusBits(a, b, c);
  }

  lemma PlusBits(a: bv32, b: bv32, c: bv32)
    ensures Plus(a + b, c) == Plus(a, b + c)
  {
  }

  lemma PlusIs(a: bv32, b: bv32)
    ensures Plus(a, b) == a + b
  {
  }

  /** The source adds the terms in another order. */
  lemma SumOrder(e: bv32, r: bv32, f: bv32, k: bv32, m: bv32)
    ensures Plus(e, Plus(Plus(Plus(r, f), k), m)) == Plus(Plus(Plus(Plus(r, f), e), m), k)
  {
    hide *;
    var x := Plus(r, f);
    PlusAssoc(x, k, m);
    PlusComm(k, m);
    PlusAssoc(e, x, Plus(m, k));
    PlusComm(e, x);
    PlusAssoc(Plus(x, e), m, k);
  }

  /** The 16 words hold the latest part of the schedule before round t. */
  ghost predicate Window(x: seq<bv32>, block: seq<bv32>, t: nat)
    requires |block| == 16
  {
    |x| == 16 && forall s :: 0 <= s && t - 16 <= s && (s < t || s < 16) ==> x[s % 16] == W(block, s)
  }

  lemma Xor4Order(a: bv32, b: bv32, c: bv32, d: bv32)
    ensures Xor4(a, b, c, d) == Xor4(d, c, b, a)
  {
    Xor4Bits(a, b, c, d);
  }

  lemma Xor4Bits(a: bv32, b: bv32, c: bv32, d: bv32)
    ensures a ^ b ^ c ^ d == d ^ c ^ b ^ a
  {
  }

  /** The four words of the schedule that the next one is made of, where the window keeps them. */
  lemma WindowWords(x: seq<bv32>, block: seq<bv32>, t: nat)
    requires |block| == 16 && Window(x, block, t) && t >= 16
    ensures |x| == 16 && x[t % 16] == W(block, t - 16) && x[(t - 14) % 16] == W(block, t - 14)
    ensures x[(t - 8) % 16] == W(block, t - 8) && x[(t - 3) % 16] == W(block, t - 3)
  {
    hide W;
    assert t % 16 == (t - 16) % 16;
  }

  lemma WindowNext(x: seq<bv32>, block: seq<bv32>, t: nat)
    requires |block| == 16 && Window(x, block, t) && t >= 16
    ensures Window(x[t % 16 := W(block, t)], block, t + 1)
  {
    hide W;
    var now := x[t % 16 := W(block, t)];
    forall s | 0 <= s && t + 1 - 16 <= s && (s < t + 1 || s < 16) ensures now[s % 16] == W(block, s) {
      if s < t { Residues(s, t); }
    }
  }

  lemma Residues(s: nat, t: nat)
    requires s < t < s + 16
    ensures s % 16 != t % 16
  {
  }

  /** W(t) from the window, in the order the source takes the words. */
  lemma ScheduleStep(x: seq<bv32>, block: seq<bv32>, t: nat)
    requires |block| == 16 && Window(x, block, t) && t >= 16
    ensures |x| == 16 && Rol1(Xor4(x[t % 16], x[(t - 14) % 16], x[(t - 8) % 16], x[(t - 3) % 16])) == W(block, t)
  {
    hide Rol1, Xor4, Window;
    WindowWords(x, block, t);
    Xor4Order(W(block, t - 16), W(block, t - 14), W(block, t - 8), W(block, t - 3));
  }

  lemma WindowEarly(x: seq<bv32>, block: seq<bv32>, t: nat)
    requires |block| == 16 && Window(x, block, t) && t < 16
    ensures |x| == 16 && x[t] == W(block, t) && Window(x, block, t + 1)
  {
    hide W;
    assert t % 16 == t;
  }

  lemma WindowStart(block: seq<bv32>)
    requires |block| == 16
    ensures Window(block, block, 0)
  {
    forall s | 0 <= s < 16 ensures block[s % 16] == W(block, s) {
      assert s % 16 == s;
    }
  }

  lemma TempOrder(r: Regs, t: nat, w: bv32)
    ensures Plus(r.e, Plus(Plus(Plus(Rol5(r.a), SourceF(t, r.b, r.c, r.d)), K(t)), w)) == Temp(r, t, w)
  {
    hide Plus, Rol5, SourceF, F, K;
    SourceFIsF(t, r.b, r.c, r.d);
    SumOrder(r.e, Rol5(r.a), F(t, r.b, r.c, r.d), K(t), w);
  }

  lemma StepsNext(h: Regs, block: seq<bv32>, t: nat)
    requires |block| == 16
    ensures Steps(h, block, t + 1) == Step(Steps(h, block, t), t, W(block, t))
  {
  }

  /** M(I): overwrite the oldest word of the schedule with the next one. */
  method Schedule(x: array<bv32>, t: nat, ghost block: seq<bv32>) returns (m: bv32)
    requires |block| == 16 && x.Length == 16 && t >= 16 && Window(x[..], block, t)
    modifies x
    ensures x.Length == 16 && m == W(block, t) && Window(x[..], block, t + 1)
  {
    hide *;
    ghost var was := x[..];
    ScheduleStep(was, block, t);
    WindowNext(was, block, t);
    m := Rol1(Xor4(x[t % 16], x[(t - 14) % 16], x[(t - 8) % 16], x[(t - 3) % 16]));
    x[t % 16] := m;
    assert x[..] == was[t % 16 := m];
  }

  /** R: one round. Only e and b get new values; the caller passes the registers on in new roles. */
  method Round(a: bv32, b: bv32, c: bv32, d: bv32, e: bv32, t: nat, x: array<bv32>, ghost h: Regs,
               ghost block: seq<bv32>)
    returns (e': bv32, b': bv32)
    requires |block| == 16 && x.Length == 16 && Window(x[..], block, t) && Steps(h, block, t) == Regs(a, b, c, d, e)
    modifies x
    ensures Window(x[..], block, t + 1) && Steps(h, block, t + 1) == Regs(e', a, b', c, d)
  {
    hide *;
    var m;
    if t < 16 {
      WindowEarly(x[..], block, t);
      m := x[t];
    } else {
      m := Schedule(x, t, block);
    }
    e' := Plus(e, Plus(Plus(Plus(Rol5(a), SourceF(t, b, c, d)), K(t)), m));
    b' := Rol30(b);
    TempOrder(Regs(a, b, c, d, e), t, m);
    StepsNext(h, block, t);
    StepIs(Regs(a, b, c, d, e), t, m);
  }

  lemma StepIs(r: Regs, t: nat, w: bv32)
    ensures Step(r, t, w) == Regs(Temp(r, t, w), r.a, Rol30(r.b), r.c, r.d)
  {
  }

  /** The 80 rounds of one block; after five the registers have their first roles again. */
  method ProcessOne(h: Regs, block: seq<bv32>) returns (r: Regs)
    requires |block| == 16
    ensures r == Compress(h, block)
  {
    hide *;
    var x := new bv32[16](i requires 0 <= i < 16 => block[i]);
    assert x[..] == block;
    WindowStart(block);
    StepsStart(h, block);
    var a, b, c, d, e := h.a, h.b, h.c, h.d, h.e;
    var t := 0;
    while t < 80
      invariant t <= 80 && t % 5 == 0
      invariant Window(x[..], block, t) && Steps(h, block, t) == Regs(a, b, c, d, e)
    {
      e, b := Round(a, b, c, d, e, t, x, h, block);
      d, a := Round(e, a, b, c, d, t + 1, x, h, block);
      c, e := Round(d, e, a, b, c, t + 2, x, h, block);
      b, d := Round(c, d, e, a, b, t + 3, x, h, block);
      a, c := Round(b, c, d, e, a, t + 4, x, h, block);
      t := t + 5;
    }
    r := Sum(h, Regs(a, b, c, d, e));
    CompressIs(h, block);
  }

  lemma StepsStart(h: Regs, block: seq<bv32>)
    requires |block| == 16
    ensures Steps(h, block, 0) == Regs(h.a, h.b, h.c, h.d, h.e)
  {
  }

  lemma CompressIs(h: Regs, block: seq<bv32>)
    requires |block| == 16
    ensures Compress(h, block) == Sum(h, Steps(h, block, 80))
  {
  }

  // Whole buffers

  /** Four bytes as a word, most significant first (NOTSWAP). */
  function Word(b0: Byte, b1: Byte, b2: Byte, b3: Byte): bv32 {
    ((b0 as bv32) << 24) | ((b1 as bv32) << 16) | ((b2 as bv32) << 8) | (b3 as bv32)
  }

  function Words(bytes: seq<Byte>): (block: seq<bv32>)
    requires |bytes| == 64
    ensures |block| == 16
  {
    seq(16, i requires 0 <= i < 16 => Word(bytes[4 * i], bytes[4 * i + 1], bytes[4 * i + 2], bytes[4 * i + 3]))
  }

  /** Compressing a block given as 64 bytes. */
  function CompressBytes(h: Regs, bytes: seq<Byte>): Regs {
    if |bytes| == 64 then Compress(h, Words(bytes)) else h
  }

  const INIT := Regs(0x67452301, 0xefcdab89, 0x98badcfe, 0x10325476, 0xc3d2e1f0)

  /** One turn of the loop of sha_process_block. */
  method CompressBlock(h: Regs, bytes: seq<Byte>) returns (r: Regs)
    requires |bytes| == 64
    ensures r == CompressBytes(h, bytes)
  {
    hide Compress, Words;
    r := ProcessOne(h, Words(bytes));
  }
}
