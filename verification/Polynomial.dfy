/** Polynomials over GF(2) below x^32, as the CRC register holds them: lowest powers in the most
    significant bits. */
module Polynomial {
  /** Adding polynomials is exclusive or. */
  function Add(a: bv32, b: bv32): bv32 {
    a ^ b
  }

  function Half(c: bv32): bv32 {
    c >> 1
  }

  predicate Odd(c: bv32) {
    c & 1 != 0
  }

  /** What the bit shifted out puts back: x^32 reduced. */
  function Carry(c: bv32): bv32 {
    if Odd(c) then 0xedb88320 else 0
  }

  /** One turn of the shift register: multiply by x and reduce. */
  function Bit(c: bv32): bv32 {
    Add(Half(c), Carry(c))
  }

  function Not(c: bv32): bv32 {
    !c
  }

  /** The low byte, the rest, and the rest moved down. */
  function Low(c: bv32): bv32 {
    c & 0xff
  }

  function High(c: bv32): bv32 {
    c & 0xffffff00
  }

  function Shr8(c: bv32): bv32 {
    c >> 8
  }

  lemma HalfLinear(a: bv32, b: bv32)
    ensures Half(Add(a, b)) == Add(Half(a), Half(b))
  {
  }

  lemma AddOdd(a: bv32, b: bv32)
    ensures Odd(Add(a, b)) <==> (Odd(a) != Odd(b))
  {
  }

  lemma CarryIs(c: bv32)
    ensures Carry(c) == if Odd(c) then 0xedb88320 else 0
  {
  }

  lemma AddZero(a: bv32)
    ensures Add(a, 0) == a && Add(0, a) == a && Add(a, a) == 0
  {
  }

  lemma CarryLinear(a: bv32, b: bv32)
    ensures Carry(Add(a, b)) == Add(Carry(a), Carry(b))
  {
    hide *;
    AddOdd(a, b);
    CarryIs(a);
    CarryIs(b);
    CarryIs(Add(a, b));
    AddZero(Carry(a));
    AddZero(Carry(b));
  }

  lemma AddComm(a: bv32, b: bv32)
    ensures Add(a, b) == Add(b, a)
  {
  }

  lemma AddAssoc(a: bv32, b: bv32, c: bv32)
    ensures Add(Add(a, b), c) == Add(a, Add(b, c))
  {
  }

  lemma AddShuffle(a: bv32, b: bv32, c: bv32, d: bv32)
    ensures Add(Add(a, b), Add(c, d)) == Add(Add(a, c), Add(b, d))
  {
    hide *;
    AddAssoc(a, b, Add(c, d));
    AddAssoc(b, c, d);
    AddComm(b, c);
    AddAssoc(c, b, d);
    AddAssoc(a, c, Add(b, d));
  }

  lemma BitLinear(a: bv32, b: bv32)
    ensures Bit(Add(a, b)) == Add(Bit(a), Bit(b))
  {
    hide Add, Half, Carry;
    HalfLinear(a, b);
    CarryLinear(a, b);
    AddShuffle(Half(a), Half(b), Carry(a), Carry(b));
  }

  lemma BitOdd(c: bv32)
    requires Odd(c)
    ensures Bit(c) == (c >> 1) ^ 0xedb88320
  {
  }

  lemma BitEven(c: bv32)
    requires !Odd(c)
    ensures Bit(c) == Half(c)
  {
  }

  lemma LowHalf(c: bv32, m: bv32)
    requires c & m == 0 && m & 1 == 1
    ensures !Odd(c) && Half(c) & Half(m) == 0
  {
  }

  lemma HalfEight(c: bv32)
    ensures Half(Half(Half(Half(Half(Half(Half(Half(c)))))))) == Shr8(c)
  {
  }

  lemma NotTwice(c: bv32)
    ensures Not(Not(c)) == c
  {
  }

  lemma SplitLow(c: bv32)
    ensures Add(Low(c), High(c)) == c && Low(High(c)) == 0 && Shr8(High(c)) == Shr8(c)
  {
  }

  /** A byte does not reach above the low byte. */
  lemma AddByte(c: bv32, b: bv8)
    ensures Shr8(Add(c, b as bv32)) == Shr8(c)
  {
  }

  lemma LowByte(c: bv32)
    ensures ((c & 0xff) as bv8) as bv32 == Low(c)
  {
  }

  function OneBit(b: bool): bv32 {
    if b then 1 else 0
  }

  /** c without its lowest bit. */
  function Even(c: bv32): bv32 {
    c & 0xfffffffe
  }

  lemma OddBit(c: bv32)
    ensures OneBit(Odd(c)) == c & 1
  {
  }

  lemma EvenRest(c: bv32)
    ensures Add(c & 1, Even(c)) == c
  {
  }

  lemma SplitOdd(c: bv32)
    ensures Add(OneBit(Odd(c)), Even(c)) == c
  {
    OddBit(c);
    EvenRest(c);
    hide *;
  }

  lemma EvenHalf(c: bv32)
    ensures Half(Even(c)) == Half(c) && !Odd(Even(c))
  {
  }

  lemma AddSame(a: bv32, b: bv32)
    ensures Add(a, b) == 0 <==> a == b
  {
    AddZero(a);
    AddZero(b);
    AddAssoc(a, b, b);
    hide *;
  }
}
