/** What the CRC of src/crc32.c means: the remainder of a long division of polynomials (src/makecrc.c),
    and what it detects. */
module CrcDivision {
  import opened Polynomial
  import opened Crc32

  // Coefficients

  /** The coefficient of x^(31 - i). */
  predicate Coef(c: bv32, i: nat)
    decreases i, c
  {
    if i == 0 then Odd(c) else Coef(Half(c), i - 1)
  }

  lemma {:induction false} CoefAdd(a: bv32, b: bv32, i: nat)
    ensures Coef(Add(a, b), i) == (Coef(a, i) != Coef(b, i))
    decreases i
  {
    hide Add, Half, Odd;
    if i == 0 {
      AddOdd(a, b);
    } else {
      HalfLinear(a, b);
      CoefAdd(Half(a), Half(b), i - 1);
    }
  }

  lemma {:induction false} CoefZero(i: nat)
    ensures !Coef(0, i)
    decreases i
  {
    if i > 0 {
      assert Half(0) == 0;
      CoefZero(i - 1);
    }
  }

  lemma CoefEight(c: bv32, i: nat)
    ensures Coef(c, i + 8) == Coef(Shr8(c), i)
  {
    HalfEight(c);
    hide Half, Shr8;
    var h := Half(Half(Half(Half(c))));
    assert Coef(c, i + 8) == Coef(Half(Half(c)), i + 6) == Coef(h, i + 4);
    assert Coef(h, i + 4) == Coef(Half(Half(h)), i + 2) == Coef(Half(Half(Half(Half(h)))), i);
  }

  lemma ShiftedOut(c: bv32)
    ensures Shr8(Shr8(Shr8(Shr8(c)))) == 0
  {
  }

  lemma CoefBeyond(c: bv32, i: nat)
    requires i >= 32
    ensures !Coef(c, i)
  {
    CoefEight(c, i - 8);
    CoefEight(Shr8(c), i - 16);
    CoefEight(Shr8(Shr8(c)), i - 24);
    CoefEight(Shr8(Shr8(Shr8(c))), i - 32);
    ShiftedOut(c);
    CoefZero(i - 32);
    hide Shr8;
  }

  /** The terms of the polynomial except x^32, as makecrc lists them. */
  const TERMS: seq<nat> := [0, 1, 2, 4, 5, 7, 8, 10, 11, 12, 16, 22, 23, 26]

  const PATTERN: bv32 := 0xedb88320

  lemma PatternCoefs()
    ensures Shr8(PATTERN) == 0xedb883 && Shr8(0xedb883) == 0xedb8 && Shr8(0xedb8) == 0xed
    ensures !Coef(0xedb88320, 0) && !Coef(0xedb88320, 1) && !Coef(0xedb88320, 2) && !Coef(0xedb88320, 3)
            && !Coef(0xedb88320, 4) && Coef(0xedb88320, 5) && !Coef(0xedb88320, 6) && !Coef(0xedb88320, 7)
    ensures Coef(0xedb883, 0) && Coef(0xedb883, 1) && !Coef(0xedb883, 2) && !Coef(0xedb883, 3) && !Coef(0xedb883, 4)
            && !Coef(0xedb883, 5) && !Coef(0xedb883, 6) && Coef(0xedb883, 7)
    ensures !Coef(0xedb8, 0) && !Coef(0xedb8, 1) && !Coef(0xedb8, 2) && Coef(0xedb8, 3) && Coef(0xedb8, 4)
            && Coef(0xedb8, 5) && !Coef(0xedb8, 6) && Coef(0xedb8, 7)
    ensures Coef(0xed, 0) && !Coef(0xed, 1) && Coef(0xed, 2) && Coef(0xed, 3) && !Coef(0xed, 4) && Coef(0xed, 5)
            && Coef(0xed, 6) && Coef(0xed, 7)
  {
    assert !Coef(0xedb88320, 0) && !Coef(0xedb88320, 1) && !Coef(0xedb88320, 2) && !Coef(0xedb88320, 3)
           && !Coef(0xedb88320, 4) && Coef(0xedb88320, 5) && !Coef(0xedb88320, 6) && !Coef(0xedb88320, 7);
    assert Coef(0xedb883, 0) && Coef(0xedb883, 1) && !Coef(0xedb883, 2) && !Coef(0xedb883, 3) && !Coef(0xedb883, 4)
           && !Coef(0xedb883, 5) && !Coef(0xedb883, 6) && Coef(0xedb883, 7);
    assert !Coef(0xedb8, 0) && !Coef(0xedb8, 1) && !Coef(0xedb8, 2) && Coef(0xedb8, 3) && Coef(0xedb8, 4)
           && Coef(0xedb8, 5) && !Coef(0xedb8, 6) && Coef(0xedb8, 7);
    assert Coef(0xed, 0) && !Coef(0xed, 1) && Coef(0xed, 2) && Coef(0xed, 3) && !Coef(0xed, 4) && Coef(0xed, 5)
           && Coef(0xed, 6) && Coef(0xed, 7);
  }

  lemma TermsIn(e: nat)
    ensures e in TERMS <==>
              e == 0 || e == 1 || e == 2 || e == 4 || e == 5 || e == 7 || e == 8 || e == 10 || e == 11 || e == 12
              || e == 16 || e == 22 || e == 23 || e == 26
  {
    assert TERMS[0] == 0 && TERMS[1] == 1 && TERMS[2] == 2 && TERMS[3] == 4 && TERMS[4] == 5 && TERMS[5] == 7
           && TERMS[6] == 8 && TERMS[7] == 10 && TERMS[8] == 11 && TERMS[9] == 12 && TERMS[10] == 16 && TERMS[11] == 22
           && TERMS[12] == 23 && TERMS[13] == 26;
  }

  /** The exclusive-or pattern has exactly the listed terms. */
  lemma PatternTerms(i: nat)
    requires i < 32
    ensures Coef(PATTERN, i) <==> (31 - i) in TERMS
  {
    PatternCoefs();
    TermsIn(31 - i);
    hide *;
    if i >= 8 { CoefEight(PATTERN, i - 8); }
    if i >= 16 { CoefEight(0xedb883, i - 16); }
    if i >= 24 { CoefEight(0xedb8, i - 24); }
  }

  lemma CarryCoef(c: bv32, i: nat)
    ensures Coef(Carry(c), i) == (Odd(c) && Coef(PATTERN, i))
  {
    CarryIs(c);
    CoefZero(i);
    hide Carry, Coef, Odd;
  }

  /** One turn moves every coefficient up by one and subtracts the polynomial if x^32 appears. */
  lemma CoefBit(c: bv32, i: nat)
    ensures Coef(Bit(c), i) == (Coef(c, i + 1) != (Coef(c, 0) && Coef(PATTERN, i)))
  {
    hide Add, Half, Carry, Odd;
    CoefAdd(Half(c), Carry(c), i);
    CarryCoef(c, i);
  }

  // Messages as bits, highest power first

  /** The register after a run of bits. */
  function Fed(c: bv32, m: seq<bool>): bv32
    decreases |m|
  {
    if m == [] then c else Fed(Bit(Add(c, OneBit(m[0]))), m[1..])
  }

  lemma OneBitCoef(b: bool, i: nat)
    ensures Coef(OneBit(b), i) == (b && i == 0)
  {
    assert Half(1) == 0 && Odd(1) && !Odd(0);
    CoefZero(i);
    if i > 0 { CoefZero(i - 1); }
    hide Half, Odd;
  }

  /** The coefficients after a bit has been fed. */
  lemma CoefFed(c: bv32, b: bool, i: nat)
    ensures Coef(Bit(Add(c, OneBit(b))), i) == (Coef(c, i + 1) != ((Coef(c, 0) != b) && Coef(PATTERN, i)))
  {
    hide *;
    CoefBit(Add(c, OneBit(b)), i);
    CoefAdd(c, OneBit(b), i + 1);
    CoefAdd(c, OneBit(b), 0);
    OneBitCoef(b, i + 1);
    OneBitCoef(b, 0);
  }

  // Long division

  /** One step of the division of a polynomial by x^32 + the listed terms: the leading term is subtracted. */
  function Reduce(d: seq<bool>): (r: seq<bool>)
    requires |d| > 32
    ensures |r| == |d| - 1
  {
    seq(|d| - 1, i requires 0 <= i < |d| - 1 => d[i + 1] != (d[0] && i < 32 && (31 - i) in TERMS))
  }

  /** The remainder of the division: 32 coefficients. */
  function Remainder(d: seq<bool>): (r: seq<bool>)
    requires |d| >= 32
    ensures |r| == 32
    decreases |d|
  {
    if |d| == 32 then d else Remainder(Reduce(d))
  }

  function Coefs(c: bv32): seq<bool> {
    seq(32, i requires 0 <= i < 32 => Coef(c, i))
  }

  /** The message times x^32, with the first 32 coefficients changed by those of c. */
  function Dividend(c: bv32, m: seq<bool>): (d: seq<bool>)
    ensures |d| == |m| + 32
  {
    seq(|m| + 32, i requires 0 <= i < |m| + 32 => (i < |m| && m[i]) != (i < 32 && Coef(c, i)))
  }

  lemma DividendStep(c: bv32, m: seq<bool>)
    requires m != []
    ensures Reduce(Dividend(c, m)) == Dividend(Bit(Add(c, OneBit(m[0]))), m[1..])
  {
    hide Coef, Bit, Add, OneBit;
    var d, c1 := Dividend(c, m), Bit(Add(c, OneBit(m[0])));
    forall i | 0 <= i < |m| + 31 ensures Reduce(d)[i] == Dividend(c1, m[1..])[i] {
      if i < 32 {
        CoefFed(c, m[0], i);
        PatternTerms(i);
      }
      CoefBeyond(c, 32);
    }
  }

  /** The shift register computes the remainder of the long division. */
  lemma {:induction false} RegisterDivides(c: bv32, m: seq<bool>)
    ensures Coefs(Fed(c, m)) == Remainder(Dividend(c, m))
    decreases |m|
  {
    hide Coef, Bit, Add, OneBit, Reduce;
    if m == [] {
      assert Coefs(c) == Dividend(c, []);
    } else {
      DividendStep(c, m);
      RegisterDivides(Bit(Add(c, OneBit(m[0]))), m[1..]);
    }
  }

  // Messages as bytes

  /** The n low bits, lowest first. */
  function Bits(x: bv32, n: nat): (m: seq<bool>)
    ensures |m| == n
    decreases n, x
  {
    if n == 0 then [] else [Odd(x)] + Bits(Half(x), n - 1)
  }

  function MessageBits(bytes: seq<bv8>): (m: seq<bool>)
    ensures |m| == 8 * |bytes|
  {
    if bytes == [] then [] else Bits(bytes[0] as bv32, 8) + MessageBits(bytes[1..])
  }

  function Turns(c: bv32, n: nat): bv32
    decreases n, c
  {
    if n == 0 then c else Turns(Bit(c), n - 1)
  }

  /** What is left of x without its n low bits. */
  function Drop(x: bv32, n: nat): bv32
    decreases n, x
  {
    if n == 0 then x else Drop(Half(x), n - 1)
  }

  lemma FeedOne(c: bv32, x: bv32)
    ensures Bit(Add(c, x)) == Add(Bit(Add(c, OneBit(Odd(x)))), Half(x))
  {
    hide *;
    SplitOdd(x);
    EvenHalf(x);
    AddAssoc(c, OneBit(Odd(x)), Even(x));
    BitLinear(Add(c, OneBit(Odd(x))), Even(x));
    BitEven(Even(x));
  }

  /** Feeding bits one by one is adding them all and turning. */
  lemma {:induction false} FedBits(c: bv32, x: bv32, n: nat)
    requires Drop(x, n) == 0
    ensures Fed(c, Bits(x, n)) == Turns(Add(c, x), n)
    decreases n
  {
    hide Bit, Add, OneBit, Odd, Half;
    if n == 0 {
      AddZero(c);
    } else {
      FeedOne(c, x);
      FedBits(Bit(Add(c, OneBit(Odd(x)))), Half(x), n - 1);
      assert Bits(x, n)[1..] == Bits(Half(x), n - 1);
    }
  }

  lemma ByteDrop(b: bv8)
    ensures Drop(b as bv32, 8) == 0
  {
    var x := b as bv32;
    assert Shr8(x) == 0;
    HalfEight(x);
    hide Half, Shr8;
    assert Drop(x, 8) == Drop(Half(Half(x)), 6) == Drop(Half(Half(Half(Half(x)))), 4);
    var h := Half(Half(Half(Half(x))));
    assert Drop(h, 4) == Drop(Half(Half(h)), 2);
    assert Drop(Half(Half(h)), 2) == Drop(Half(Half(Half(Half(h)))), 0);
  }

  lemma TurnsEight(c: bv32)
    ensures Turns(c, 8) == Eight(c)
  {
    hide Bit;
    assert Turns(c, 8) == Turns(Bit(Bit(c)), 6) == Turns(Bit(Bit(Bit(Bit(c)))), 4);
    var h := Bit(Bit(Bit(Bit(c))));
    assert Turns(h, 4) == Turns(Bit(Bit(h)), 2);
    assert Turns(Bit(Bit(h)), 2) == Turns(Bit(Bit(Bit(Bit(h)))), 0);
  }

  lemma FedByte(c: bv32, b: bv8)
    ensures Fed(c, Bits(b as bv32, 8)) == Eight(Add(c, b as bv32))
  {
    hide *;
    ByteDrop(b);
    FedBits(c, b as bv32, 8);
    TurnsEight(Add(c, b as bv32));
  }

  lemma {:induction false} FedConcat(c: bv32, a: seq<bool>, b: seq<bool>)
    ensures Fed(c, a + b) == Fed(Fed(c, a), b)
    decreases |a|
  {
    hide Bit, Add, OneBit;
    if a == [] {
      assert a + b == b;
    } else {
      FedConcat(Bit(Add(c, OneBit(a[0]))), a[1..], b);
      assert (a + b)[1..] == a[1..] + b;
    }
  }

  lemma {:induction false} FedMessage(c: bv32, bytes: seq<bv8>)
    ensures Fed(c, MessageBits(bytes)) == Register(c, bytes)
    decreases |bytes|
  {
    hide Bit, Add, OneBit, Bits, Eight;
    if bytes != [] {
      FedConcat(c, Bits(bytes[0] as bv32, 8), MessageBits(bytes[1..]));
      FedByte(c, bytes[0]);
      FedMessage(Eight(Add(c, bytes[0] as bv32)), bytes[1..]);
    }
  }

  /** The complemented CRC is the remainder of the message times x^32, its first 32 coefficients changed by
      those of the complemented start value. */
  lemma CrcIsRemainder(crc: bv32, bytes: seq<bv8>)
    ensures Coefs(Not(Crc(crc, bytes))) == Remainder(Dividend(Not(crc), MessageBits(bytes)))
  {
    hide Not, Fed, MessageBits, Register, Remainder, Dividend, Coefs;
    FedMessage(Not(crc), bytes);
    RegisterDivides(Not(crc), MessageBits(bytes));
    NotTwice(Register(Not(crc), bytes));
  }

  // Errors

  function Xor(a: seq<bool>, b: seq<bool>): (e: seq<bool>)
    requires |a| == |b|
    ensures |e| == |a|
  {
    seq(|a|, i requires 0 <= i < |a| => a[i] != b[i])
  }

  lemma OneBitAdd(a: bool, b: bool)
    ensures Add(OneBit(a), OneBit(b)) == OneBit(a != b)
  {
  }

  lemma XorNext(a: seq<bool>, b: seq<bool>)
    requires |a| == |b|
    ensures a != [] ==> Xor(a, b)[0] == (a[0] != b[0]) && Xor(a, b)[1..] == Xor(a[1..], b[1..])
  {
  }

  lemma FedNext(c: bv32, bits: seq<bool>)
    ensures Fed(c, bits) == if bits == [] then c else Fed(Bit(Add(c, OneBit(bits[0]))), bits[1..])
  {
    hide Bit, Add, OneBit;
  }

  /** Registers fed two messages differ by the register fed their difference. */
  lemma {:induction false} FedLinear(c: bv32, d: bv32, a: seq<bool>, b: seq<bool>)
    requires |a| == |b|
    ensures Add(Fed(c, a), Fed(d, b)) == Fed(Add(c, d), Xor(a, b))
    decreases |a|
  {
    hide *;
    if a == [] {
      XorNext(a, b);
      FedNext(c, a);
      FedNext(d, b);
      FedNext(Add(c, d), Xor(a, b));
    } else {
      var x, y := OneBit(a[0]), OneBit(b[0]);
      XorNext(a, b);
      FedNext(c, a);
      FedNext(d, b);
      FedNext(Add(c, d), Xor(a, b));
      OneBitAdd(a[0], b[0]);
      AddShuffle(c, x, d, y);
      BitLinear(Add(c, x), Add(d, y));
      FedLinear(Bit(Add(c, x)), Bit(Add(d, y)), a[1..], b[1..]);
    }
  }

  lemma BitZero(c: bv32)
    ensures Bit(c) == 0 <==> c == 0
  {
    if Odd(c) {
      BitOdd(c);
      assert (c >> 1) ^ 0xedb88320 != 0;
    } else {
      BitEven(c);
    }
    hide Bit;
  }

  /** Equal bits never make different registers equal, or equal ones different. */
  lemma {:induction false} FedSilence(c: bv32, e: seq<bool>)
    requires forall i :: 0 <= i < |e| ==> !e[i]
    ensures Fed(c, e) == 0 <==> c == 0
    decreases |e|
  {
    hide Bit, Add;
    if e != [] {
      AddZero(c);
      BitZero(c);
      FedSilence(Bit(Add(c, 0)), e[1..]);
    }
  }

  /** A register that k bits bring to zero has only its k highest powers. */
  lemma {:induction false} FedToZero(c: bv32, e: seq<bool>)
    requires |e| <= 32 && Fed(c, e) == 0
    ensures forall i :: |e| <= i ==> !Coef(c, i)
    decreases |e|
  {
    hide Bit, Add, OneBit, Coef;
    if e == [] {
      forall i | 0 <= i ensures !Coef(c, i) { CoefZero(i); }
    } else {
      var y := Bit(Add(c, OneBit(e[0])));
      FedToZero(y, e[1..]);
      CoefFed(c, e[0], 31);
      CoefBeyond(c, 32);
      PatternTop();
      assert !Coef(y, 31) && Coef(c, 0) == e[0];
      forall i | |e| <= i ensures !Coef(c, i) {
        CoefFed(c, e[0], i - 1);
        assert !Coef(y, i - 1);
      }
    }
  }

  lemma PatternTop()
    ensures Coef(PATTERN, 31)
  {
    PatternTerms(31);
    TermsIn(0);
    hide Coef;
  }

  /** An error of at most 32 bits, beginning with a wrong one, is not absorbed. */
  lemma ErrorSeen(e: seq<bool>)
    requires 0 < |e| <= 32 && e[0]
    ensures Fed(0, e) != 0
  {
    hide Bit, Add, Coef;
    AddZero(1);
    BitOne();
    assert Fed(0, e) == Fed(PATTERN, e[1..]);
    PatternTop();
    if Fed(PATTERN, e[1..]) == 0 { FedToZero(PATTERN, e[1..]); }
  }

  lemma BitOne()
    ensures Bit(1) == PATTERN
  {
    BitOdd(1);
    hide Bit;
  }

  /** Once different, registers stay different while they are fed the same bits. */
  lemma StillDiffer(x: bv32, y: bv32, t: seq<bool>)
    requires x != y
    ensures Fed(x, t) != Fed(y, t)
  {
    FedLinear(x, y, t, t);
    FedSilence(Add(x, y), Xor(t, t));
    AddSame(x, y);
    AddSame(Fed(x, t), Fed(y, t));
    hide *;
  }

  lemma BecomeDifferent(r: bv32, a: seq<bool>, b: seq<bool>)
    requires 0 < |a| == |b| <= 32 && a[0] != b[0]
    ensures Fed(r, a) != Fed(r, b)
  {
    FedLinear(r, r, a, b);
    AddZero(r);
    AddSame(Fed(r, a), Fed(r, b));
    ErrorSeen(Xor(a, b));
    hide *;
  }

  /** Two messages of one length that differ, but only within 32 consecutive bits, give different registers. */
  lemma BurstOfBits(c: bv32, a: seq<bool>, b: seq<bool>, s: nat)
    requires |a| == |b| && a != b && forall i :: 0 <= i < |a| && a[i] != b[i] ==> s <= i < s + 32
    ensures Fed(c, a) != Fed(c, b)
  {
    hide *;
    var f := FirstDifference(a, b);
    var w := if s + 32 <= |a| then s + 32 else |a|;
    assert a == a[..f] + (a[f..w] + a[w..]) && b == b[..f] + (b[f..w] + b[w..]) && a[..f] == b[..f];
    var r := Fed(c, a[..f]);
    FedConcat(c, a[..f], a[f..w] + a[w..]);
    FedConcat(r, a[f..w], a[w..]);
    FedConcat(c, b[..f], b[f..w] + b[w..]);
    FedConcat(r, b[f..w], b[w..]);
    BecomeDifferent(r, a[f..w], b[f..w]);
    assert a[w..] == b[w..];
    StillDiffer(Fed(r, a[f..w]), Fed(r, b[f..w]), a[w..]);
  }

  lemma FirstDifference(a: seq<bool>, b: seq<bool>) returns (f: nat)
    requires |a| == |b| && a != b
    ensures f < |a| && a[f] != b[f] && forall i :: 0 <= i < f ==> a[i] == b[i]
  {
    f := 0;
    while a[f] == b[f]
      invariant f < |a| && (forall i :: 0 <= i < f ==> a[i] == b[i])
      decreases |a| - f
    {
      assert f + 1 == |a| ==> a == b;
      f := f + 1;
    }
  }

  /** Bit 8 * k + t of a message is bit t of byte k. */
  lemma {:induction false} MessageAt(bytes: seq<bv8>, k: nat)
    requires k < |bytes|
    ensures 8 * k + 8 <= |MessageBits(bytes)| && MessageBits(bytes)[8 * k..8 * k + 8] == Bits(bytes[k] as bv32, 8)
  {
    hide Bits;
    var m := MessageBits(bytes);
    if k == 0 {
      assert m[0..8] == Bits(bytes[0] as bv32, 8);
    } else {
      MessageAt(bytes[1..], k - 1);
      assert m[8 * k..8 * k + 8] == MessageBits(bytes[1..])[8 * (k - 1)..8 * (k - 1) + 8];
    }
  }

  lemma EightZero(c: bv32)
    ensures Eight(c) == 0 <==> c == 0
  {
    hide Bit;
    BitZero(c);
    BitZero(Bit(c));
    BitZero(Bit(Bit(c)));
    BitZero(Bit(Bit(Bit(c))));
    BitZero(Bit(Bit(Bit(Bit(c)))));
    BitZero(Bit(Bit(Bit(Bit(Bit(c))))));
    BitZero(Bit(Bit(Bit(Bit(Bit(Bit(c)))))));
    BitZero(Bit(Bit(Bit(Bit(Bit(Bit(Bit(c))))))));
  }

  /** Different bytes have different bits. */
  lemma BitsDiffer(x: bv8, y: bv8)
    requires x != y
    ensures Bits(x as bv32, 8) != Bits(y as bv32, 8)
  {
    WiderDiffers(x, y);
    var u, v := x as bv32, y as bv32;
    FedByte(0, x);
    FedByte(0, y);
    AddZero(u);
    AddZero(v);
    EightLinear(u, v);
    AddSame(u, v);
    EightZero(Add(u, v));
    AddSame(Eight(u), Eight(v));
    hide *;
  }

  lemma WiderDiffers(x: bv8, y: bv8)
    requires x != y
    ensures x as bv32 != y as bv32
  {
    assert ((x as bv32) & 0xff) as bv8 == x && ((y as bv32) & 0xff) as bv8 == y;
  }

  /** Two buffers of one length that differ, but only within four consecutive bytes, have different CRCs. */
  lemma BurstDetected(crc: bv32, a: seq<bv8>, b: seq<bv8>, s: nat)
    requires |a| == |b| && a != b && forall i :: 0 <= i < |a| && a[i] != b[i] ==> s <= i < s + 4
    ensures Crc(crc, a) != Crc(crc, b)
  {
    hide *;
    var m, n := MessageBits(a), MessageBits(b);
    var f :| 0 <= f < |a| && a[f] != b[f];
    MessageAt(a, f);
    MessageAt(b, f);
    BitsDiffer(a[f], b[f]);
    assert m != n;
    forall i | 0 <= i < |m| && m[i] != n[i] ensures 8 * s <= i < 8 * s + 32 {
      var k := i / 8;
      MessageAt(a, k);
      MessageAt(b, k);
      assert m[i] == m[8 * k..8 * k + 8][i - 8 * k] && n[i] == n[8 * k..8 * k + 8][i - 8 * k];
      assert a[k] != b[k];
    }
    BurstOfBits(Not(crc), m, n, 8 * s);
    FedMessage(Not(crc), a);
    FedMessage(Not(crc), b);
    NotTwice(Register(Not(crc), a));
    NotTwice(Register(Not(crc), b));
    CrcIs(crc, a);
    CrcIs(crc, b);
  }

  lemma CrcIs(crc: bv32, bytes: seq<bv8>)
    ensures Crc(crc, bytes) == Not(Register(Not(crc), bytes))
  {
  }

  /** Four bytes are the limit: here five bytes differ and the CRCs agree. */
  lemma FiveBytesCollide()
    ensures Crc(0, [0x41, 0x06, 0x71, 0xdb, 0x01]) == Crc(0, [0, 0, 0, 0, 0])
  {
    RegisterFive(Not(0), 0x41, 0x06, 0x71, 0xdb, 0x01);
    RegisterFive(Not(0), 0, 0, 0, 0, 0);
    assert Not(0) == 0xffffffff;
    FiveTurns();
    hide *;
  }

  lemma RegisterFive(c: bv32, v: bv8, w: bv8, x: bv8, y: bv8, z: bv8)
    ensures Register(c, [v, w, x, y, z]) ==
            Eight(Add(Eight(Add(Eight(Add(Eight(Add(Eight(Add(c, v as bv32)), w as bv32)), x as bv32)), y as bv32)),
                      z as bv32))
  {
    hide *;
    var c1 := Eight(Add(c, v as bv32));
    var c2 := Eight(Add(c1, w as bv32));
    var c3 := Eight(Add(c2, x as bv32));
    var c4 := Eight(Add(c3, y as bv32));
    RegisterStep(c, [v, w, x, y, z]);
    RegisterStep(c1, [w, x, y, z]);
    RegisterStep(c2, [x, y, z]);
    RegisterStep(c3, [y, z]);
    RegisterStep(c4, [z]);
    RegisterEmpty(Eight(Add(c4, z as bv32)));
    assert [v, w, x, y, z][1..] == [w, x, y, z] && [w, x, y, z][1..] == [x, y, z] && [x, y, z][1..] == [y, z];
    assert [y, z][1..] == [z] && [z][1..] == [];
  }

  lemma RegisterEmpty(c: bv32)
    ensures Register(c, []) == c
  {
  }

  lemma FiveTurns()
    ensures Eight(0xffffffbe) == 0x2c266174 && Eight(0x2c266172) == 0xbe273671 && Eight(0xbe273600) == 0xbe2736
    ensures Eight(0xbe27ed) == 0xdebb20e2 && Eight(0xdebb20e3) == 0x39dd08e2
    ensures Eight(0xffffffff) == 0x2dfd1072 && Eight(0x2dfd1072) == 0xbe26ed00 && Eight(0xbe26ed00) == 0xbe26ed
    ensures Eight(0xbe26ed) == 0xdebb20e3
    ensures Add(0xffffffff, 0x41) == 0xffffffbe && Add(0x2c266174, 6) == 0x2c266172
            && Add(0xbe273671, 0x71) == 0xbe273600
    ensures Add(0xbe2736, 0xdb) == 0xbe27ed && Add(0xdebb20e2, 1) == 0xdebb20e3
    ensures Add(0xffffffff, 0) == 0xffffffff && Add(0x2dfd1072, 0) == 0x2dfd1072 && Add(0xbe26ed00, 0) == 0xbe26ed00
    ensures Add(0xbe26ed, 0) == 0xbe26ed && Add(0xdebb20e3, 0) == 0xdebb20e3
  {
  }

  // makecrc

  /** 1L << (31 - k) */
  function Term(k: nat): bv32
    requires k < 32
  {
    (1 as bv32) << (31 - k)
  }

  function Or(a: bv32, b: bv32): bv32 {
    a | b
  }

  /** The pattern built from the first n listed terms. */
  function PatternUpTo(n: nat): bv32
    requires n <= |TERMS| && (forall k :: k in TERMS ==> k < 32)
  {
    if n == 0 then 0 else Or(PatternUpTo(n - 1), Term(TERMS[n - 1]))
  }

  lemma TermValues()
    ensures forall k :: k in TERMS ==> k < 32
    ensures Term(0) == 0x80000000
    ensures Term(1) == 0x40000000
    ensures Term(2) == 0x20000000
    ensures Term(4) == 0x8000000
    ensures Term(5) == 0x4000000
    ensures Term(7) == 0x1000000
    ensures Term(8) == 0x800000
    ensures Term(10) == 0x200000
    ensures Term(11) == 0x100000
    ensures Term(12) == 0x80000
    ensures Term(16) == 0x8000
    ensures Term(22) == 0x200
    ensures Term(23) == 0x100
    ensures Term(26) == 0x20
  {
  }

  lemma OrValues()
    ensures Or(0x0, 0x80000000) == 0x80000000
    ensures Or(0x80000000, 0x40000000) == 0xc0000000
    ensures Or(0xc0000000, 0x20000000) == 0xe0000000
    ensures Or(0xe0000000, 0x8000000) == 0xe8000000
    ensures Or(0xe8000000, 0x4000000) == 0xec000000
    ensures Or(0xec000000, 0x1000000) == 0xed000000
    ensures Or(0xed000000, 0x800000) == 0xed800000
    ensures Or(0xed800000, 0x200000) == 0xeda00000
    ensures Or(0xeda00000, 0x100000) == 0xedb00000
    ensures Or(0xedb00000, 0x80000) == 0xedb80000
    ensures Or(0xedb80000, 0x8000) == 0xedb88000
    ensures Or(0xedb88000, 0x200) == 0xedb88200
    ensures Or(0xedb88200, 0x100) == 0xedb88300
    ensures Or(0xedb88300, 0x20) == 0xedb88320
  {
  }

  lemma TermList()
    ensures |TERMS| == 14 && TERMS[0] == 0 && TERMS[1] == 1 && TERMS[2] == 2 && TERMS[3] == 4 && TERMS[4] == 5
            && TERMS[5] == 7 && TERMS[6] == 8 && TERMS[7] == 10 && TERMS[8] == 11 && TERMS[9] == 12 && TERMS[10] == 16
            && TERMS[11] == 22 && TERMS[12] == 23 && TERMS[13] == 26
  {
  }

  lemma PatternValue()
    requires forall k :: k in TERMS ==> k < 32
    ensures PatternUpTo(|TERMS|) == PATTERN
  {
    hide Term, Or;
    TermValues();
    OrValues();
    TermList();
    assert PatternUpTo(0) == 0;
    PatternStep(1);
    PatternStep(2);
    PatternStep(3);
    PatternStep(4);
    PatternStep(5);
    PatternStep(6);
    PatternStep(7);
    PatternStep(8);
    PatternStep(9);
    PatternStep(10);
    PatternStep(11);
    PatternStep(12);
    PatternStep(13);
    PatternStep(14);
  }

  lemma PatternStep(n: nat)
    requires 0 < n <= |TERMS| && (forall k :: k in TERMS ==> k < 32)
    ensures PatternUpTo(n) == Or(PatternUpTo(n - 1), Term(TERMS[n - 1]))
  {
  }

  /** The first loop of makecrc: the exclusive-or pattern from the list of terms. */
  method MakePattern() returns (e: bv32)
    ensures e == PATTERN
  {
    hide Term, Or;
    TermValues();
    e := 0;
    var i := 0;
    while i < |TERMS|
      invariant i <= |TERMS| && e == PatternUpTo(i)
    {
      PatternStep(i + 1);
      e := Or(e, Term(TERMS[i]));
      i := i + 1;
    }
    PatternValue();
  }

  /** One turn of the generator's register. */
  method GeneratorTurn(c: bv32, e: bv32) returns (r: bv32)
    requires e == PATTERN
    ensures r == Bit(c)
  {
    if c & 1 != 0 {
      BitOdd(c);
      r := (c >> 1) ^ e;
    } else {
      BitEven(c);
      r := c >> 1;
    }
    hide Bit;
  }

  /** makecrc: the table it writes is the one crc32 uses. */
  method MakeTable() returns (table: seq<bv32>)
    ensures |table| == 256 && forall i :: 0 <= i < 256 ==> table[i] == Table(i as bv8)
  {
    hide Table, Bit, Turns;
    var e := MakePattern();
    table := [0];
    ZeroEntry();
    var i := 1;
    while i < 256
      invariant 1 <= i <= 256 && |table| == i
      invariant forall n :: 0 <= n < i ==> table[n] == Table(n as bv8)
    {
      var c := i as bv32;
      var k := 8;
      TurnsStart(i as bv32);
      while k > 0
        invariant 0 <= k <= 8 && Turns(c, k) == Eight(i as bv32)
      {
        TurnsStep(c, k);
        c := GeneratorTurn(c, e);
        k := k - 1;
      }
      TurnsDone(c);
      EntryIs(i);
      table := table + [c];
      i := i + 1;
    }
  }

  lemma ZeroEntry()
    ensures 0 == Table(0 as bv8)
  {
  }

  lemma TurnsStart(c: bv32)
    ensures Turns(c, 8) == Eight(c)
  {
    TurnsEight(c);
  }

  lemma TurnsStep(c: bv32, k: nat)
    requires k > 0
    ensures Turns(c, k) == Turns(Bit(c), k - 1)
  {
  }

  lemma TurnsDone(c: bv32)
    ensures Turns(c, 0) == c
  {
  }

  lemma EntryIs(i: nat)
    requires i < 256
    ensures Eight(i as bv32) == Table(i as bv8)
  {
    TableIsEight(i as bv8);
    assert (i as bv8) as bv32 == i as bv32;
    hide *;
  }
}
