/** The code that prelinking puts into a SPARC V9 procedure linkage table slot (src/arch-sparc64.c), against
    the instructions it is made of (The SPARC Architecture Manual, Version 9, Appendix A). */
module SparcPlt {
  import opened Wrappers

  // A part of the instruction set

  type RegisterFile = bv32 -> bv64

  /** The program counter, the next one, and the registers. */
  datatype State = State(pc: bv64, npc: bv64, regs: RegisterFile)

  datatype Operand = Register(r: bv32) | Immediate(v: bv64)

  datatype Instruction =
    | Sethi(rd: bv32, imm22: bv64)
    | BranchAlways(annul: bool, disp: bv64)
    | Call(disp: bv64)
    | Or(rd: bv32, rs1: bv32, src: Operand)
    | Sllx(rd: bv32, rs1: bv32, count: bv7)
    | Jmpl(rd: bv32, rs1: bv32, src: Operand)
    | Other

  predicate Negative22(w: bv32) {
    w & 0x20_0000 != 0
  }

  predicate Negative30(w: bv32) {
    w & 0x2000_0000 != 0
  }

  function Field22(w: bv32): bv64 {
    (w & 0x3f_ffff) as bv64
  }

  function Field30(w: bv32): bv64 {
    (w & 0x3fff_ffff) as bv64
  }

  /** Sign extension of a word displacement, in bytes. */
  function Extend22(negative: bool, m: bv64): bv64 {
    if negative then (0xffff_ffff_ffc0_0000 | m) << 2 else m << 2
  }

  function Extend30(negative: bool, m: bv64): bv64 {
    if negative then (0xffff_ffff_c000_0000 | m) << 2 else m << 2
  }

  /** 22- and 30-bit word displacements as byte distances. */
  function Distance22(w: bv32): bv64 {
    Extend22(Negative22(w), Field22(w))
  }

  function Distance30(w: bv32): bv64 {
    Extend30(Negative30(w), Field30(w))
  }

  /** A 13-bit signed immediate. */
  function Simm13(w: bv32): bv64 {
    if w & 0x1000 != 0 then 0xffff_ffff_ffff_e000 | ((w & 0x1fff) as bv64) else (w & 0x1fff) as bv64
  }

  function Rd(w: bv32): bv32 {
    (w >> 25) & 0x1f
  }

  function Rs1(w: bv32): bv32 {
    (w >> 14) & 0x1f
  }

  /** The second operand of a format 3 instruction. */
  function Source(w: bv32): Operand {
    if w & 0x2000 != 0 then Immediate(Simm13(w)) else Register(w & 0x1f)
  }

  function Decode(w: bv32): Instruction {
    if w >> 30 == 0 then
      if (w >> 22) & 7 == 4 then Sethi(Rd(w), (w & 0x3f_ffff) as bv64)
      else if (w >> 22) & 7 == 2 && (w >> 25) & 0xf == 8 then BranchAlways((w >> 29) & 1 == 1, Distance22(w))
      else Other
    else if w >> 30 == 1 then Call(Distance30(w))
    else if w >> 30 == 2 then
      if (w >> 19) & 0x3f == 0x02 then Or(Rd(w), Rs1(w), Source(w))
      else if (w >> 19) & 0x3f == 0x25 && w & 0x3000 == 0x3000 then Sllx(Rd(w), Rs1(w), (w & 0x3f) as bv7)
      else if (w >> 19) & 0x3f == 0x38 then Jmpl(Rd(w), Rs1(w), Source(w))
      else Other
    else Other
  }

  /** %g0 reads as zero. */
  function Get(regs: RegisterFile, r: bv32): bv64 {
    if r == 0 then 0 else regs(r)
  }

  function Set(regs: RegisterFile, rd: bv32, v: bv64): RegisterFile {
    (r: bv32) => if r == rd then v else regs(r)
  }

  function Value(regs: RegisterFile, src: Operand): bv64 {
    match src
    case Register(r) => Get(regs, r)
    case Immediate(v) => v
  }

  function ShiftLeft(v: bv64, count: bv7): bv64 {
    if count < 64 then v << count else 0
  }

  function Plus(a: bv64, b: bv64): bv64 {
    a + b
  }

  function Union(a: bv64, b: bv64): bv64 {
    a | b
  }

  predicate Whole(d: bv64) {
    d & 3 == 0
  }

  /** One instruction. Control transfers take effect after the instruction that follows them, except that an
      annulled branch skips it. */
  function Execute(i: Instruction, s: State): Option<State> {
    match i
    case Sethi(rd, imm22) => Some(State(s.npc, Plus(s.npc, 4), Set(s.regs, rd, ShiftLeft(imm22, 10))))
    case BranchAlways(annul, disp) =>
      var target := Plus(s.pc, disp);
      if annul then Some(State(target, Plus(target, 4), s.regs)) else Some(State(s.npc, target, s.regs))
    case Call(disp) => Some(State(s.npc, Plus(s.pc, disp), Set(s.regs, 15, s.pc)))
    case Or(rd, rs1, src) =>
      Some(State(s.npc, Plus(s.npc, 4), Set(s.regs, rd, Union(Get(s.regs, rs1), Value(s.regs, src)))))
    case Sllx(rd, rs1, count) => Some(State(s.npc, Plus(s.npc, 4), Set(s.regs, rd, ShiftLeft(Get(s.regs, rs1), count))))
    case Jmpl(rd, rs1, src) =>
      var target := Plus(Get(s.regs, rs1), Value(s.regs, src));
      if Whole(target) then Some(State(s.npc, target, Set(s.regs, rd, s.pc))) else None
    case Other => None
  }

  /** Memory as big-endian words. */
  type Code = bv64 -> Option<bv32>

  function Store(code: Code, a: bv64, w: bv32): Code {
    (x: bv64) => if x == a then Some(w) else code(x)
  }

  function Step(code: Code, s: State): Option<State> {
    if code(s.pc).Some? then Execute(Decode(code(s.pc).value), s) else None
  }

  function Run(code: Code, s: State, n: nat): Option<State>
    decreases n
  {
    if n == 0 then Some(s) else match Step(code, s) case None => None case Some(t) => Run(code, t, n - 1)
  }

  // Decoding what the source emits

  lemma SethiWord(imm: bv32)
    requires imm <= 0x3f_ffff
    ensures Decode(0x0300_0000 | imm) == Sethi(1, imm as bv64)
    ensures Decode(0x0b00_0000 | imm) == Sethi(5, imm as bv64)
  {
  }

  lemma NopWord()
    ensures Decode(0x0100_0000) == Sethi(0, 0)
  {
  }

  lemma BranchWord(disp: bv32)
    requires disp <= 0x3f_ffff
    ensures Decode(0x3080_0000 | disp) == BranchAlways(true, Distance22(disp))
  {
    hide Negative22, Field22, Extend22;
    BranchFields(disp);
  }

  lemma BranchFields(disp: bv32)
    ensures Negative22(0x3080_0000 | disp) == Negative22(disp) && Field22(0x3080_0000 | disp) == Field22(disp)
  {
  }

  lemma CallWord(disp: bv32)
    requires disp <= 0x3fff_ffff
    ensures Decode(0x4000_0000 | disp) == Call(Distance30(disp))
  {
    hide Negative30, Field30, Extend30;
    CallFields(disp);
  }

  lemma CallFields(disp: bv32)
    ensures Negative30(0x4000_0000 | disp) == Negative30(disp) && Field30(0x4000_0000 | disp) == Field30(disp)
  {
  }

  lemma JumpLowWord(imm: bv32)
    requires imm <= 0x3ff
    ensures Decode(0x81c0_6000 | imm) == Jmpl(0, 1, Immediate(imm as bv64))
  {
  }

  lemma OrWords(imm: bv32)
    requires imm <= 0x3ff
    ensures Decode(0x8210_6000 | imm) == Or(1, 1, Immediate(imm as bv64))
    ensures Decode(0x8a11_6000 | imm) == Or(5, 5, Immediate(imm as bv64))
  {
  }

  lemma FixedWords()
    ensures Decode(0x8210_000f) == Or(1, 0, Register(15)) && Decode(0x9e10_0001) == Or(15, 0, Register(1))
    ensures Decode(0x8328_7020) == Sllx(1, 1, 32) && Decode(0x81c0_4005) == Jmpl(0, 1, Register(5))
  {
  }

  // The fields the source computes

  function BranchField(d: bv64): bv32 {
    ((d >> 2) & 0x3f_ffff) as bv32
  }

  function CallField(d: bv64): bv32 {
    ((d >> 2) & 0x3fff_ffff) as bv32
  }

  function Hi22(v: bv64): bv32 {
    ((v >> 10) & 0x3f_ffff) as bv32
  }

  function Lo10(v: bv64): bv32 {
    (v & 0x3ff) as bv32
  }

  function Hh22(v: bv64): bv32 {
    (v >> 42) as bv32
  }

  function Hm10(v: bv64): bv32 {
    ((v >> 32) & 0x3ff) as bv32
  }

  /** disp >= -0x800000 && disp < 0x800000, as signed numbers */
  predicate Near(d: bv64) {
    d < 0x80_0000 || d >= 0xffff_ffff_ff80_0000
  }

  /** The distances a call instruction can express. */
  predicate CallRange(d: bv64) {
    d < 0x8000_0000 || d >= 0xffff_ffff_8000_0000
  }

  function Middle22(d: bv64): bv64 {
    (d >> 2) & 0x3f_ffff
  }

  lemma FieldMiddle22(d: bv64)
    ensures Field22(BranchField(d)) == Middle22(d) && BranchField(d) <= 0x3f_ffff
  {
  }

  lemma SignBack22(d: bv64)
    requires d >= 0xffff_ffff_ff80_0000
    ensures Negative22(BranchField(d))
  {
  }

  lemma SignForward22(d: bv64)
    requires d < 0x80_0000
    ensures !Negative22(BranchField(d))
  {
  }

  lemma ExtendBack22(d: bv64)
    requires Whole(d) && d >= 0xffff_ffff_ff80_0000
    ensures Extend22(true, Middle22(d)) == d
  {
  }

  lemma ExtendForward22(d: bv64)
    requires Whole(d) && d < 0x80_0000
    ensures Extend22(false, Middle22(d)) == d
  {
  }

  /** The branch the source emits covers its distance. */
  lemma BranchReaches(d: bv64)
    requires Whole(d) && Near(d)
    ensures BranchField(d) <= 0x3f_ffff && Distance22(BranchField(d)) == d
  {
    hide Negative22, Field22, Extend22, BranchField, Middle22;
    FieldMiddle22(d);
    if d < 0x80_0000 {
      SignForward22(d);
      ExtendForward22(d);
    } else {
      SignBack22(d);
      ExtendBack22(d);
    }
  }

  function Middle30(d: bv64): bv64 {
    (d >> 2) & 0x3fff_ffff
  }

  lemma FieldMiddle30(d: bv64)
    ensures Field30(CallField(d)) == Middle30(d) && CallField(d) <= 0x3fff_ffff
  {
  }

  lemma SignBack30(d: bv64)
    requires d >= 0xffff_ffff_8000_0000
    ensures Negative30(CallField(d))
  {
  }

  lemma SignForward30(d: bv64)
    requires d < 0x8000_0000
    ensures !Negative30(CallField(d))
  {
  }

  lemma ExtendBack30(d: bv64)
    requires Whole(d) && d >= 0xffff_ffff_8000_0000
    ensures Extend30(true, Middle30(d)) == d
  {
  }

  lemma ExtendForward30(d: bv64)
    requires Whole(d) && d < 0x8000_0000
    ensures Extend30(false, Middle30(d)) == d
  {
  }

  /** The call the source emits covers its distance. */
  lemma CallReaches(d: bv64)
    requires Whole(d) && CallRange(d)
    ensures CallField(d) <= 0x3fff_ffff && Distance30(CallField(d)) == d
  {
    hide Negative30, Field30, Extend30, CallField, Middle30;
    FieldMiddle30(d);
    if d < 0x8000_0000 {
      SignForward30(d);
      ExtendForward30(d);
    } else {
      SignBack30(d);
      ExtendBack30(d);
    }
  }

  lemma FieldBounds(v: bv64)
    ensures Hi22(v) <= 0x3f_ffff && Lo10(v) <= 0x3ff && Hh22(v) <= 0x3f_ffff && Hm10(v) <= 0x3ff
  {
  }

  function Wide(v: bv32): bv64 {
    v as bv64
  }

  /** The halves of a value. */
  function High32(v: bv64): bv64 {
    v & 0xffff_ffff_0000_0000
  }

  function Low32(v: bv64): bv64 {
    v & 0xffff_ffff
  }

  function Top32(v: bv64): bv64 {
    v >> 32
  }

  function TopPart(v: bv64): bv64 {
    (v >> 42) << 10
  }

  function MiddlePart(v: bv64): bv64 {
    (v >> 32) & 0x3ff
  }

  function HiPart(v: bv64): bv64 {
    ((v >> 10) & 0x3f_ffff) << 10
  }

  function LoPart(v: bv64): bv64 {
    v & 0x3ff
  }

  lemma SethiParts(v: bv64)
    ensures ShiftLeft(Wide(Hh22(v)), 10) == TopPart(v) && ShiftLeft(Wide(Hi22(v)), 10) == HiPart(v)
  {
  }

  lemma LowParts(v: bv64)
    ensures Wide(Hm10(v)) == MiddlePart(v) && Wide(Lo10(v)) == LoPart(v)
  {
  }

  lemma JoinTop(v: bv64)
    ensures Union(TopPart(v), MiddlePart(v)) == Top32(v)
  {
  }

  lemma JoinLow(v: bv64)
    ensures Union(HiPart(v), LoPart(v)) == Low32(v)
  {
  }

  lemma TopAlone(v: bv64)
    requires Hm10(v) == 0
    ensures TopPart(v) == Top32(v)
  {
  }

  lemma ShiftTop(v: bv64)
    ensures ShiftLeft(Top32(v), 32) == High32(v)
  {
  }

  lemma JoinHalves(v: bv64)
    ensures Plus(High32(v), Low32(v)) == v
  {
  }

  lemma SmallJoin(v: bv64)
    requires v >> 32 == 0
    ensures Plus(HiPart(v), LoPart(v)) == v
  {
  }

  /** sethi and an immediate make up a 32-bit value. */
  lemma SmallValue(v: bv64)
    requires v >> 32 == 0
    ensures Plus(ShiftLeft(Wide(Hi22(v)), 10), Wide(Lo10(v))) == v
  {
    SmallJoin(v);
    hide *;
    SethiParts(v);
    LowParts(v);
  }

  /** Both halves of a value made up in two registers. */
  lemma LongValue(v: bv64)
    ensures var upper := ShiftLeft(Union(ShiftLeft(Wide(Hh22(v)), 10), Wide(Hm10(v))), 32);
            var lower := Union(ShiftLeft(Wide(Hi22(v)), 10), Wide(Lo10(v)));
            Plus(upper, lower) == v && (Hm10(v) == 0 ==> upper == ShiftLeft(ShiftLeft(Wide(Hh22(v)), 10), 32))
  {
    hide *;
    SethiParts(v);
    LowParts(v);
    JoinTop(v);
    JoinLow(v);
    ShiftTop(v);
    JoinHalves(v);
    if Hm10(v) == 0 { TopAlone(v); }
  }

  /** From the call instruction, the second of the slot, to the value; and back from the value to the slot. */
  function Ahead(v: bv64, o: bv64): bv64 {
    v - o - 4
  }

  function Behind(v: bv64, o: bv64): bv64 {
    o - v
  }

  function Minus(v: bv64, o: bv64): bv64 {
    v - o
  }

  predicate Small(d: bv64) {
    d >> 31 == 0
  }

  /** Distances between aligned addresses are whole words. */
  lemma AlignedDistance(v: bv64, o: bv64)
    requires Whole(v) && Whole(o)
    ensures Whole(Minus(v, o)) && Whole(Ahead(v, o)) && Whole(Behind(v, o))
  {
  }

  /** The source's test for a call. */
  predicate CallTest(v: bv64, o: bv64) {
    (o + 4 > v && Small(Behind(v, o))) || (v > o + 4 && Small(Ahead(v, o)))
  }

  lemma CallTestRange(v: bv64, o: bv64)
    requires CallTest(v, o) && Whole(Behind(v, o))
    ensures CallRange(Ahead(v, o))
  {
    CallTestParts(v, o);
    hide *;
    if Small(Behind(v, o)) {
      BackRange(Behind(v, o));
      Opposite(v, o);
    } else {
      ForwardRange(Ahead(v, o));
    }
  }

  lemma CallTestParts(v: bv64, o: bv64)
    requires CallTest(v, o)
    ensures Small(Behind(v, o)) || Small(Ahead(v, o))
  {
    hide Small;
  }

  function Opposed(u: bv64): bv64 {
    0 - u - 4
  }

  lemma Opposite(v: bv64, o: bv64)
    ensures Opposed(Behind(v, o)) == Ahead(v, o)
  {
    hide *;
    BehindIs(v, o);
    AheadIs(v, o);
    OppositeBits(v, o);
  }

  lemma BehindIs(v: bv64, o: bv64)
    ensures Behind(v, o) == o - v
  {
  }

  lemma AheadIs(v: bv64, o: bv64)
    ensures Ahead(v, o) == v - o - 4
  {
  }

  lemma OppositeBits(v: bv64, o: bv64)
    ensures Opposed(o - v) == v - o - 4
  {
  }

  lemma BackRange(u: bv64)
    requires Small(u) && Whole(u)
    ensures CallRange(Opposed(u))
  {
  }

  lemma ForwardRange(d: bv64)
    requires Small(d)
    ensures CallRange(d)
  {
  }

  // The emitted sequences

  lemma PlusMinus(v: bv64, o: bv64)
    ensures Plus(o, Minus(v, o)) == v && Plus(Plus(o, 4), Ahead(v, o)) == v
  {
    hide *;
    MinusIs(v, o);
    AheadIs(v, o);
    PlusIs(o, 4);
    PlusBits(v, o);
  }

  lemma PlusBits(v: bv64, o: bv64)
    ensures Plus(o, v - o) == v && Plus(o + 4, v - o - 4) == v
  {
  }

  lemma MinusIs(v: bv64, o: bv64)
    ensures Minus(v, o) == v - o
  {
  }

  lemma PlusIs(a: bv64, b: bv64)
    ensures Plus(a, b) == a + b
  {
  }

  lemma Next8(o: bv64)
    ensures Plus(Plus(o, 4), 4) == Plus(o, 8)
  {
    hide *;
    PlusIs(o, 4);
    Bits8(o);
  }

  lemma Bits8(o: bv64)
    ensures Plus(o + 4, 4) == Plus(o, 8)
  {
  }

  lemma Next12(o: bv64)
    ensures Plus(Plus(o, 8), 4) == Plus(o, 12)
  {
    hide *;
    PlusIs(o, 8);
    Bits12(o);
  }

  lemma Bits12(o: bv64)
    ensures Plus(o + 8, 4) == Plus(o, 12)
  {
  }

  lemma Next16(o: bv64)
    ensures Plus(Plus(o, 12), 4) == Plus(o, 16)
  {
    hide *;
    PlusIs(o, 12);
    Bits16(o);
  }

  lemma Bits16(o: bv64)
    ensures Plus(o + 12, 4) == Plus(o, 16)
  {
  }

  lemma Next20(o: bv64)
    ensures Plus(Plus(o, 16), 4) == Plus(o, 20)
  {
    hide *;
    PlusIs(o, 16);
    Bits20(o);
  }

  lemma Bits20(o: bv64)
    ensures Plus(o + 16, 4) == Plus(o, 20)
  {
  }

  lemma Next24(o: bv64)
    ensures Plus(Plus(o, 20), 4) == Plus(o, 24)
  {
    hide *;
    PlusIs(o, 20);
    Bits24(o);
  }

  lemma Bits24(o: bv64)
    ensures Plus(o + 20, 4) == Plus(o, 24)
  {
  }

  lemma Next28(o: bv64)
    ensures Plus(Plus(o, 24), 4) == Plus(o, 28)
  {
    hide *;
    PlusIs(o, 24);
    Bits28(o);
  }

  lemma Bits28(o: bv64)
    ensures Plus(o + 24, 4) == Plus(o, 28)
  {
  }

  /** The addresses of the instructions of a slot. */
  lemma SlotAddresses(o: bv64)
    ensures Plus(Plus(o, 4), 4) == Plus(o, 8) && Plus(Plus(o, 8), 4) == Plus(o, 12)
            && Plus(Plus(o, 12), 4) == Plus(o, 16)
    ensures Plus(Plus(o, 16), 4) == Plus(o, 20) && Plus(Plus(o, 20), 4) == Plus(o, 24)
            && Plus(Plus(o, 24), 4) == Plus(o, 28)
  {
    hide *;
    Next8(o);
    Next12(o);
    Next16(o);
    Next20(o);
    Next24(o);
    Next28(o);
  }

  /** Control is at the value and the next instruction after it; %g1 and %g5 apart, every register, %o7
      among them, is what it was. */
  ghost predicate Arrived(o: Option<State>, value: bv64, regs: RegisterFile) {
    && o.Some? && o.value.pc == value && o.value.npc == Plus(value, 4)
    && forall r: bv32 :: r != 1 && r != 5 ==> Get(o.value.regs, r) == Get(regs, r)
  }

  /** Some number of instructions executed from the slot leads to the value. */
  ghost predicate Leads(code: Code, slot: bv64, value: bv64, regs: RegisterFile) {
    exists n: nat :: Arrived(Run(code, State(slot, Plus(slot, 4), regs), n), value, regs)
  }

  /** Whatever the registers hold, executing the code from the slot leads to the value. */
  ghost predicate Transfers(code: Code, slot: bv64, value: bv64) {
    forall regs: RegisterFile {:trigger Leads(code, slot, value, regs)} :: Leads(code, slot, value, regs)
  }

  /** The instruction at an address. */
  ghost predicate Holds(code: Code, a: bv64, i: Instruction) {
    code(a).Some? && Decode(code(a).value) == i
  }

  /** The instruction at a. */
  ghost function InsnAt(code: Code, a: bv64): Instruction {
    match code(a)
    case Some(w) => Decode(w)
    case None => Other
  }

  lemma HoldsInsn(code: Code, a: bv64, i: Instruction)
    requires Holds(code, a, i)
    ensures InsnAt(code, a) == i
  {
    hide Decode;
  }

  lemma RunStep(code: Code, s: State, n: nat)
    requires code(s.pc).Some? && Execute(Decode(code(s.pc).value), s).Some? && n > 0
    ensures Run(code, s, n) == Run(code, Execute(Decode(code(s.pc).value), s).value, n - 1)
  {
    hide Execute, Decode;
  }

  lemma RunDone(code: Code, s: State)
    ensures Run(code, s, 0) == Some(s)
  {
  }

  lemma BranchRun(code: Code, o: bv64, v: bv64, regs: RegisterFile)
    requires Holds(code, o, BranchAlways(true, Minus(v, o)))
    ensures Arrived(Run(code, State(o, Plus(o, 4), regs), 1), v, regs)
  {
    hide Plus, Minus, Decode, Run;
    PlusMinus(v, o);
    RunStep(code, State(o, Plus(o, 4), regs), 1);
    RunDone(code, State(v, Plus(v, 4), regs));
  }

  lemma JumpRun(code: Code, o: bv64, v: bv64, regs: RegisterFile)
    requires Holds(code, o, Sethi(1, Wide(Hi22(v))))
    requires Holds(code, Plus(o, 4), Jmpl(0, 1, Immediate(Wide(Lo10(v)))))
    requires Holds(code, Plus(o, 8), Sethi(0, 0))
    requires Whole(v) && v >> 32 == 0
    ensures Arrived(Run(code, State(o, Plus(o, 4), regs), 3), v, regs)
  {
    SmallValue(v);
    hide Plus, Minus, Decode, Run, ShiftLeft, Hi22, Lo10, Wide, Whole;
    SlotAddresses(o);
    var s0 := State(o, Plus(o, 4), regs);
    RunStep(code, s0, 3);
    var s1 := State(Plus(o, 4), Plus(o, 8), Set(regs, 1, ShiftLeft(Wide(Hi22(v)), 10)));
    RunStep(code, s1, 2);
    var s2 := State(Plus(o, 8), v, Set(s1.regs, 0, s1.pc));
    RunStep(code, s2, 1);
    RunDone(code, State(v, Plus(v, 4), Set(s2.regs, 0, ShiftLeft(0, 10))));
  }

  lemma CallRun(code: Code, o: bv64, v: bv64, regs: RegisterFile)
    requires Holds(code, o, Or(1, 0, Register(15)))
    requires Holds(code, Plus(o, 4), Call(Ahead(v, o)))
    requires Holds(code, Plus(o, 8), Or(15, 0, Register(1)))
    ensures Arrived(Run(code, State(o, Plus(o, 4), regs), 3), v, regs)
  {
    ZeroUnion(regs(15));
    hide Plus, Ahead, Decode, Run, Union;
    PlusMinus(v, o);
    SlotAddresses(o);
    var s0 := State(o, Plus(o, 4), regs);
    RunStep(code, s0, 3);
    var s1 := State(Plus(o, 4), Plus(o, 8), Set(regs, 1, regs(15)));
    RunStep(code, s1, 2);
    var s2 := State(Plus(o, 8), v, Set(s1.regs, 15, s1.pc));
    RunStep(code, s2, 1);
    RunDone(code, State(v, Plus(v, 4), Set(s2.regs, 15, regs(15))));
  }

  lemma ZeroUnion(a: bv64)
    ensures Union(0, a) == a
  {
  }

  lemma StepTo(code: Code, s: State, i: Instruction, t: State, n: nat)
    requires Holds(code, s.pc, i) && Execute(i, s) == Some(t) && n > 0
    ensures Run(code, s, n) == Run(code, t, n - 1)
  {
    hide Execute, Decode;
    RunStep(code, s, n);
  }

  /** What happens from the jump through %g1 + %g5 on. */
  lemma JumpTail(code: Code, a: bv64, v: bv64, regs: RegisterFile, s: State, n: nat)
    requires Holds(code, a, Jmpl(0, 1, Register(5))) && Holds(code, Plus(a, 4), Sethi(0, 0))
    requires s.pc == a && s.npc == Plus(a, 4) && Plus(s.regs(1), s.regs(5)) == v && Whole(v) && n == 2
    requires forall r: bv32 :: r != 1 && r != 5 && r != 0 ==> s.regs(r) == regs(r)
    ensures Arrived(Run(code, s, n), v, regs)
  {
    hide Plus, Run, Holds, Whole, ShiftLeft;
    var s1 := State(Plus(a, 4), v, Set(s.regs, 0, a));
    StepTo(code, s, Jmpl(0, 1, Register(5)), s1, 2);
    var s2 := State(v, Plus(v, 4), Set(s1.regs, 0, ShiftLeft(0, 10)));
    StepTo(code, s1, Sethi(0, 0), s2, 1);
    RunDone(code, s2);
  }

  /** The registers after the two sethi instructions both long forms begin with. */
  ghost predicate Halves(s: State, a: bv64, v: bv64, regs: RegisterFile) {
    && s.pc == a && s.npc == Plus(a, 4)
    && s.regs(1) == ShiftLeft(Wide(Hh22(v)), 10) && s.regs(5) == ShiftLeft(Wide(Hi22(v)), 10)
    && forall r: bv32 :: r != 1 && r != 5 && r != 0 ==> s.regs(r) == regs(r)
  }

  lemma TwoSethi(code: Code, o: bv64, v: bv64, regs: RegisterFile, n: nat) returns (s: State)
    requires Holds(code, o, Sethi(1, Wide(Hh22(v)))) && Holds(code, Plus(o, 4), Sethi(5, Wide(Hi22(v)))) && n >= 2
    ensures Halves(s, Plus(o, 8), v, regs) && Run(code, State(o, Plus(o, 4), regs), n) == Run(code, s, n - 2)
  {
    hide Plus, Run, Holds, ShiftLeft, Wide, Hh22, Hi22;
    SlotAddresses(o);
    var s0 := State(o, Plus(o, 4), regs);
    var s1 := State(Plus(o, 4), Plus(o, 8), Set(regs, 1, ShiftLeft(Wide(Hh22(v)), 10)));
    StepTo(code, s0, Sethi(1, Wide(Hh22(v))), s1, n);
    s := State(Plus(o, 8), Plus(o, 12), Set(s1.regs, 5, ShiftLeft(Wide(Hi22(v)), 10)));
    StepTo(code, s1, Sethi(5, Wide(Hi22(v))), s, n - 1);
  }

  /** sethi, sethi, sllx, or, jmpl, nop */
  lemma ShortRun(code: Code, o: bv64, v: bv64, regs: RegisterFile)
    requires Hm10(v) == 0 && Whole(v)
    requires Holds(code, o, Sethi(1, Wide(Hh22(v)))) && Holds(code, Plus(o, 4), Sethi(5, Wide(Hi22(v))))
    requires Holds(code, Plus(o, 8), Sllx(1, 1, 32)) && Holds(code, Plus(o, 12), Or(5, 5, Immediate(Wide(Lo10(v)))))
    requires Holds(code, Plus(o, 16), Jmpl(0, 1, Register(5))) && Holds(code, Plus(o, 20), Sethi(0, 0))
    ensures Arrived(Run(code, State(o, Plus(o, 4), regs), 6), v, regs)
  {
    hide Plus, Run, Holds, Whole, ShiftLeft, Union, Wide, Hh22, Hm10, Hi22, Lo10, Arrived;
    LongValue(v);
    SlotAddresses(o);
    var s2 := TwoSethi(code, o, v, regs, 6);
    var s3 := State(Plus(o, 12), Plus(o, 16), Set(s2.regs, 1, ShiftLeft(s2.regs(1), 32)));
    StepTo(code, s2, Sllx(1, 1, 32), s3, 4);
    var s4 := State(Plus(o, 16), Plus(o, 20), Set(s3.regs, 5, Union(s3.regs(5), Wide(Lo10(v)))));
    StepTo(code, s3, Or(5, 5, Immediate(Wide(Lo10(v)))), s4, 3);
    JumpTail(code, Plus(o, 16), v, regs, s4, 2);
  }

  /** sethi, sethi, or, or, sllx, jmpl, nop */
  lemma LongRun(code: Code, o: bv64, v: bv64, regs: RegisterFile)
    requires Whole(v)
    requires Holds(code, o, Sethi(1, Wide(Hh22(v)))) && Holds(code, Plus(o, 4), Sethi(5, Wide(Hi22(v))))
    requires Holds(code, Plus(o, 8), Or(1, 1, Immediate(Wide(Hm10(v)))))
             && Holds(code, Plus(o, 12), Or(5, 5, Immediate(Wide(Lo10(v)))))
    requires Holds(code, Plus(o, 16), Sllx(1, 1, 32)) && Holds(code, Plus(o, 20), Jmpl(0, 1, Register(5)))
    requires Holds(code, Plus(o, 24), Sethi(0, 0))
    ensures Arrived(Run(code, State(o, Plus(o, 4), regs), 7), v, regs)
  {
    hide Plus, Run, Holds, Whole, ShiftLeft, Union, Wide, Hh22, Hm10, Hi22, Lo10, Arrived;
    LongValue(v);
    SlotAddresses(o);
    var s2 := TwoSethi(code, o, v, regs, 7);
    var s3 := State(Plus(o, 12), Plus(o, 16), Set(s2.regs, 1, Union(s2.regs(1), Wide(Hm10(v)))));
    StepTo(code, s2, Or(1, 1, Immediate(Wide(Hm10(v)))), s3, 5);
    var s4 := State(Plus(o, 16), Plus(o, 20), Set(s3.regs, 5, Union(s3.regs(5), Wide(Lo10(v)))));
    StepTo(code, s3, Or(5, 5, Immediate(Wide(Lo10(v)))), s4, 4);
    var s5 := State(Plus(o, 20), Plus(o, 24), Set(s4.regs, 1, ShiftLeft(s4.regs(1), 32)));
    StepTo(code, s4, Sllx(1, 1, 32), s5, 3);
    JumpTail(code, Plus(o, 20), v, regs, s5, 2);
  }

  lemma OffsetOf(o: bv64, k: bv64)
    ensures Minus(Plus(o, k), o) == k
  {
    hide *;
    PlusIs(o, k);
    OffsetBits(o, k);
  }

  lemma OffsetBits(o: bv64, k: bv64)
    ensures Minus(o + k, o) == k
  {
  }

  /** Different words of a slot have different addresses. */
  lemma SlotDistinct(o: bv64)
    ensures o != Plus(o, 4) && o != Plus(o, 8) && o != Plus(o, 12) && o != Plus(o, 16) && o != Plus(o, 20)
            && o != Plus(o, 24)
    ensures Plus(o, 4) != Plus(o, 8) && Plus(o, 4) != Plus(o, 12) && Plus(o, 4) != Plus(o, 16)
            && Plus(o, 4) != Plus(o, 20) && Plus(o, 4) != Plus(o, 24)
    ensures Plus(o, 8) != Plus(o, 12) && Plus(o, 8) != Plus(o, 16) && Plus(o, 8) != Plus(o, 20)
            && Plus(o, 8) != Plus(o, 24)
    ensures Plus(o, 12) != Plus(o, 16) && Plus(o, 12) != Plus(o, 20) && Plus(o, 12) != Plus(o, 24)
    ensures Plus(o, 16) != Plus(o, 20) && Plus(o, 16) != Plus(o, 24)
    ensures Plus(o, 20) != Plus(o, 24)
  {
    PlusZero(o);
    hide *;
    OffsetOf(o, 0);
    OffsetOf(o, 4);
    OffsetOf(o, 8);
    OffsetOf(o, 12);
    OffsetOf(o, 16);
    OffsetOf(o, 20);
    OffsetOf(o, 24);
  }

  lemma PlusZero(o: bv64)
    ensures Plus(o, 0) == o
  {
  }

  class Dso {
    var code: Code

    constructor (code: Code)
      ensures this.code == code
    {
      this.code := code;
    }

    /** write_be32 */
    method WriteBe32(a: bv64, w: bv32)
      modifies this
      ensures code == Store(old(code), a, w)
    {
      code := Store(code, a, w);
    }

    /** write_be64 */
    method WriteBe64(a: bv64, v: bv64)
      modifies this
      ensures code == Store(Store(old(code), a, (v >> 32) as bv32), Plus(a, 4), (v & 0xffff_ffff) as bv32)
    {
      code := Store(code, a, (v >> 32) as bv32);
      code := Store(code, Plus(a, 4), (v & 0xffff_ffff) as bv32);
    }

    /** b,a value; nop; nop */
    method EmitBranch(o: bv64, v: bv64)
      requires Near(Minus(v, o))
      modifies this
      ensures OnlySlot(old(code), code, o, 3) && (Whole(v) && Whole(o) ==> Transfers(code, o, v))
      ensures InsnAt(code, o).BranchAlways?
    {
      hide *;
      ghost var was := code;
      WriteBe32(o, BranchInsn(BranchField(Minus(v, o))));
      WriteBe32(Plus(o, 4), NOP);
      WriteBe32(Plus(o, 8), NOP);
      BranchCode(was, o, v);
    }

    /** sethi %hi(value), %g1; jmpl %g1 + %lo(value), %g0; nop */
    method EmitJump(o: bv64, v: bv64)
      requires v >> 32 == 0
      modifies this
      ensures OnlySlot(old(code), code, o, 3) && (Whole(v) && Whole(o) ==> Transfers(code, o, v))
      ensures InsnAt(code, Plus(o, 4)).Jmpl?
    {
      hide *;
      ghost var was := code;
      WriteBe32(o, Sethi1Insn(Hi22(v)));
      WriteBe32(Plus(o, 4), JumpInsn(Lo10(v)));
      WriteBe32(Plus(o, 8), NOP);
      JumpCode(was, o, v);
    }

    /** mov %o7, %g1; call value; mov %g1, %o7 */
    method EmitCall(o: bv64, v: bv64)
      requires CallTest(v, o)
      modifies this
      ensures OnlySlot(old(code), code, o, 3) && (Whole(v) && Whole(o) ==> Transfers(code, o, v))
      ensures InsnAt(code, Plus(o, 4)).Call?
    {
      hide *;
      ghost var was := code;
      WriteBe32(o, 0x8210_000f);
      WriteBe32(Plus(o, 4), CallInsn(CallField(Ahead(v, o))));
      WriteBe32(Plus(o, 8), 0x9e10_0001);
      CallCode(was, o, v);
    }

    /** Both halves of the value are made up in %g1 and %g5. */
    method EmitLong(o: bv64, v: bv64)
      modifies this
      ensures OnlySlot(old(code), code, o, if (v >> 32) & 0x3ff == 0 then 6 else 7)
      ensures Whole(v) && Whole(o) ==> Transfers(code, o, v)
      ensures InsnAt(code, o).Sethi? && InsnAt(code, Plus(o, 4)).Sethi?
    {
      hide *;
      HmIs(v);
      ghost var was := code;
      WriteBe32(o, Sethi1Insn(Hh22(v)));
      WriteBe32(Plus(o, 4), Sethi5Insn(Hi22(v)));
      if Hm10(v) == 0 {
        WriteBe32(Plus(o, 8), 0x8328_7020);
        WriteBe32(Plus(o, 12), Or5Insn(Lo10(v)));
        WriteBe32(Plus(o, 16), 0x81c0_4005);
        WriteBe32(Plus(o, 20), NOP);
        ShortCode(was, o, v);
      } else {
        WriteBe32(Plus(o, 8), Or1Insn(Hm10(v)));
        WriteBe32(Plus(o, 12), Or5Insn(Lo10(v)));
        WriteBe32(Plus(o, 16), 0x8328_7020);
        WriteBe32(Plus(o, 20), 0x81c0_4005);
        WriteBe32(Plus(o, 24), NOP);
        LongCode(was, o, v);
      }
    }

    /** sparc64_fixup_plt. A slot with an addend holds the value itself; any other slot gets code, as short
        as its form allows, that transfers control to the value and leaves %o7 alone. */
    method FixupPlt(o: bv64, addend: bv64, v: bv64)
      modifies this
      ensures addend == 0 ==> OnlySlot(old(code), code, o, Length(v, o)) && Form(code, v, o)
      ensures addend == 0 && Whole(v) && Whole(o) ==> Transfers(code, o, v)
      ensures addend != 0 ==>
                code == Store(Store(old(code), o, (v >> 32) as bv32), Plus(o, 4), (v & 0xffff_ffff) as bv32)
    {
      hide *;
      LengthIs(v, o);
      if addend != 0 {
        WriteBe64(o, v);
        return;
      } else if Near(Minus(v, o)) {
        EmitBranch(o, v);
      } else if v >> 32 == 0 {
        EmitJump(o, v);
      } else if CallTest(v, o) {
        EmitCall(o, v);
      } else {
        EmitLong(o, v);
      }
      FormIntro(code, v, o);
    }
  }

  const NOP: bv32 := 0x0100_0000

  /** a is the address of one of the first 3, 6 or 7 words of the slot at o. */
  ghost predicate InSlot(a: bv64, o: bv64, n: nat) {
    || a in {o, Plus(o, 4), Plus(o, 8)}
    || (n >= 6 && a in {Plus(o, 12), Plus(o, 16), Plus(o, 20)})
    || (n >= 7 && a == Plus(o, 24))
  }

  /** Nothing but the first n words of the slot is written. */
  ghost predicate OnlySlot(was: Code, now: Code, o: bv64, n: nat) {
    forall a: bv64 :: !InSlot(a, o, n) ==> now(a) == was(a)
  }

  /** A branch reaches v from o: 8 megabytes either way. */
  ghost predicate BranchNear(v: bv64, o: bv64) {
    v - o + 0x80_0000 < 0x100_0000
  }

  /** A call in the second word of the slot does: 2 gigabytes either way. */
  ghost predicate CallNear(v: bv64, o: bv64) {
    (Before(v, o) && Below2G(o - v)) || (After(v, o) && Below2G(v - o - 4))
  }

  ghost predicate Before(v: bv64, o: bv64) {
    o + 4 > v
  }

  ghost predicate After(v: bv64, o: bv64) {
    v > o + 4
  }

  ghost predicate Below2G(d: bv64) {
    d < 0x8000_0000
  }

  /** How many words are written: three wherever a branch, a jump to an address of 32 bits, or a call will do; otherwise
      one more if the middle of the address is not zero. */
  ghost function Length(v: bv64, o: bv64): nat {
    if BranchNear(v, o) || v < 0x1_0000_0000 || CallNear(v, o) then 3 else if (v >> 32) & 0x3ff == 0 then 6 else 7
  }

  /** What the first words are, in that order of preference. */
  ghost predicate Form(code: Code, v: bv64, o: bv64) {
    if BranchNear(v, o) then InsnAt(code, o).BranchAlways?
    else if v < 0x1_0000_0000 then InsnAt(code, Plus(o, 4)).Jmpl?
    else if CallNear(v, o) then InsnAt(code, Plus(o, 4)).Call?
    else InsnAt(code, o).Sethi? && InsnAt(code, Plus(o, 4)).Sethi?
  }

  lemma NearIs(v: bv64, o: bv64)
    ensures Near(Minus(v, o)) <==> BranchNear(v, o)
  {
    MinusIs(v, o);
    NearBits(v - o);
    hide Minus;
  }

  lemma NearBits(d: bv64)
    ensures Near(d) <==> d + 0x80_0000 < 0x100_0000
  {
  }

  lemma LowIs(v: bv64)
    ensures v >> 32 == 0 <==> v < 0x1_0000_0000
  {
  }

  lemma SmallIs(d: bv64)
    ensures Small(d) <==> Below2G(d)
  {
  }

  lemma CallIs(v: bv64, o: bv64)
    ensures CallTest(v, o) <==> CallNear(v, o)
  {
    CallTestIs(v, o);
    CallNearIs(v, o);
    hide *;
    SmallIs(Behind(v, o));
    SmallIs(Ahead(v, o));
  }

  lemma CallTestIs(v: bv64, o: bv64)
    ensures CallTest(v, o) <==> (Before(v, o) && Small(Behind(v, o))) || (After(v, o) && Small(Ahead(v, o)))
  {
    hide Small, Behind, Ahead;
    if Before(v, o) {
      assert o + 4 > v;
      assert !After(v, o);
    } else if After(v, o) {
      assert v > o + 4;
    }
  }

  lemma CallNearIs(v: bv64, o: bv64)
    ensures CallNear(v, o) <==> (Before(v, o) && Below2G(Behind(v, o))) || (After(v, o) && Below2G(Ahead(v, o)))
  {
    BehindIs(v, o);
    AheadIs(v, o);
    hide Below2G, Before, After, Behind, Ahead;
  }

  lemma HmIs(v: bv64)
    ensures Hm10(v) == 0 <==> (v >> 32) & 0x3ff == 0
  {
  }

  /** The tests of the source decide how many words there are. */
  lemma LengthIs(v: bv64, o: bv64)
    ensures Length(v, o) == if Near(Minus(v, o)) || v >> 32 == 0 || CallTest(v, o) then 3
                            else if (v >> 32) & 0x3ff == 0 then 6 else 7
  {
    NearIs(v, o);
    LowIs(v);
    CallIs(v, o);
    hide Near, Minus, CallTest, BranchNear, CallNear;
  }

  lemma FormIntro(code: Code, v: bv64, o: bv64)
    requires if Near(Minus(v, o)) then InsnAt(code, o).BranchAlways?
             else if v >> 32 == 0 then InsnAt(code, Plus(o, 4)).Jmpl?
             else if CallTest(v, o) then InsnAt(code, Plus(o, 4)).Call?
             else InsnAt(code, o).Sethi? && InsnAt(code, Plus(o, 4)).Sethi?
    ensures Form(code, v, o)
  {
    NearIs(v, o);
    LowIs(v);
    CallIs(v, o);
    hide Near, Minus, CallTest, BranchNear, CallNear, Decode, Plus;
  }

  lemma OnlyStart(code: Code, o: bv64, n: nat)
    ensures OnlySlot(code, code, o, n)
  {
  }

  /** A word written into the slot is there, and what was elsewhere still is. */
  lemma StoreHolds(was: Code, code: Code, o: bv64, b: bv64, w: bv32, n: nat)
    ensures Holds(Store(code, b, w), b, Decode(w))
    ensures forall a, i :: a != b && Holds(code, a, i) ==> Holds(Store(code, b, w), a, i)
    ensures InSlot(b, o, n) && OnlySlot(was, code, o, n) ==> OnlySlot(was, Store(code, b, w), o, n)
  {
    hide Decode, InSlot;
  }

  lemma SlotMembers(o: bv64, n: nat)
    ensures InSlot(o, o, n) && InSlot(Plus(o, 4), o, n) && InSlot(Plus(o, 8), o, n)
    ensures n >= 6 ==> InSlot(Plus(o, 12), o, n) && InSlot(Plus(o, 16), o, n) && InSlot(Plus(o, 20), o, n)
    ensures n >= 7 ==> InSlot(Plus(o, 24), o, n)
  {
    hide Plus;
  }

  /** The first 3 words of a slot. */
  function Three(code: Code, o: bv64, w0: bv32, w1: bv32, w2: bv32): Code {
    Store(Store(Store(code, o, w0), Plus(o, 4), w1), Plus(o, 8), w2)
  }

  lemma ThreeWords(code: Code, o: bv64, w0: bv32, w1: bv32, w2: bv32, n: nat)
    ensures var now := Store(Store(Store(code, o, w0), Plus(o, 4), w1), Plus(o, 8), w2);
            && Holds(now, o, Decode(w0)) && Holds(now, Plus(o, 4), Decode(w1)) && Holds(now, Plus(o, 8), Decode(w2))
            && OnlySlot(code, now, o, n)
  {
    hide *;
    SlotDistinct(o);
    SlotMembers(o, n);
    OnlyStart(code, o, n);
    var one := Store(code, o, w0);
    StoreHolds(code, code, o, o, w0, n);
    var two := Store(one, Plus(o, 4), w1);
    StoreHolds(code, one, o, Plus(o, 4), w1, n);
    StoreHolds(code, two, o, Plus(o, 8), w2, n);
  }

  lemma FourWords(code: Code, o: bv64, w0: bv32, w1: bv32, w2: bv32, w3: bv32, n: nat)
    requires n >= 6
    ensures var now := Store(Three(code, o, w0, w1, w2), Plus(o, 12), w3);
            && Holds(now, o, Decode(w0)) && Holds(now, Plus(o, 4), Decode(w1)) && Holds(now, Plus(o, 8), Decode(w2))
            && Holds(now, Plus(o, 12), Decode(w3)) && OnlySlot(code, now, o, n)
  {
    var three := Three(code, o, w0, w1, w2);
    assert three == Store(Store(Store(code, o, w0), Plus(o, 4), w1), Plus(o, 8), w2);
    hide *;
    SlotDistinct(o);
    SlotMembers(o, n);
    ThreeWords(code, o, w0, w1, w2, n);
    StoreHolds(code, three, o, Plus(o, 12), w3, n);
  }

  /** The first 6 words of a slot. */
  function Six(code: Code, o: bv64, w0: bv32, w1: bv32, w2: bv32, w3: bv32, w4: bv32, w5: bv32): Code {
    Store(Store(Store(Three(code, o, w0, w1, w2), Plus(o, 12), w3), Plus(o, 16), w4), Plus(o, 20), w5)
  }

  ghost predicate SixHold(now: Code, o: bv64, w0: bv32, w1: bv32, w2: bv32, w3: bv32, w4: bv32, w5: bv32) {
    && Holds(now, o, Decode(w0)) && Holds(now, Plus(o, 4), Decode(w1)) && Holds(now, Plus(o, 8), Decode(w2))
    && Holds(now, Plus(o, 12), Decode(w3)) && Holds(now, Plus(o, 16), Decode(w4)) && Holds(now, Plus(o, 20), Decode(w5))
  }

  lemma SixWords(code: Code, o: bv64, w0: bv32, w1: bv32, w2: bv32, w3: bv32, w4: bv32, w5: bv32, n: nat)
    requires n >= 6
    ensures SixHold(Six(code, o, w0, w1, w2, w3, w4, w5), o, w0, w1, w2, w3, w4, w5)
    ensures OnlySlot(code, Six(code, o, w0, w1, w2, w3, w4, w5), o, n)
  {
    hide Plus, Decode, Store, Holds, Three, InSlot, OnlySlot;
    SlotDistinct(o);
    SlotMembers(o, n);
    FourWords(code, o, w0, w1, w2, w3, n);
    var four := Store(Three(code, o, w0, w1, w2), Plus(o, 12), w3);
    StoreHolds(code, four, o, Plus(o, 16), w4, n);
    StoreHolds(code, Store(four, Plus(o, 16), w4), o, Plus(o, 20), w5, n);
  }

  /** The 7 words of a slot. */
  function Seven(code: Code, o: bv64, w0: bv32, w1: bv32, w2: bv32, w3: bv32, w4: bv32, w5: bv32, w6: bv32): Code {
    Store(Six(code, o, w0, w1, w2, w3, w4, w5), Plus(o, 24), w6)
  }

  lemma SevenWords(code: Code, o: bv64, w0: bv32, w1: bv32, w2: bv32, w3: bv32, w4: bv32, w5: bv32, w6: bv32)
    ensures var now := Seven(code, o, w0, w1, w2, w3, w4, w5, w6);
            SixHold(now, o, w0, w1, w2, w3, w4, w5) && Holds(now, Plus(o, 24), Decode(w6)) && OnlySlot(code, now, o, 7)
  {
    hide Plus, Decode, Store, Holds, Three, Six, InSlot, OnlySlot;
    SlotDistinct(o);
    SlotMembers(o, 7);
    var six := Six(code, o, w0, w1, w2, w3, w4, w5);
    SixWords(code, o, w0, w1, w2, w3, w4, w5, 7);
    StoreHolds(code, six, o, Plus(o, 24), w6, 7);
  }

  lemma SixHoldParts(now: Code, o: bv64, w0: bv32, w1: bv32, w2: bv32, w3: bv32, w4: bv32, w5: bv32)
    requires SixHold(now, o, w0, w1, w2, w3, w4, w5)
    ensures Holds(now, o, Decode(w0)) && Holds(now, Plus(o, 4), Decode(w1)) && Holds(now, Plus(o, 8), Decode(w2))
    ensures Holds(now, Plus(o, 12), Decode(w3)) && Holds(now, Plus(o, 16), Decode(w4))
            && Holds(now, Plus(o, 20), Decode(w5))
  {
    hide Holds;
  }

  lemma NopIs()
    ensures Decode(NOP) == Sethi(0, 0)
  {
    NopWord();
  }

  lemma BranchCode(code: Code, o: bv64, v: bv64)
    requires Near(Minus(v, o))
    ensures var now := Store(Store(Store(code, o, BranchInsn(BranchField(Minus(v, o)))), Plus(o, 4), NOP), Plus(o, 8),
                             NOP);
            && OnlySlot(code, now, o, 3) && (Whole(v) && Whole(o) ==> Transfers(now, o, v))
            && InsnAt(now, o).BranchAlways?
  {
    var w := BranchInsn(BranchField(Minus(v, o)));
    var now := Three(code, o, w, NOP, NOP);
    ThreeWords(code, o, w, NOP, NOP, 3);
    assert now == Store(Store(Store(code, o, w), Plus(o, 4), NOP), Plus(o, 8), NOP);
    hide *;
    BranchInsnWord(BranchField(Minus(v, o)));
    HoldsInsn(now, o, Decode(w));
    if Whole(v) && Whole(o) {
      AlignedDistance(v, o);
      BranchReaches(Minus(v, o));
      BranchInsnWord(BranchField(Minus(v, o)));
      forall regs: RegisterFile ensures Leads(now, o, v, regs) {
        BranchRun(now, o, v, regs);
        LeadsIntro(now, o, v, regs, 1);
      }
      TransfersIntro(now, o, v);
    }
  }

  lemma JumpCode(code: Code, o: bv64, v: bv64)
    requires v >> 32 == 0
    ensures var now := Store(Store(Store(code, o, Sethi1Insn(Hi22(v))), Plus(o, 4), JumpInsn(Lo10(v))), Plus(o, 8),
                             NOP);
            && OnlySlot(code, now, o, 3) && (Whole(v) && Whole(o) ==> Transfers(now, o, v))
            && InsnAt(now, Plus(o, 4)).Jmpl?
  {
    var w, x := Sethi1Insn(Hi22(v)), JumpInsn(Lo10(v));
    var now := Three(code, o, w, x, NOP);
    ThreeWords(code, o, w, x, NOP, 3);
    assert now == Store(Store(Store(code, o, w), Plus(o, 4), x), Plus(o, 8), NOP);
    hide *;
    HoldsInsn(now, Plus(o, 4), Decode(x));
    NopIs();
    FieldBounds(v);
    InsnWords(Hi22(v), Lo10(v));
    if Whole(v) && Whole(o) {
      forall regs: RegisterFile ensures Leads(now, o, v, regs) {
        JumpRun(now, o, v, regs);
        LeadsIntro(now, o, v, regs, 3);
      }
      TransfersIntro(now, o, v);
    }
  }

  lemma CallCode(code: Code, o: bv64, v: bv64)
    requires CallTest(v, o)
    ensures var now := Store(Store(Store(code, o, 0x8210_000f), Plus(o, 4), CallInsn(CallField(Ahead(v, o)))),
                             Plus(o, 8), 0x9e10_0001);
            && OnlySlot(code, now, o, 3) && (Whole(v) && Whole(o) ==> Transfers(now, o, v))
            && InsnAt(now, Plus(o, 4)).Call?
  {
    var w := CallInsn(CallField(Ahead(v, o)));
    var now := Three(code, o, 0x8210_000f, w, 0x9e10_0001);
    ThreeWords(code, o, 0x8210_000f, w, 0x9e10_0001, 3);
    assert now == Store(Store(Store(code, o, 0x8210_000f), Plus(o, 4), w), Plus(o, 8), 0x9e10_0001);
    hide *;
    CallInsnWord(CallField(Ahead(v, o)));
    HoldsInsn(now, Plus(o, 4), Decode(w));
    FixedWords();
    if Whole(v) && Whole(o) {
      AlignedDistance(v, o);
      CallTestRange(v, o);
      CallReaches(Ahead(v, o));
      CallInsnWord(CallField(Ahead(v, o)));
      forall regs: RegisterFile ensures Leads(now, o, v, regs) {
        CallRun(now, o, v, regs);
        LeadsIntro(now, o, v, regs, 3);
      }
      TransfersIntro(now, o, v);
    }
  }

  lemma ShortCode(code: Code, o: bv64, v: bv64)
    requires Hm10(v) == 0
    ensures var two := Store(Store(code, o, Sethi1Insn(Hh22(v))), Plus(o, 4), Sethi5Insn(Hi22(v)));
            var four := Store(Store(two, Plus(o, 8), 0x8328_7020), Plus(o, 12), Or5Insn(Lo10(v)));
            var six := Store(Store(four, Plus(o, 16), 0x81c0_4005), Plus(o, 20), NOP);
            && OnlySlot(code, six, o, 6) && (Whole(v) && Whole(o) ==> Transfers(six, o, v))
            && InsnAt(six, o).Sethi? && InsnAt(six, Plus(o, 4)).Sethi?
  {
    var w, x, y := Sethi1Insn(Hh22(v)), Sethi5Insn(Hi22(v)), Or5Insn(Lo10(v));
    var now := Six(code, o, w, x, 0x8328_7020, y, 0x81c0_4005, NOP);
    SixWords(code, o, w, x, 0x8328_7020, y, 0x81c0_4005, NOP, 6);
    var two := Store(Store(code, o, w), Plus(o, 4), x);
    var four := Store(Store(two, Plus(o, 8), 0x8328_7020), Plus(o, 12), y);
    assert now == Store(Store(four, Plus(o, 16), 0x81c0_4005), Plus(o, 20), NOP);
    hide *;
    SixHoldParts(now, o, w, x, 0x8328_7020, y, 0x81c0_4005, NOP);
    HoldsInsn(now, o, Decode(w));
    HoldsInsn(now, Plus(o, 4), Decode(x));
    NopIs();
    FixedWords();
    FieldBounds(v);
    InsnWords(Hh22(v), Lo10(v));
    InsnWords(Hi22(v), Lo10(v));
    if Whole(v) && Whole(o) {
      forall regs: RegisterFile ensures Leads(now, o, v, regs) {
        ShortRun(now, o, v, regs);
        LeadsIntro(now, o, v, regs, 6);
      }
      TransfersIntro(now, o, v);
    }
  }

  lemma LongCode(code: Code, o: bv64, v: bv64)
    ensures var two := Store(Store(code, o, Sethi1Insn(Hh22(v))), Plus(o, 4), Sethi5Insn(Hi22(v)));
            var four := Store(Store(two, Plus(o, 8), Or1Insn(Hm10(v))), Plus(o, 12), Or5Insn(Lo10(v)));
            var six := Store(Store(four, Plus(o, 16), 0x8328_7020), Plus(o, 20), 0x81c0_4005);
            var seven := Store(six, Plus(o, 24), NOP);
            && OnlySlot(code, seven, o, 7) && (Whole(v) && Whole(o) ==> Transfers(seven, o, v))
            && InsnAt(seven, o).Sethi? && InsnAt(seven, Plus(o, 4)).Sethi?
  {
    var w, x, y, z := Sethi1Insn(Hh22(v)), Sethi5Insn(Hi22(v)), Or1Insn(Hm10(v)), Or5Insn(Lo10(v));
    var now := Seven(code, o, w, x, y, z, 0x8328_7020, 0x81c0_4005, NOP);
    SevenWords(code, o, w, x, y, z, 0x8328_7020, 0x81c0_4005, NOP);
    var two := Store(Store(code, o, w), Plus(o, 4), x);
    var four := Store(Store(two, Plus(o, 8), y), Plus(o, 12), z);
    assert now == Store(Store(Store(four, Plus(o, 16), 0x8328_7020), Plus(o, 20), 0x81c0_4005), Plus(o, 24), NOP);
    hide *;
    SixHoldParts(now, o, w, x, y, z, 0x8328_7020, 0x81c0_4005);
    HoldsInsn(now, o, Decode(w));
    HoldsInsn(now, Plus(o, 4), Decode(x));
    NopIs();
    FixedWords();
    FieldBounds(v);
    InsnWords(Hh22(v), Lo10(v));
    InsnWords(Hi22(v), Hm10(v));
    if Whole(v) && Whole(o) {
      forall regs: RegisterFile ensures Leads(now, o, v, regs) {
        LongRun(now, o, v, regs);
        LeadsIntro(now, o, v, regs, 7);
      }
      TransfersIntro(now, o, v);
    }
  }

  lemma LeadsIntro(code: Code, o: bv64, v: bv64, regs: RegisterFile, n: nat)
    requires Arrived(Run(code, State(o, Plus(o, 4), regs), n), v, regs)
    ensures Leads(code, o, v, regs)
  {
    hide Arrived, Run, Plus;
  }

  lemma TransfersIntro(code: Code, o: bv64, v: bv64)
    requires forall regs: RegisterFile {:trigger Leads(code, o, v, regs)} :: Leads(code, o, v, regs)
    ensures Transfers(code, o, v)
  {
    hide Leads;
  }

  function BranchInsn(field: bv32): bv32 {
    0x3080_0000 | field
  }

  lemma BranchInsnWord(field: bv32)
    requires field <= 0x3f_ffff
    ensures Decode(BranchInsn(field)) == BranchAlways(true, Distance22(field))
  {
    BranchWord(field);
    hide Decode, Distance22;
  }

  function CallInsn(field: bv32): bv32 {
    0x4000_0000 | field
  }

  lemma CallInsnWord(field: bv32)
    requires field <= 0x3fff_ffff
    ensures Decode(CallInsn(field)) == Call(Distance30(field))
  {
    CallWord(field);
    hide Decode, Distance30;
  }

  function Sethi1Insn(field: bv32): bv32 {
    0x0300_0000 | field
  }

  function Sethi5Insn(field: bv32): bv32 {
    0x0b00_0000 | field
  }

  function JumpInsn(field: bv32): bv32 {
    0x81c0_6000 | field
  }

  function Or1Insn(field: bv32): bv32 {
    0x8210_6000 | field
  }

  function Or5Insn(field: bv32): bv32 {
    0x8a11_6000 | field
  }

  lemma InsnWords(high: bv32, low: bv32)
    requires high <= 0x3f_ffff && low <= 0x3ff
    ensures Decode(Sethi1Insn(high)) == Sethi(1, Wide(high)) && Decode(Sethi5Insn(high)) == Sethi(5, Wide(high))
    ensures Decode(JumpInsn(low)) == Jmpl(0, 1, Immediate(Wide(low)))
    ensures Decode(Or1Insn(low)) == Or(1, 1, Immediate(Wide(low)))
            && Decode(Or5Insn(low)) == Or(5, 5, Immediate(Wide(low)))
  {
    SethiWord(high);
    JumpLowWord(low);
    OrWords(low);
    hide Decode;
  }
}
