/** Turning a REL section into RELA, prelinking it, and turning it back (src/reloc.c, src/arch-i386.c,
    src/arch-arm.c). */
module Reversible {
  import opened ByteImage
  import opened Word32
  import opened Wrappers

  datatype Machine = I386 | Arm

  const R_386_NONE := 0
  const R_386_32 := 1
  const R_386_PC32 := 2
  const R_386_COPY := 5
  const R_386_GLOB_DAT := 6
  const R_386_JMP_SLOT := 7
  const R_386_RELATIVE := 8
  const R_386_TLS_TPOFF := 14
  const R_386_TLS_DTPMOD32 := 35
  const R_386_TLS_DTPOFF32 := 36
  const R_386_TLS_TPOFF32 := 37
  const R_386_IRELATIVE := 42

  const R_ARM_NONE := 0
  const R_ARM_PC24 := 1
  const R_ARM_ABS32 := 2
  const R_ARM_TLS_DESC := 13
  const R_ARM_TLS_DTPMOD32 := 17
  const R_ARM_TLS_DTPOFF32 := 18
  const R_ARM_TLS_TPOFF32 := 19
  const R_ARM_COPY := 20
  const R_ARM_GLOB_DAT := 21
  const R_ARM_JUMP_SLOT := 22
  const R_ARM_RELATIVE := 23
  const R_ARM_IRELATIVE := 160

  /** A record with its r_info taken apart. */
  datatype Rel = Rel(offset: nat, sym: nat, typ: nat)
  datatype Rela = Rela(offset: nat, sym: nat, typ: nat, addend: int)

  /** How a relocation keeps its addend in the word it applies to: as the whole word, as a 24-bit branch
      distance, not at all because the word must be zero, or the word is none of its business. */
  datatype Kind = Carried | Branch | Zeroed | Untouched | Plt

  function KindOf(m: Machine, typ: nat): Kind {
    match m
    case I386 =>
      if typ in {R_386_RELATIVE, R_386_IRELATIVE, R_386_32, R_386_PC32, R_386_TLS_TPOFF32, R_386_TLS_TPOFF} then Carried
      else if typ in {R_386_COPY, R_386_GLOB_DAT, R_386_TLS_DTPMOD32, R_386_TLS_DTPOFF32} then Zeroed
      else if typ == R_386_JMP_SLOT then Plt else Untouched
    case Arm =>
      if typ in {R_ARM_RELATIVE, R_ARM_IRELATIVE, R_ARM_ABS32, R_ARM_TLS_TPOFF32, R_ARM_TLS_DTPOFF32} then Carried
      else if typ == R_ARM_PC24 then Branch
      else if typ in {R_ARM_GLOB_DAT, R_ARM_TLS_DTPMOD32} then Zeroed
      else if typ == R_ARM_JUMP_SLOT then Plt else Untouched
  }

  const LOW24 := 0x100_0000

  /** The addend that a word stands for. */
  function AddendOf(k: Kind, w: nat): int {
    match k
    case Carried => Sword(w)
    case Branch => Sword(w * 256) / 64
    case _ => 0
  }

  /** The word that an addend is written back as. */
  function WordOf(k: Kind, w: nat, addend: int): int {
    match k
    case Carried => addend % WORD
    case Branch => (w - w % LOW24) + addend / 4 % LOW24
    case Zeroed => 0
    case Untouched => w
    case Plt => w
  }

  lemma BranchAddend(w: nat)
    ensures AddendOf(Branch, w) == 4 * (if w % LOW24 >= 0x80_0000 then w % LOW24 - LOW24 else w % LOW24)
  {
    var f := w % LOW24;
    assert w * 256 == f * 256 + WORD * (w / LOW24);
    ModUnique(w * 256, WORD, w / LOW24, f * 256);
  }

  /** Whatever prelinking left in the word (in the low 24 bits of a branch), the original comes back. */
  lemma WordRestored(k: Kind, w: nat, p: nat)
    requires w < WORD && (k == Branch ==> p / LOW24 == w / LOW24) && (k == Untouched || k == Plt ==> p == w)
    ensures WordOf(k, p, AddendOf(k, w)) == if k == Zeroed then 0 else w
  {
    if k == Branch {
      BranchAddend(w);
      var f := w % LOW24;
      var a := AddendOf(k, w);
      if f >= 0x80_0000 {
        assert a / 4 == f - LOW24;
        ModUnique(a / 4, LOW24, -1, f);
      } else {
        assert a / 4 == f;
      }
    }
  }

  // What prelinking leaves, with the types by their numbers (i386 and ARM supplements of the System V ABI)

  /** The word p of a relocation whose word was w. target is what it refers to, with its addend. */
  predicate Linked386(typ: nat, place: nat, target: int, tls: Option<int>, exec: bool, w: nat, p: nat) {
    // R_386_32, R_386_GLOB_DAT, R_386_JMP_SLOT, R_386_TLS_DTPOFF32: the address
    if typ in {1, 6, 7, 36} then p == target % 0x1_0000_0000
    // R_386_PC32: from its own place, the target
    else if typ == 2 then (place + p - target) % 0x1_0000_0000 == 0
    // R_386_TLS_TPOFF32, R_386_TLS_TPOFF: how far below, or above, the end of the TLS block
    else if typ == 37 && exec && tls.Some? then (target + p - tls.value) % 0x1_0000_0000 == 0
    else if typ == 14 && exec && tls.Some? then (tls.value + p - target) % 0x1_0000_0000 == 0
    else p == w
  }

  predicate LinkedArm(typ: nat, place: nat, target: int, tls: Option<int>, exec: bool, w: nat, p: nat) {
    // R_ARM_ABS32, R_ARM_TLS_DTPOFF32, R_ARM_GLOB_DAT, R_ARM_JUMP_SLOT
    if typ in {2, 18, 21, 22} then p == target % 0x1_0000_0000
    // R_ARM_PC24: the instruction, with the distance in words in its low 24 bits
    else if typ == 1 then p / 0x100_0000 == w / 0x100_0000 && p % 0x100_0000 == (target - place) / 4 % 0x100_0000
    // R_ARM_TLS_TPOFF32
    else if typ == 19 && exec && tls.Some? then (p - target - tls.value) % 0x1_0000_0000 == 0
    else p == w
  }

  /** The low bits of a distance are those of the signed word that holds it. */
  lemma LowDistance(v: int)
    ensures Sword(v) / 4 % LOW24 == v / 4 % LOW24
  {
    var k := (Sword(v) - v) / WORD;
    assert Sword(v) == v + k * WORD;
    assert Sword(v) / 4 == v / 4 + k * 0x4000_0000;
    ModUnique(v / 4 + k * 0x4000_0000, LOW24, v / 4 / LOW24 + k * 64, v / 4 % LOW24);
  }

  // Memory

  predicate InImage(mem: seq<Byte>, start: nat, a: nat) {
    start <= a < start + |mem|
  }

  /** The word at a; zero where no section is. */
  function WordAt(mem: seq<Byte>, start: nat, order: Order, a: nat): nat
    requires InImage(mem, start, a) ==> a + 4 <= start + |mem|
  {
    if InImage(mem, start, a) then Decode(order, mem[a - start..a - start + 4]) else 0
  }

  /** The bytes a relocation may change: a TLS descriptor has two words. */
  function Size(m: Machine, typ: nat): nat {
    if m == Arm && typ == R_ARM_TLS_DESC then 8 else 4
  }

  predicate Covers(m: Machine, r: Rel, a: int) {
    r.offset <= a < r.offset + Size(m, r.typ)
  }

  predicate Fits(mem: seq<Byte>, start: nat, m: Machine, r: Rel) {
    || r.offset + Size(m, r.typ) <= start
    || start + |mem| <= r.offset
    || (start <= r.offset && r.offset + Size(m, r.typ) <= start + |mem|)
  }

  /** No two relocations share a byte. */
  ghost predicate Disjoint(m: Machine, rels: seq<Rel>) {
    forall i, j :: 0 <= i < j < |rels| ==>
      rels[i].offset + Size(m, rels[i].typ) <= rels[j].offset || rels[j].offset + Size(m, rels[j].typ) <= rels[i].offset
  }

  ghost predicate AllFit(mem: seq<Byte>, start: nat, m: Machine, rels: seq<Rel>) {
    forall i :: 0 <= i < |rels| ==> Fits(mem, start, m, rels[i])
  }

  lemma {:induction false} DecodeBound(order: Order, bytes: seq<Byte>)
    ensures Decode(order, bytes) < Pow256(|bytes|)
  {
    BytesRoundTrip(order, bytes);
    WordRoundTrip(order, Decode(order, bytes), |bytes|);
    assert Decode(order, bytes) == Decode(order, bytes) % Pow256(|bytes|);
  }

  lemma WordBound(mem: seq<Byte>, start: nat, order: Order, a: nat)
    requires InImage(mem, start, a) ==> a + 4 <= start + |mem|
    ensures WordAt(mem, start, order, a) < WORD
  {
    if InImage(mem, start, a) {
      DecodeBound(order, mem[a - start..a - start + 4]);
      Pow256Four();
    }
  }

  /** Only the bytes of r differ. */
  ghost predicate OnlyAt(was: seq<Byte>, now: seq<Byte>, start: nat, m: Machine, r: Rel) {
    |was| == |now| && forall k :: 0 <= k < |was| && !Covers(m, r, start + k) ==> now[k] == was[k]
  }

  lemma SameWord(was: seq<Byte>, now: seq<Byte>, start: nat, order: Order, a: nat)
    requires |was| == |now| && (InImage(was, start, a) ==> a + 4 <= start + |was|)
    requires forall k :: 0 <= k < |was| && a <= start + k < a + 4 ==> now[k] == was[k]
    ensures WordAt(now, start, order, a) == WordAt(was, start, order, a)
  {
    if InImage(was, start, a) {
      assert now[a - start..a - start + 4] == was[a - start..a - start + 4];
    }
  }

  /** The image after a word has been written. */
  lemma StoredWord(was: seq<Byte>, now: seq<Byte>, start: nat, order: Order, a: nat, v: int)
    requires start <= a && a + 4 <= start + |was|
    requires now == Stored(was, start, Write(a, Encode(order, v, 4)))
    ensures WordAt(now, start, order, a) == v % WORD
    ensures |now| == |was| && forall k :: 0 <= k < |was| && !(a <= start + k < a + 4) ==> now[k] == was[k]
  {
    var w := Write(a, Encode(order, v, 4));
    forall k | 0 <= k < |was| ensures now[k] == if w.Covers(start + k) then w.bytes[start + k - a] else was[k] {
      StoredByte(was, start, w, k);
    }
    assert now[a - start..a - start + 4] == Encode(order, v, 4);
    WordRoundTrip(order, v, 4);
    Pow256Four();
  }

  /** The records to be prelinked, what their symbols resolve to, and the TLS offsets of the objects these are in. */
  datatype Work = Work(relas: seq<Rela>, values: seq<int>, tls: seq<Option<int>>) {
    ghost predicate For(rels: seq<Rel>) {
      && |relas| == |values| == |tls| == |rels|
      && forall i :: 0 <= i < |rels| ==> Rel(relas[i].offset, relas[i].sym, relas[i].typ) == rels[i]
    }
  }

  class Converter {
    const machine: Machine
    const image: Image
    /** ET_EXEC; DT_TLSDESC_PLT or zero; whether the prelinked bit is set. */
    const exec: bool
    const tlsdescPlt: nat
    const marked: bool

    constructor (machine: Machine, image: Image, exec: bool, tlsdescPlt: nat, marked: bool)
      ensures this.machine == machine && this.image == image && this.exec == exec
      ensures this.tlsdescPlt == tlsdescPlt && this.marked == marked
    {
      this.machine, this.image, this.exec, this.tlsdescPlt, this.marked := machine, image, exec, tlsdescPlt, marked;
    }

    ghost function Memory(): seq<Byte>
      reads image.data
    {
      image.data[..]
    }

    /** read_une32 */
    method Read(a: nat) returns (w: nat)
      requires InImage(Memory(), image.start, a) ==> a + 4 <= image.start + image.data.Length
      ensures w == WordAt(Memory(), image.start, image.order, a)
    {
      if image.HasSection(a) {
        w := image.ReadWord(a, 4);
        assert Memory()[a - image.start..a - image.start + 4] == image.data[a - image.start..a - image.start + 4];
      } else {
        w := 0;
      }
    }

    /** write_ne32 */
    method Put(a: nat, v: int)
      requires InImage(Memory(), image.start, a) ==> a + 4 <= image.start + image.data.Length
      modifies image.data
      ensures InImage(Memory(), image.start, a) ==> WordAt(Memory(), image.start, image.order, a) == v % WORD
      ensures !InImage(Memory(), image.start, a) ==> Memory() == old(Memory())
      ensures forall k :: 0 <= k < image.data.Length && !(a <= image.start + k < a + 4) ==>
                Memory()[k] == old(Memory())[k]
    {
      if image.HasSection(a) {
        ghost var was := Memory();
        image.WriteWord(a, v, 4);
        StoredWord(was, Memory(), image.start, image.order, a, v);
      }
    }

    /** i386_rel_to_rela, arm_rel_to_rela; false is the abort for PLT relocations. For types they do not
        know the addend stays whatever it was. */
    method RelToRela(r: Rel) returns (ok: bool, rela: Rela)
      requires Fits(Memory(), image.start, machine, r)
      ensures ok <==> KindOf(machine, r.typ) != Plt
      ensures rela.offset == r.offset && rela.sym == r.sym && rela.typ == r.typ
      ensures KindOf(machine, r.typ) in {Carried, Branch, Zeroed} ==>
                rela.addend == AddendOf(KindOf(machine, r.typ), WordAt(Memory(), image.start, image.order, r.offset))
    {
      hide WordAt;
      var addend: int := *;
      ok := true;
      match machine {
        case I386 =>
          if r.typ == R_386_JMP_SLOT {
            ok := false;
          } else if r.typ in {R_386_RELATIVE, R_386_IRELATIVE, R_386_32, R_386_PC32, R_386_TLS_TPOFF32,
                              R_386_TLS_TPOFF} {
            var w := Read(r.offset);
            addend := Sword(w);
          } else if r.typ in {R_386_COPY, R_386_GLOB_DAT, R_386_TLS_DTPOFF32, R_386_TLS_DTPMOD32} {
            addend := 0;
          }
        case Arm =>
          if r.typ == R_ARM_JUMP_SLOT {
            ok := false;
          } else if r.typ in {R_ARM_RELATIVE, R_ARM_IRELATIVE, R_ARM_ABS32, R_ARM_TLS_TPOFF32, R_ARM_TLS_DTPOFF32} {
            var w := Read(r.offset);
            addend := Sword(w);
          } else if r.typ == R_ARM_PC24 {
            var w := Read(r.offset);
            addend := Sword(w * 256) / 64;
          } else if r.typ in {R_ARM_COPY, R_ARM_GLOB_DAT, R_ARM_TLS_DTPMOD32, R_ARM_TLS_DESC} {
            addend := 0;
          }
      }
      rela := Rela(r.offset, r.sym, r.typ, addend);
    }

    /** i386_rela_to_rel, arm_rela_to_rel. */
    method RelaToRel(rela: Rela) returns (ok: bool, r: Rel)
      requires Fits(Memory(), image.start, machine, Rel(rela.offset, rela.sym, rela.typ))
      modifies image.data
      ensures r == Rel(rela.offset, rela.sym, rela.typ) && (ok <==> KindOf(machine, r.typ) != Plt)
      ensures OnlyAt(old(Memory()), Memory(), image.start, machine, r)
      ensures KindOf(machine, r.typ) == Untouched ==> Memory() == old(Memory())
      ensures WordAt(Memory(), image.start, image.order, r.offset) ==
              if InImage(Memory(), image.start, r.offset)
              then WordOf(KindOf(machine, r.typ), old(WordAt(Memory(), image.start, image.order, r.offset)),
                          rela.addend) % WORD
              else 0
    {
      hide WordAt;
      r := Rel(rela.offset, rela.sym, rela.typ);
      ok := true;
      WordNone(Memory(), image.start, image.order, r.offset);
      WordBound(Memory(), image.start, image.order, r.offset);
      match machine {
        case I386 =>
          if r.typ == R_386_JMP_SLOT {
            ok := false;
          } else if r.typ in {R_386_RELATIVE, R_386_IRELATIVE, R_386_32, R_386_PC32, R_386_TLS_TPOFF32,
                              R_386_TLS_TPOFF} {
            Put(r.offset, rela.addend);
          } else if r.typ in {R_386_COPY, R_386_GLOB_DAT, R_386_TLS_DTPMOD32, R_386_TLS_DTPOFF32} {
            Put(r.offset, 0);
          }
        case Arm =>
          if r.typ == R_ARM_JUMP_SLOT {
            ok := false;
          } else if r.typ in {R_ARM_RELATIVE, R_ARM_IRELATIVE, R_ARM_ABS32, R_ARM_TLS_TPOFF32, R_ARM_TLS_DTPOFF32} {
            Put(r.offset, rela.addend);
          } else if r.typ == R_ARM_PC24 {
            var w := Read(r.offset);
            Put(r.offset, (w - w % LOW24) + rela.addend / 4 % LOW24);
          } else if r.typ in {R_ARM_GLOB_DAT, R_ARM_TLS_DTPMOD32} {
            Put(r.offset, 0);
          }
      }
      WordNone(Memory(), image.start, image.order, r.offset);
    }

    /** Nothing outside the bytes of r changes; a branch keeps its top byte; a word that converting back
        will not touch is not touched now. */
    ghost predicate Kept(was: seq<Byte>, now: seq<Byte>, r: Rel)
      requires Fits(was, image.start, machine, r) && |was| == |now|
    {
      var w, p := WordAt(was, image.start, image.order, r.offset), WordAt(now, image.start, image.order, r.offset);
      && OnlyAt(was, now, image.start, machine, r)
      && (KindOf(machine, r.typ) == Branch ==> p / LOW24 == w / LOW24)
      && (KindOf(machine, r.typ) == Untouched ==> p == w)
    }

    /** Prelinking takes this relocation: its type is known and allowed in this kind of object, a branch reaches its
        target, and a TLS descriptor has a resolver and an empty second word, or one from an earlier prelinking. */
    ghost predicate Accepts(r: Rel, addend: int, value: int, mem: seq<Byte>)
      requires Fits(mem, image.start, machine, r)
    {
      match machine
      case I386 =>
        // NONE, 32, PC32, GLOB_DAT, JMP_SLOT, RELATIVE, TLS_TPOFF, TLS_DTPOFF32, TLS_TPOFF32, IRELATIVE
        || r.typ in {0, 1, 2, 6, 7, 8, 14, 36, 37, 42}
        // TLS_DTPMOD32, COPY
        || (r.typ == 35 && !exec) || (r.typ == 5 && exec)
      case Arm =>
        // NONE, ABS32, TLS_DTPOFF32, TLS_TPOFF32, GLOB_DAT, JUMP_SLOT, RELATIVE, IRELATIVE
        || r.typ in {0, 2, 18, 19, 21, 22, 23, 160}
        // TLS_DTPMOD32, COPY
        || (r.typ == 17 && !exec) || (r.typ == 20 && exec)
        // PC24, 32 megabytes either way
        || (r.typ == 1 && (value + addend - r.offset + 0x200_0000) % 0x1_0000_0000 < 0x400_0000)
        // TLS_DESC
        || (r.typ == 13 && tlsdescPlt != 0
            && (marked || WordAt(mem, image.start, image.order, r.offset + 4) == 0))
    }

    /** The word of a relocation in the image is what prelinking leaves. */
    ghost predicate Linked(rela: Rela, value: int, tls: Option<int>, was: seq<Byte>, now: seq<Byte>)
      requires Fits(was, image.start, machine, Rel(rela.offset, rela.sym, rela.typ)) && |was| == |now|
    {
      InImage(was, image.start, rela.offset) ==>
        var w := WordAt(was, image.start, image.order, rela.offset);
        var p := WordAt(now, image.start, image.order, rela.offset);
        if machine == I386 then Linked386(rela.typ, rela.offset, value + rela.addend, tls, exec, w, p)
        else LinkedArm(rela.typ, rela.offset, value + rela.addend, tls, exec, w, p)
    }

    /** The second word of a TLS descriptor, once prelinked, is DT_TLSDESC_PLT. */
    ghost predicate Described(mem: seq<Byte>, r: Rel)
      requires Fits(mem, image.start, machine, r)
    {
      Size(machine, r.typ) == 8 && InImage(mem, image.start, r.offset) ==>
        WordAt(mem, image.start, image.order, r.offset + 4) == tlsdescPlt % WORD
    }

    /** i386_prelink_rela, arm_prelink_rela. value is what the symbol resolves to, tls the TLS offset of the
        object it was found in, if any; false is an error. */
    method PrelinkRela(rela: Rela, value: int, tls: Option<int>) returns (ok: bool)
      requires Fits(Memory(), image.start, machine, Rel(rela.offset, rela.sym, rela.typ))
      modifies image.data
      ensures Kept(old(Memory()), Memory(), Rel(rela.offset, rela.sym, rela.typ))
      ensures ok <==> Accepts(Rel(rela.offset, rela.sym, rela.typ), rela.addend, value, old(Memory()))
      ensures ok ==> Linked(rela, value, tls, old(Memory()), Memory())
      ensures ok ==> Described(Memory(), Rel(rela.offset, rela.sym, rela.typ))
      ensures !ok ==> Memory() == old(Memory())
    {
      hide WordAt;
      ghost var was := Memory();
      WordNone(was, image.start, image.order, rela.offset);
      match machine {
        case I386 => ok := PrelinkI386(rela, value, tls);
        case Arm => ok := PrelinkArm(rela, value, tls);
      }
    }

    method PrelinkI386(rela: Rela, value: int, tls: Option<int>) returns (ok: bool)
      requires machine == I386 && Fits(Memory(), image.start, machine, Rel(rela.offset, rela.sym, rela.typ))
      modifies image.data
      ensures Kept(old(Memory()), Memory(), Rel(rela.offset, rela.sym, rela.typ))
      ensures ok <==> Accepts(Rel(rela.offset, rela.sym, rela.typ), rela.addend, value, old(Memory()))
      ensures ok ==> Linked(rela, value, tls, old(Memory()), Memory())
      ensures !ok ==> Memory() == old(Memory())
    {
      hide WordAt;
      ok := true;
      if rela.typ in {R_386_RELATIVE, R_386_IRELATIVE, R_386_NONE} {
      } else if rela.typ in {R_386_GLOB_DAT, R_386_JMP_SLOT, R_386_32, R_386_TLS_DTPOFF32} {
        Put(rela.offset, value + rela.addend);
      } else if rela.typ == R_386_PC32 {
        Put(rela.offset, value + rela.addend - rela.offset);
      } else if rela.typ == R_386_TLS_DTPMOD32 {
        ok := !exec;
      } else if rela.typ == R_386_TLS_TPOFF32 {
        if exec && tls.Some? {
          Put(rela.offset, -(value + rela.addend - tls.value));
        }
      } else if rela.typ == R_386_TLS_TPOFF {
        if exec && tls.Some? {
          Put(rela.offset, value + rela.addend - tls.value);
        }
      } else if rela.typ == R_386_COPY {
        ok := exec;
      } else {
        ok := false;
      }
    }

    method PrelinkArm(rela: Rela, value: int, tls: Option<int>) returns (ok: bool)
      requires machine == Arm && Fits(Memory(), image.start, machine, Rel(rela.offset, rela.sym, rela.typ))
      modifies image.data
      ensures Kept(old(Memory()), Memory(), Rel(rela.offset, rela.sym, rela.typ))
      ensures ok <==> Accepts(Rel(rela.offset, rela.sym, rela.typ), rela.addend, value, old(Memory()))
      ensures ok ==> Linked(rela, value, tls, old(Memory()), Memory())
      ensures ok ==> Described(Memory(), Rel(rela.offset, rela.sym, rela.typ))
      ensures !ok ==> Memory() == old(Memory())
    {
      hide WordAt;
      ok := true;
      if rela.typ in {R_ARM_RELATIVE, R_ARM_IRELATIVE, R_ARM_NONE} {
      } else if rela.typ in {R_ARM_GLOB_DAT, R_ARM_JUMP_SLOT, R_ARM_ABS32, R_ARM_TLS_DTPOFF32} {
        Put(rela.offset, value + rela.addend);
      } else if rela.typ == R_ARM_PC24 {
        ok := PrelinkBranch(rela, value);
      } else if rela.typ == R_ARM_COPY {
        ok := exec;
      } else if rela.typ == R_ARM_TLS_DTPMOD32 {
        ok := !exec;
      } else if rela.typ == R_ARM_TLS_TPOFF32 {
        if exec && tls.Some? {
          Put(rela.offset, value + rela.addend + tls.value);
        }
      } else if rela.typ == R_ARM_TLS_DESC {
        ok := PrelinkDescriptor(rela);
      } else {
        ok := false;
      }
    }

    /** R_ARM_TLS_DESC: the second word is set to DT_TLSDESC_PLT. */
    method PrelinkDescriptor(rela: Rela) returns (ok: bool)
      requires machine == Arm && rela.typ == R_ARM_TLS_DESC
               && Fits(Memory(), image.start, machine, Rel(rela.offset, rela.sym, rela.typ))
      modifies image.data
      ensures Kept(old(Memory()), Memory(), Rel(rela.offset, rela.sym, rela.typ))
      ensures ok <==>
                tlsdescPlt != 0 && (marked || old(WordAt(Memory(), image.start, image.order, rela.offset + 4)) == 0)
      ensures ok ==> Linked(rela, 0, None, old(Memory()), Memory())
      ensures ok ==> Described(Memory(), Rel(rela.offset, rela.sym, rela.typ))
      ensures !ok ==> Memory() == old(Memory())
    {
      hide WordAt;
      ok := false;
      if tlsdescPlt == 0 {
        return;
      }
      var val := Read(rela.offset + 4);
      if val != 0 && !marked {
        return;
      }
      ghost var was := Memory();
      Put(rela.offset + 4, tlsdescPlt);
      SameWord(was, Memory(), image.start, image.order, rela.offset);
      ok := true;
    }

    /** R_ARM_PC24: the low 24 bits become the distance in words, if it fits. */
    method PrelinkBranch(rela: Rela, value: int) returns (ok: bool)
      requires machine == Arm && rela.typ == R_ARM_PC24
               && Fits(Memory(), image.start, machine, Rel(rela.offset, rela.sym, rela.typ))
      modifies image.data
      ensures Kept(old(Memory()), Memory(), Rel(rela.offset, rela.sym, rela.typ))
      ensures ok <==> (value + rela.addend - rela.offset + 0x200_0000) % 0x1_0000_0000 < 0x400_0000
      ensures ok ==> Linked(rela, value, None, old(Memory()), Memory())
      ensures !ok ==> Memory() == old(Memory())
    {
      hide WordAt;
      var val := Sword(value + rela.addend - rela.offset) / 4;
      BranchRange(value + rela.addend - rela.offset);
      LowDistance(value + rela.addend - rela.offset);
      if (val + 0x80_0000) % WORD >= LOW24 {
        return false;
      }
      ok := true;
      var w := Read(rela.offset);
      WordBound(Memory(), image.start, image.order, rela.offset);
      WordNone(Memory(), image.start, image.order, rela.offset);
      BranchWord(w, val);
      Put(rela.offset, (w - w % LOW24) + val % LOW24);
      WordNone(Memory(), image.start, image.order, rela.offset);
    }

    /** A record whose address lies in no section is passed over, whatever it is. */
    ghost predicate Passes(r: Rel, addend: int, value: int, mem: seq<Byte>)
      requires Fits(mem, image.start, machine, r)
    {
      InImage(mem, image.start, r.offset) ==> Accepts(r, addend, value, mem)
    }

    /** One turn of the loop of prelink_rela. */
    method PrelinkEntry(rela: Rela, value: int, tls: Option<int>) returns (ok: bool)
      requires Fits(Memory(), image.start, machine, Rel(rela.offset, rela.sym, rela.typ))
      modifies image.data
      ensures Kept(old(Memory()), Memory(), Rel(rela.offset, rela.sym, rela.typ))
      ensures ok <==> Passes(Rel(rela.offset, rela.sym, rela.typ), rela.addend, value, old(Memory()))
      ensures ok ==> Linked(rela, value, tls, old(Memory()), Memory())
      ensures ok ==> Described(Memory(), Rel(rela.offset, rela.sym, rela.typ))
      ensures !ok || !InImage(old(Memory()), image.start, rela.offset) ==> Memory() == old(Memory())
    {
      hide WordAt, Accepts;
      ok := true;
      if image.HasSection(rela.offset) {
        ok := PrelinkRela(rela, value, tls);
      }
    }

    /** Some of the relocations have been prelinked. */
    ghost predicate Phase(was: seq<Byte>, now: seq<Byte>, rels: seq<Rel>, work: Work, n: nat)
      requires AllFit(was, image.start, machine, rels) && work.For(rels)
    {
      && |was| == |now| && n <= |rels|
      && (forall k :: 0 <= k < |was| && Uncovered(rels, n, image.start + k) ==> now[k] == was[k])
      && (forall j :: 0 <= j < n ==>
            KeptWord(was, now, rels[j]) && Linked(work.relas[j], work.values[j], work.tls[j], was, now))
    }

    ghost predicate Uncovered(rels: seq<Rel>, n: nat, a: int)
      requires n <= |rels|
    {
      forall j :: 0 <= j < n ==> !Covers(machine, rels[j], a)
    }

    ghost predicate KeptWord(was: seq<Byte>, now: seq<Byte>, r: Rel)
      requires Fits(was, image.start, machine, r) && |was| == |now|
    {
      var w, p := WordAt(was, image.start, image.order, r.offset), WordAt(now, image.start, image.order, r.offset);
      && (KindOf(machine, r.typ) == Branch ==> p / LOW24 == w / LOW24)
      && (KindOf(machine, r.typ) == Untouched ==> p == w) && Described(now, r)
    }

    /** A word of a relocation: the first, or the second of a descriptor. */
    ghost predicate WordOfRel(r: Rel, a: nat) {
      a == r.offset || (Size(machine, r.typ) == 8 && a == r.offset + 4)
    }

    lemma WordFits(mem: seq<Byte>, r: Rel, a: nat)
      requires Fits(mem, image.start, machine, r) && WordOfRel(r, a)
      ensures r.offset <= a && a + 4 <= r.offset + Size(machine, r.typ)
      ensures InImage(mem, image.start, a) ==> a + 4 <= image.start + |mem|
      ensures InImage(mem, image.start, a) <==> InImage(mem, image.start, r.offset)
    {
    }

    /** The words of a relocation are not reached by the others. */
    lemma WordApart(was: seq<Byte>, now: seq<Byte>, rels: seq<Rel>, i: nat, j: nat, a: nat)
      requires AllFit(was, image.start, machine, rels) && Disjoint(machine, rels) && i < |rels| && j < |rels| && i != j
      requires OnlyAt(was, now, image.start, machine, rels[i]) && WordOfRel(rels[j], a)
      ensures InImage(was, image.start, a) ==> a + 4 <= image.start + |was|
      ensures WordAt(now, image.start, image.order, a) == WordAt(was, image.start, image.order, a)
    {
      assert Fits(was, image.start, machine, rels[j]);
      WordFits(was, rels[j], a);
      SameWord(was, now, image.start, image.order, a);
    }

    /** Nor by the ones before it. */
    lemma WordBefore(was: seq<Byte>, now: seq<Byte>, rels: seq<Rel>, i: nat, a: nat)
      requires AllFit(was, image.start, machine, rels) && Disjoint(machine, rels) && i < |rels| && |was| == |now|
      requires (forall k :: 0 <= k < |was| && Uncovered(rels, i, image.start + k) ==> now[k] == was[k])
               && WordOfRel(rels[i], a)
      ensures InImage(was, image.start, a) ==> a + 4 <= image.start + |was|
      ensures WordAt(now, image.start, image.order, a) == WordAt(was, image.start, image.order, a)
    {
      assert Fits(was, image.start, machine, rels[i]);
      WordFits(was, rels[i], a);
      forall k | 0 <= k < |was| && a <= image.start + k < a + 4 ensures now[k] == was[k] {
        assert Uncovered(rels, i, image.start + k);
      }
      SameWord(was, now, image.start, image.order, a);
    }

    /** So what was prelinked before does not change whether it is accepted. */
    lemma PassesBefore(was: seq<Byte>, now: seq<Byte>, rels: seq<Rel>, work: Work, i: nat, addend: int, value: int)
      requires AllFit(was, image.start, machine, rels) && Disjoint(machine, rels) && i < |rels|
               && work.For(rels) && Phase(was, now, rels, work, i)
      ensures Fits(was, image.start, machine, rels[i]) && Fits(now, image.start, machine, rels[i])
      ensures Passes(rels[i], addend, value, now) <==> Passes(rels[i], addend, value, was)
    {
      hide WordAt, Uncovered;
      assert Fits(was, image.start, machine, rels[i]);
      if Size(machine, rels[i].typ) == 8 { WordBefore(was, now, rels, i, rels[i].offset + 4); }
    }

    lemma UncoveredNext(was: seq<Byte>, mid: seq<Byte>, now: seq<Byte>, rels: seq<Rel>, i: nat)
      requires i < |rels| && |was| == |mid| && OnlyAt(mid, now, image.start, machine, rels[i])
      requires forall k :: 0 <= k < |was| && Uncovered(rels, i, image.start + k) ==> mid[k] == was[k]
      ensures forall k :: 0 <= k < |was| && Uncovered(rels, i + 1, image.start + k) ==> now[k] == was[k]
    {
      forall k | 0 <= k < |was| && Uncovered(rels, i + 1, image.start + k) ensures now[k] == was[k] {
        assert Uncovered(rels, i, image.start + k);
      }
    }

    /** What a relocation leaves in its word counts wherever the rest of the memory has changed. */
    lemma LinkedSame(rela: Rela, value: int, tls: Option<int>, was: seq<Byte>, now: seq<Byte>, was': seq<Byte>,
                     now': seq<Byte>)
      requires Fits(was, image.start, machine, Rel(rela.offset, rela.sym, rela.typ))
      requires |was| == |now| == |was'| == |now'|
      requires Linked(rela, value, tls, was, now)
      requires WordAt(was, image.start, image.order, rela.offset) == WordAt(was', image.start, image.order, rela.offset)
      requires WordAt(now, image.start, image.order, rela.offset) == WordAt(now', image.start, image.order, rela.offset)
      ensures Linked(rela, value, tls, was', now')
    {
      hide WordAt, Linked386, LinkedArm;
    }

    lemma PhaseNext(was: seq<Byte>, mid: seq<Byte>, now: seq<Byte>, rels: seq<Rel>, work: Work, i: nat)
      requires AllFit(was, image.start, machine, rels) && Disjoint(machine, rels) && i < |rels| && work.For(rels)
      requires Phase(was, mid, rels, work, i) && |mid| == |now| && Fits(mid, image.start, machine, rels[i])
               && Kept(mid, now, rels[i])
      requires Described(now, rels[i]) && Linked(work.relas[i], work.values[i], work.tls[i], mid, now)
      ensures Phase(was, now, rels, work, i + 1)
    {
      hide WordAt, Covers, Uncovered, Linked;
      UncoveredNext(was, mid, now, rels, i);
      WordBefore(was, mid, rels, i, rels[i].offset);
      assert AllFit(mid, image.start, machine, rels);
      forall j | 0 <= j < i + 1
        ensures KeptWord(was, now, rels[j]) && Linked(work.relas[j], work.values[j], work.tls[j], was, now)
      {
        if j < i {
          WordApart(mid, now, rels, i, j, rels[j].offset);
          if Size(machine, rels[j].typ) == 8 { WordApart(mid, now, rels, i, j, rels[j].offset + 4); }
          LinkedSame(work.relas[j], work.values[j], work.tls[j], was, mid, was, now);
        } else {
          LinkedSame(work.relas[j], work.values[j], work.tls[j], mid, now, was, now);
        }
      }
    }

    /** Some of the relocations have been turned back. */
    ghost predicate BackPhase(was: seq<Byte>, now: seq<Byte>, rels: seq<Rel>, relas: seq<Rela>, n: nat)
      requires AllFit(was, image.start, machine, rels) && |relas| == |rels|
    {
      && |was| == |now| && n <= |rels|
      && (forall k :: 0 <= k < |was| && Uncovered(rels, n, image.start + k) ==> now[k] == was[k])
      && (forall j :: 0 <= j < n ==> BackWord(was, now, rels[j], relas[j].addend) && SecondKept(was, now, rels[j]))
    }

    ghost predicate BackWord(was: seq<Byte>, now: seq<Byte>, r: Rel, addend: int)
      requires Fits(was, image.start, machine, r) && |was| == |now|
    {
      WordAt(now, image.start, image.order, r.offset) ==
      if InImage(now, image.start, r.offset)
      then WordOf(KindOf(machine, r.typ), WordAt(was, image.start, image.order, r.offset), addend) % WORD
      else 0
    }

    /** The second word of a descriptor stays. */
    ghost predicate SecondKept(was: seq<Byte>, now: seq<Byte>, r: Rel)
      requires Fits(was, image.start, machine, r) && |was| == |now|
    {
      Size(machine, r.typ) == 8 ==>
        WordAt(now, image.start, image.order, r.offset + 4) == WordAt(was, image.start, image.order, r.offset + 4)
    }

    lemma BackNext(was: seq<Byte>, mid: seq<Byte>, now: seq<Byte>, rels: seq<Rel>, relas: seq<Rela>, i: nat)
      requires AllFit(was, image.start, machine, rels) && Disjoint(machine, rels) && i < |rels| == |relas|
      requires BackPhase(was, mid, rels, relas, i) && OnlyAt(mid, now, image.start, machine, rels[i])
      requires AllFit(mid, image.start, machine, rels) && BackWord(mid, now, rels[i], relas[i].addend)
      requires SecondKept(mid, now, rels[i])
      ensures BackPhase(was, now, rels, relas, i + 1)
    {
      hide WordAt, Covers, Uncovered, WordOf;
      UncoveredNext(was, mid, now, rels, i);
      WordBefore(was, mid, rels, i, rels[i].offset);
      if Size(machine, rels[i].typ) == 8 { WordBefore(was, mid, rels, i, rels[i].offset + 4); }
      forall j | 0 <= j < i + 1 ensures BackWord(was, now, rels[j], relas[j].addend) && SecondKept(was, now, rels[j]) {
        if j < i {
          WordApart(mid, now, rels, i, j, rels[j].offset);
          if Size(machine, rels[j].typ) == 8 { WordApart(mid, now, rels, i, j, rels[j].offset + 4); }
        }
      }
    }

    /** What converting back does not touch it leaves as it is, and a descriptor is such. */
    lemma SecondKeptIntro(was: seq<Byte>, now: seq<Byte>, r: Rel)
      requires Fits(was, image.start, machine, r) && |was| == |now|
      requires KindOf(machine, r.typ) == Untouched ==> now == was
      ensures SecondKept(was, now, r)
    {
    }

    /** convert_rel_to_rela: every record with the addend its word stands for. */
    method ConvertRelToRela(rels: seq<Rel>) returns (ok: bool, relas: seq<Rela>)
      requires AllFit(Memory(), image.start, machine, rels)
      ensures ok <==> forall i :: 0 <= i < |rels| ==> KindOf(machine, rels[i].typ) != Plt
      ensures ok ==> |relas| == |rels| && forall i :: 0 <= i < |rels| ==> FromRel(relas[i], rels[i], Memory())
    {
      hide WordAt, KindOf;
      relas := [];
      ok := true;
      var ndx := 0;
      while ndx < |rels|
        invariant ndx <= |rels| && |relas| == ndx
        invariant forall i :: 0 <= i < ndx ==> KindOf(machine, rels[i].typ) != Plt
        invariant forall i :: 0 <= i < ndx ==> FromRel(relas[i], rels[i], Memory())
      {
        assert Fits(Memory(), image.start, machine, rels[ndx]);
        var rela;
        ok, rela := RelToRela(rels[ndx]);
        if !ok {
          return;
        }
        relas := relas + [rela];
        ndx := ndx + 1;
      }
    }

    ghost predicate FromRel(rela: Rela, r: Rel, mem: seq<Byte>)
      requires Fits(mem, image.start, machine, r)
    {
      && Rel(rela.offset, rela.sym, rela.typ) == r
      && (KindOf(machine, r.typ) in {Carried, Branch, Zeroed} ==>
            rela.addend == AddendOf(KindOf(machine, r.typ), WordAt(mem, image.start, image.order, r.offset)))
    }

    /** Prelink every record of the section, whatever its symbols resolve to. */
    method PrelinkSection(relas: seq<Rela>, values: seq<int>, tls: seq<Option<int>>, ghost rels: seq<Rel>)
      returns (ok: bool)
      requires AllFit(Memory(), image.start, machine, rels) && Disjoint(machine, rels)
      requires Work(relas, values, tls).For(rels)
      modifies image.data
      ensures ok <==> forall i :: 0 <= i < |rels| ==> Passes(rels[i], relas[i].addend, values[i], old(Memory()))
      ensures ok ==> Phase(old(Memory()), Memory(), rels, Work(relas, values, tls), |rels|)
    {
      hide WordAt, KindOf, Kept, Phase, Passes, Described, Linked;
      ghost var was, work := Memory(), Work(relas, values, tls);
      PhaseStart(was, rels, work);
      var ndx := 0;
      while ndx < |relas|
        invariant ndx <= |relas| && Phase(was, Memory(), rels, work, ndx)
        invariant forall i :: 0 <= i < ndx ==> Passes(rels[i], relas[i].addend, values[i], was)
      {
        ghost var mid := Memory();
        PassesBefore(was, mid, rels, work, ndx, relas[ndx].addend, values[ndx]);
        ok := PrelinkEntry(relas[ndx], values[ndx], tls[ndx]);
        if !ok {
          return;
        }
        PhaseNext(was, mid, Memory(), rels, work, ndx);
        ndx := ndx + 1;
      }
      ok := true;
    }

    lemma PhaseStart(was: seq<Byte>, rels: seq<Rel>, work: Work)
      requires AllFit(was, image.start, machine, rels) && work.For(rels)
      ensures Phase(was, was, rels, work, 0)
    {
    }

    /** convert_rela_to_rel. */
    method ConvertRelaToRel(relas: seq<Rela>, ghost rels: seq<Rel>) returns (ok: bool, back: seq<Rel>)
      requires |relas| == |rels| && AllFit(Memory(), image.start, machine, rels) && Disjoint(machine, rels)
      requires forall i :: 0 <= i < |rels| ==> Rel(relas[i].offset, relas[i].sym, relas[i].typ) == rels[i]
      modifies image.data
      ensures ok <==> forall i :: 0 <= i < |rels| ==> KindOf(machine, rels[i].typ) != Plt
      ensures ok ==> back == rels && BackPhase(old(Memory()), Memory(), rels, relas, |rels|)
    {
      hide WordAt, KindOf, BackPhase, WordOf;
      ghost var was := Memory();
      BackStart(was, rels, relas);
      back := [];
      ok := true;
      var ndx := 0;
      while ndx < |relas|
        invariant ndx <= |relas| && |Memory()| == |was| && BackPhase(was, Memory(), rels, relas, ndx)
                  && back == rels[..ndx]
        invariant forall i :: 0 <= i < ndx ==> KindOf(machine, rels[i].typ) != Plt
      {
        ghost var mid := Memory();
        assert Fits(was, image.start, machine, rels[ndx]);
        assert AllFit(mid, image.start, machine, rels);
        var r;
        ok, r := RelaToRel(relas[ndx]);
        if !ok {
          return;
        }
        SecondKeptIntro(mid, Memory(), rels[ndx]);
        BackNext(was, mid, Memory(), rels, relas, ndx);
        back := back + [r];
        ndx := ndx + 1;
      }
    }

    lemma BackStart(was: seq<Byte>, rels: seq<Rel>, relas: seq<Rela>)
      requires AllFit(was, image.start, machine, rels) && |relas| == |rels|
      ensures BackPhase(was, was, rels, relas, 0)
    {
    }

    /** What the whole round trip leaves. */
    ghost predicate Reverted(was: seq<Byte>, now: seq<Byte>, rels: seq<Rel>)
      requires AllFit(was, image.start, machine, rels)
    {
      && |was| == |now|
      && (forall k :: 0 <= k < |was| && Uncovered(rels, |rels|, image.start + k) ==> now[k] == was[k])
      && (forall i :: 0 <= i < |rels| ==> RevertedWord(was, now, rels[i]))
    }

    ghost predicate RevertedWord(was: seq<Byte>, now: seq<Byte>, r: Rel)
      requires Fits(was, image.start, machine, r) && |was| == |now|
    {
      && WordAt(now, image.start, image.order, r.offset)
         == (if KindOf(machine, r.typ) == Zeroed then 0 else WordAt(was, image.start, image.order, r.offset))
      && Described(now, r)
    }

    lemma RevertedIntro(was: seq<Byte>, mid: seq<Byte>, now: seq<Byte>, rels: seq<Rel>, work: Work)
      requires AllFit(was, image.start, machine, rels) && work.For(rels) && Phase(was, mid, rels, work, |rels|)
      requires AllFit(mid, image.start, machine, rels) && BackPhase(mid, now, rels, work.relas, |rels|)
      requires forall i :: 0 <= i < |rels| ==>
                 KindOf(machine, rels[i].typ) != Plt && FromRel(work.relas[i], rels[i], was)
      ensures Reverted(was, now, rels)
    {
      hide Linked;
      forall i | 0 <= i < |rels| ensures RevertedWord(was, now, rels[i]) {
        OneReverted(was, mid, now, rels[i], work.relas[i]);
      }
    }

    lemma OneReverted(was: seq<Byte>, mid: seq<Byte>, now: seq<Byte>, r: Rel, rela: Rela)
      requires Fits(was, image.start, machine, r) && |was| == |mid| == |now| && KindOf(machine, r.typ) != Plt
      requires KeptWord(was, mid, r) && BackWord(mid, now, r, rela.addend) && FromRel(rela, r, was)
               && SecondKept(mid, now, r)
      ensures RevertedWord(was, now, r)
    {
      hide WordAt, AddendOf, KindOf;
      var k, w := KindOf(machine, r.typ), WordAt(was, image.start, image.order, r.offset);
      WordBound(was, image.start, image.order, r.offset);
      WordNone(was, image.start, image.order, r.offset);
      WordRestored(k, w, WordAt(mid, image.start, image.order, r.offset));
      if k != Untouched { assert rela.addend == AddendOf(k, w); }
    }

    /** The whole section has been prelinked: each word is what its relocation asks for, and nothing else changed but
        the second words of descriptors. */
    ghost predicate AllLinked(was: seq<Byte>, mid: seq<Byte>, rels: seq<Rel>, work: Work)
      requires AllFit(was, image.start, machine, rels) && work.For(rels)
    {
      && |mid| == |was|
      && (forall i :: 0 <= i < |rels| ==>
            FromRel(work.relas[i], rels[i], was) && Described(mid, rels[i])
            && Linked(work.relas[i], work.values[i], work.tls[i], was, mid))
      && forall k :: 0 <= k < |was| && Uncovered(rels, |rels|, image.start + k) ==> mid[k] == was[k]
    }

    lemma AllLinkedIntro(was: seq<Byte>, mid: seq<Byte>, rels: seq<Rel>, work: Work)
      requires AllFit(was, image.start, machine, rels) && work.For(rels) && Phase(was, mid, rels, work, |rels|)
      requires forall i :: 0 <= i < |rels| ==> FromRel(work.relas[i], rels[i], was)
      ensures AllLinked(was, mid, rels, work)
    {
      hide Linked, FromRel, Described, Uncovered;
      forall i | 0 <= i < |rels| ensures Described(mid, rels[i]) {
        assert KeptWord(was, mid, rels[i]);
      }
    }

    /** REL to RELA, prelinking with any values, and back to REL. It goes through exactly when there is no PLT
        relocation and prelinking takes every one; then all were prelinked in between, the table is the same again,
        every word that holds an addend is the same again, the words that hold none are zero, a descriptor has its
        resolver, and nothing outside the relocated words has changed. */
    method RoundTrip(rels: seq<Rel>, values: seq<int>, tls: seq<Option<int>>)
      returns (ok: bool, back: seq<Rel>, ghost relas: seq<Rela>, ghost mid: seq<Byte>)
      requires |values| == |tls| == |rels| && AllFit(Memory(), image.start, machine, rels) && Disjoint(machine, rels)
      modifies image.data
      ensures ok <==> forall i :: 0 <= i < |rels| ==> Taken(rels[i], values[i], old(Memory()))
      ensures ok ==> Work(relas, values, tls).For(rels) && AllLinked(old(Memory()), mid, rels, Work(relas, values, tls))
      ensures ok ==> back == rels && Reverted(old(Memory()), Memory(), rels)
    {
      hide WordAt, KindOf, Phase, BackPhase, Reverted, Covers, Accepts, FromRel, AllLinked;
      ghost var was := Memory();
      var list;
      back, mid := [], [];
      ok, list := ConvertRelToRela(rels);
      relas := list;
      if ok {
        FromRelAll(was, rels, list, values);
        ok := PrelinkSection(list, values, tls, rels);
        if ok {
          mid := Memory();
          assert AllFit(mid, image.start, machine, rels);
          ok, back := ConvertRelaToRel(list, rels);
          RevertedIntro(was, mid, Memory(), rels, Work(list, values, tls));
          AllLinkedIntro(was, mid, rels, Work(list, values, tls));
        }
      }
    }

    /** The relocation is no PLT relocation, and prelinking takes it with the addend its word stands for, or passes it
        over. */
    ghost predicate Taken(r: Rel, value: int, mem: seq<Byte>)
      requires Fits(mem, image.start, machine, r)
    {
      && KindOf(machine, r.typ) != Plt
      && Passes(r, AddendOf(KindOf(machine, r.typ), WordAt(mem, image.start, image.order, r.offset)), value, mem)
    }

    lemma FromRelAll(mem: seq<Byte>, rels: seq<Rel>, relas: seq<Rela>, values: seq<int>)
      requires AllFit(mem, image.start, machine, rels) && |relas| == |rels| == |values|
      requires forall i :: 0 <= i < |rels| ==> KindOf(machine, rels[i].typ) != Plt && FromRel(relas[i], rels[i], mem)
      ensures forall i :: 0 <= i < |rels| ==> Rel(relas[i].offset, relas[i].sym, relas[i].typ) == rels[i]
      ensures forall i :: 0 <= i < |rels| ==>
                (Taken(rels[i], values[i], mem) <==> Passes(rels[i], relas[i].addend, values[i], mem))
    {
      hide WordAt, AddendOf;
    }

    /** What the word and, for a descriptor, the second word must have held for the round trip to give them back. */
    ghost predicate GivenBack(r: Rel, was: seq<Byte>)
      requires Fits(was, image.start, machine, r)
    {
      && (KindOf(machine, r.typ) == Zeroed ==> WordAt(was, image.start, image.order, r.offset) == 0)
      && Described(was, r)
    }

    /** The memory is exactly the original if and only if every word that holds no addend was zero and the
        second word of every TLS descriptor was DT_TLSDESC_PLT. */
    lemma RevertedExactly(was: seq<Byte>, now: seq<Byte>, rels: seq<Rel>)
      requires AllFit(was, image.start, machine, rels) && Reverted(was, now, rels)
      ensures now == was <==> forall i :: 0 <= i < |rels| ==> GivenBack(rels[i], was)
    {
      hide WordAt, KindOf;
      if now == was {
        forall i | 0 <= i < |rels| ensures GivenBack(rels[i], was) {
          assert RevertedWord(was, now, rels[i]);
        }
      }
      if forall i :: 0 <= i < |rels| ==> GivenBack(rels[i], was) {
        forall k | 0 <= k < |was| ensures now[k] == was[k] {
          if !Uncovered(rels, |rels|, image.start + k) {
            var j :| 0 <= j < |rels| && Covers(machine, rels[j], image.start + k);
            assert GivenBack(rels[j], was) && RevertedWord(was, now, rels[j]);
            var a := if image.start + k < rels[j].offset + 4 then rels[j].offset else rels[j].offset + 4;
            WordBytes(was, now, image.start, image.order, a, k);
          }
        }
      }
    }
  }

  lemma BranchRange(v: int)
    ensures -0x8000_0000 <= Sword(v) < 0x8000_0000
    ensures (Sword(v) / 4 + 0x80_0000) % WORD < LOW24 <==> (v + 0x200_0000) % WORD < 0x400_0000
  {
    var u := Sword(v) / 4 + 0x80_0000;
    if u < 0 { ModUnique(u, WORD, -1, u + WORD); }
  }

  /** The word with a distance put into its low 24 bits. */
  lemma BranchWord(w: nat, val: int)
    requires w < WORD && -0x80_0000 <= val < 0x80_0000
    ensures var p := (w - w % LOW24) + val % LOW24;
            0 <= p < WORD && p / LOW24 == w / LOW24 && p % LOW24 == val % LOW24
  {
    var p := (w - w % LOW24) + val % LOW24;
    assert p == (w / LOW24) * LOW24 + val % LOW24;
    ModUnique(p, LOW24, w / LOW24, val % LOW24);
  }

  lemma WordNone(mem: seq<Byte>, start: nat, order: Order, a: nat)
    requires InImage(mem, start, a) ==> a + 4 <= start + |mem|
    ensures !InImage(mem, start, a) ==> WordAt(mem, start, order, a) == 0
  {
  }

  /** Equal words have equal bytes. */
  lemma WordBytes(was: seq<Byte>, now: seq<Byte>, start: nat, order: Order, a: nat, k: nat)
    requires |was| == |now| && start <= a && a + 4 <= start + |was| && k < |was| && a <= start + k < a + 4
    requires WordAt(was, start, order, a) == WordAt(now, start, order, a)
    ensures now[k] == was[k]
  {
    BytesRoundTrip(order, was[a - start..a - start + 4]);
    BytesRoundTrip(order, now[a - start..a - start + 4]);
    assert was[a - start..a - start + 4][start + k - a] == was[k];
    assert now[a - start..a - start + 4][start + k - a] == now[k];
  }
}
