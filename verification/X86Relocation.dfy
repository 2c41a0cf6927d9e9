/** Relocating x86-64 and x32 libraries ahead of time (src/arch-x86_64.c, src/prelink.c, src/conflict.c). */
module X86Relocation {
  import opened ByteImage
  import opened ConflictTable

  /** A value held in a 64-bit GElf_Addr or addend field. */
  function Wrap64(v: int): (w: nat) {
    v % Pow256(8)
  }

  /** A value held in a 32-bit GElf_Word. */
  function Wrap32(v: int): (w: nat) {
    v % Pow256(4)
  }

  /** Relocation types; Other stands for every type the switches reject. */
  datatype RelocType = None | Relative | GlobDat | JumpSlot | Abs64 | Abs32 | Pc32 | Copy | Other

  datatype Rela = Rela(offset: nat, typ: RelocType, sym: nat, addend: nat)

  /** ELF class of the object: x86-64 or x32. */
  datatype ElfClass = Class32 | Class64

  function WordSize(cls: ElfClass): nat {
    if cls.Class32? then 4 else 8
  }

  function ClassOf(typ: RelocType): RelocClass {
    match typ
    case Copy => CopyOnly
    case JumpSlot => Plt
    case _ => Valid
  }

  predicate Symbolic(typ: RelocType) {
    typ.GlobDat? || typ.JumpSlot? || typ.Abs64? || typ.Abs32? || typ.Pc32?
  }

  predicate Supported(typ: RelocType) {
    Symbolic(typ) || typ.None? || typ.Relative?
  }

  // ----- what relocating means -----

  /** The word a relocation stores and its size, after the x86-64 psABI, table 4.10:
      S + A, S + A - P for pc-relative types, B + A for RELATIVE. */
  function Target(cls: ElfClass, r: Rela, value: nat): (int, nat) {
    var pointer := if cls.Class32? then 4 else 8;
    match r.typ
    case Relative => (r.addend, pointer)
    case GlobDat => (value + r.addend, pointer)
    case JumpSlot => (value + r.addend, pointer)
    case Abs64 => (value + r.addend, 8)
    case Abs32 => (value + r.addend, 4)
    case Pc32 => (value + r.addend - r.offset, 4)
    case _ => (0, 0)
  }

  /** Values a scope gives to a symbol of the library, per class of reference. */
  type Scope = (nat, RelocClass) -> nat

  /** What a scope gives for a relocation: for a PLT slot the target of calls, otherwise the symbol itself. */
  function Bound(scope: Scope, r: Rela): nat {
    scope(r.sym, if r.typ.JumpSlot? then Plt else Valid)
  }

  predicate InSection(start: nat, len: nat, a: nat) {
    start <= a < start + len
  }

  function Size(cls: ElfClass, r: Rela): nat {
    Target(cls, r, 0).1
  }

  function StoreOf(cls: ElfClass, start: nat, len: nat, r: Rela, scope: Scope): (w: Write)
    ensures w.at == r.offset && |w.bytes| == if InSection(start, len, r.offset) then Size(cls, r) else 0
  {
    var (v, n) := Target(cls, r, Bound(scope, r));
    if InSection(start, len, r.offset) then Write(r.offset, LittleEndian(v, n)) else Write(r.offset, [])
  }

  function StoresOf(cls: ElfClass, start: nat, len: nat, relas: seq<Rela>, scope: Scope): (ws: seq<Write>)
    ensures |ws| == |relas|
    ensures forall i :: 0 <= i < |relas| ==> ws[i] == StoreOf(cls, start, len, relas[i], scope)
  {
    seq(|relas|, i requires 0 <= i < |relas| => StoreOf(cls, start, len, relas[i], scope))
  }

  /** A table whose targets lie inside the image or wholly outside every section. */
  ghost predicate Fits(cls: ElfClass, start: nat, len: nat, relas: seq<Rela>) {
    forall i :: 0 <= i < |relas| && InSection(start, len, relas[i].offset) ==>
      relas[i].offset + Size(cls, relas[i]) <= start + len
  }

  /** Different relocations of the table have disjoint targets. */
  ghost predicate DisjointTargets(cls: ElfClass, relas: seq<Rela>) {
    forall i, j :: 0 <= i < |relas| && 0 <= j < |relas| && relas[i] != relas[j] ==>
      || relas[i].offset + Size(cls, relas[i]) <= relas[j].offset
      || relas[j].offset + Size(cls, relas[j]) <= relas[i].offset
  }

  lemma StoresInside(cls: ElfClass, mem: seq<Byte>, start: nat, relas: seq<Rela>, scope: Scope)
    requires Fits(cls, start, |mem|, relas)
    ensures AllInside(mem, start, StoresOf(cls, start, |mem|, relas, scope))
  {
  }

  lemma StoresIndependent(cls: ElfClass, start: nat, len: nat, relas: seq<Rela>, scope: Scope)
    requires DisjointTargets(cls, relas)
    ensures Independent(StoresOf(cls, start, len, relas, scope))
  {
    var ws := StoresOf(cls, start, len, relas, scope);
    forall i, j | 0 <= i < j < |ws| && ws[i] != ws[j] ensures Apart(ws[i], ws[j]) {
      assert relas[i] != relas[j];
    }
  }

  /** The library's memory after its table is relocated in a scope. */
  ghost function Relocated(cls: ElfClass, mem: seq<Byte>, start: nat, relas: seq<Rela>, scope: Scope): (r: seq<Byte>)
    requires Fits(cls, start, |mem|, relas)
    ensures |r| == |mem|
  {
    StoresInside(cls, mem, start, relas, scope);
    StoredAll(mem, start, StoresOf(cls, start, |mem|, relas, scope))
  }

  // ----- the library's own scope -----

  /** struct prelink_symbol: one class of reference and what it resolved to. */
  datatype Symbol = Symbol(cls: RelocClass, target: SymbolTarget, value: nat)
  datatype SymbolTarget = Nowhere | Library(base: nat)

  /** The value resolve_dso finds in a symbol's list: the first entry of that class counts. */
  function Resolve(list: seq<Symbol>, cls: RelocClass): nat {
    if list == [] then 0
    else if list[0].cls != cls then Resolve(list[1..], cls)
    else if list[0].target.Nowhere? then 0
    else Wrap64(list[0].target.base + list[0].value)
  }

  /** The library that value came from, if any. */
  ghost function Resolver(list: seq<Symbol>, cls: RelocClass): SymbolTarget {
    if list == [] then Nowhere else if list[0].cls != cls then Resolver(list[1..], cls) else list[0].target
  }

  function ScopeOf(symbols: seq<seq<Symbol>>): Scope {
    (sym: nat, cls: RelocClass) => if sym < |symbols| then Resolve(symbols[sym], cls) else 0
  }

  ghost predicate SymbolsInRange(relas: seq<Rela>, n: nat) {
    forall i :: 0 <= i < |relas| ==> relas[i].sym < n
  }

  // ----- prelinking: the imperative code -----

  class Prelinker {
    const cls: ElfClass
    const dso: Image
    const symbols: seq<seq<Symbol>>
    /** Library the last resolved symbol came from. */
    var resolveent: SymbolTarget

    constructor (cls: ElfClass, dso: Image, symbols: seq<seq<Symbol>>)
      ensures this.cls == cls && this.dso == dso && this.symbols == symbols && resolveent == Nowhere
    {
      this.cls, this.dso, this.symbols, resolveent := cls, dso, symbols, Nowhere;
    }

    /** resolve_dso */
    method ResolveDso(sym: nat, cls: RelocClass) returns (value: nat)
      requires sym < |symbols|
      modifies this
      ensures value == ScopeOf(symbols)(sym, cls)
      ensures resolveent == Resolver(symbols[sym], cls) && (resolveent == Nowhere ==> value == 0)
    {
      var list := symbols[sym];
      var i := 0;
      while i < |list| && list[i].cls != cls
        invariant 0 <= i <= |list|
        invariant Resolve(list[i..], cls) == Resolve(list, cls) && Resolver(list[i..], cls) == Resolver(list, cls)
      {
        assert list[i..][1..] == list[i + 1..];
        i := i + 1;
      }
      resolveent := Nowhere;
      if i == |list| || list[i].target.Nowhere? {
        return 0;
      }
      resolveent := list[i].target;
      value := Wrap64(list[i].target.base + list[i].value);
    }

    /** x86_64_prelink_rela; false is the error return. */
    method PrelinkRela(r: Rela) returns (ok: bool)
      requires dso.order == Lsb && r.sym < |symbols|
      requires dso.HasSection(r.offset) && r.offset + Size(cls, r) <= dso.start + dso.data.Length
      modifies this, dso.data
      ensures ok == Supported(r.typ)
      ensures ok ==> dso.data[..] == Stored(old(dso.data[..]), dso.start,
                                            StoreOf(cls, dso.start, dso.data.Length, r, ScopeOf(symbols)))
      ensures !ok ==> dso.data[..] == old(dso.data[..])
    {
      if r.typ.None? {
        StoredNothing(dso.data[..], dso.start, r.offset);
        return true;
      } else if r.typ.Relative? {
        dso.WriteWord(r.offset, r.addend, WordSize(cls));
        return true;
      }
      var value := ResolveDso(r.sym, ClassOf(r.typ));
      ok := StoreValue(r, value);
    }

    /** The switch of x86_64_prelink_rela, once the symbol's value is known. */
    method StoreValue(r: Rela, value: nat) returns (ok: bool)
      requires dso.order == Lsb && !r.typ.None? && !r.typ.Relative?
      requires dso.HasSection(r.offset) && r.offset + Size(cls, r) <= dso.start + dso.data.Length
      modifies dso.data
      ensures ok == Supported(r.typ)
      ensures ok ==> var (v, n) := Target(cls, r, value);
                     dso.data[..] == Stored(old(dso.data[..]), dso.start, Write(r.offset, LittleEndian(v, n)))
      ensures !ok ==> dso.data[..] == old(dso.data[..])
    {
      ok := true;
      match r.typ {
        case GlobDat => dso.WriteWord(r.offset, value + r.addend, WordSize(cls));
        case JumpSlot => dso.WriteWord(r.offset, value + r.addend, WordSize(cls));
        case Abs64 => dso.WriteWord(r.offset, value + r.addend, 8);
        case Abs32 => dso.WriteWord(r.offset, value + r.addend, 4);
        case Pc32 => dso.WriteWord(r.offset, value + r.addend - r.offset, 4);
        case _ => ok := false;
      }
    }

    /** One turn of prelink_rela's loop: a relocation outside every section is skipped. */
    method PrelinkEntry(r: Rela) returns (ok: bool)
      requires dso.order == Lsb && r.sym < |symbols|
      requires dso.HasSection(r.offset) ==> r.offset + Size(cls, r) <= dso.start + dso.data.Length
      modifies this, dso.data
      ensures ok <==> (dso.HasSection(r.offset) ==> Supported(r.typ))
      ensures ok ==> dso.data[..] == Stored(old(dso.data[..]), dso.start,
                                            StoreOf(cls, dso.start, dso.data.Length, r, ScopeOf(symbols)))
    {
      if dso.HasSection(r.offset) {
        ok := PrelinkRela(r);
      } else {
        StoredNothing(dso.data[..], dso.start, r.offset);
        ok := true;
      }
    }

    /** prelink_rela over one RELA section. */
    method PrelinkTable(relas: seq<Rela>) returns (ok: bool)
      requires dso.order == Lsb && SymbolsInRange(relas, |symbols|)
      requires Fits(cls, dso.start, dso.data.Length, relas)
      modifies this, dso.data
      ensures ok <==> forall i :: 0 <= i < |relas| && dso.HasSection(relas[i].offset) ==> Supported(relas[i].typ)
      ensures ok ==> dso.data[..] == Relocated(cls, old(dso.data[..]), dso.start, relas, ScopeOf(symbols))
    {
      hide StoreOf, ScopeOf;
      ghost var mem := dso.data[..];
      ghost var ws := StoresOf(cls, dso.start, |mem|, relas, ScopeOf(symbols));
      StoresInside(cls, mem, dso.start, relas, ScopeOf(symbols));
      var i := 0;
      while i < |relas|
        invariant 0 <= i <= |relas|
        invariant forall j :: 0 <= j < i && dso.HasSection(relas[j].offset) ==> Supported(relas[j].typ)
        invariant dso.data[..] == StoredUpTo(mem, dso.start, ws, i)
      {
        ok := PrelinkEntry(relas[i]);
        if !ok {
          return;
        }
        i := i + 1;
      }
      ok := true;
    }
  }

  // ----- conflicts -----

  /** Where the library's symbol table starts, relative to its base, and the size of an entry. */
  datatype Symtab = Symtab(start: nat, entsize: nat)

  /** The symbol's offset as prelink_conflict computes it, in a 32-bit GElf_Word. */
  function SymOff(st: Symtab, sym: nat): nat {
    Wrap32(st.start + sym * st.entsize)
  }

  function LookupValue(l: Line): nat {
    Wrap64(l.lookup.base + l.lookup.value)
  }

  /** The conflict relocation x86_64_prelink_conflict_rela adds for one relocation of a library,
      given the value its symbol has in the executable's scope. */
  function ConflictFor(cls: ElfClass, r: Rela, value: nat): Rela {
    match r.typ
    case GlobDat => Rela(r.offset, if cls.Class32? then Abs32 else Abs64, 0, Wrap64(value + r.addend))
    case Pc32 => Rela(r.offset, Abs32, 0, Wrap64(value + r.addend - r.offset))
    case _ => Rela(r.offset, r.typ, 0, Wrap64(value + r.addend))
  }

  /** What the conflict table says of the symbol a relocation refers to. */
  function KeyOf(st: Symtab, r: Rela): Key {
    Key(SymOff(st, r.sym), ClassOf(r.typ))
  }

  /** Whether a relocation of the library needs a conflict relocation. */
  predicate HasConflict(start: nat, len: nat, st: Symtab, table: map<Key, Line>, r: Rela) {
    InSection(start, len, r.offset) && Symbolic(r.typ) && KeyOf(st, r) in table
  }

  /** That conflict relocation. */
  function Fixup(cls: ElfClass, st: Symtab, table: map<Key, Line>, r: Rela): Rela
    requires KeyOf(st, r) in table
  {
    ConflictFor(cls, r, LookupValue(table[KeyOf(st, r)]))
  }

  ghost function Emitted(cls: ElfClass, start: nat, len: nat, st: Symtab, table: map<Key, Line>, relas: seq<Rela>)
    : seq<Rela>
  {
    if relas == [] then []
    else
      var r := relas[|relas| - 1];
      Emitted(cls, start, len, st, table, relas[..|relas| - 1])
      + if HasConflict(start, len, st, table, r) then [Fixup(cls, st, table, r)] else []
  }

  /** Exactly the in-section symbolic relocations with a recorded conflict emit a conflict relocation. */
  lemma {:induction false} EmittedMembers(cls: ElfClass, start: nat, len: nat, st: Symtab,
                                         table: map<Key, Line>, relas: seq<Rela>, c: Rela)
    ensures c in Emitted(cls, start, len, st, table, relas) <==>
            exists i :: 0 <= i < |relas| && HasConflict(start, len, st, table, relas[i])
                        && c == Fixup(cls, st, table, relas[i])
  {
    if relas != [] {
      var n := |relas| - 1;
      EmittedMembers(cls, start, len, st, table, relas[..n], c);
      if i :| 0 <= i < n && HasConflict(start, len, st, table, relas[..n][i])
              && c == Fixup(cls, st, table, relas[..n][i])
      {
        assert HasConflict(start, len, st, table, relas[i]) && c == Fixup(cls, st, table, relas[i]);
      }
      if i :| 0 <= i < n && HasConflict(start, len, st, table, relas[i]) && c == Fixup(cls, st, table, relas[i]) {
        assert HasConflict(start, len, st, table, relas[..n][i]) && c == Fixup(cls, st, table, relas[..n][i]);
      }
    }
  }

  class ConflictBuilder {
    const cls: ElfClass
    const st: Symtab
    const table: Table
    /** info->conflict_rela, a growing array. */
    var conflictRela: seq<Rela>

    constructor (cls: ElfClass, st: Symtab, table: Table)
      ensures this.cls == cls && this.st == st && this.table == table && conflictRela == []
    {
      this.cls, this.st, this.table, conflictRela := cls, st, table, [];
    }

    /** x86_64_prelink_conflict_rela for a library other than the executable itself. */
    method ConflictRela(r: Rela) returns (ok: bool)
      requires table.Valid()
      modifies this, table.log
      ensures table.Valid() && table.log == old(table.log)
      ensures if r.typ.Relative? || r.typ.None? || KeyOf(st, r) !in table.Contents() then
                ok && conflictRela == old(conflictRela)
              else
                && ok == Symbolic(r.typ)
                && (ok ==> conflictRela == old(conflictRela) + [Fixup(cls, st, table.Contents(), r)])
    {
      if r.typ.Relative? || r.typ.None? {
        return true;
      }
      var conflict := table.Lookup(KeyOf(st, r));
      if conflict == null {
        return true;
      }
      var value := LookupValue(conflict.line);
      var ret := Rela(r.offset, r.typ, 0, 0);
      ok := true;
      match r.typ {
        case GlobDat =>
          ret := ret.(typ := if cls.Class32? then Abs32 else Abs64, addend := Wrap64(value + r.addend));
        case JumpSlot => ret := ret.(addend := Wrap64(value + r.addend));
        case Abs32 => ret := ret.(addend := Wrap64(value + r.addend));
        case Abs64 => ret := ret.(addend := Wrap64(value + r.addend));
        case Pc32 => ret := ret.(typ := Abs32, addend := Wrap64(value + r.addend - r.offset));
        case _ => ok := false;
      }
      conflictRela := conflictRela + [ret];
    }

    /** prelink_conflict_rela over one RELA section of a library. */
    method ConflictSection(start: nat, len: nat, relas: seq<Rela>) returns (ok: bool)
      requires table.Valid() && conflictRela == []
      requires forall r :: r in relas ==> Supported(r.typ)
      modifies this, table.log
      ensures ok && table.Valid() && table.log == old(table.log)
      ensures conflictRela == Emitted(cls, start, len, st, table.Contents(), relas)
    {
      var i := 0;
      while i < |relas|
        invariant 0 <= i <= |relas|
        invariant table.Valid() && table.log == old(table.log)
        invariant conflictRela == Emitted(cls, start, len, st, table.Contents(), relas[..i])
      {
        assert relas[..i + 1][..i] == relas[..i];
        assert relas[i] in relas;
        if InSection(start, len, relas[i].offset) {
          ok := ConflictRela(relas[i]);
          assert ok;
        }
        i := i + 1;
      }
      assert relas[..i] == relas;
      ok := true;
    }
  }

  /** The store x86_64_apply_conflict_rela makes for a conflict relocation. */
  function ConflictStore(cls: ElfClass, c: Rela): Write {
    match c.typ
    case GlobDat => Write(c.offset, LittleEndian(c.addend, WordSize(cls)))
    case JumpSlot => Write(c.offset, LittleEndian(c.addend, WordSize(cls)))
    case Abs64 => Write(c.offset, LittleEndian(c.addend, 8))
    case Abs32 => Write(c.offset, LittleEndian(c.addend, 4))
    case _ => Write(c.offset, [])
  }

  function ConflictStores(cls: ElfClass, cs: seq<Rela>): (ws: seq<Write>)
    ensures |ws| == |cs|
    ensures forall i :: 0 <= i < |cs| ==> ws[i] == ConflictStore(cls, cs[i])
  {
    seq(|cs|, i requires 0 <= i < |cs| => ConflictStore(cls, cs[i]))
  }

  /** x86_64_apply_conflict_rela; the type must be one the switch knows, since the source
      aborts on any other. */
  method ApplyConflict(cls: ElfClass, dso: Image, c: Rela)
    requires dso.order == Lsb && c.typ in {GlobDat, JumpSlot, Abs64, Abs32}
    requires Inside(dso.data[..], dso.start, ConflictStore(cls, c))
    modifies dso.data
    ensures dso.data[..] == Stored(old(dso.data[..]), dso.start, ConflictStore(cls, c))
  {
    match c.typ {
      case GlobDat => dso.WriteWord(c.offset, c.addend, WordSize(cls));
      case JumpSlot => dso.WriteWord(c.offset, c.addend, WordSize(cls));
      case Abs64 => dso.WriteWord(c.offset, c.addend, 8);
      case Abs32 => dso.WriteWord(c.offset, c.addend, 4);
    }
  }

  /** Apply the conflict relocations of an executable in turn. */
  method ApplyConflicts(cls: ElfClass, dso: Image, cs: seq<Rela>)
    requires dso.order == Lsb
    requires forall c :: c in cs ==> c.typ in {GlobDat, JumpSlot, Abs64, Abs32}
    requires AllInside(dso.data[..], dso.start, ConflictStores(cls, cs))
    modifies dso.data
    ensures dso.data[..] == StoredAll(old(dso.data[..]), dso.start, ConflictStores(cls, cs))
  {
    ghost var mem := dso.data[..];
    ghost var ws := ConflictStores(cls, cs);
    var i := 0;
    while i < |cs|
      invariant 0 <= i <= |cs|
      invariant dso.data[..] == StoredUpTo(mem, dso.start, ws, i)
    {
      assert cs[i] in cs;
      ApplyConflict(cls, dso, cs[i]);
      i := i + 1;
    }
  }

  /** A conflict relocation stores what relocating in the executable's scope would have stored. */
  lemma ConflictStoresSame(cls: ElfClass, start: nat, len: nat, r: Rela, exe: Scope)
    requires Symbolic(r.typ) && InSection(start, len, r.offset)
    ensures ConflictStore(cls, ConflictFor(cls, r, Bound(exe, r))) == StoreOf(cls, start, len, r, exe)
  {
    hide LittleEndian, Pow256;
    var (v, n) := Target(cls, r, Bound(exe, r));
    TruncateFirst(v, n, 8);
  }

  /** The key under which the trace lists what a relocation refers to: the offset of the symbol's entry from the base
      of the library, in 32 bits, and the class of the reference. */
  function TraceKey(st: Symtab, r: Rela): Key {
    Key((st.start + r.sym * st.entsize) % 0x1_0000_0000, if r.typ.JumpSlot? then Plt else Valid)
  }

  /** The table tells what becomes of a library's relocations in an executable: a line has what the executable's scope
      binds the reference to, and what the library's own does; a reference without one is bound alike in both. */
  ghost predicate Traced(start: nat, len: nat, st: Symtab, table: map<Key, Line>, relas: seq<Rela>,
                         own: Scope, exe: Scope)
  {
    forall i :: 0 <= i < |relas| && InSection(start, len, relas[i].offset) && Symbolic(relas[i].typ) ==>
      var k := TraceKey(st, relas[i]);
      if k in table then
        var line := table[k];
        && Bound(exe, relas[i]) == (line.lookup.base + line.lookup.value) % 0x1_0000_0000_0000_0000
        && Bound(own, relas[i]) == (line.conflict.base + line.conflict.value) % 0x1_0000_0000_0000_0000
      else Bound(exe, relas[i]) == Bound(own, relas[i])
  }

  /** Any list holding exactly the emitted conflict relocations, such as the sorted one written
      to .gnu.conflict. */
  ghost predicate Holds(cs: seq<Rela>, emitted: seq<Rela>) {
    forall c :: c in cs <==> c in emitted
  }

  lemma ConflictsInside(cls: ElfClass, mem: seq<Byte>, start: nat, st: Symtab, table: map<Key, Line>,
                        relas: seq<Rela>, cs: seq<Rela>)
    requires Fits(cls, start, |mem|, relas)
    requires Holds(cs, Emitted(cls, start, |mem|, st, table, relas))
    ensures forall c :: c in cs ==> c.typ in {GlobDat, JumpSlot, Abs64, Abs32}
    ensures AllInside(mem, start, ConflictStores(cls, cs))
  {
    forall i | 0 <= i < |cs|
      ensures cs[i].typ in {GlobDat, JumpSlot, Abs64, Abs32} && Inside(mem, start, ConflictStore(cls, cs[i]))
    {
      assert cs[i] in cs;
      EmittedMembers(cls, start, |mem|, st, table, relas, cs[i]);
      var j :| 0 <= j < |relas| && HasConflict(start, |mem|, st, table, relas[j])
              && cs[i] == Fixup(cls, st, table, relas[j]);
    }
  }

  /** Memory of a prelinked library once its conflict relocations have been applied. */
  ghost function PrelinkedThenFixed(cls: ElfClass, mem: seq<Byte>, start: nat, relas: seq<Rela>, own: Scope,
                                    cs: seq<Rela>): (r: seq<Byte>)
    requires Fits(cls, start, |mem|, relas)
    requires AllInside(mem, start, ConflictStores(cls, cs))
    ensures |r| == |mem|
  {
    var prelinked := Relocated(cls, mem, start, relas, own);
    assert AllInside(prelinked, start, ConflictStores(cls, cs));
    StoredAll(prelinked, start, ConflictStores(cls, cs))
  }

  lemma ConflictStoresIndependent(cls: ElfClass, start: nat, len: nat, st: Symtab, table: map<Key, Line>,
                                  relas: seq<Rela>, cs: seq<Rela>)
    requires DisjointTargets(cls, relas) && Holds(cs, Emitted(cls, start, len, st, table, relas))
    ensures Independent(ConflictStores(cls, cs))
  {
    var ws := ConflictStores(cls, cs);
    forall i, j | 0 <= i < j < |cs| && ws[i] != ws[j] ensures Apart(ws[i], ws[j]) {
      assert cs[i] in cs && cs[j] in cs;
      EmittedMembers(cls, start, len, st, table, relas, cs[i]);
      EmittedMembers(cls, start, len, st, table, relas, cs[j]);
      var a :| 0 <= a < |relas| && HasConflict(start, len, st, table, relas[a])
      && cs[i] == Fixup(cls, st, table, relas[a]);
      var b :| 0 <= b < |relas| && HasConflict(start, len, st, table, relas[b])
      && cs[j] == Fixup(cls, st, table, relas[b]);
      ConflictShape(cls, relas[a], LookupValue(table[KeyOf(st, relas[a])]));
      ConflictShape(cls, relas[b], LookupValue(table[KeyOf(st, relas[b])]));
    }
  }

  /** A conflict relocation covers exactly the bytes its relocation does. */
  lemma ConflictShape(cls: ElfClass, r: Rela, value: nat)
    requires Symbolic(r.typ)
    ensures ConflictStore(cls, ConflictFor(cls, r, value)).at == r.offset
    ensures |ConflictStore(cls, ConflictFor(cls, r, value)).bytes| == Size(cls, r)
  {
  }

  /** The store a target ends up with: that of its conflict relocation if it has one, else the
      store made when the library was prelinked in its own scope. */
  ghost function FinalStore(cls: ElfClass, start: nat, len: nat, st: Symtab, table: map<Key, Line>, r: Rela,
                            own: Scope): Write
  {
    if HasConflict(start, len, st, table, r) then ConflictStore(cls, Fixup(cls, st, table, r))
    else StoreOf(cls, start, len, r, own)
  }

  lemma FinalShape(cls: ElfClass, start: nat, len: nat, st: Symtab, table: map<Key, Line>, r: Rela, own: Scope)
    ensures FinalStore(cls, start, len, st, table, r, own).at == r.offset
    ensures |FinalStore(cls, start, len, st, table, r, own).bytes|
            == if InSection(start, len, r.offset) then Size(cls, r) else 0
  {
    if HasConflict(start, len, st, table, r) {
      ConflictShape(cls, r, LookupValue(table[KeyOf(st, r)]));
    }
  }

  /** Only the conflict relocation of a relocation that covers a byte can touch that byte. */
  lemma ConflictCover(cls: ElfClass, start: nat, len: nat, st: Symtab, table: map<Key, Line>, relas: seq<Rela>,
                      cs: seq<Rela>, j: nat, a: nat) returns (b: nat)
    requires Holds(cs, Emitted(cls, start, len, st, table, relas))
    requires j < |cs| && ConflictStore(cls, cs[j]).Covers(a)
    ensures b < |relas| && HasConflict(start, len, st, table, relas[b]) && cs[j] == Fixup(cls, st, table, relas[b])
    ensures relas[b].offset <= a < relas[b].offset + Size(cls, relas[b])
  {
    assert cs[j] in cs;
    EmittedMembers(cls, start, len, st, table, relas, cs[j]);
    b :| 0 <= b < |relas| && HasConflict(start, len, st, table, relas[b]) && cs[j] == Fixup(cls, st, table, relas[b]);
    ConflictShape(cls, relas[b], LookupValue(table[KeyOf(st, relas[b])]));
  }

  lemma FixedByte(cls: ElfClass, mem: seq<Byte>, start: nat, relas: seq<Rela>, own: Scope,
                  st: Symtab, table: map<Key, Line>, cs: seq<Rela>, i: nat, k: nat)
    requires Fits(cls, start, |mem|, relas) && DisjointTargets(cls, relas)
    requires Holds(cs, Emitted(cls, start, |mem|, st, table, relas))
    requires AllInside(mem, start, ConflictStores(cls, cs))
    requires i < |relas| && k < |mem| && relas[i].offset <= start + k < relas[i].offset + Size(cls, relas[i])
    requires HasConflict(start, |mem|, st, table, relas[i])
    ensures FinalStore(cls, start, |mem|, st, table, relas[i], own).Covers(start + k)
    ensures PrelinkedThenFixed(cls, mem, start, relas, own, cs)[k]
            == FinalStore(cls, start, |mem|, st, table, relas[i], own).bytes[start + k - relas[i].offset]
  {
    hide StoredAll, Emitted, Target, ConflictFor, LittleEndian, DisjointTargets, Fits, AllInside, KeyOf, LookupValue;
    FinalShape(cls, start, |mem|, st, table, relas[i], own);
    var j := ConflictIndex(cls, start, |mem|, st, table, relas, cs, i);
    ConflictStoresIndependent(cls, start, |mem|, st, table, relas, cs);
    StoredByConflict(cls, mem, start, relas, own, cs, j, k);
  }

  /** The conflict relocation of a relocation that needs one is in the list. */
  lemma ConflictIndex(cls: ElfClass, start: nat, len: nat, st: Symtab, table: map<Key, Line>, relas: seq<Rela>,
                      cs: seq<Rela>, i: nat) returns (j: nat)
    requires Holds(cs, Emitted(cls, start, len, st, table, relas))
    requires i < |relas| && HasConflict(start, len, st, table, relas[i])
    ensures j < |cs| && cs[j] == Fixup(cls, st, table, relas[i])
  {
    EmittedMembers(cls, start, len, st, table, relas, Fixup(cls, st, table, relas[i]));
    assert Fixup(cls, st, table, relas[i]) in cs;
    j :| 0 <= j < |cs| && cs[j] == Fixup(cls, st, table, relas[i]);
  }

  lemma StoredByConflict(cls: ElfClass, mem: seq<Byte>, start: nat, relas: seq<Rela>, own: Scope, cs: seq<Rela>,
                         j: nat, k: nat)
    requires Fits(cls, start, |mem|, relas) && AllInside(mem, start, ConflictStores(cls, cs))
    requires Independent(ConflictStores(cls, cs))
    requires j < |cs| && k < |mem| && ConflictStore(cls, cs[j]).Covers(start + k)
    ensures PrelinkedThenFixed(cls, mem, start, relas, own, cs)[k]
            == ConflictStore(cls, cs[j]).bytes[start + k - ConflictStore(cls, cs[j]).at]
  {
    hide ConflictStore, Independent, Fits;
    CoveredByte(Relocated(cls, mem, start, relas, own), start, ConflictStores(cls, cs), |cs|, j, k);
  }

  lemma KeptByte(cls: ElfClass, mem: seq<Byte>, start: nat, relas: seq<Rela>, own: Scope,
                 st: Symtab, table: map<Key, Line>, cs: seq<Rela>, i: nat, k: nat)
    requires Fits(cls, start, |mem|, relas) && DisjointTargets(cls, relas)
    requires Holds(cs, Emitted(cls, start, |mem|, st, table, relas))
    requires AllInside(mem, start, ConflictStores(cls, cs))
    requires i < |relas| && k < |mem| && StoreOf(cls, start, |mem|, relas[i], own).Covers(start + k)
    requires !HasConflict(start, |mem|, st, table, relas[i])
    ensures PrelinkedThenFixed(cls, mem, start, relas, own, cs)[k]
            == StoreOf(cls, start, |mem|, relas[i], own).bytes[start + k - relas[i].offset]
  {
    hide StoreOf, LittleEndian, ScopeOf;
    var prelinked := Relocated(cls, mem, start, relas, own);
    var ws := ConflictStores(cls, cs);
    forall j | 0 <= j < |ws| ensures !ws[j].Covers(start + k) {
      if ws[j].Covers(start + k) {
        var b := ConflictCover(cls, start, |mem|, st, table, relas, cs, j, start + k);
      }
    }
    UncoveredByte(prelinked, start, ws, |ws|, k);
    LoadedByte(cls, mem, start, relas, own, i, k);
  }

  /** A byte of a target after prelinking and the conflicts. */
  lemma TargetByte(cls: ElfClass, mem: seq<Byte>, start: nat, relas: seq<Rela>, own: Scope,
                   st: Symtab, table: map<Key, Line>, cs: seq<Rela>, i: nat, k: nat)
    requires Fits(cls, start, |mem|, relas) && DisjointTargets(cls, relas)
    requires Holds(cs, Emitted(cls, start, |mem|, st, table, relas))
    requires AllInside(mem, start, ConflictStores(cls, cs))
    requires i < |relas| && k < |mem| && StoreOf(cls, start, |mem|, relas[i], own).Covers(start + k)
    ensures |FinalStore(cls, start, |mem|, st, table, relas[i], own).bytes| > start + k - relas[i].offset
    ensures PrelinkedThenFixed(cls, mem, start, relas, own, cs)[k]
            == FinalStore(cls, start, |mem|, st, table, relas[i], own).bytes[start + k - relas[i].offset]
  {
    hide LittleEndian, Target;
    FinalShape(cls, start, |mem|, st, table, relas[i], own);
    if HasConflict(start, |mem|, st, table, relas[i]) {
      FixedByte(cls, mem, start, relas, own, st, table, cs, i, k);
    } else {
      KeptByte(cls, mem, start, relas, own, st, table, cs, i, k);
    }
  }

  /** A byte no relocation targets is the same before and after. */
  lemma OtherByte(cls: ElfClass, mem: seq<Byte>, start: nat, relas: seq<Rela>, own: Scope,
                  st: Symtab, table: map<Key, Line>, cs: seq<Rela>, k: nat)
    requires Fits(cls, start, |mem|, relas)
    requires Holds(cs, Emitted(cls, start, |mem|, st, table, relas))
    requires AllInside(mem, start, ConflictStores(cls, cs))
    requires k < |mem|
    requires forall i :: 0 <= i < |relas| ==> !StoreOf(cls, start, |mem|, relas[i], own).Covers(start + k)
    ensures PrelinkedThenFixed(cls, mem, start, relas, own, cs)[k] == mem[k]
  {
    hide LittleEndian, ScopeOf;
    var prelinked := Relocated(cls, mem, start, relas, own);
    var ws := ConflictStores(cls, cs);
    assert AllInside(prelinked, start, ws);
    forall j | 0 <= j < |ws| ensures !ws[j].Covers(start + k) {
      if ws[j].Covers(start + k) {
        var b := ConflictCover(cls, start, |mem|, st, table, relas, cs, j, start + k);
      }
    }
    UncoveredByte(prelinked, start, ws, |ws|, k);
    StoresInside(cls, mem, start, relas, own);
    UncoveredByte(mem, start, StoresOf(cls, start, |mem|, relas, own), |relas|, k);
  }

  /** A byte of one target after relocating at load time. */
  lemma LoadedByte(cls: ElfClass, mem: seq<Byte>, start: nat, relas: seq<Rela>, exe: Scope, i: nat, k: nat)
    requires Fits(cls, start, |mem|, relas) && DisjointTargets(cls, relas)
    requires i < |relas| && k < |mem| && StoreOf(cls, start, |mem|, relas[i], exe).Covers(start + k)
    ensures Relocated(cls, mem, start, relas, exe)[k]
            == StoreOf(cls, start, |mem|, relas[i], exe).bytes[start + k - relas[i].offset]
  {
    hide StoreOf;
    StoresInside(cls, mem, start, relas, exe);
    StoresIndependent(cls, start, |mem|, relas, exe);
    CoveredByte(mem, start, StoresOf(cls, start, |mem|, relas, exe), |relas|, i, k);
  }

  /** When every final store is the load-time store, the memories are equal. */
  lemma SameStoresSameMemory(cls: ElfClass, mem: seq<Byte>, start: nat, relas: seq<Rela>, own: Scope, exe: Scope,
                             st: Symtab, table: map<Key, Line>, cs: seq<Rela>)
    requires Fits(cls, start, |mem|, relas) && DisjointTargets(cls, relas)
    requires Holds(cs, Emitted(cls, start, |mem|, st, table, relas))
    requires AllInside(mem, start, ConflictStores(cls, cs))
    requires forall i :: 0 <= i < |relas| ==>
      FinalStore(cls, start, |mem|, st, table, relas[i], own) == StoreOf(cls, start, |mem|, relas[i], exe)
    ensures PrelinkedThenFixed(cls, mem, start, relas, own, cs) == Relocated(cls, mem, start, relas, exe)
  {
    hide StoreOf, LittleEndian, ConflictFor, Target, FinalStore;
    var len := |mem|;
    var fixed, loaded := PrelinkedThenFixed(cls, mem, start, relas, own, cs), Relocated(cls, mem, start, relas, exe);
    forall k | 0 <= k < len ensures fixed[k] == loaded[k] {
      if i :| 0 <= i < |relas| && StoreOf(cls, start, len, relas[i], own).Covers(start + k) {
        TargetByte(cls, mem, start, relas, own, st, table, cs, i, k);
        LoadedByte(cls, mem, start, relas, exe, i, k);
      } else {
        OtherByte(cls, mem, start, relas, own, st, table, cs, k);
        StoresInside(cls, mem, start, relas, exe);
        UncoveredByte(mem, start, StoresOf(cls, start, len, relas, exe), |relas|, k);
      }
    }
  }

  lemma CoversWithin(w: Write, a: nat)
    ensures w.Covers(a) <==> w.at <= a < w.at + |w.bytes|
  {
  }

  lemma StoreInside(cls: ElfClass, start: nat, len: nat, relas: seq<Rela>, scope: Scope, i: nat, b: nat)
    requires Fits(cls, start, len, relas) && i < |relas| && b < |StoreOf(cls, start, len, relas[i], scope).bytes|
    ensures start <= relas[i].offset && relas[i].offset - start + b < len
  {
  }

  lemma SameMemorySameByte(cls: ElfClass, mem: seq<Byte>, start: nat, relas: seq<Rela>, own: Scope, exe: Scope,
                           st: Symtab, table: map<Key, Line>, cs: seq<Rela>, i: nat, b: nat)
    requires Fits(cls, start, |mem|, relas) && DisjointTargets(cls, relas)
    requires Holds(cs, Emitted(cls, start, |mem|, st, table, relas))
    requires AllInside(mem, start, ConflictStores(cls, cs))
    requires PrelinkedThenFixed(cls, mem, start, relas, own, cs) == Relocated(cls, mem, start, relas, exe)
    requires i < |relas|
    requires b < |StoreOf(cls, start, |mem|, relas[i], exe).bytes|
    ensures |FinalStore(cls, start, |mem|, st, table, relas[i], own).bytes| > b
    ensures FinalStore(cls, start, |mem|, st, table, relas[i], own).bytes[b]
            == StoreOf(cls, start, |mem|, relas[i], exe).bytes[b]
  {
    hide *;
    StoreInside(cls, start, |mem|, relas, exe, i, b);
    var k := relas[i].offset - start + b;
    CoversWithin(StoreOf(cls, start, |mem|, relas[i], own), start + k);
    CoversWithin(StoreOf(cls, start, |mem|, relas[i], exe), start + k);
    TargetByte(cls, mem, start, relas, own, st, table, cs, i, k);
    LoadedByte(cls, mem, start, relas, exe, i, k);
  }

  /** When the memories are equal, every final store is the load-time store. */
  lemma SameMemorySameStores(cls: ElfClass, mem: seq<Byte>, start: nat, relas: seq<Rela>, own: Scope, exe: Scope,
                             st: Symtab, table: map<Key, Line>, cs: seq<Rela>, i: nat)
    requires Fits(cls, start, |mem|, relas) && DisjointTargets(cls, relas)
    requires Holds(cs, Emitted(cls, start, |mem|, st, table, relas))
    requires AllInside(mem, start, ConflictStores(cls, cs))
    requires PrelinkedThenFixed(cls, mem, start, relas, own, cs) == Relocated(cls, mem, start, relas, exe)
    requires i < |relas|
    ensures FinalStore(cls, start, |mem|, st, table, relas[i], own) == StoreOf(cls, start, |mem|, relas[i], exe)
  {
    hide *;
    var f := FinalStore(cls, start, |mem|, st, table, relas[i], own);
    var e := StoreOf(cls, start, |mem|, relas[i], exe);
    FinalShape(cls, start, |mem|, st, table, relas[i], own);
    forall b | 0 <= b < |e.bytes| ensures f.bytes[b] == e.bytes[b] {
      SameMemorySameByte(cls, mem, start, relas, own, exe, st, table, cs, i, b);
    }
  }

  /** Exactly when prelinking is invisible: when at every target the store of its conflict
      relocation, or failing one the store prelinked, is the store of the executable's scope. */
  lemma InvisibleExactly(cls: ElfClass, mem: seq<Byte>, start: nat, relas: seq<Rela>, own: Scope, exe: Scope,
                         st: Symtab, table: map<Key, Line>, cs: seq<Rela>)
    requires Fits(cls, start, |mem|, relas) && DisjointTargets(cls, relas)
    requires Holds(cs, Emitted(cls, start, |mem|, st, table, relas))
    ensures AllInside(mem, start, ConflictStores(cls, cs))
    ensures PrelinkedThenFixed(cls, mem, start, relas, own, cs) == Relocated(cls, mem, start, relas, exe)
            <==> forall i :: 0 <= i < |relas| ==>
                   FinalStore(cls, start, |mem|, st, table, relas[i], own) == StoreOf(cls, start, |mem|, relas[i], exe)
  {
    hide *;
    ConflictsInside(cls, mem, start, st, table, relas, cs);
    if PrelinkedThenFixed(cls, mem, start, relas, own, cs) == Relocated(cls, mem, start, relas, exe) {
      forall i | 0 <= i < |relas|
        ensures FinalStore(cls, start, |mem|, st, table, relas[i], own) == StoreOf(cls, start, |mem|, relas[i], exe)
      {
        SameMemorySameStores(cls, mem, start, relas, own, exe, st, table, cs, i);
      }
    }
    if forall i :: 0 <= i < |relas| ==>
         FinalStore(cls, start, |mem|, st, table, relas[i], own) == StoreOf(cls, start, |mem|, relas[i], exe)
    {
      SameStoresSameMemory(cls, mem, start, relas, own, exe, st, table, cs);
    }
  }

  /** The code finds a reference under the key that the trace lists it under. */
  lemma KeyIsTraced(st: Symtab, r: Rela)
    requires Symbolic(r.typ)
    ensures KeyOf(st, r) == TraceKey(st, r)
  {
    Pow256Four();
  }

  lemma LookupIsTraced(l: Line)
    ensures LookupValue(l) == (l.lookup.base + l.lookup.value) % 0x1_0000_0000_0000_0000
  {
    Pow256Four();
  }

  /** What a traced relocation ends up with is what the executable's scope asks for. */
  lemma FinalIsTraced(cls: ElfClass, start: nat, len: nat, st: Symtab, table: map<Key, Line>, relas: seq<Rela>,
                      own: Scope, exe: Scope, i: nat)
    requires Traced(start, len, st, table, relas, own, exe) && i < |relas|
    ensures FinalStore(cls, start, len, st, table, relas[i], own) == StoreOf(cls, start, len, relas[i], exe)
  {
    hide StoreOf, ConflictFor, Target, ConflictStore, KeyOf, TraceKey, LookupValue, Bound;
    var r := relas[i];
    if Symbolic(r.typ) { KeyIsTraced(st, r); }
    if HasConflict(start, len, st, table, r) {
      LookupIsTraced(table[KeyOf(st, r)]);
      ConflictStoresSame(cls, start, len, r, exe);
    } else {
      SameValueSameStore(cls, start, len, r, own, exe);
    }
  }

  /** Prelinking is invisible: prelinking the library in its own scope and then applying the
      executable's conflict relocations, in whatever order, gives the memory that relocating the
      library in the executable's scope gives. */
  lemma PrelinkIsInvisible(cls: ElfClass, mem: seq<Byte>, start: nat, relas: seq<Rela>, own: Scope, exe: Scope,
                           st: Symtab, table: map<Key, Line>, cs: seq<Rela>)
    requires Fits(cls, start, |mem|, relas) && DisjointTargets(cls, relas)
    requires Traced(start, |mem|, st, table, relas, own, exe)
    requires Holds(cs, Emitted(cls, start, |mem|, st, table, relas))
    ensures AllInside(mem, start, ConflictStores(cls, cs))
    ensures PrelinkedThenFixed(cls, mem, start, relas, own, cs) == Relocated(cls, mem, start, relas, exe)
  {
    hide *;
    ConflictsInside(cls, mem, start, st, table, relas, cs);
    forall i | 0 <= i < |relas|
      ensures FinalStore(cls, start, |mem|, st, table, relas[i], own) == StoreOf(cls, start, |mem|, relas[i], exe)
    {
      FinalIsTraced(cls, start, |mem|, st, table, relas, own, exe, i);
    }
    SameStoresSameMemory(cls, mem, start, relas, own, exe, st, table, cs);
  }

  /** A scope matters to a store only through the symbol's value, and only for symbolic types. */
  lemma SameValueSameStore(cls: ElfClass, start: nat, len: nat, r: Rela, own: Scope, exe: Scope)
    requires Symbolic(r.typ) && InSection(start, len, r.offset) ==> Bound(own, r) == Bound(exe, r)
    ensures StoreOf(cls, start, len, r, own) == StoreOf(cls, start, len, r, exe)
  {
  }

  /** Stores of the same size at the same place agree when the values do in the bytes stored. */
  lemma SameBytes(v: int, w: int, n: nat)
    ensures LittleEndian(v, n) == LittleEndian(w, n) <==> v % Pow256(n) == w % Pow256(n)
  {
    LittleEndianRoundTrip(v, n);
    LittleEndianRoundTrip(w, n);
    TruncateFirst(v, n, n);
    TruncateFirst(w, n, n);
  }

  /** The conflict of a relocation matters: the two scopes bind it to values that differ in the bytes stored. */
  ghost predicate Matters(cls: ElfClass, start: nat, len: nat, st: Symtab, table: map<Key, Line>, r: Rela) {
    InSection(start, len, r.offset) && Symbolic(r.typ) && TraceKey(st, r) in table
    && var line := table[TraceKey(st, r)];
       (line.lookup.base + line.lookup.value) % Pow256(Size(cls, r))
       != (line.conflict.base + line.conflict.value) % Pow256(Size(cls, r))
  }

  lemma ModDifference(v: int, w: int, m: nat)
    requires m > 0
    ensures v % m == w % m <==> (v - w) % m == 0
  {
    var q, p := v / m, w / m;
    assert v - w == (q - p) * m + (v % m - w % m);
    if v % m >= w % m { ModUnique(v - w, m, q - p, v % m - w % m); }
    else {
      assert v - w == (q - p - 1) * m + (m + v % m - w % m);
      ModUnique(v - w, m, q - p - 1, m + v % m - w % m);
    }
  }

  /** One store, in both scopes. */
  lemma StoresAgree(cls: ElfClass, start: nat, len: nat, st: Symtab, table: map<Key, Line>, relas: seq<Rela>,
                    own: Scope, exe: Scope, i: nat)
    requires Traced(start, len, st, table, relas, own, exe) && i < |relas|
    ensures StoreOf(cls, start, len, relas[i], own) == StoreOf(cls, start, len, relas[i], exe)
            <==> !Matters(cls, start, len, st, table, relas[i])
  {
    var r := relas[i];
    if InSection(start, len, r.offset) && Symbolic(r.typ) {
      BoundBytes(cls, start, len, r, own, exe);
      if TraceKey(st, r) in table {
        var line := table[TraceKey(st, r)];
        ReducedFirst(line.lookup.base + line.lookup.value, Size(cls, r));
        ReducedFirst(line.conflict.base + line.conflict.value, Size(cls, r));
      }
    } else {
      SameValueSameStore(cls, start, len, r, own, exe);
    }
  }

  lemma ReducedFirst(v: int, n: nat)
    requires n == 4 || n == 8
    ensures v % 0x1_0000_0000_0000_0000 % Pow256(n) == v % Pow256(n)
  {
    Pow256Four();
  }

  lemma BoundBytes(cls: ElfClass, start: nat, len: nat, r: Rela, own: Scope, exe: Scope)
    requires InSection(start, len, r.offset) && Symbolic(r.typ)
    ensures Size(cls, r) == 4 || Size(cls, r) == 8
    ensures StoreOf(cls, start, len, r, own) == StoreOf(cls, start, len, r, exe)
            <==> Bound(own, r) % Pow256(Size(cls, r)) == Bound(exe, r) % Pow256(Size(cls, r))
  {
    hide LittleEndian, Pow256, Bound;
    var v, w := Target(cls, r, Bound(own, r)).0, Target(cls, r, Bound(exe, r)).0;
    SameBytes(v, w, Size(cls, r));
    ModDifference(v, w, Pow256(Size(cls, r)));
    ModDifference(Bound(own, r), Bound(exe, r), Pow256(Size(cls, r)));
    assert v - w == Bound(own, r) - Bound(exe, r);
  }

  /** Without its conflict relocations the prelinked library is what the executable's scope asks for exactly when no
      conflict of the trace matters. */
  lemma ConflictsMatter(cls: ElfClass, mem: seq<Byte>, start: nat, relas: seq<Rela>, own: Scope, exe: Scope,
                        st: Symtab, table: map<Key, Line>)
    requires Fits(cls, start, |mem|, relas) && DisjointTargets(cls, relas)
    requires Traced(start, |mem|, st, table, relas, own, exe)
    ensures Relocated(cls, mem, start, relas, own) == Relocated(cls, mem, start, relas, exe)
            <==> forall r :: r in relas ==> !Matters(cls, start, |mem|, st, table, r)
  {
    hide *;
    NothingEmitted(cls, start, |mem|, st, relas);
    InvisibleExactly(cls, mem, start, relas, own, exe, st, map[], []);
    NothingFixed(cls, mem, start, relas, own);
    forall i | 0 <= i < |relas|
      ensures relas[i] in relas && (Matters(cls, start, |mem|, st, table, relas[i]) <==>
              FinalStore(cls, start, |mem|, st, map[], relas[i], own) != StoreOf(cls, start, |mem|, relas[i], exe))
    {
      StoresAgree(cls, start, |mem|, st, table, relas, own, exe, i);
      NoFixup(cls, start, |mem|, st, relas[i], own);
    }
  }

  lemma NothingEmitted(cls: ElfClass, start: nat, len: nat, st: Symtab, relas: seq<Rela>)
    ensures Holds([], Emitted(cls, start, len, st, map[], relas))
  {
    forall c ensures c !in Emitted(cls, start, len, st, map[], relas) {
      EmittedMembers(cls, start, len, st, map[], relas, c);
    }
  }

  lemma NothingFixed(cls: ElfClass, mem: seq<Byte>, start: nat, relas: seq<Rela>, own: Scope)
    requires Fits(cls, start, |mem|, relas)
    ensures AllInside(mem, start, ConflictStores(cls, []))
    ensures PrelinkedThenFixed(cls, mem, start, relas, own, []) == Relocated(cls, mem, start, relas, own)
  {
  }

  lemma NoFixup(cls: ElfClass, start: nat, len: nat, st: Symtab, r: Rela, own: Scope)
    ensures FinalStore(cls, start, len, st, map[], r, own) == StoreOf(cls, start, len, r, own)
  {
  }

  /** The code of the three stages run one after the other on a library and its conflict table. */
  method PrelinkThenLoad(p: Prelinker, b: ConflictBuilder, relas: seq<Rela>, ghost exe: Scope)
    requires p.cls == b.cls && p.dso.order == Lsb && b.conflictRela == [] && b.table.Valid()
    requires SymbolsInRange(relas, |p.symbols|) && forall r :: r in relas ==> Supported(r.typ)
    requires Fits(p.cls, p.dso.start, p.dso.data.Length, relas) && DisjointTargets(p.cls, relas)
    requires Traced(p.dso.start, p.dso.data.Length, b.st, b.table.Contents(), relas, ScopeOf(p.symbols), exe)
    modifies p, p.dso.data, b, b.table.log
    ensures p.dso.data[..] == Relocated(p.cls, old(p.dso.data[..]), p.dso.start, relas, exe)
  {
    hide StoreOf, ScopeOf, Target, Traced, Emitted;
    ghost var mem := p.dso.data[..];
    var ok := b.ConflictSection(p.dso.start, p.dso.data.Length, relas);
    PrelinkIsInvisible(p.cls, mem, p.dso.start, relas, ScopeOf(p.symbols), exe, b.st, b.table.Contents(),
                       b.conflictRela);
    ConflictsInside(p.cls, mem, p.dso.start, b.st, b.table.Contents(), relas, b.conflictRela);
    ok := p.PrelinkTable(relas);
    ApplyConflicts(p.cls, p.dso, b.conflictRela);
  }
}
