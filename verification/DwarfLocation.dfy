/** Shifting the addresses of a DWARF location expression in place (src/dwarf2.c). */
module DwarfLocation {
  import opened ByteImage

  /** How the operands of an operation are laid out: an address; bytes and LEB128 numbers; a reference, whose size
      depends on the unit; a block with its length before it, of plain bytes or an expression; a typed constant. */
  datatype Kind = Address | Plain(fixed: nat, lebs: nat) | Reference(lebs: nat) | Counted | Nested | Typed | Unknown

  // The operands of the operations, section 7.7.1 of DWARF version 4 with the GNU extensions, one row for 16 codes:
  // an address, none, bytes, LEB128 numbers (u, U), a reference (r, with a number i), a block (b), an expression (e), a
  // typed constant (t), a byte and a number (d)

  const ROW0 := "???a??.?11224488"
  const ROW1 := "uu...1.........."
  const ROW2 := "...u....2......2"
  const ROW9 := "uuUu11..24r..Ub."
  const ROWF := ".?ietUdu?u4?????"

  ghost function Operands(op: Byte): char {
    if op < 0x10 then ROW0[op]
    else if op < 0x20 then ROW1[op - 0x10]
    else if op < 0x30 then ROW2[op - 0x20]
    else if op < 0x70 then '.'
    else if op < 0x90 then 'u'
    else if op < 0xa0 then ROW9[op - 0x90]
    else if op < 0xf0 then (if op == 0xe0 then '.' else '?')
    else ROWF[op - 0xf0]
  }

  ghost function KindOf(op: Byte): Kind {
    match Operands(op)
    case 'a' => Address
    case '.' => Plain(0, 0)
    case '1' => Plain(1, 0)
    case '2' => Plain(2, 0)
    case '4' => Plain(4, 0)
    case '8' => Plain(8, 0)
    case 'u' => Plain(0, 1)
    case 'U' => Plain(0, 2)
    case 'd' => Plain(1, 1)
    case 'r' => Reference(0)
    case 'i' => Reference(1)
    case 'b' => Counted
    case 'e' => Nested
    case 't' => Typed
    case _ => Unknown
  }

  // The source

  const DW_OP_addr := 0x03
  const DW_OP_call_ref := 0x9a
  const DW_OP_implicit_value := 0x9e
  const DW_OP_GNU_implicit_pointer := 0xf2
  const DW_OP_GNU_entry_value := 0xf3
  const DW_OP_GNU_const_type := 0xf4
  const DW_OP_GNU_deref_type := 0xf6

  /** The cases of adjust_location_list. */
  function CaseOf(op: Byte): Kind {
    if op == DW_OP_addr then Address
    // deref; dup to xderef but for pick; abs to xor but for plus_uconst; eq to ne; lit0 to reg31; and so on
    else if op == 0x06 || op in {0x12, 0x13, 0x14, 0x16, 0x17, 0x18} || (0x19 <= op <= 0x27 && op != 0x23)
            || 0x29 <= op <= 0x2e || 0x30 <= op <= 0x6f
            || op in {0x96, 0x97, 0x9b, 0x9c, 0x9f, 0xe0, 0xf0} then Plain(0, 0)
    // const1u, const1s, pick, deref_size, xderef_size
    else if op in {0x08, 0x09, 0x15, 0x94, 0x95} then Plain(1, 0)
    // const2u, const2s, bra, skip, call2
    else if op in {0x0a, 0x0b, 0x28, 0x2f, 0x98} then Plain(2, 0)
    // const4u, const4s, call4, GNU_parameter_ref
    else if op in {0x0c, 0x0d, 0x99, 0xfa} then Plain(4, 0)
    else if op == DW_OP_call_ref then Reference(0)
    // const8u, const8s
    else if op in {0x0e, 0x0f} then Plain(8, 0)
    // constu, consts, plus_uconst, breg0 to breg31, regx, fbreg, piece, GNU_convert, GNU_reinterpret
    else if op in {0x10, 0x11, 0x23, 0x90, 0x91, 0x93, 0xf7, 0xf9} || 0x70 <= op <= 0x8f then Plain(0, 1)
    // bregx, bit_piece, GNU_regval_type
    else if op in {0x92, 0x9d, 0xf5} then Plain(0, 2)
    else if op == DW_OP_implicit_value then Counted
    else if op == DW_OP_GNU_implicit_pointer then Reference(1)
    else if op == DW_OP_GNU_entry_value then Nested
    else if op == DW_OP_GNU_const_type then Typed
    else if op == DW_OP_GNU_deref_type then Plain(1, 1)
    else Unknown
  }

  lemma CaseIsKind(op: Byte)
    ensures CaseOf(op) == KindOf(op)
  {
    if op < 0x10 { CaseRow0(op); }
    else if op < 0x20 { CaseRow1(op); }
    else if op < 0x30 { CaseRow2(op); }
    else if 0x90 <= op < 0xa0 { CaseRow9(op); }
    else if 0xf0 <= op { CaseRowF(op); }
  }

  lemma CaseRow0(op: Byte)
    requires 0x00 <= op < 0x010
    ensures CaseOf(op) == KindOf(op)
  {
    assert op == 0x00 || op == 0x01 || op == 0x02 || op == 0x03 || op == 0x04 || op == 0x05 || op == 0x06 || op == 0x07
           || op == 0x08 || op == 0x09 || op == 0x0a || op == 0x0b || op == 0x0c || op == 0x0d || op == 0x0e
           || op == 0x0f;
  }

  lemma CaseRow1(op: Byte)
    requires 0x10 <= op < 0x020
    ensures CaseOf(op) == KindOf(op)
  {
    assert op == 0x10 || op == 0x11 || op == 0x12 || op == 0x13 || op == 0x14 || op == 0x15 || op == 0x16 || op == 0x17
           || op == 0x18 || op == 0x19 || op == 0x1a || op == 0x1b || op == 0x1c || op == 0x1d || op == 0x1e
           || op == 0x1f;
  }

  lemma CaseRow2(op: Byte)
    requires 0x20 <= op < 0x030
    ensures CaseOf(op) == KindOf(op)
  {
    assert op == 0x20 || op == 0x21 || op == 0x22 || op == 0x23 || op == 0x24 || op == 0x25 || op == 0x26 || op == 0x27
           || op == 0x28 || op == 0x29 || op == 0x2a || op == 0x2b || op == 0x2c || op == 0x2d || op == 0x2e
           || op == 0x2f;
  }

  lemma CaseRow9(op: Byte)
    requires 0x90 <= op < 0x0a0
    ensures CaseOf(op) == KindOf(op)
  {
    assert op == 0x90 || op == 0x91 || op == 0x92 || op == 0x93 || op == 0x94 || op == 0x95 || op == 0x96 || op == 0x97
           || op == 0x98 || op == 0x99 || op == 0x9a || op == 0x9b || op == 0x9c || op == 0x9d || op == 0x9e
           || op == 0x9f;
  }

  lemma CaseRowF(op: Byte)
    requires 0xf0 <= op < 0x100
    ensures CaseOf(op) == KindOf(op)
  {
    assert op == 0xf0 || op == 0xf1 || op == 0xf2 || op == 0xf3 || op == 0xf4 || op == 0xf5 || op == 0xf6 || op == 0xf7
           || op == 0xf8 || op == 0xf9 || op == 0xfa || op == 0xfb || op == 0xfc || op == 0xfd || op == 0xfe
           || op == 0xff;
  }

  /** Pointer size, byte order, whether the unit has version 2, and whether there is a unit at all. */
  datatype Unit = Unit(wide: bool, order: Order, version2: bool, inCu: bool) {
    function PtrSize(): (n: nat)
      ensures n == 4 || n == 8
    {
      if wide then 8 else 4
    }

    ghost function RefSize(): nat {
      if version2 then PtrSize() else 4
    }
  }

  // LEB128 numbers, section 7.6 of DWARF version 4

  /** Where the number at p ends; past end if it does not end before. */
  function LebEnd(m: seq<Byte>, p: nat, end: nat): (q: nat)
    requires end <= |m|
    ensures q > p || q == end + 1
    ensures q <= end ==> p < q && m[q - 1] < 128 && forall k :: p <= k < q - 1 ==> m[k] >= 128
    decreases end - p
  {
    if p >= end then end + 1 else if m[p] < 128 then p + 1 else LebEnd(m, p + 1, end)
  }

  /** What the bytes from p to q stand for. */
  function LebValue(m: seq<Byte>, p: nat, q: nat): nat
    requires q <= |m|
    decreases q - p
  {
    if p >= q then 0 else m[p] % 128 + 128 * LebValue(m, p + 1, q)
  }

  function LebsEnd(m: seq<Byte>, p: nat, end: nat, n: nat): (q: nat)
    requires end <= |m|
    ensures q >= p || q == end + 1
    decreases n
  {
    if n == 0 then p else if LebEnd(m, p, end) > end then end + 1 else LebsEnd(m, LebEnd(m, p, end), end, n - 1)
  }

  // Expressions, section 2.5 of DWARF version 4

  /** Where the body of a block begins. */
  function BodyAt(m: seq<Byte>, p: nat, end: nat): (b: nat)
    requires p < end <= |m|
    ensures b > p
  {
    LebEnd(m, p + 1, end)
  }

  /** Where the operation at p ends; past end if it is not known or not complete. */
  ghost function OpEnd(m: seq<Byte>, p: nat, end: nat, u: Unit): (q: nat)
    requires p < end <= |m|
    ensures q > p
  {
    match KindOf(m[p])
    case Address => p + 1 + u.PtrSize()
    case Plain(fixed, lebs) => LebsEnd(m, p + 1 + fixed, end, lebs)
    case Reference(lebs) => LebsEnd(m, p + 1 + u.RefSize(), end, lebs)
    case Counted => var b := BodyAt(m, p, end); if b > end then end + 1 else b + LebValue(m, p + 1, b)
    case Nested => var b := BodyAt(m, p, end); if b > end then end + 1 else b + LebValue(m, p + 1, b)
    case Typed => var b := BodyAt(m, p, end); if b >= end then end + 1 else b + 1 + m[b]
    case Unknown => end + 1
  }

  ghost predicate WellFormed(m: seq<Byte>, p: nat, end: nat, u: Unit)
    requires p <= end <= |m|
    decreases end - p, 1
  {
    p < end ==> WellFormedOp(m, p, end, u) && WellFormed(m, OpEnd(m, p, end, u), end, u)
  }

  ghost predicate WellFormedOp(m: seq<Byte>, p: nat, end: nat, u: Unit)
    requires p < end <= |m|
    decreases end - p, 0
  {
    && OpEnd(m, p, end, u) <= end
    && (KindOf(m[p]) == Nested ==> BodyAt(m, p, end) <= end && WellFormed(m, BodyAt(m, p, end), OpEnd(m, p, end, u), u))
  }

  /** An operation as a value. A length is long if it is written with five bytes or more. */
  datatype Item = Addr(v: nat) | Op(bytes: seq<Byte>) | Ref(bytes: seq<Byte>) | Block(bytes: seq<Byte>, long: bool)
                | Entry(head: seq<Byte>, long: bool, body: seq<Item>)

  /** read_uleb128 gives up on such a number. */
  predicate Long(m: seq<Byte>, p: nat, end: nat)
    requires p < end <= |m|
  {
    BodyAt(m, p, end) - (p + 1) >= 5
  }

  ghost function ItemAt(m: seq<Byte>, p: nat, end: nat, u: Unit): Item
    requires p < end <= |m| && WellFormedOp(m, p, end, u)
    decreases end - p, 0
  {
    var q := OpEnd(m, p, end, u);
    match KindOf(m[p])
    case Address => Addr(Decode(u.order, m[p + 1..q]))
    case Reference(_) => Ref(m[p..q])
    case Counted => Block(m[p..q], Long(m, p, end))
    case Nested => Entry(m[p..BodyAt(m, p, end)], Long(m, p, end), Items(m, BodyAt(m, p, end), q, u))
    case _ => Op(m[p..q])
  }

  /** The operations from p to end. */
  ghost function Items(m: seq<Byte>, p: nat, end: nat, u: Unit): seq<Item>
    requires p <= end <= |m| && WellFormed(m, p, end, u)
    decreases end - p, 1
  {
    if p == end then [] else [ItemAt(m, p, end, u)] + Items(m, OpEnd(m, p, end, u), end, u)
  }

  // What is wanted, and what happens

  /** The addresses to be shifted, and by how much. */
  datatype Shift = Shift(start: nat, section: nat -> bool, adjust: int) {
    function Apply(v: nat, u: Unit): nat {
      if v >= start && section(v) then (v + adjust) % Pow256(u.PtrSize()) else v
    }
  }

  /** Every address shifted, in nested expressions too. */
  function Wanted(items: seq<Item>, s: Shift, u: Unit): seq<Item> {
    if items == [] then []
    else
      [match items[0]
       case Addr(v) => Addr(s.Apply(v, u))
       case Entry(head, long, body) => Entry(head, long, Wanted(body, s, u))
       case _ => items[0]]
      + Wanted(items[1..], s, u)
  }

  /** What the source makes of an expression: whether it succeeds, and how far it gets. A reference needs a unit; a
      block with a long length ends the rewriting there; a nested expression with one is an error. */
  function Outcome(items: seq<Item>, s: Shift, u: Unit): (bool, seq<Item>) {
    if items == [] then (true, [])
    else
      match items[0]
      case Addr(v) => Then(Addr(s.Apply(v, u)), Outcome(items[1..], s, u))
      case Op(_) => Then(items[0], Outcome(items[1..], s, u))
      case Ref(_) => if u.inCu then Then(items[0], Outcome(items[1..], s, u)) else (false, items)
      case Block(_, long) => if long then (true, items) else Then(items[0], Outcome(items[1..], s, u))
      case Entry(head, long, body) =>
        if long then (false, items)
        else
          var inner := Outcome(body, s, u);
          var item := Entry(head, long, inner.1);
          if inner.0 then Then(item, Outcome(items[1..], s, u)) else (false, [item] + items[1..])
  }

  function Then(item: Item, r: (bool, seq<Item>)): (bool, seq<Item>) {
    (r.0, [item] + r.1)
  }

  /** No reference without a unit, no nested expression with a long length, and nothing to shift behind a block
      with a long length. */
  predicate Fine(items: seq<Item>, s: Shift, u: Unit) {
    items != [] ==>
      match items[0]
      case Ref(_) => u.inCu && Fine(items[1..], s, u)
      case Block(_, long) => if long then Wanted(items[1..], s, u) == items[1..] else Fine(items[1..], s, u)
      case Entry(_, long, body) => !long && Fine(body, s, u) && Fine(items[1..], s, u)
      case _ => Fine(items[1..], s, u)
  }

  lemma ConsEqual(x: Item, a: seq<Item>, y: Item, b: seq<Item>)
    ensures [x] + a == [y] + b <==> x == y && a == b
  {
    if [x] + a == [y] + b {
      assert ([x] + a)[0] == ([y] + b)[0] && ([x] + a)[1..] == ([y] + b)[1..];
    }
  }

  /** An expression is rewritten as wanted exactly when that is so. */
  lemma {:induction false} FineExactly(items: seq<Item>, s: Shift, u: Unit)
    ensures Outcome(items, s, u) == (true, Wanted(items, s, u)) <==> Fine(items, s, u)
  {
    if items != [] {
      var rest := items[1..];
      FineExactly(rest, s, u);
      assert items == [items[0]] + rest;
      match items[0] {
        case Addr(v) =>
          ConsEqual(Addr(s.Apply(v, u)), Outcome(rest, s, u).1, Addr(s.Apply(v, u)), Wanted(rest, s, u));
        case Entry(head, long, body) =>
          FineExactly(body, s, u);
          ConsEqual(Entry(head, long, Outcome(body, s, u).1), Outcome(rest, s, u).1,
                    Entry(head, long, Wanted(body, s, u)), Wanted(rest, s, u));
        case _ =>
          ConsEqual(items[0], Outcome(rest, s, u).1, items[0], Wanted(rest, s, u));
          ConsEqual(items[0], rest, items[0], Wanted(rest, s, u));
      }
    }
  }

  // An operation depends on its own bytes alone

  ghost predicate Agree(m: seq<Byte>, n: seq<Byte>, a: nat, b: nat) {
    |m| == |n| && forall k :: a <= k < b && k < |m| ==> m[k] == n[k]
  }

  lemma {:induction false} LebSame(m: seq<Byte>, n: seq<Byte>, p: nat, end: nat)
    requires end <= |m| && LebEnd(m, p, end) <= end && Agree(m, n, p, LebEnd(m, p, end))
    ensures LebEnd(n, p, end) == LebEnd(m, p, end)
    ensures LebValue(n, p, LebEnd(m, p, end)) == LebValue(m, p, LebEnd(m, p, end))
    decreases end - p
  {
    if m[p] >= 128 { LebSame(m, n, p + 1, end); } else { assert LebValue(n, p + 1, p + 1) == 0; }
  }

  lemma {:induction false} LebsSame(m: seq<Byte>, n: seq<Byte>, p: nat, end: nat, c: nat)
    requires end <= |m| && LebsEnd(m, p, end, c) <= end && Agree(m, n, p, LebsEnd(m, p, end, c))
    ensures LebsEnd(n, p, end, c) == LebsEnd(m, p, end, c)
    decreases c
  {
    if c > 0 {
      LebSame(m, n, p, end);
      LebsSame(m, n, LebEnd(m, p, end), end, c - 1);
    }
  }

  /** Where the bytes end that say how long the operation is. */
  ghost function HeadEnd(m: seq<Byte>, p: nat, end: nat, u: Unit): nat
    requires p < end <= |m|
  {
    match KindOf(m[p])
    case Address => p + 1
    case Counted => BodyAt(m, p, end)
    case Nested => BodyAt(m, p, end)
    case _ => OpEnd(m, p, end, u)
  }

  lemma HeadSame(m: seq<Byte>, n: seq<Byte>, p: nat, end: nat, u: Unit)
    requires p < end <= |m| && OpEnd(m, p, end, u) <= end && Agree(m, n, p, HeadEnd(m, p, end, u))
    ensures n[p] == m[p] && OpEnd(n, p, end, u) == OpEnd(m, p, end, u)
    ensures KindOf(m[p]) in {Counted, Nested, Typed} ==> BodyAt(n, p, end) == BodyAt(m, p, end)
  {
    hide KindOf, LebEnd, LebValue, LebsEnd;
    assert n[p] == m[p];
    var k := KindOf(m[p]);
    if k in {Counted, Nested, Typed} {
      hide LebsEnd;
      LebSame(m, n, p + 1, end);
    } else if k.Plain? {
      LebsSame(m, n, p + 1 + k.fixed, end, k.lebs);
    } else if k.Reference? {
      LebsSame(m, n, p + 1 + u.RefSize(), end, k.lebs);
    }
  }

  lemma {:induction false} OpSame(m: seq<Byte>, n: seq<Byte>, p: nat, end: nat, u: Unit)
    requires p < end <= |m| && WellFormedOp(m, p, end, u) && Agree(m, n, p, OpEnd(m, p, end, u))
    ensures OpEnd(n, p, end, u) == OpEnd(m, p, end, u) && WellFormedOp(n, p, end, u)
    ensures ItemAt(n, p, end, u) == ItemAt(m, p, end, u)
    decreases end - p, 0
  {
    var q := OpEnd(m, p, end, u);
    HeadSame(m, n, p, end, u);
    assert n[p..q] == m[p..q] && n[p + 1..q] == m[p + 1..q];
    if KindOf(m[p]) == Nested {
      var b := BodyAt(m, p, end);
      assert n[p..b] == m[p..b];
      ItemsSame(m, n, b, q, u);
    }
  }

  lemma {:induction false} ItemsSame(m: seq<Byte>, n: seq<Byte>, p: nat, end: nat, u: Unit)
    requires p <= end <= |m| && WellFormed(m, p, end, u) && Agree(m, n, p, end)
    ensures WellFormed(n, p, end, u) && Items(n, p, end, u) == Items(m, p, end, u)
    decreases end - p, 1
  {
    if p < end {
      OpSame(m, n, p, end, u);
      ItemsSame(m, n, OpEnd(m, p, end, u), end, u);
    }
  }

  /** Reading operations from p on gives done and comes to q. */
  ghost predicate Reaches(m: seq<Byte>, p: nat, q: nat, end: nat, u: Unit, done: seq<Item>)
    requires q <= end <= |m|
    decreases |done|
  {
    if done == [] then p == q
    else p < q && WellFormedOp(m, p, end, u) && OpEnd(m, p, end, u) <= q && ItemAt(m, p, end, u) == done[0]
         && Reaches(m, OpEnd(m, p, end, u), q, end, u, done[1..])
  }

  lemma {:induction false} ReachesSame(m: seq<Byte>, n: seq<Byte>, p: nat, q: nat, end: nat, u: Unit, done: seq<Item>)
    requires p <= q <= end <= |m| && Reaches(m, p, q, end, u, done) && Agree(m, n, p, q)
    ensures Reaches(n, p, q, end, u, done)
    decreases |done|
  {
    if done != [] {
      OpSame(m, n, p, end, u);
      ReachesSame(m, n, OpEnd(m, p, end, u), q, end, u, done[1..]);
    }
  }

  lemma {:induction false} ReachesMore(m: seq<Byte>, p: nat, q: nat, end: nat, u: Unit, done: seq<Item>)
    requires p <= q < end <= |m| && Reaches(m, p, q, end, u, done) && WellFormedOp(m, q, end, u)
    ensures Reaches(m, p, OpEnd(m, q, end, u), end, u, done + [ItemAt(m, q, end, u)])
    decreases |done|
  {
    var more := done + [ItemAt(m, q, end, u)];
    if done == [] {
      assert more[1..] == [] && Reaches(m, OpEnd(m, q, end, u), OpEnd(m, q, end, u), end, u, []);
    } else {
      assert more[1..] == done[1..] + [ItemAt(m, q, end, u)];
      ReachesMore(m, OpEnd(m, p, end, u), q, end, u, done[1..]);
    }
  }

  lemma ItemsStep(m: seq<Byte>, p: nat, end: nat, u: Unit)
    requires p < end <= |m| && WellFormedOp(m, p, end, u) && WellFormed(m, OpEnd(m, p, end, u), end, u)
    ensures WellFormed(m, p, end, u)
    ensures Items(m, p, end, u) == [ItemAt(m, p, end, u)] + Items(m, OpEnd(m, p, end, u), end, u)
  {
    hide OpEnd, WellFormedOp, ItemAt;
  }

  lemma ReachesStep(m: seq<Byte>, p: nat, q: nat, end: nat, u: Unit, done: seq<Item>)
    requires q <= end <= |m| && Reaches(m, p, q, end, u, done) && done != []
    ensures p < q && WellFormedOp(m, p, end, u) && OpEnd(m, p, end, u) <= q && ItemAt(m, p, end, u) == done[0]
    ensures Reaches(m, OpEnd(m, p, end, u), q, end, u, done[1..])
  {
    hide OpEnd, WellFormedOp, ItemAt;
  }

  lemma ReachesNone(m: seq<Byte>, p: nat, q: nat, end: nat, u: Unit)
    requires q <= end <= |m|
    ensures Reaches(m, p, q, end, u, []) <==> p == q
  {
  }

  lemma {:induction false} ReachesItems(m: seq<Byte>, p: nat, q: nat, end: nat, u: Unit, done: seq<Item>)
    requires p <= q <= end <= |m| && Reaches(m, p, q, end, u, done) && WellFormed(m, q, end, u)
    ensures WellFormed(m, p, end, u) && Items(m, p, end, u) == done + Items(m, q, end, u)
    decreases |done|
  {
    hide *;
    if done == [] {
      ReachesNone(m, p, q, end, u);
      assert done + Items(m, q, end, u) == Items(m, q, end, u);
    } else {
      ReachesStep(m, p, q, end, u, done);
      ReachesItems(m, OpEnd(m, p, end, u), q, end, u, done[1..]);
      ItemsStep(m, p, end, u);
      assert done + Items(m, q, end, u) == [done[0]] + (done[1..] + Items(m, q, end, u));
    }
  }

  // The rewriting

  const UINT_MAX: nat := 0xffff_ffff

  function Times(w: nat, d: nat): nat {
    w * d
  }

  lemma TimesSplit(w: nat, c: nat, rest: nat)
    ensures Times(w, c + 128 * rest) == Times(w, c) + Times(w * 128, rest)
  {
    assert w * (c + 128 * rest) == w * c + w * (128 * rest);
    assert w * (128 * rest) == (w * 128) * rest;
  }

  /** What has been read of a number, its digits so far weighing up to weight, and what is left of it. */
  ghost predicate LebRead(m: seq<Byte>, p: nat, ptr: nat, q: nat, ret: nat, weight: nat)
    requires q <= |m|
  {
    ret + Times(weight, LebValue(m, ptr, q)) == LebValue(m, p, q)
  }

  lemma LebStart(m: seq<Byte>, p: nat, q: nat)
    requires q <= |m|
    ensures LebRead(m, p, p, q, 0, 1)
  {
  }

  lemma LebNext(m: seq<Byte>, p: nat, ptr: nat, q: nat, ret: nat, weight: nat)
    requires ptr < q <= |m| && LebRead(m, p, ptr, q, ret, weight)
    ensures LebRead(m, p, ptr + 1, q, ret + Times(weight, m[ptr] % 128), weight * 128)
  {
    hide Times;
    TimesSplit(weight, m[ptr] % 128, LebValue(m, ptr + 1, q));
  }

  lemma LebAll(m: seq<Byte>, p: nat, q: nat, ret: nat, weight: nat)
    requires q <= |m| && LebRead(m, p, q, q, ret, weight)
    ensures ret == LebValue(m, p, q)
  {
  }

  lemma LebByte(m: seq<Byte>, ptr: nat, end: nat)
    requires end <= |m| && LebEnd(m, ptr, end) <= end
    ensures ptr < LebEnd(m, ptr, end)
    ensures if m[ptr] < 128 then LebEnd(m, ptr, end) == ptr + 1 else LebEnd(m, ptr + 1, end) == LebEnd(m, ptr, end)
  {
  }

  /** read_uleb128. Bits that leave the 32-bit word belong to numbers of five bytes or more, which it does not tell. */
  method ReadUleb(a: array<Byte>, p: nat, ghost end: nat) returns (ret: nat, ptr: nat)
    requires end <= a.Length && LebEnd(a[..], p, end) <= end
    ensures ptr == LebEnd(a[..], p, end)
    ensures ret == if ptr - p >= 5 then 0xffff_ffff else LebValue(a[..], p, ptr)
  {
    assert UINT_MAX == 0xffff_ffff;
    hide *;
    ghost var m, q := a[..], LebEnd(a[..], p, end);
    LebByte(m, p, end);
    LebStart(m, p, q);
    var shift: nat, weight: nat, more := 0, 1, true;
    ret, ptr := 0, p;
    while more
      invariant p <= ptr <= q && shift == 7 * (ptr - p) && (more <==> ptr < q)
      invariant (more ==> LebEnd(m, ptr, end) == q) && LebRead(m, p, ptr, q, ret, weight)
      decreases q - ptr
    {
      var c := a[ptr];
      LebByte(m, ptr, end);
      LebNext(m, p, ptr, q, ret, weight);
      if more && c >= 128 { LebByte(m, ptr + 1, end); }
      ret, weight := ret + Times(weight, c % 128), weight * 128;
      ptr, shift, more := ptr + 1, shift + 7, c >= 128;
    }
    LebAll(m, p, q, ret, weight);
    if shift >= 35 {
      ret := UINT_MAX;
    }
  }

  /** write_ptr */
  method WritePtr(a: array<Byte>, p: nat, v: int, u: Unit)
    requires p + u.PtrSize() <= a.Length
    modifies a
    ensures a[p..p + u.PtrSize()] == Encode(u.order, v, u.PtrSize())
    ensures Agree(old(a[..]), a[..], 0, p) && Agree(old(a[..]), a[..], p + u.PtrSize(), a.Length)
  {
    var bytes := Encode(u.order, v, u.PtrSize());
    forall k | 0 <= k < |bytes| {
      a[p + k] := bytes[k];
    }
  }

  /** What becomes of one operation: success, whether the rewriting ends behind it, and the operation. */
  function OpOutcome(item: Item, s: Shift, u: Unit): (bool, bool, Item) {
    match item
    case Addr(v) => (true, false, Addr(s.Apply(v, u)))
    case Op(_) => (true, false, item)
    case Ref(_) => (u.inCu, false, item)
    case Block(_, long) => (true, long, item)
    case Entry(head, long, body) =>
      if long then (false, false, item)
      else (Outcome(body, s, u).0, false, Entry(head, long, Outcome(body, s, u).1))
  }

  lemma OutcomeStep(items: seq<Item>, s: Shift, u: Unit)
    requires items != []
    ensures var (ok, stop, item) := OpOutcome(items[0], s, u);
            Outcome(items, s, u) == if !ok then (false, [item] + items[1..])
                                    else if stop then (true, [item] + items[1..])
                                    else Then(item, Outcome(items[1..], s, u))
  {
    assert items == [items[0]] + items[1..];
  }

  /** After the operation at p has been dealt with: only its bytes have changed, and as they should. */
  ghost predicate OpDone(was: seq<Byte>, now: seq<Byte>, p: nat, end: nat, u: Unit, s: Shift, ok: bool, next: nat)
    requires p < end <= |was| && WellFormedOp(was, p, end, u)
  {
    var q := OpEnd(was, p, end, u);
    && Agree(was, now, 0, p) && Agree(was, now, q, |was|)
    && WellFormedOp(now, p, end, u) && OpEnd(now, p, end, u) == q
    && (ok, next > end, ItemAt(now, p, end, u)) == OpOutcome(ItemAt(was, p, end, u), s, u)
    && (ok && next <= end ==> next == q)
  }

  lemma AddressDone(was: seq<Byte>, now: seq<Byte>, p: nat, end: nat, u: Unit, s: Shift)
    requires p < end <= |was| && WellFormedOp(was, p, end, u) && KindOf(was[p]) == Address
    requires Agree(was, now, 0, p + 1) && Agree(was, now, p + 1 + u.PtrSize(), |was|)
    requires var v := Decode(u.order, was[p + 1..p + 1 + u.PtrSize()]);
             now[p + 1..p + 1 + u.PtrSize()] == if v >= s.start && s.section(v)
             then Encode(u.order, v + s.adjust, u.PtrSize())
                                                else was[p + 1..p + 1 + u.PtrSize()]
    ensures OpDone(was, now, p, end, u, s, true, p + 1 + u.PtrSize())
  {
    var v := Decode(u.order, was[p + 1..p + 1 + u.PtrSize()]);
    HeadSame(was, now, p, end, u);
    WordRoundTrip(u.order, v + s.adjust, u.PtrSize());
  }

  /** DW_OP_addr */
  method ShiftAddress(a: array<Byte>, p: nat, ghost end: nat, u: Unit, s: Shift) returns (next: nat)
    requires p < end <= a.Length && WellFormedOp(a[..], p, end, u) && KindOf(a[p]) == Address
    modifies a
    ensures OpDone(old(a[..]), a[..], p, end, u, s, true, next)
  {
    ghost var was := a[..];
    next := p + 1 + u.PtrSize();
    assert next == OpEnd(was, p, end, u);
    assert was[p + 1..next] == a[p + 1..next];
    var addr := Decode(u.order, a[p + 1..next]);
    if addr >= s.start && s.section(addr) {
      WritePtr(a, p + 1, addr + s.adjust, u);
    }
    ghost var now := a[..];
    assert now[p + 1..next] == a[p + 1..next];
    AddressDone(was, now, p, end, u, s);
  }

  method SkipLebs(a: array<Byte>, p: nat, ghost end: nat, n: nat) returns (q: nat)
    requires end <= a.Length && LebsEnd(a[..], p, end, n) <= end
    ensures q == LebsEnd(a[..], p, end, n)
  {
    q := p;
    var i := 0;
    while i < n
      invariant 0 <= i <= n && LebsEnd(a[..], q, end, n - i) == LebsEnd(a[..], p, end, n)
    {
      var _, next := ReadUleb(a, q, end);
      q, i := next, i + 1;
    }
  }

  /** The parts of a block with its length. */
  lemma BlockParts(m: seq<Byte>, p: nat, end: nat, u: Unit)
    requires p < end <= |m| && WellFormedOp(m, p, end, u) && KindOf(m[p]) in {Counted, Nested, Typed}
    ensures var b := BodyAt(m, p, end);
            && b == LebEnd(m, p + 1, end) && b <= end && (Long(m, p, end) <==> b - (p + 1) >= 5)
            && (KindOf(m[p]) == Typed ==> b < end && OpEnd(m, p, end, u) == b + 1 + m[b])
            && (KindOf(m[p]) != Typed ==> OpEnd(m, p, end, u) == b + LebValue(m, p + 1, b))
            && (KindOf(m[p]) == Nested ==> WellFormed(m, b, OpEnd(m, p, end, u), u))
  {
    hide KindOf, LebEnd, LebValue;
  }

  /** An operation that is none of an address, a reference, or a block with its length. */
  lemma SkippedDone(m: seq<Byte>, p: nat, end: nat, u: Unit, s: Shift)
    requires p < end <= |m| && WellFormedOp(m, p, end, u) && !(KindOf(m[p]) in {Address, Counted, Nested})
    requires KindOf(m[p]).Reference? ==> u.inCu
    ensures OpDone(m, m, p, end, u, s, true, OpEnd(m, p, end, u))
  {
    hide KindOf, LebsEnd;
  }

  lemma NoUnitDone(m: seq<Byte>, p: nat, end: nat, u: Unit, s: Shift)
    requires p < end <= |m| && WellFormedOp(m, p, end, u) && KindOf(m[p]).Reference? && !u.inCu
    ensures OpDone(m, m, p, end, u, s, false, p)
  {
    hide KindOf, LebsEnd;
  }

  lemma BlockDone(m: seq<Byte>, p: nat, end: nat, u: Unit, s: Shift, next: nat)
    requires p < end <= |m| && WellFormedOp(m, p, end, u) && KindOf(m[p]) == Counted
    requires if Long(m, p, end) then next > end else next == OpEnd(m, p, end, u)
    ensures OpDone(m, m, p, end, u, s, true, next)
  {
    hide KindOf, LebEnd, LebValue;
  }

  lemma LongEntryDone(m: seq<Byte>, p: nat, end: nat, u: Unit, s: Shift)
    requires p < end <= |m| && WellFormedOp(m, p, end, u) && KindOf(m[p]) == Nested && Long(m, p, end)
    ensures OpDone(m, m, p, end, u, s, false, p)
  {
    hide KindOf, LebEnd, LebValue, Items;
  }

  lemma EntryDone(was: seq<Byte>, now: seq<Byte>, p: nat, end: nat, u: Unit, s: Shift, ok: bool)
    requires p < end <= |was| && WellFormedOp(was, p, end, u) && KindOf(was[p]) == Nested && !Long(was, p, end)
    requires var b, q := BodyAt(was, p, end), OpEnd(was, p, end, u);
             && b <= q <= end && Agree(was, now, 0, b) && Agree(was, now, q, |was|)
             && WellFormed(was, b, q, u) && WellFormed(now, b, q, u)
             && (ok, Items(now, b, q, u)) == Outcome(Items(was, b, q, u), s, u)
    ensures OpDone(was, now, p, end, u, s, ok, OpEnd(was, p, end, u))
  {
    HeadSame(was, now, p, end, u);
    hide KindOf, LebEnd, LebValue, Items, Outcome;
    var b := BodyAt(was, p, end);
    assert now[p..b] == was[p..b];
  }

  /** One operation. A length that cannot be told is taken for the largest: it ends the expression, or is refused. */
  method AdjustOp(a: array<Byte>, p: nat, end: nat, u: Unit, s: Shift) returns (ok: bool, next: nat)
    requires p < end <= a.Length < UINT_MAX && WellFormedOp(a[..], p, end, u)
    modifies a
    ensures OpDone(old(a[..]), a[..], p, end, u, s, ok, next)
    decreases end - p, 0
  {
    ghost var was := a[..];
    ok := true;
    CaseIsKind(a[p]);
    hide KindOf, CaseOf, LebEnd, LebValue;
    var kind := CaseOf(a[p]);
    if kind == Address {
      next := ShiftAddress(a, p, end, u, s);
    } else if kind.Reference? && !u.inCu {
      NoUnitDone(was, p, end, u, s);
      ok, next := false, p;
    } else if kind in {Counted, Nested, Typed} {
      ok, next := AdjustBlock(a, p, end, u, s);
    } else {
      SkippedDone(was, p, end, u, s);
      var size := if kind.Plain? then kind.fixed else if u.version2 then u.PtrSize() else 4;
      next := SkipLebs(a, p + 1 + size, end, kind.lebs);
    }
  }

  /** An operation with a length. */
  method AdjustBlock(a: array<Byte>, p: nat, end: nat, u: Unit, s: Shift) returns (ok: bool, next: nat)
    requires p < end <= a.Length < UINT_MAX && WellFormedOp(a[..], p, end, u)
             && KindOf(a[p]) in {Counted, Nested, Typed}
    modifies a
    ensures OpDone(old(a[..]), a[..], p, end, u, s, ok, next)
    decreases end - p, 0, 1
  {
    ghost var was := a[..];
    assert was[p] == a[p];
    CaseIsKind(a[p]);
    BlockParts(was, p, end, u);
    hide *;
    var leni, ptr := ReadUleb(a, p + 1, end);
    ok := true;
    if CaseOf(a[p]) == Counted {
      next := ptr + leni;
      BlockDone(was, p, end, u, s, next);
    } else if CaseOf(a[p]) == Nested {
      ok, next := AdjustEntry(a, p, end, u, s, leni, ptr);
    } else {
      SkippedDone(was, p, end, u, s);
      next := ptr + a[ptr] + 1;
    }
  }

  /** DW_OP_GNU_entry_value, its length having been read. */
  method AdjustEntry(a: array<Byte>, p: nat, end: nat, u: Unit, s: Shift, leni: nat, ptr: nat)
    returns (ok: bool, next: nat)
    requires p < end <= a.Length < UINT_MAX && WellFormedOp(a[..], p, end, u) && KindOf(a[p]) == Nested
    requires ptr == BodyAt(a[..], p, end)
    requires leni == if ptr - (p + 1) >= 5 then UINT_MAX else LebValue(a[..], p + 1, ptr)
    modifies a
    ensures OpDone(old(a[..]), a[..], p, end, u, s, ok, next)
    decreases end - p, 0, 0
  {
    ghost var was := a[..];
    assert was[p] == a[p];
    BlockParts(was, p, end, u);
    BodyBehind(was, p, end);
    hide *;
    if end - ptr < leni {
      LongEntryDone(was, p, end, u, s);
      return false, p;
    }
    next := ptr + leni;
    assert next == OpEnd(was, p, end, u);
    ok := AdjustLocationList(a, ptr, next, u, s);
    ghost var now := a[..];
    AdjustedFacts(was, now, ptr, next, u, s, ok);
    EntryDone(was, now, p, end, u, s, ok);
  }

  lemma BodyBehind(m: seq<Byte>, p: nat, end: nat)
    requires p < end <= |m|
    ensures BodyAt(m, p, end) > p
  {
  }

  /** The operations before ptr have been dealt with, and give done. */
  ghost predicate SoFar(was: seq<Byte>, now: seq<Byte>, p: nat, ptr: nat, end: nat, u: Unit, s: Shift, done: seq<Item>)
    requires p <= end <= |was| && WellFormed(was, p, end, u)
  {
    && p <= ptr <= end && Agree(was, now, 0, p) && Agree(was, now, ptr, |was|)
    && WellFormed(was, ptr, end, u) && Reaches(now, p, ptr, end, u, done)
    && Outcome(Items(was, p, end, u), s, u)
       == (Outcome(Items(was, ptr, end, u), s, u).0, done + Outcome(Items(was, ptr, end, u), s, u).1)
  }

  /** The expression is what the source makes of it. */
  ghost predicate Adjusted(was: seq<Byte>, now: seq<Byte>, p: nat, end: nat, u: Unit, s: Shift, ok: bool)
    requires p <= end <= |was| && WellFormed(was, p, end, u)
  {
    && Agree(was, now, 0, p) && Agree(was, now, end, |was|)
    && WellFormed(now, p, end, u) && (ok, Items(now, p, end, u)) == Outcome(Items(was, p, end, u), s, u)
  }

  lemma AdjustedFacts(was: seq<Byte>, now: seq<Byte>, p: nat, end: nat, u: Unit, s: Shift, ok: bool)
    requires p <= end <= |was| && WellFormed(was, p, end, u)
    ensures Adjusted(was, now, p, end, u, s, ok) <==>
            && Agree(was, now, 0, p) && Agree(was, now, end, |was|) && |now| == |was|
            && WellFormed(now, p, end, u) && (ok, Items(now, p, end, u)) == Outcome(Items(was, p, end, u), s, u)
  {
    hide WellFormed, Items, Outcome;
  }

  lemma SoFarFacts(was: seq<Byte>, now: seq<Byte>, p: nat, ptr: nat, end: nat, u: Unit, s: Shift, done: seq<Item>)
    requires p <= end <= |was| && WellFormed(was, p, end, u)
    ensures SoFar(was, now, p, ptr, end, u, s, done) <==>
            && p <= ptr <= end && Agree(was, now, 0, p) && Agree(was, now, ptr, |was|) && |now| == |was|
            && WellFormed(was, ptr, end, u) && Reaches(now, p, ptr, end, u, done)
            && Outcome(Items(was, p, end, u), s, u)
               == (Outcome(Items(was, ptr, end, u), s, u).0, done + Outcome(Items(was, ptr, end, u), s, u).1)
  {
    hide WellFormed, Items, Outcome, Reaches;
  }

  lemma OpDoneFacts(was: seq<Byte>, now: seq<Byte>, p: nat, end: nat, u: Unit, s: Shift, ok: bool, next: nat)
    requires p < end <= |was| && WellFormedOp(was, p, end, u) && OpDone(was, now, p, end, u, s, ok, next)
    ensures |now| == |was| && Agree(was, now, 0, p) && Agree(was, now, OpEnd(was, p, end, u), |was|)
    ensures WellFormedOp(now, p, end, u) && OpEnd(now, p, end, u) == OpEnd(was, p, end, u) > p
    ensures (ok, next > end, ItemAt(now, p, end, u)) == OpOutcome(ItemAt(was, p, end, u), s, u)
    ensures ok && next <= end ==> next == OpEnd(was, p, end, u)
  {
    hide WellFormedOp, OpEnd, ItemAt, OpOutcome;
  }

  lemma SoFarStart(was: seq<Byte>, p: nat, end: nat, u: Unit, s: Shift)
    requires p <= end <= |was| && WellFormed(was, p, end, u)
    ensures SoFar(was, was, p, p, end, u, s, [])
  {
    ReachesNone(was, p, p, end, u);
    assert [] + Outcome(Items(was, p, end, u), s, u).1 == Outcome(Items(was, p, end, u), s, u).1;
  }

  lemma SoFarOp(was: seq<Byte>, now: seq<Byte>, p: nat, ptr: nat, end: nat, u: Unit, s: Shift, done: seq<Item>)
    requires p <= end <= |was| && WellFormed(was, p, end, u) && SoFar(was, now, p, ptr, end, u, s, done) && ptr < end
    ensures |now| == |was| && WellFormedOp(was, ptr, end, u) && WellFormedOp(now, ptr, end, u)
    ensures OpEnd(now, ptr, end, u) == OpEnd(was, ptr, end, u) <= end
            && ItemAt(now, ptr, end, u) == ItemAt(was, ptr, end, u)
    ensures WellFormed(was, OpEnd(was, ptr, end, u), end, u)
  {
    OpSame(was, now, ptr, end, u);
  }

  lemma AgreeBoth(was: seq<Byte>, mid: seq<Byte>, now: seq<Byte>, a: nat, b: nat)
    requires Agree(was, mid, a, b) && Agree(mid, now, a, b)
    ensures Agree(was, now, a, b)
  {
  }

  lemma AgreePart(m: seq<Byte>, n: seq<Byte>, a: nat, b: nat, c: nat, d: nat)
    requires Agree(m, n, a, b) && a <= c && d <= b
    ensures Agree(m, n, c, d)
  {
  }

  /** What one operation more comes to. */
  lemma SoFarNext(was: seq<Byte>, mid: seq<Byte>, now: seq<Byte>, p: nat, ptr: nat, end: nat, u: Unit, s: Shift,
                  done: seq<Item>, ok: bool, next: nat)
    requires p <= end <= |was| && WellFormed(was, p, end, u) && SoFar(was, mid, p, ptr, end, u, s, done) && ptr < end
    requires |mid| == |was| && WellFormedOp(mid, ptr, end, u) && OpDone(mid, now, ptr, end, u, s, ok, next)
    ensures |now| == |was| && WellFormedOp(now, ptr, end, u)
    ensures ok && next <= end ==> ptr < next && SoFar(was, now, p, next, end, u, s, done + [ItemAt(now, ptr, end, u)])
    ensures !(ok && next <= end) ==> Adjusted(was, now, p, end, u, s, ok)
  {
    hide *;
    SoFarOp(was, mid, p, ptr, end, u, s, done);
    SoFarFacts(was, mid, p, ptr, end, u, s, done);
    OpDoneFacts(mid, now, ptr, end, u, s, ok, next);
    var q, item, it := OpEnd(was, ptr, end, u), ItemAt(was, ptr, end, u), ItemAt(now, ptr, end, u);
    var rest := Items(was, q, end, u);
    ItemsStep(was, ptr, end, u);
    assert ([item] + rest)[1..] == rest;
    OutcomeStep([item] + rest, s, u);
    AgreePart(mid, now, 0, ptr, p, ptr);
    ReachesSame(mid, now, p, ptr, end, u, done);
    ReachesMore(now, p, ptr, end, u, done);
    AgreeFirst(was, mid, now, p, ptr);
    AgreePart(was, mid, ptr, |was|, q, |was|);
    AgreeBoth(was, mid, now, q, |was|);
    if ok && next <= end {
      ThenIs(it, Outcome(rest, s, u));
      assert done + ([it] + Outcome(rest, s, u).1) == (done + [it]) + Outcome(rest, s, u).1;
      SoFarFacts(was, now, p, next, end, u, s, done + [it]);
    } else {
      AgreePart(was, now, q, |was|, q, end);
      AgreePart(was, now, q, |was|, end, |was|);
      ItemsSame(was, now, q, end, u);
      ReachesItems(now, p, q, end, u, done + [it]);
      assert done + ([it] + rest) == (done + [it]) + rest;
      AdjustedFacts(was, now, p, end, u, s, ok);
    }
  }

  lemma ThenIs(item: Item, r: (bool, seq<Item>))
    ensures Then(item, r) == (r.0, [item] + r.1)
  {
  }

  lemma AgreeFirst(was: seq<Byte>, mid: seq<Byte>, now: seq<Byte>, p: nat, ptr: nat)
    requires Agree(was, mid, 0, p) && Agree(mid, now, 0, ptr) && p <= ptr
    ensures Agree(was, now, 0, p)
  {
  }

  /** At the end. */
  lemma SoFarEnd(was: seq<Byte>, now: seq<Byte>, p: nat, end: nat, u: Unit, s: Shift, done: seq<Item>)
    requires p <= end <= |was| && WellFormed(was, p, end, u) && SoFar(was, now, p, end, end, u, s, done)
    ensures Adjusted(was, now, p, end, u, s, true)
  {
    ReachesItems(now, p, end, end, u, done);
    assert done + [] == done;
  }

  /** adjust_location_list: in place, and in nested expressions too. */
  method AdjustLocationList(a: array<Byte>, p: nat, end: nat, u: Unit, s: Shift) returns (ok: bool)
    requires p <= end <= a.Length < UINT_MAX && WellFormed(a[..], p, end, u)
    modifies a
    ensures Adjusted(old(a[..]), a[..], p, end, u, s, ok)
    decreases end - p, 1
  {
    hide *;
    ghost var was, done := a[..], [];
    SoFarStart(was, p, end, u, s);
    var ptr := p;
    while ptr < end
      invariant p <= ptr <= end && SoFar(was, a[..], p, ptr, end, u, s, done)
      decreases end - ptr
    {
      ghost var mid := a[..];
      SoFarOp(was, mid, p, ptr, end, u, s, done);
      var next;
      ok, next := AdjustOp(a, ptr, end, u, s);
      SoFarNext(was, mid, a[..], p, ptr, end, u, s, done, ok, next);
      if !ok || next > end {
        return;
      }
      done := done + [ItemAt(a[..], ptr, end, u)];
      ptr := next;
    }
    SoFarEnd(was, a[..], p, end, u, s, done);
    ok := true;
  }

  /** So the expression becomes what is wanted exactly when it is fine: with no long length and, where references
      occur, a unit, always. */
  lemma AdjustedExactly(was: seq<Byte>, now: seq<Byte>, p: nat, end: nat, u: Unit, s: Shift, ok: bool)
    requires p <= end <= |was| && WellFormed(was, p, end, u) && Adjusted(was, now, p, end, u, s, ok)
    ensures (ok && Items(now, p, end, u) == Wanted(Items(was, p, end, u), s, u)) <==> Fine(Items(was, p, end, u), s, u)
  {
    hide WellFormed, Items, Wanted, Outcome, Fine;
    FineExactly(Items(was, p, end, u), s, u);
  }

  /** A constant is no address, even if it is as long as one: the operation takes its own bytes and stays as it is. */
  lemma ConstantsStay(m: seq<Byte>, p: nat, end: nat, u: Unit, s: Shift)
    requires p < end <= |m| && 0x08 <= m[p] <= 0x0f
    requires p + 1 + (if m[p] < 0x0a then 1 else if m[p] < 0x0c then 2 else if m[p] < 0x0e then 4 else 8) <= end
    ensures var q := p + 1 + if m[p] < 0x0a then 1 else if m[p] < 0x0c then 2 else if m[p] < 0x0e then 4 else 8;
            && WellFormedOp(m, p, end, u) && OpEnd(m, p, end, u) == q && ItemAt(m, p, end, u) == Op(m[p..q])
            && Wanted([ItemAt(m, p, end, u)], s, u) == [Op(m[p..q])]
  {
    assert m[p] == 0x08 || m[p] == 0x09 || m[p] == 0x0a || m[p] == 0x0b || m[p] == 0x0c || m[p] == 0x0d || m[p] == 0x0e
           || m[p] == 0x0f;
    assert Wanted([], s, u) == [];
  }

  /** A nested expression of one address, its length of nine padded to five bytes, is well formed and refused. */
  lemma PaddedLength(m: seq<Byte>, u: Unit, s: Shift)
    requires |m| == 15 && m[..7] == [DW_OP_GNU_entry_value, 0x89, 0x80, 0x80, 0x80, 0x00, DW_OP_addr] && u.wide
    ensures WellFormed(m, 0, 15, u) && !Outcome(Items(m, 0, 15, u), s, u).0
  {
    assert m[0] == m[..7][0] && m[1] == m[..7][1] && m[2] == m[..7][2] && m[3] == m[..7][3] && m[4] == m[..7][4];
    assert m[5] == m[..7][5] && m[6] == m[..7][6];
    assert LebEnd(m, 5, 15) == LebEnd(m, 4, 15) == LebEnd(m, 3, 15) == LebEnd(m, 2, 15) == LebEnd(m, 1, 15) == 6;
    assert LebValue(m, 5, 6) == LebValue(m, 4, 6) == LebValue(m, 3, 6) == LebValue(m, 2, 6) == 0
           && LebValue(m, 1, 6) == 9;
    hide LebEnd, LebValue;
    assert OpEnd(m, 6, 15, u) == 15 && WellFormed(m, 15, 15, u) && WellFormed(m, 6, 15, u);
    assert KindOf(m[0]) == Nested && BodyAt(m, 0, 15) == 6 && OpEnd(m, 0, 15, u) == 15 && Long(m, 0, 15);
    hide KindOf;
    ItemsStep(m, 0, 15, u);
  }
}
