/** Folding the three i386 library regions into one line and unfolding it again (src/arch-i386.c). Each
    region is cut in two; the line runs through the upper part of the first region, its lower part, the
    upper part of the second, and so on. */
module Folding {
  import opened Placement
  import opened FreeAddress
  import opened Rotation
  import opened Word32

  /** addrs[12] of struct i386_layout_data: part j runs from a[2 * j] to a[2 * j + 1]. */
  predicate Divided(a: seq<int>) {
    && |a| == 12 && 0 <= a[0] <= a[1] == a[2] <= a[3] < a[4] <= a[5] == a[6] <= a[7] < a[8] <= a[9] == a[10] <= a[11]
    && a[11] <= REG2E
  }

  function Len(a: seq<int>, j: nat): int
    requires |a| == 12 && j < 6
  {
    a[2 * j + 1] - a[2 * j]
  }

  /** Where part j begins on the line. */
  function FoldBase(a: seq<int>, j: nat): int
    requires |a| == 12 && j < 6
  {
    (if j < 2 then 0 else if j < 4 then a[3] - a[0] else a[3] - a[0] + (a[7] - a[4]))
    + if j % 2 == 1 then 0 else a[2 * j + 3] - a[2 * j + 2]
  }

  /** How far part j is shifted to its place on the line. */
  function Delta(a: seq<int>, j: nat): int
    requires |a| == 12 && j < 6
  {
    FoldBase(a, j) - a[2 * j]
  }

  /** i ^ 1 */
  function Xor1(i: nat): (j: nat)
    ensures i < 6 ==> j < 6
  {
    if i % 2 == 0 then i + 1 else i - 1
  }

  /** The parts follow each other on the line without a gap, in the order 1, 0, 3, 2, 5, 4. */
  lemma PartsFollow(a: seq<int>, t: nat)
    requires Divided(a) && t < 5
    ensures FoldBase(a, Xor1(0)) == 0
    ensures FoldBase(a, Xor1(t)) + Len(a, Xor1(t)) == FoldBase(a, Xor1(t + 1)) && Len(a, Xor1(t)) >= 0
  {
  }

  /** The shift of a part fits the signed 32-bit word it is computed in. */
  lemma ShiftExact(a: seq<int>, j: nat)
    requires Divided(a) && j < 6
    ensures Sword(FoldBase(a, j) - a[2 * j]) == Delta(a, j) && Sword(a[2 * j] - FoldBase(a, j)) == -Delta(a, j)
  {
    SwordExact(FoldBase(a, j) - a[2 * j]);
    SwordExact(a[2 * j] - FoldBase(a, j));
  }

  /** list_append: e becomes the new tail. */
  method Append(x: Entry, e: Entry, ghost xs: seq<Entry>)
    requires Linked(x, xs) && xs != [] && e !in xs
    modifies x`prev, {x.prev}`next, e`prev, e`next
    ensures Linked(x, xs + [e])
  {
    Others(xs, 0);
    Others(xs, |xs| - 1);
    x.prev.next := e;
    e.prev := x.prev;
    e.next := null;
    x.prev := e;
    ghost var now := xs + [e];
    forall i | 0 <= i < |now| - 1 ensures now[i].next == now[i + 1] {
      if i < |xs| - 1 { assert xs[i].next == xs[i + 1]; }
    }
    forall i | 1 <= i < |now| ensures now[i].prev == now[i - 1] {
      if i < |xs| { assert xs[i].prev == xs[i - 1]; }
    }
  }

  /** list_merge: the list at e is put behind the list at x. */
  method Merge(x: Entry, e: Entry, ghost xs: seq<Entry>, ghost es: seq<Entry>)
    requires Linked(x, xs) && Linked(e, es) && xs != [] && es != [] && forall n :: n in xs ==> n !in es
    modifies x`prev, {x.prev}`next, e`prev
    ensures Linked(x, xs + es)
  {
    Others(xs, 0);
    Others(xs, |xs| - 1);
    Others(es, 0);
    forall i | 0 <= i < |xs| ensures xs[i] !in es {
    }
    var end := e.prev;
    x.prev.next := e;
    e.prev := x.prev;
    x.prev := end;
    ghost var now := xs + es;
    assert es[|es| - 1].next == null;
    forall i | 0 <= i < |now| - 1 ensures now[i].next == now[i + 1] {
      if i < |xs| - 1 { assert xs[i].next == xs[i + 1]; }
      else if i >= |xs| { assert es[i - |xs|].next == es[i - |xs| + 1]; }
    }
    forall i | 1 <= i < |now| ensures now[i].prev == now[i - 1] {
      if i < |xs| { assert xs[i].prev == xs[i - 1]; }
      else if i > |xs| { assert es[i - |xs|].prev == es[i - |xs| - 1]; }
    }
  }

  ghost predicate ShiftedBy(n: Entry, w: Range, d: int)
    reads n`base, n`end, n`layend, n`done, n`high
  {
    n.base == w.base + d && n.end == w.end + d && n.layend == w.layend + d && n.done == w.done && n.high == w.high
  }

  /** A library wholly in part j. */
  predicate InPart(w: Range, a: seq<int>, j: nat)
    requires |a| == 12 && j < 6
  {
    a[2 * j] <= w.base < w.layend <= a[2 * j + 1]
  }

  /** Every listed library lies in the part that home gives. */
  ghost predicate Homed(nodes: seq<Entry>, orig: map<Entry, Range>, a: seq<int>, home: map<Entry, nat>) {
    && Divided(a)
    && forall n :: n in nodes ==> n in orig && n in home && home[n] < 6 && InPart(orig[n], a, home[n])
  }

  /** The entry that begins part j on the line. */
  ghost predicate Opener(x: Entry, a: seq<int>, j: nat)
    requires |a| == 12 && j < 6
    reads x`base, x`end, x`layend, x`tmp
  {
    x.base == x.end == x.layend == FoldBase(a, j) && x.tmp == -1
  }

  /** xs is part j of the line: its opener and then libraries inside it. */
  ghost predicate Part(x: Entry, xs: seq<Entry>, a: seq<int>, j: nat)
    requires |a| == 12 && j < 6
    reads x, xs`prev, xs`next, xs`base, xs`layend
  {
    && xs != [] && xs[0] == x && Linked(x, xs) && Sorted(xs) && Opener(x, a, j)
    && forall n :: n in xs ==> FoldBase(a, j) <= n.base <= n.layend <= FoldBase(a, j) + Len(a, j)
  }

  /** parts[..i + 1] hold their openers and the first k nodes, each in the part that is its home. */
  ghost predicate Filed(fake: seq<Entry>, parts: seq<seq<Entry>>, i: nat, k: nat, nodes: seq<Entry>,
                        home: map<Entry, nat>)
    requires |fake| == 6 && |parts| == 6 && forall n :: n in nodes ==> n in home
  {
    && i < 6 && k <= |nodes|
    && (forall j, n :: 0 <= j <= i && n in parts[j] ==> n == fake[j] || (n in nodes[..k] && n in nodes && home[n] == j))
    && (forall m :: 0 <= m < k ==> home[nodes[m]] <= i && nodes[m] in parts[home[nodes[m]]])
  }

  /** The openers, the libraries, and no others. */
  ghost predicate Over(fake: seq<Entry>, nodes: seq<Entry>, parts: seq<seq<Entry>>, all: set<Entry>) {
    && |fake| == 6 && |parts| == 6
    && (forall j :: 0 <= j < 6 ==> fake[j] in all)
    && (forall n :: n in nodes ==> n in all)
    && (forall j, n :: 0 <= j < 6 && n in parts[j] ==> n in all)
  }

  ghost predicate PartsOk(fake: seq<Entry>, nodes: seq<Entry>, parts: seq<seq<Entry>>, i: nat, a: seq<int>,
                          all: set<Entry>)
    requires Over(fake, nodes, parts, all) && |a| == 12 && i < 6
    reads all
  {
    forall j :: 0 <= j <= i ==> Part(fake[j], parts[j], a, j)
  }

  /** The first k nodes have been shifted, the others are as they were, links included. */
  ghost predicate NodesOk(k: nat, nodes: seq<Entry>, a: seq<int>, orig: map<Entry, Range>, home: map<Entry, nat>)
    requires Homed(nodes, orig, a, home)
    reads nodes`base, nodes`end, nodes`layend, nodes`done, nodes`high, nodes`next
  {
    && (forall m :: 0 <= m < k && m < |nodes| ==>
          ShiftedBy(nodes[m], orig[nodes[m]], Delta(a, home[nodes[m]])))
    && (forall m :: k <= m < |nodes| ==> Kept(nodes[m], orig[nodes[m]]) && nodes[m].next == EntryAt(nodes, m + 1))
  }

  ghost function EntryAt(nodes: seq<Entry>, m: nat): Entry? {
    if m < |nodes| then nodes[m] else null
  }

  /** The state of the loop of i386_layout_libs_pre. */
  ghost predicate Folded(fake: seq<Entry>, parts: seq<seq<Entry>>, i: nat, k: nat, nodes: seq<Entry>,
                         a: seq<int>, orig: map<Entry, Range>, home: map<Entry, nat>, all: set<Entry>)
    reads all
  {
    && Over(fake, nodes, parts, all) && Separate(fake, nodes) && Homed(nodes, orig, a, home)
    && Filed(fake, parts, i, k, nodes, home)
    && PartsOk(fake, nodes, parts, i, a, all)
    && NodesOk(k, nodes, a, orig, home)
    && (forall j :: i < j < 6 ==> fake[j].next == null)
  }

  /** The openers and the libraries are all different. */
  ghost predicate Separate(fake: seq<Entry>, nodes: seq<Entry>) {
    |fake| == 6 && Distinct(fake) && Distinct(nodes) && forall x :: x in fake ==> x !in nodes
  }

  method Open(x: Entry, virt: int)
    modifies x`base, x`end, x`layend, x`tmp, x`prev
    ensures x.base == x.end == x.layend == virt && x.tmp == -1 && x.prev == x
  {
    x.tmp := -1;
    x.base := virt;
    x.end := x.base;
    x.layend := x.end;
    x.prev := x;
  }

  /** virt for the next part. */
  method StepVirt(a: seq<int>, i: nat, virt: int) returns (v: int)
    requires Divided(a) && 0 < i < 6 && virt == FoldBase(a, i - 1)
    ensures v == FoldBase(a, i)
  {
    if i % 2 == 1 {
      v := virt - (a[2 * i + 1] - a[2 * i]);
    } else {
      v := virt + (a[2 * i - 1] - a[2 * i - 4]);
      v := v + (a[2 * i + 3] - a[2 * i + 2]);
    }
  }

  /** An opener alone is an empty part. */
  lemma PartStart(x: Entry, a: seq<int>, j: nat)
    requires Divided(a) && j < 6 && Opener(x, a, j) && x.prev == x && x.next == null
    ensures Part(x, [x], a, j)
  {
  }

  lemma FoldedFacts(fake: seq<Entry>, parts: seq<seq<Entry>>, i: nat, k: nat, nodes: seq<Entry>,
                    a: seq<int>, orig: map<Entry, Range>, home: map<Entry, nat>, all: set<Entry>)
    requires Folded(fake, parts, i, k, nodes, a, orig, home, all)
    ensures i < 6 && |fake| == 6 && |parts| == 6 && k <= |nodes| && Divided(a)
    ensures Over(fake, nodes, parts, all) && Separate(fake, nodes) && Homed(nodes, orig, a, home)
    ensures (forall n :: n in nodes ==> n in home) && Filed(fake, parts, i, k, nodes, home)
    ensures forall j :: 0 <= j <= i ==> Part(fake[j], parts[j], a, j)
    ensures NodesOk(k, nodes, a, orig, home)
    ensures forall j :: i < j < 6 ==> fake[j].next == null
  {
  }

  lemma FoldedIntro(fake: seq<Entry>, parts: seq<seq<Entry>>, i: nat, k: nat, nodes: seq<Entry>,
                    a: seq<int>, orig: map<Entry, Range>, home: map<Entry, nat>, all: set<Entry>)
    requires i < 6 && |fake| == 6 && |parts| == 6 && k <= |nodes| && Divided(a)
    requires Over(fake, nodes, parts, all) && Separate(fake, nodes) && Homed(nodes, orig, a, home)
    requires (forall n :: n in nodes ==> n in home) && Filed(fake, parts, i, k, nodes, home)
    requires forall j :: 0 <= j <= i ==> Part(fake[j], parts[j], a, j)
    requires NodesOk(k, nodes, a, orig, home)
    requires forall j :: i < j < 6 ==> fake[j].next == null
    ensures Folded(fake, parts, i, k, nodes, a, orig, home, all)
  {
  }

  lemma OpenFiled(fake: seq<Entry>, parts: seq<seq<Entry>>, i: nat, k: nat, nodes: seq<Entry>, home: map<Entry, nat>,
                  all: set<Entry>)
    requires Over(fake, nodes, parts, all) && Separate(fake, nodes) && (forall n :: n in nodes ==> n in home)
    requires Filed(fake, parts, i, k, nodes, home) && i < 5
    ensures var now := parts[i + 1 := [fake[i + 1]]];
            Over(fake, nodes, now, all) && Filed(fake, now, i + 1, k, nodes, home)
    ensures fake[i + 1] !in nodes && forall j :: 0 <= j <= i ==> fake[j] != fake[i + 1] && fake[i + 1] !in parts[j]
  {
    assert fake[i + 1] in fake;
    Others(fake, i + 1);
  }

  /** Begin the next part. */
  method OpenNext(fake: seq<Entry>, a: seq<int>, i: nat, virt: int, ghost parts: seq<seq<Entry>>, ghost k: nat,
                  ghost nodes: seq<Entry>, ghost orig: map<Entry, Range>, ghost home: map<Entry, nat>,
                  ghost all: set<Entry>)
    returns (v: int, ghost now: seq<seq<Entry>>)
    requires Folded(fake, parts, i, k, nodes, a, orig, home, all)
    requires i < 5 && |fake| == 6 && |a| == 12 && virt == FoldBase(a, i)
    modifies {fake[i + 1]}`base, {fake[i + 1]}`end, {fake[i + 1]}`layend, {fake[i + 1]}`tmp, {fake[i + 1]}`prev
    ensures |a| == 12 && Folded(fake, now, i + 1, k, nodes, a, orig, home, all) && v == FoldBase(a, i + 1)
  {
    hide *;
    FoldedFacts(fake, parts, i, k, nodes, a, orig, home, all);
    OpenFiled(fake, parts, i, k, nodes, home, all);
    var x := fake[i + 1];
    now := parts[i + 1 := [x]];
    v := StepVirt(a, i + 1, virt);
    Open(x, v);
    OpenerIntro(x, a, i + 1);
    PartStart(x, a, i + 1);
    FoldedIntro(fake, now, i + 1, k, nodes, a, orig, home, all);
  }

  lemma OpenerIntro(x: Entry, a: seq<int>, j: nat)
    requires |a| == 12 && j < 6 && x.base == x.end == x.layend == FoldBase(a, j) && x.tmp == -1
    ensures Opener(x, a, j)
  {
  }

  /** What adding node k to part i may change: nothing of the other parts and the nodes after it. */
  lemma NodeApart(fake: seq<Entry>, parts: seq<seq<Entry>>, i: nat, k: nat, nodes: seq<Entry>, home: map<Entry, nat>,
                  all: set<Entry>)
    requires Over(fake, nodes, parts, all) && Separate(fake, nodes) && (forall n :: n in nodes ==> n in home)
    requires Filed(fake, parts, i, k, nodes, home) && k < |nodes|
    ensures forall m :: 0 <= m < |nodes| && m != k ==> nodes[m] != nodes[k]
    ensures forall j :: 0 <= j <= i ==> nodes[k] !in parts[j] && nodes[k] != fake[j]
    ensures forall j, n :: 0 <= j < i && (n in parts[j] || n == fake[j]) ==> n !in parts[i] && n != fake[i]
    ensures forall m :: k < m < |nodes| ==> nodes[m] !in parts[i] && nodes[m] != fake[i]
    ensures forall j :: i < j < 6 ==> fake[j] !in parts[i] && fake[j] != nodes[k]
  {
    Others(nodes, k);
    Others(fake, i);
    assert forall j :: 0 <= j <= i ==> fake[j] in fake;
    assert nodes[k] in nodes;
    LaterNotTaken(nodes, k);
    forall j, n | 0 <= j < i && (n in parts[j] || n == fake[j]) ensures n !in parts[i] && n != fake[i] {
      assert fake[j] != fake[i] && fake[i] in fake && fake[j] in fake;
      if n in nodes { assert home[n] == j; }
    }
    forall j | i < j < 6 ensures fake[j] !in parts[i] && fake[j] != nodes[k] {
      assert fake[j] in fake && fake[j] != fake[i];
    }
    forall m | k < m < |nodes| ensures nodes[m] !in parts[i] && nodes[m] != fake[i] {
      assert nodes[m] in nodes && fake[i] in fake;
    }
  }

  lemma LaterNotTaken(nodes: seq<Entry>, k: nat)
    requires Distinct(nodes) && k <= |nodes|
    ensures forall m :: k <= m < |nodes| ==> nodes[m] !in nodes[..k]
  {
  }

  lemma NodeFiled(fake: seq<Entry>, parts: seq<seq<Entry>>, i: nat, k: nat, nodes: seq<Entry>, home: map<Entry, nat>,
                  all: set<Entry>)
    requires Over(fake, nodes, parts, all) && Separate(fake, nodes) && (forall n :: n in nodes ==> n in home)
    requires Filed(fake, parts, i, k, nodes, home) && k < |nodes| && home[nodes[k]] == i
    ensures var now := parts[i := parts[i] + [nodes[k]]];
            Over(fake, nodes, now, all) && Filed(fake, now, i, k + 1, nodes, home)
  {
    var now := parts[i := parts[i] + [nodes[k]]];
    assert nodes[..k + 1] == nodes[..k] + [nodes[k]];
    forall j, n | 0 <= j <= i && n in now[j]
      ensures n == fake[j] || (n in nodes[..k + 1] && n in nodes && home[n] == j) {
      if j == i && n == nodes[k] { assert n in nodes[..k + 1]; }
    }
    forall m | 0 <= m < k + 1 ensures home[nodes[m]] <= i && nodes[m] in now[home[nodes[m]]] {
      if m < k && home[nodes[m]] == i { assert nodes[m] in parts[i]; }
    }
  }

  /** The part goes on with a library that starts no lower than the ones before. */
  lemma PartGrown(x: Entry, xs: seq<Entry>, e: Entry, a: seq<int>, j: nat)
    requires |a| == 12 && j < 6 && xs != [] && xs[0] == x && Linked(x, xs + [e]) && Sorted(xs) && Opener(x, a, j)
    requires forall n :: n in xs ==>
               FoldBase(a, j) <= n.base <= n.layend <= FoldBase(a, j) + Len(a, j) && n.base <= e.base
    requires FoldBase(a, j) <= e.base <= e.layend <= FoldBase(a, j) + Len(a, j)
    ensures Part(x, xs + [e], a, j)
  {
  }

  lemma PartParts(x: Entry, xs: seq<Entry>, a: seq<int>, j: nat)
    requires |a| == 12 && j < 6 && Part(x, xs, a, j)
    ensures xs != [] && xs[0] == x && x in xs && Linked(x, xs) && x.prev == xs[|xs| - 1] && x.prev in xs && Sorted(xs)
            && Opener(x, a, j)
    ensures forall n :: n in xs ==> FoldBase(a, j) <= n.base <= n.layend <= FoldBase(a, j) + Len(a, j)
  {
  }

  /** The libraries of a part start no higher than the next node, shifted. */
  lemma BelowNext(fake: seq<Entry>, parts: seq<seq<Entry>>, i: nat, k: nat, nodes: seq<Entry>, a: seq<int>,
                  orig: map<Entry, Range>, home: map<Entry, nat>)
    requires |fake| == 6 && |parts| == 6 && Homed(nodes, orig, a, home) && Filed(fake, parts, i, k, nodes, home)
    requires NodesOk(k, nodes, a, orig, home) && k < |nodes| && home[nodes[k]] == i && Opener(fake[i], a, i)
    requires SortedBefore(nodes, orig)
    ensures forall n :: n in parts[i] ==> n.base <= orig[nodes[k]].base + Delta(a, i)
  {
    assert nodes[k] in nodes;
    forall n | n in parts[i] ensures n.base <= orig[nodes[k]].base + Delta(a, i) {
      if n != fake[i] {
        assert n in nodes[..k];
        var m :| 0 <= m < k && nodes[m] == n;
        assert ShiftedBy(nodes[m], orig[n], Delta(a, i));
      }
    }
  }

  lemma NodeHome(nodes: seq<Entry>, k: nat, a: seq<int>, orig: map<Entry, Range>, home: map<Entry, nat>)
    requires Homed(nodes, orig, a, home) && k < |nodes| && NodesOk(k, nodes, a, orig, home)
    ensures Divided(a) && nodes[k] in orig && nodes[k] in home && home[nodes[k]] < 6
    ensures InPart(orig[nodes[k]], a, home[nodes[k]]) && Kept(nodes[k], orig[nodes[k]])
    ensures nodes[k].next == EntryAt(nodes, k + 1)
  {
    assert nodes[k] in nodes;
  }

  /** Shift an entry as a whole. */
  method Shift(e: Entry, d: int, ghost w: Range)
    requires Kept(e, w)
    modifies e`base, e`end, e`layend
    ensures ShiftedBy(e, w, d) && e.base == w.base + d && e.layend == w.layend + d
  {
    e.base := e.base + d;
    e.end := e.end + d;
    e.layend := e.layend + d;
  }

  lemma NodesParts(k: nat, nodes: seq<Entry>, a: seq<int>, orig: map<Entry, Range>, home: map<Entry, nat>)
    requires Homed(nodes, orig, a, home) && NodesOk(k, nodes, a, orig, home)
    ensures |a| == 12 && forall m :: 0 <= m < |nodes| ==> nodes[m] in orig && nodes[m] in home && home[nodes[m]] < 6
    ensures forall m :: 0 <= m < k && m < |nodes| ==>
              ShiftedBy(nodes[m], orig[nodes[m]], Delta(a, home[nodes[m]]))
    ensures forall m :: k <= m < |nodes| ==> Kept(nodes[m], orig[nodes[m]]) && nodes[m].next == EntryAt(nodes, m + 1)
  {
    assert forall m :: 0 <= m < |nodes| ==> nodes[m] in nodes;
  }

  lemma NodesIntro(k: nat, nodes: seq<Entry>, a: seq<int>, orig: map<Entry, Range>, home: map<Entry, nat>)
    requires Homed(nodes, orig, a, home)
    requires |a| == 12 && forall m :: 0 <= m < |nodes| ==> nodes[m] in orig && nodes[m] in home && home[nodes[m]] < 6
    requires forall m :: 0 <= m < k && m < |nodes| ==>
               ShiftedBy(nodes[m], orig[nodes[m]], Delta(a, home[nodes[m]]))
    requires forall m :: k <= m < |nodes| ==> Kept(nodes[m], orig[nodes[m]]) && nodes[m].next == EntryAt(nodes, m + 1)
    ensures NodesOk(k, nodes, a, orig, home)
  {
  }

  /** Shift e by virt less the start of its part and append it to the part. */
  method ShiftAppend(x: Entry, e: Entry, a: seq<int>, i: nat, virt: int, ghost xs: seq<Entry>, ghost w: Range)
    requires |a| == 12 && Divided(a) && i < 6 && virt == FoldBase(a, i) && Part(x, xs, a, i) && e !in xs && Kept(e, w)
    requires InPart(w, a, i) && forall n :: n in xs ==> n.base <= w.base + Delta(a, i)
    modifies e`base, e`end, e`layend, e`prev, e`next, x`prev, (set n | n in xs)`next
    ensures ShiftedBy(e, w, Delta(a, i)) && Part(x, xs + [e], a, i)
  {
    hide *;
    PartParts(x, xs, a, i);
    InPartFacts(w, a, i);
    ShiftExact(a, i);
    Shift(e, Sword(virt - a[2 * i]), w);
    Append(x, e, xs);
    PartGrown(x, xs, e, a, i);
  }

  lemma InPartFacts(w: Range, a: seq<int>, j: nat)
    requires Divided(a) && j < 6 && InPart(w, a, j)
    ensures |a| == 12 && FoldBase(a, j) <= w.base + Delta(a, j) < w.layend + Delta(a, j) <= FoldBase(a, j) + Len(a, j)
  {
  }

  /** Shift node k to its part and append it there. */
  method FoldOne(fake: seq<Entry>, a: seq<int>, i: nat, virt: int, e: Entry, ghost parts: seq<seq<Entry>>, ghost k: nat,
                 ghost nodes: seq<Entry>, ghost orig: map<Entry, Range>, ghost home: map<Entry, nat>,
                 ghost all: set<Entry>)
    returns (ghost now: seq<seq<Entry>>)
    requires Folded(fake, parts, i, k, nodes, a, orig, home, all) && SortedBefore(nodes, orig)
    requires i < 6 && |fake| == 6 && |parts| == 6 && |a| == 12 && virt == FoldBase(a, i)
    requires k < |nodes| && e == nodes[k] && e in home && home[e] == i
    modifies all`base, all`end, all`layend, all`tmp, all`prev, all`next
    ensures Folded(fake, now, i, k + 1, nodes, a, orig, home, all)
  {
    hide *;
    FoldedFacts(fake, parts, i, k, nodes, a, orig, home, all);
    InAll(fake, parts, i, k, nodes, a, orig, home, all);
    NodeApart(fake, parts, i, k, nodes, home, all);
    NodeFiled(fake, parts, i, k, nodes, home, all);
    NodeHome(nodes, k, a, orig, home);
    NodesParts(k, nodes, a, orig, home);
    PartParts(fake[i], parts[i], a, i);
    BelowNext(fake, parts, i, k, nodes, a, orig, home);
    ShiftAppend(fake[i], e, a, i, virt, parts[i], orig[e]);
    now := parts[i := parts[i] + [e]];
    forall j | 0 <= j <= i ensures Part(fake[j], now[j], a, j) {
      if j < i { assert now[j] == parts[j]; }
    }
    forall m | k < m < |nodes| ensures Kept(nodes[m], orig[nodes[m]]) && nodes[m].next == EntryAt(nodes, m + 1) {
    }
    forall m | 0 <= m < k + 1 ensures ShiftedBy(nodes[m], orig[nodes[m]], Delta(a, home[nodes[m]])) {
    }
    NodesIntro(k + 1, nodes, a, orig, home);
    FoldedIntro(fake, now, i, k + 1, nodes, a, orig, home, all);
  }

  /** Libraries further up the list are at home further up. */
  lemma HomesGrow(nodes: seq<Entry>, orig: map<Entry, Range>, a: seq<int>, home: map<Entry, nat>, k: nat)
    requires Homed(nodes, orig, a, home) && SortedBefore(nodes, orig) && 0 < k < |nodes|
    ensures nodes[k - 1] in home && nodes[k] in home && home[nodes[k - 1]] <= home[nodes[k]] < 6
  {
    var h, g := home[nodes[k - 1]], home[nodes[k]];
    assert InPart(orig[nodes[k - 1]], a, h) && InPart(orig[nodes[k]], a, g);
  }

  /** The loop over i stops at the home of e. */
  lemma HomeReached(w: Range, a: seq<int>, h: nat, i: nat)
    requires Divided(a) && i <= h < 6 && InPart(w, a, h)
    ensures i < 5 && (w.base >= a[2 * i + 1] || a[2 * i] == a[2 * i + 1]) <==> i < h
  {
  }

  /** What the walk over the list knows. */
  ghost predicate Walked(fake: seq<Entry>, parts: seq<seq<Entry>>, i: nat, k: nat, nodes: seq<Entry>, e: Entry?,
                         a: seq<int>,
                         orig: map<Entry, Range>, home: map<Entry, nat>, all: set<Entry>, virt: int)
    reads all
  {
    && Folded(fake, parts, i, k, nodes, a, orig, home, all) && e == EntryAt(nodes, k) && virt == FoldBase(a, i)
    && (k < |nodes| ==> i <= home[nodes[k]])
  }

  lemma WalkFacts(fake: seq<Entry>, parts: seq<seq<Entry>>, i: nat, k: nat, nodes: seq<Entry>, e: Entry?, a: seq<int>,
                  orig: map<Entry, Range>, home: map<Entry, nat>, all: set<Entry>, virt: int)
    requires Walked(fake, parts, i, k, nodes, e, a, orig, home, all, virt)
    ensures Folded(fake, parts, i, k, nodes, a, orig, home, all) && i < 6 && |a| == 12 && virt == FoldBase(a, i)
    ensures |fake| == 6 && |parts| == 6 && k <= |nodes| && (e == null <==> k == |nodes|) && e == EntryAt(nodes, k)
    ensures e != null ==>
              e == nodes[k] && e in orig && e in home && e.base == orig[e].base && e.next == EntryAt(nodes, k + 1)
    ensures e != null ==>
              (i < 5 && (e.base >= a[2 * i + 1] || a[2 * i] == a[2 * i + 1]) <==> i < home[e]) && i <= home[e] < 6
  {
    if k < |nodes| {
      NodeHome(nodes, k, a, orig, home);
      HomeReached(orig[nodes[k]], a, home[nodes[k]], i);
    }
  }

  lemma WalkIntro(fake: seq<Entry>, parts: seq<seq<Entry>>, i: nat, k: nat, nodes: seq<Entry>, a: seq<int>,
                  orig: map<Entry, Range>, home: map<Entry, nat>, all: set<Entry>, virt: int)
    requires |a| == 12 && i < 6 && Folded(fake, parts, i, k, nodes, a, orig, home, all) && virt == FoldBase(a, i)
    requires SortedBefore(nodes, orig) && 0 < k <= |nodes| && nodes[k - 1] in home && home[nodes[k - 1]] == i
    ensures Walked(fake, parts, i, k, nodes, EntryAt(nodes, k), a, orig, home, all, virt)
  {
    if k < |nodes| { HomesGrow(nodes, orig, a, home, k); }
  }

  lemma WalkOpened(fake: seq<Entry>, parts: seq<seq<Entry>>, i: nat, k: nat, nodes: seq<Entry>, e: Entry?, a: seq<int>,
                   orig: map<Entry, Range>, home: map<Entry, nat>, all: set<Entry>, virt: int)
    requires |a| == 12 && i < 6 && Folded(fake, parts, i, k, nodes, a, orig, home, all) && virt == FoldBase(a, i)
    requires e == EntryAt(nodes, k) && (e != null ==> e in home && i <= home[e])
    ensures Walked(fake, parts, i, k, nodes, e, a, orig, home, all, virt)
  {
  }

  /** One turn of the walk: open parts up to the home of e, then file e there. */
  method WalkOne(fake: seq<Entry>, a: seq<int>, i: nat, virt: int, e: Entry, ghost parts: seq<seq<Entry>>, ghost k: nat,
                 ghost nodes: seq<Entry>, ghost orig: map<Entry, Range>, ghost home: map<Entry, nat>,
                 ghost all: set<Entry>)
    returns (i': nat, v: int, next: Entry?, ghost now: seq<seq<Entry>>)
    requires Walked(fake, parts, i, k, nodes, e, a, orig, home, all, virt) && SortedBefore(nodes, orig)
    modifies all`base, all`end, all`layend, all`tmp, all`prev, all`next
    ensures k < |nodes| && Walked(fake, now, i', k + 1, nodes, next, a, orig, home, all, v)
  {
    hide *;
    WalkFacts(fake, parts, i, k, nodes, e, a, orig, home, all, virt);
    i', v, now := i, virt, parts;
    next := e.next;
    while i' < 5 && (e.base >= a[2 * i' + 1] || a[2 * i'] == a[2 * i' + 1])
      invariant Walked(fake, now, i', k, nodes, e, a, orig, home, all, v)
      decreases 6 - i'
    {
      WalkFacts(fake, now, i', k, nodes, e, a, orig, home, all, v);
      InAll(fake, now, i', k, nodes, a, orig, home, all);
      v, now := OpenNext(fake, a, i', v, now, k, nodes, orig, home, all);
      i' := i' + 1;
      WalkOpened(fake, now, i', k, nodes, e, a, orig, home, all, v);
    }
    WalkFacts(fake, now, i', k, nodes, e, a, orig, home, all, v);
    InAll(fake, now, i', k, nodes, a, orig, home, all);
    now := FoldOne(fake, a, i', v, e, now, k, nodes, orig, home, all);
    WalkIntro(fake, now, i', k + 1, nodes, a, orig, home, all, v);
  }

  lemma InAll(fake: seq<Entry>, parts: seq<seq<Entry>>, i: nat, k: nat, nodes: seq<Entry>,
              a: seq<int>, orig: map<Entry, Range>, home: map<Entry, nat>, all: set<Entry>)
    requires Folded(fake, parts, i, k, nodes, a, orig, home, all)
    ensures |fake| == 6 && |parts| == 6 && (forall j :: 0 <= j < 6 ==> fake[j] in all)
            && (forall n :: n in nodes ==> n in all)
    ensures forall j, n :: 0 <= j < 6 && n in parts[j] ==> n in all
  {
  }

  /** The openers before the walk: zeroed, all different, none of them listed. */
  lemma WalkStart(fake: seq<Entry>, l: Layout, a: seq<int>, orig: map<Entry, Range>, home: map<Entry, nat>,
                  all: set<Entry>)
    requires Divided(a) && Separate(fake, l.nodes) && Homed(l.nodes, orig, a, home) && Linked(l.list, l.nodes)
    requires (forall n :: n in l.nodes ==> Kept(n, orig[n]) && n in all) && forall j :: 0 <= j < 6 ==> fake[j] in all
    requires Opener(fake[0], a, 0) && fake[0].prev == fake[0] && forall j :: 0 <= j < 6 ==> fake[j].next == null
    ensures Walked(fake, [[fake[0]], [], [], [], [], []], 0, 0, l.nodes, l.list, a, orig, home, all, FoldBase(a, 0))
  {
    var parts := [[fake[0]], [], [], [], [], []];
    PartStart(fake[0], a, 0);
    FiledStart(fake, parts, l.nodes, a, orig, home, all);
    NodesStart(l, a, orig, home);
    hide Part, Homed, Separate, Linked, Over, Filed, NodesOk, Kept;
    FoldedIntro(fake, parts, 0, 0, l.nodes, a, orig, home, all);
  }

  lemma FiledStart(fake: seq<Entry>, parts: seq<seq<Entry>>, nodes: seq<Entry>, a: seq<int>, orig: map<Entry, Range>,
                   home: map<Entry, nat>, all: set<Entry>)
    requires Separate(fake, nodes) && Homed(nodes, orig, a, home) && parts == [[fake[0]], [], [], [], [], []]
    requires (forall n :: n in nodes ==> n in all) && forall j :: 0 <= j < 6 ==> fake[j] in all
    ensures (forall n :: n in nodes ==> n in home) && Over(fake, nodes, parts, all)
            && Filed(fake, parts, 0, 0, nodes, home)
  {
    hide InPart, Divided;
  }

  lemma NodesStart(l: Layout, a: seq<int>, orig: map<Entry, Range>, home: map<Entry, nat>)
    requires Homed(l.nodes, orig, a, home) && Linked(l.list, l.nodes)
    requires forall n :: n in l.nodes ==> Kept(n, orig[n])
    ensures NodesOk(0, l.nodes, a, orig, home) && l.list == EntryAt(l.nodes, 0)
            && (l.nodes != [] ==> 0 <= home[l.nodes[0]])
  {
    hide InPart;
    NodesIntro(0, l.nodes, a, orig, home);
  }

  /** The two loops of i386_layout_libs_pre: every library goes to its part of the line. */
  method FoldAll(l: Layout, fake: seq<Entry>, a: seq<int>, ghost orig: map<Entry, Range>, ghost home: map<Entry, nat>,
                 ghost all: set<Entry>) returns (virt: int, ghost parts: seq<seq<Entry>>)
    requires |a| == 12 && Divided(a) && Separate(fake, l.nodes) && |fake| == 6 && Homed(l.nodes, orig, a, home)
             && l.Valid()
    requires (forall n :: n in l.nodes ==> n in orig && Kept(n, orig[n]) && n in all) && SortedBefore(l.nodes, orig)
    requires forall j :: 0 <= j < 6 ==> fake[j] in all && fake[j].next == null
    modifies all`base, all`end, all`layend, all`tmp, all`prev, all`next
    ensures Folded(fake, parts, 5, |l.nodes|, l.nodes, a, orig, home, all) && virt == FoldBase(a, 5)
  {
    hide *;
    ghost var nodes := l.nodes;
    virt := a[3] - a[2];
    FirstNotListed(fake, l);
    Open(fake[0], virt);
    FirstVirt(a);
    OpenerIntro(fake[0], a, 0);
    WalkStart(fake, l, a, orig, home, all);
    parts := [[fake[0]], [], [], [], [], []];
    var e, i := l.list, 0;
    ghost var k := 0;
    while e != null
      invariant Walked(fake, parts, i, k, nodes, e, a, orig, home, all, virt) && k <= |nodes|
      decreases |nodes| - k
    {
      i, virt, e, parts := WalkOne(fake, a, i, virt, e, parts, k, nodes, orig, home, all);
      k := k + 1;
      WalkFacts(fake, parts, i, k, nodes, e, a, orig, home, all, virt);
    }
    WalkFacts(fake, parts, i, k, nodes, e, a, orig, home, all, virt);
    while i < 5
      invariant i < 6 && Folded(fake, parts, i, k, nodes, a, orig, home, all) && virt == FoldBase(a, i)
    {
      InAll(fake, parts, i, k, nodes, a, orig, home, all);
      virt, parts := OpenNext(fake, a, i, virt, parts, k, nodes, orig, home, all);
      i := i + 1;
    }
  }

  lemma FirstVirt(a: seq<int>)
    requires Divided(a)
    ensures a[3] - a[2] == FoldBase(a, 0)
  {
  }

  lemma FirstNotListed(fake: seq<Entry>, l: Layout)
    requires Separate(fake, l.nodes) && l.Valid()
    ensures fake[0] !in l.nodes && Linked(l.list, l.nodes)
  {
    assert fake[0] in fake;
  }

  /** The first t + 1 parts in the order of the line. */
  ghost function Joined(parts: seq<seq<Entry>>, t: nat): seq<Entry>
    requires |parts| == 6 && t < 6
  {
    if t == 0 then parts[1] else Joined(parts, t - 1) + parts[Xor1(t)]
  }

  lemma {:induction false} JoinedMembers(parts: seq<seq<Entry>>, t: nat)
    requires |parts| == 6 && t < 6
    ensures forall s, n :: 0 <= s <= t && n in parts[Xor1(s)] ==> n in Joined(parts, t)
    ensures forall n :: n in Joined(parts, t) ==> exists s :: 0 <= s <= t && n in parts[Xor1(s)]
    ensures parts[1] <= Joined(parts, t)
  {
    if t > 0 { JoinedMembers(parts, t - 1); } else { assert Xor1(0) == 1; }
    forall n | n in Joined(parts, t) ensures exists s :: 0 <= s <= t && n in parts[Xor1(s)] {
      if n in parts[Xor1(t)] { } else {
        var s :| 0 <= s <= t - 1 && n in parts[Xor1(s)];
      }
    }
  }

  ghost predicate NoneShared(parts: seq<seq<Entry>>) {
    |parts| == 6 && forall j, j', n :: 0 <= j < 6 && 0 <= j' < 6 && j != j' && n in parts[j] ==> n !in parts[j']
  }

  /** Parts still to be merged, from t on. */
  ghost predicate Pending(fake: seq<Entry>, parts: seq<seq<Entry>>, t: nat, all: set<Entry>)
    requires |fake| == 6 && |parts| == 6
    requires forall j, n :: 0 <= j < 6 && n in parts[j] ==> n in all
    reads all`prev, all`next
  {
    forall s :: t <= s < 6 ==>
      parts[Xor1(s)] != [] && fake[Xor1(s)] == parts[Xor1(s)][0] && HasLinks(fake[Xor1(s)], parts[Xor1(s)])
  }

  ghost predicate HasLinks(x: Entry, xs: seq<Entry>)
    requires xs != [] && x == xs[0]
    reads xs`prev, xs`next
  {
    Linked(x, xs)
  }

  lemma TailIn(x: Entry, xs: seq<Entry>)
    requires xs != [] && Linked(x, xs)
    ensures x in xs && x.prev in xs && x == xs[0]
  {
  }

  lemma JoinedApart(parts: seq<seq<Entry>>, t: nat)
    requires NoneShared(parts) && 0 < t < 6
    ensures forall n :: n in Joined(parts, t - 1) ==> n !in parts[Xor1(t)]
    ensures forall s, n :: t < s < 6 && n in parts[Xor1(s)] ==> n !in Joined(parts, t - 1) && n !in parts[Xor1(t)]
    ensures Joined(parts, t) == Joined(parts, t - 1) + parts[Xor1(t)] && parts[1] <= Joined(parts, t - 1)
  {
    JoinedMembers(parts, t - 1);
    JoinedMembers(parts, t);
  }

  /** One list_merge: part Xor1(t) is put behind the parts before it. */
  method MergeNext(x: Entry, e: Entry, ghost fake: seq<Entry>, ghost parts: seq<seq<Entry>>, ghost t: nat,
                   ghost all: set<Entry>)
    requires |parts| == 6 && NoneShared(parts) && 0 < t < 6 && |fake| == 6
    requires parts[1] != [] && x == parts[1][0] && e == fake[Xor1(t)]
    requires forall j, n :: 0 <= j < 6 && n in parts[j] ==> n in all
    requires Linked(x, Joined(parts, t - 1)) && Pending(fake, parts, t, all)
    modifies all`prev, all`next
    ensures Linked(x, Joined(parts, t)) && Pending(fake, parts, t + 1, all)
  {
    hide Linked, Joined, HasLinks, NoneShared;
    JoinedApart(parts, t);
    ghost var xs, es := Joined(parts, t - 1), parts[Xor1(t)];
    JoinedIn(parts, t - 1, all);
    LinksOf(e, es);
    TailIn(x, xs);
    TailIn(e, es);
    Merge(x, e, xs, es);
  }

  lemma LinksOf(x: Entry, xs: seq<Entry>)
    requires xs != [] && x == xs[0] && HasLinks(x, xs)
    ensures Linked(x, xs)
  {
  }

  lemma JoinedIn(parts: seq<seq<Entry>>, t: nat, all: set<Entry>)
    requires |parts| == 6 && t < 6 && parts[1] != [] && forall j, n :: 0 <= j < 6 && n in parts[j] ==> n in all
    ensures (forall n :: n in Joined(parts, t) ==> n in all) && Joined(parts, t) != []
  {
    JoinedMembers(parts, t);
  }

  lemma FoldedParts(fake: seq<Entry>, parts: seq<seq<Entry>>, nodes: seq<Entry>, a: seq<int>,
                    orig: map<Entry, Range>, home: map<Entry, nat>, all: set<Entry>)
    requires Folded(fake, parts, 5, |nodes|, nodes, a, orig, home, all)
    ensures |fake| == 6 && |parts| == 6 && |a| == 12 && NoneShared(parts) && parts[1] != [] && fake[1] == parts[1][0]
    ensures forall j, n :: 0 <= j < 6 && n in parts[j] ==> n in all
    ensures Pending(fake, parts, 1, all) && Linked(fake[1], Joined(parts, 0))
    ensures forall j :: 0 <= j < 6 ==> Part(fake[j], parts[j], a, j)
  {
    SharedNone(fake, parts, nodes, home, all);
    forall s | 1 <= s < 6
      ensures parts[Xor1(s)] != [] && fake[Xor1(s)] == parts[Xor1(s)][0] && HasLinks(fake[Xor1(s)], parts[Xor1(s)])
    {
      assert Part(fake[Xor1(s)], parts[Xor1(s)], a, Xor1(s));
    }
    assert Part(fake[1], parts[1], a, 1);
  }

  lemma SharedNone(fake: seq<Entry>, parts: seq<seq<Entry>>, nodes: seq<Entry>, home: map<Entry, nat>, all: set<Entry>)
    requires Over(fake, nodes, parts, all) && Separate(fake, nodes) && (forall n :: n in nodes ==> n in home)
    requires Filed(fake, parts, 5, |nodes|, nodes, home)
    ensures NoneShared(parts)
  {
    forall j, j', n | 0 <= j < 6 && 0 <= j' < 6 && j != j' && n in parts[j] ensures n !in parts[j'] {
      assert fake[j] in fake && fake[j'] in fake && fake[j] != fake[j'];
      if n in nodes { assert home[n] == j; }
    }
  }

  /** Put together, the parts are sorted. */
  lemma {:induction false} JoinedSorted(fake: seq<Entry>, parts: seq<seq<Entry>>, a: seq<int>, t: nat)
    requires Divided(a) && |fake| == 6 && |parts| == 6 && t < 6 && forall j :: 0 <= j < 6 ==>
               Part(fake[j], parts[j], a, j)
    ensures Sorted(Joined(parts, t))
    ensures forall n :: n in Joined(parts, t) ==> n.base <= FoldBase(a, Xor1(t)) + Len(a, Xor1(t))
  {
    PartParts(fake[Xor1(t)], parts[Xor1(t)], a, Xor1(t));
    if t > 0 {
      JoinedSorted(fake, parts, a, t - 1);
      PartsFollow(a, t - 1);
      LenSign(a, Xor1(t));
      hide Joined, FoldBase, Len, Part;
      SortedConcat(Joined(parts, t - 1), parts[Xor1(t)], FoldBase(a, Xor1(t)));
      JoinedStep(parts, t);
    }
  }

  lemma LenSign(a: seq<int>, j: nat)
    requires Divided(a) && j < 6
    ensures Len(a, j) >= 0
  {
  }

  lemma JoinedStep(parts: seq<seq<Entry>>, t: nat)
    requires |parts| == 6 && 0 < t < 6
    ensures Joined(parts, t) == Joined(parts, t - 1) + parts[Xor1(t)]
  {
  }

  lemma SortedConcat(xs: seq<Entry>, es: seq<Entry>, at: int)
    requires Sorted(xs) && Sorted(es) && (forall n :: n in xs ==> n.base <= at) && forall n :: n in es ==> at <= n.base
    ensures Sorted(xs + es)
  {
    var now := xs + es;
    forall i, j | 0 <= i < j < |now| ensures now[i].base <= now[j].base {
      if i < |xs| { assert now[i] in xs; } else { assert now[i] == es[i - |xs|]; }
      if j < |xs| { } else { assert now[j] == es[j - |xs|] && now[j] in es; }
    }
  }

  /** What i386_layout_libs_pre leaves: the line. */
  ghost predicate OnLine(now: seq<Entry>, was: seq<Entry>, fake: seq<Entry>, parts: seq<seq<Entry>>, a: seq<int>,
                         orig: map<Entry, Range>, home: map<Entry, nat>, all: set<Entry>)
    reads all`base, all`end, all`layend, all`tmp, all`done, all`high
  {
    && Over(fake, was, parts, all) && Separate(fake, was) && Homed(was, orig, a, home)
    && Filed(fake, parts, 5, |was|, was, home) && (forall j :: 0 <= j < 6 ==> parts[j] != [] && parts[j][0] == fake[j])
    && now == Joined(parts, 5)
    && (forall n :: n in was ==> ShiftedBy(n, orig[n], Delta(a, home[n])))
    && (forall j :: 0 <= j < 6 ==> Opener(fake[j], a, j))
  }

  lemma OnLineIntro(fake: seq<Entry>, parts: seq<seq<Entry>>, was: seq<Entry>, a: seq<int>,
                    orig: map<Entry, Range>, home: map<Entry, nat>, all: set<Entry>)
    requires Folded(fake, parts, 5, |was|, was, a, orig, home, all)
    ensures OnLine(Joined(parts, 5), was, fake, parts, a, orig, home, all)
  {
    NodesParts(|was|, was, a, orig, home);
    forall j | 0 <= j < 6 ensures parts[j] != [] && parts[j][0] == fake[j] && Opener(fake[j], a, j) {
      assert Part(fake[j], parts[j], a, j);
    }
    forall n | n in was ensures ShiftedBy(n, orig[n], Delta(a, home[n])) {
      var m :| 0 <= m < |was| && was[m] == n;
    }
  }

  /** i386_layout_libs_pre after the cuts have been made: fold the regions into one line. The limit is
      virt + addrs[2 * i + 1] - addrs[2 * i] for i == 5. */
  method Fold(l: Layout, fake: seq<Entry>, a: seq<int>, ghost orig: map<Entry, Range>, ghost home: map<Entry, nat>,
              ghost all: set<Entry>) returns (fin: int, ghost parts: seq<seq<Entry>>)
    requires |a| == 12 && Divided(a) && Separate(fake, l.nodes) && |fake| == 6 && Homed(l.nodes, orig, a, home)
             && l.Valid()
    requires (forall n :: n in l.nodes ==> n in orig && Kept(n, orig[n]) && n in all) && SortedBefore(l.nodes, orig)
    requires forall j :: 0 <= j < 6 ==> fake[j] in all && fake[j].next == null
    modifies l, all`base, all`end, all`layend, all`tmp, all`prev, all`next
    ensures l.Valid() && OnLine(l.nodes, old(l.nodes), fake, parts, a, orig, home, all)
    ensures fin == FoldBase(a, 4)
  {
    hide *;
    ghost var was := l.nodes;
    var virt;
    virt, parts := FoldAll(l, fake, a, orig, home, all);
    fin := virt + a[11] - a[10];
    FoldedParts(fake, parts, was, a, orig, home, all);
    OnLineIntro(fake, parts, was, a, orig, home, all);
    ghost var now := Joined(parts, 5);
    WholeSorted(fake, parts, a);
    assert Sorted(now);
    MergeParts(fake, parts, all);
    assert Sorted(now);
    l.list := fake[1];
    l.nodes := now;
    LimitIsFour(a);
    ListValid(l);
  }

  lemma WholeSorted(fake: seq<Entry>, parts: seq<seq<Entry>>, a: seq<int>)
    requires Divided(a) && |fake| == 6 && |parts| == 6 && forall j :: 0 <= j < 6 ==> Part(fake[j], parts[j], a, j)
    ensures Sorted(Joined(parts, 5))
  {
    JoinedSorted(fake, parts, a, 5);
  }

  lemma ListValid(l: Layout)
    requires Linked(l.list, l.nodes) && Sorted(l.nodes)
    ensures l.Valid()
  {
  }

  /** The limit of the search is where the last part begins, not where it ends. */
  lemma LimitIsFour(a: seq<int>)
    requires Divided(a)
    ensures FoldBase(a, 5) + a[11] - a[10] == FoldBase(a, 4)
  {
  }

  /** The five merges: 1 and 0, then 3, 2, 5, 4. */
  method MergeParts(fake: seq<Entry>, ghost parts: seq<seq<Entry>>, ghost all: set<Entry>)
    requires |fake| == 6 && |parts| == 6 && NoneShared(parts) && parts[1] != [] && fake[1] == parts[1][0]
    requires forall j, n :: 0 <= j < 6 && n in parts[j] ==> n in all
    requires Pending(fake, parts, 1, all) && Linked(fake[1], Joined(parts, 0))
    modifies all`prev, all`next
    ensures Linked(fake[1], Joined(parts, 5))
  {
    hide Linked, Joined, NoneShared, Pending;
    MergeNext(fake[1], fake[0], fake, parts, 1, all);
    MergeNext(fake[1], fake[3], fake, parts, 2, all);
    MergeNext(fake[1], fake[2], fake, parts, 3, all);
    MergeNext(fake[1], fake[5], fake, parts, 4, all);
    MergeNext(fake[1], fake[4], fake, parts, 5, all);
  }
}
