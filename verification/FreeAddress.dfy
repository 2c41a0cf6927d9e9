/** The three i386 library regions of --exec-shield and the cut chosen inside each (src/arch-i386.c). */
module FreeAddress {
  import opened Placement

  const REG0S := 0x00101000
  const REG0E := 0x00e00000
  const REG1S := 0x02000000
  const REG1E := 0x08000000
  const REG2S := 0x41000000
  const REG2E := 0x50000000

  /** Wholly in one of the three regions, the first one starting at reg0s. */
  predicate InOneRegion(base: int, layend: int, reg0s: int) {
    || (reg0s <= base && base < REG1S && layend <= REG0E)
    || (REG1S <= base < REG2S && layend <= REG1E)
    || (REG2S <= base && layend <= REG2E)
  }

  /** i386_layout_libs_init: a library that is not wholly in one region loses its range. */
  method LayoutInit(libs: seq<Entry>, reg0s: int)
    requires Distinct(libs) && reg0s <= REG1S
    modifies libs`done
    ensures forall x :: x in libs ==> x.done == if InOneRegion(x.base, x.layend, reg0s) then old(x.done) else 0
  {
    var i := 0;
    while i < |libs|
      invariant 0 <= i <= |libs|
      invariant forall k :: 0 <= k < i ==>
                  libs[k].done == if InOneRegion(libs[k].base, libs[k].layend, reg0s) then old(libs[k].done) else 0
      invariant forall k :: i <= k < |libs| ==> libs[k].done == old(libs[k].done)
    {
      var e := libs[i];
      Others(libs, i);
      if e.done != 0 {
        if e.base < reg0s || (e.base < REG1S && e.layend > REG0E) || (e.base < REG2S && e.layend > REG1E)
        || e.layend > REG2E {
          e.done := 0;
        }
      }
      i := i + 1;
    }
  }

  /** Libraries that start below the region end below it, those that start in it end in it. */
  ghost predicate Bounded(nodes: seq<Entry>, beg: int, end: int)
    reads nodes`base, nodes`layend
  {
    forall k :: 0 <= k < |nodes| ==>
      (nodes[k].base < beg ==> nodes[k].layend <= beg) && (nodes[k].base < end ==> nodes[k].layend <= end)
  }

  ghost predicate Cuts(n: Entry, at: int)
    reads n`base, n`layend
  {
    n.base < at < n.layend
  }

  /** What looking back over the entries after position q, up to pos, has established. */
  ghost predicate LookedBack(nodes: seq<Entry>, q: int, pos: nat, low: int, beg: int, start: int)
    requires -1 <= q < pos <= |nodes|
    reads nodes`base, nodes`layend
  {
    && beg <= low <= start
    && (forall k :: q < k < |nodes| ==> !Cuts(nodes[k], low))
    && (low == start ==> forall k :: q < k < pos && nodes[k].base >= beg ==> nodes[k].layend <= start)
    && (low < start ==> exists k :: q < k < pos && Cuts(nodes[k], start))
    && Edge(nodes, low, start) && forall v :: low < v <= start ==> Covered(nodes, v)
  }

  /** Some library lies across the address. */
  ghost predicate Covered(nodes: seq<Entry>, v: int)
    reads nodes`base, nodes`layend
  {
    exists k :: 0 <= k < |nodes| && Cuts(nodes[k], v)
  }

  /** The address asked for, or where some library starts or ends. */
  ghost predicate Edge(nodes: seq<Entry>, at: int, start: int)
    reads nodes`base, nodes`layend
  {
    at == start || exists n :: n in nodes && (at == n.base || at == n.layend)
  }

  /** The first entry at or above start is at position pos. */
  ghost predicate FirstFrom(nodes: seq<Entry>, pos: nat, start: int)
    reads nodes`base
  {
    && pos <= |nodes|
    && (forall k :: 0 <= k < pos ==> nodes[k].base < start)
    && (forall k :: pos <= k < |nodes| ==> nodes[k].base >= start)
  }

  lemma LookStart(nodes: seq<Entry>, pos: nat, beg: int, start: int)
    requires FirstFrom(nodes, pos, start) && 0 < pos && beg <= start
    ensures LookedBack(nodes, pos - 1, pos, start, beg, start)
  {
  }

  lemma LookNext(nodes: seq<Entry>, q: nat, pos: nat, low: int, beg: int, start: int)
    requires Sorted(nodes) && FirstFrom(nodes, pos, start) && q < pos
    requires LookedBack(nodes, q, pos, low, beg, start) && nodes[q].base >= beg
    ensures LookedBack(nodes, q - 1, pos, if nodes[q].layend > low then nodes[q].base else low, beg, start)
  {
    var lower := if nodes[q].layend > low then nodes[q].base else low;
    if low == start && nodes[q].layend > low { assert Cuts(nodes[q], start); }
    assert nodes[q] in nodes;
    forall v | lower < v <= start ensures Covered(nodes, v) {
      if v <= low { assert Cuts(nodes[q], v); }
    }
    forall k | q - 1 < k < |nodes| ensures !Cuts(nodes[k], lower) {
      if k > q { assert nodes[q].base <= nodes[k].base && !Cuts(nodes[k], low); }
    }
  }

  lemma PrevLink(l: Layout, q: nat)
    requires l.Valid() && q < |l.nodes|
    ensures l.list == l.nodes[0] && l.list.prev == l.nodes[|l.nodes| - 1]
    ensures q > 0 ==> l.nodes[q].prev == l.nodes[q - 1] && l.nodes[q] != l.list
    ensures if q + 1 < |l.nodes| then l.nodes[q].next == l.nodes[q + 1] else l.nodes[q].next == null
  {
  }

  /** Going back from the entry before position pos: the lowest start of the libraries that hang together
      with one lying across the address. Stops at the head or at the first library below the region. */
  method LowEnd(l: Layout, p: Entry, ghost pos: nat, beg: int, start: int) returns (low: int, e: Entry, ghost q: nat)
    requires l.Valid() && 0 < pos && FirstFrom(l.nodes, pos, start) && beg <= start
    requires if pos == |l.nodes| then p == l.list else p == l.nodes[pos]
    ensures q < pos && e == l.nodes[q] && (q == 0 || e.base < beg)
    ensures LookedBack(l.nodes, if e.base < beg then q else q - 1, pos, low, beg, start)
  {
    hide *;
    ghost var nodes := l.nodes;
    LookStart(nodes, pos, beg, start);
    FirstFacts(nodes, pos, start);
    SortedNodes(l);
    PrevLink(l, 0);
    if pos < |nodes| { PrevLink(l, pos); }
    low := start;
    e := p.prev;
    q := pos - 1;
    while e.base >= beg && e != l.list
      invariant q < pos && e == nodes[q] && LookedBack(nodes, q, pos, low, beg, start)
      decreases q
    {
      PrevLink(l, q);
      LookNext(nodes, q, pos, low, beg, start);
      if e.layend > low {
        low := e.base;
      }
      e := e.prev;
      q := q - 1;
    }
    if e.base >= beg {
      PrevLink(l, q);
      LookNext(nodes, q, pos, low, beg, start);
      if e.layend > low {
        low := e.base;
      }
    }
  }

  lemma SortedNodes(l: Layout)
    requires l.Valid()
    ensures Sorted(l.nodes)
  {
  }

  lemma FirstFacts(nodes: seq<Entry>, pos: nat, start: int)
    requires FirstFrom(nodes, pos, start)
    ensures pos <= |nodes|
  {
  }

  /** What going forward from position q to position k has established about hi. */
  ghost predicate LookedAhead(nodes: seq<Entry>, q: nat, k: nat, hi: int, start: int, end: int)
    requires q <= k <= |nodes|
    reads nodes`base, nodes`layend
  {
    && start <= hi <= end && Edge(nodes, hi, start) && (forall v :: start <= v < hi ==> Covered(nodes, v))
    && forall j :: 0 <= j < k ==> !Cuts(nodes[j], hi) && nodes[j].layend <= hi
  }

  lemma AheadNext(nodes: seq<Entry>, q: nat, k: nat, hi: int, beg: int, start: int, end: int)
    requires q <= k < |nodes| && LookedAhead(nodes, q, k, hi, start, end) && Bounded(nodes, beg, end)
    requires nodes[k].base < end && nodes[k].base < hi
    ensures LookedAhead(nodes, q, k + 1, if nodes[k].layend > hi then nodes[k].layend else hi, start, end)
  {
    assert nodes[k] in nodes;
    forall v | hi <= v < nodes[k].layend ensures Covered(nodes, v) {
      assert Cuts(nodes[k], v);
    }
  }

  lemma AheadDone(nodes: seq<Entry>, q: nat, k: nat, hi: int, start: int, end: int)
    requires q <= k <= |nodes| && LookedAhead(nodes, q, k, hi, start, end) && Sorted(nodes)
    requires k < |nodes| ==> nodes[k].base >= end || nodes[k].base >= hi
    ensures start <= hi <= end && !Covered(nodes, hi) && Edge(nodes, hi, start)
    ensures forall v :: start <= v < hi ==> Covered(nodes, v)
  {
    forall j | k < j < |nodes| ensures !Cuts(nodes[j], hi) {
      assert nodes[k].base <= nodes[j].base;
    }
  }

  /** Everything before the entry where looking back stopped ends below the region. */
  lemma AheadStart(nodes: seq<Entry>, q: nat, beg: int, start: int, end: int)
    requires Sorted(nodes) && Bounded(nodes, beg, end) && beg <= start <= end && q < |nodes|
    requires q == 0 || nodes[q].base < beg
    ensures LookedAhead(nodes, q, q, start, start, end)
  {
    forall j | 0 <= j < q ensures !Cuts(nodes[j], start) && nodes[j].layend <= start {
      assert nodes[j].base <= nodes[q].base;
    }
  }

  /** Going forward from position q: the first address from start on where no library hangs over. */
  method HighEnd(l: Layout, from: Entry, ghost q: nat, ghost beg: int, end: int, start: int) returns (hi: int)
    requires l.Valid() && q < |l.nodes| && from == l.nodes[q] && Bounded(l.nodes, beg, end) && beg <= start <= end
    requires q == 0 || from.base < beg
    ensures start <= hi <= end && !Covered(l.nodes, hi) && Edge(l.nodes, hi, start)
    ensures forall v :: start <= v < hi ==> Covered(l.nodes, v)
  {
    hide *;
    ghost var nodes := l.nodes;
    SortedNodes(l);
    AheadStart(nodes, q, beg, start, end);
    hi := start;
    var e: Entry? := from;
    ghost var k := q;
    while e != null && e.base < end && e.base < hi
      invariant q <= k <= |nodes| && (if k == |nodes| then e == null else e == nodes[k])
      invariant LookedAhead(nodes, q, k, hi, start, end)
      decreases |nodes| - k
    {
      PrevLink(l, k);
      AheadNext(nodes, q, k, hi, beg, start, end);
      if e.layend > hi {
        hi := e.layend;
      }
      e := e.next;
      k := k + 1;
    }
    AheadDone(nodes, q, k, hi, start, end);
  }

  /** First entry whose base is at or above an address. */
  method FindFrom(l: Layout, start: int) returns (e: Entry?, ghost pos: nat)
    requires l.Valid()
    ensures FirstFrom(l.nodes, pos, start) && pos <= |l.nodes| && (if pos == |l.nodes| then e == null
                                                                   else e == l.nodes[pos])
  {
    e := l.list;
    pos := 0;
    while e != null && e.base < start
      invariant pos <= |l.nodes| && (if pos == |l.nodes| then e == null else e == l.nodes[pos])
      invariant forall k :: 0 <= k < pos ==> l.nodes[k].base < start
      decreases |l.nodes| - pos
    {
      e := e.next;
      pos := pos + 1;
    }
  }

  /** Some library lies across the address, at the place that at records. */
  ghost predicate CoveredAt(nodes: seq<Entry>, at: map<Entry, Range>, v: int) {
    exists n :: n in nodes && n in at && at[n].base < v < at[n].layend
  }

  /** No library lies across the cut, one lies across every address nearer to the one asked for, and a cut below it
      means that one lies across the address as far above it, too. */
  ghost predicate Nearest(nodes: seq<Entry>, at: map<Entry, Range>, cut: int, start: int) {
    && !CoveredAt(nodes, at, cut)
    && (cut >= start ==> forall v :: start - (cut - start) < v < cut ==> CoveredAt(nodes, at, v))
    && (cut < start ==> forall v :: cut < v <= start + (start - cut) ==> CoveredAt(nodes, at, v))
  }

  /** There is one such address only. */
  lemma NearestIsOne(nodes: seq<Entry>, at: map<Entry, Range>, cut: int, other: int, start: int)
    requires Nearest(nodes, at, cut, start) && Nearest(nodes, at, other, start)
    ensures cut == other
  {
    hide CoveredAt;
  }

  lemma CoveredKept(nodes: seq<Entry>, at: map<Entry, Range>)
    requires forall n :: n in nodes ==> n in at && Kept(n, at[n])
    ensures forall v :: Covered(nodes, v) <==> CoveredAt(nodes, at, v)
  {
    forall v ensures Covered(nodes, v) <==> CoveredAt(nodes, at, v) {
      if Covered(nodes, v) {
        var k :| 0 <= k < |nodes| && Cuts(nodes[k], v);
        assert nodes[k] in nodes && Kept(nodes[k], at[nodes[k]]);
      }
      if CoveredAt(nodes, at, v) {
        var n :| n in nodes && n in at && at[n].base < v < at[n].layend;
        var k :| 0 <= k < |nodes| && nodes[k] == n;
        assert Kept(n, at[n]) && Cuts(nodes[k], v);
      }
    }
  }

  /** i386_find_free_addr: the address nearest to the one asked for that no listed library lies across, even when
      listed libraries overlap each other; of two as near the upper one. */
  method FindFreeAddr(l: Layout, beg: int, end: int, start: int, ghost at: map<Entry, Range>) returns (cut: int)
    requires l.Valid() && Bounded(l.nodes, beg, end) && beg <= start <= end
    requires forall n :: n in l.nodes ==> n in at && Kept(n, at[n])
    ensures beg <= cut <= end && Nearest(l.nodes, at, cut, start) && Edge(l.nodes, cut, start)
  {
    hide *;
    CoveredKept(l.nodes, at);
    var e, pos := FindFrom(l, start);
    if e == l.list {
      HeadFirst(l, pos, start);
      NearestAt(l.nodes, at, start);
      return start;
    }
    var p := e;
    if p == null {
      p := l.list;
    }
    PosPositive(l, pos);
    var low, last;
    ghost var q;
    low, last, q := LowEnd(l, p, pos, beg, start);
    ghost var stop: int := q;
    if last.base >= beg {
      stop := stop - 1;
    }
    LowFacts(l, stop, q, pos, low, beg, end, start);
    if low == start {
      NearestAt(l.nodes, at, start);
      return start;
    }
    var hi := HighEnd(l, last, q, beg, end, start);
    assert low >= beg && hi <= end;
    forall v | low < v <= start || start <= v < hi ensures CoveredAt(l.nodes, at, v) {
      assert Covered(l.nodes, v);
    }
    NearestOf(l.nodes, at, low, hi, start);
    if hi - start > start - low {
      cut := low;
    } else {
      cut := hi;
    }
  }

  lemma NearestAt(nodes: seq<Entry>, at: map<Entry, Range>, start: int)
    requires !CoveredAt(nodes, at, start)
    ensures Nearest(nodes, at, start, start)
  {
  }

  lemma NearestOf(nodes: seq<Entry>, at: map<Entry, Range>, low: int, hi: int, start: int)
    requires low < start <= hi && !CoveredAt(nodes, at, low) && !CoveredAt(nodes, at, hi)
    requires forall v :: low < v <= start || start <= v < hi ==> CoveredAt(nodes, at, v)
    ensures Nearest(nodes, at, if hi - start > start - low then low else hi, start)
  {
    hide CoveredAt;
  }

  lemma HeadFirst(l: Layout, pos: nat, start: int)
    requires l.Valid() && FirstFrom(l.nodes, pos, start) && pos <= |l.nodes|
    requires if pos == |l.nodes| then l.list == null else l.list == l.nodes[pos]
    ensures !Covered(l.nodes, start) && Edge(l.nodes, start, start)
  {
  }

  lemma PosPositive(l: Layout, pos: nat)
    requires l.Valid() && pos <= |l.nodes|
    ensures l.list != null ==> |l.nodes| > 0 && l.list == l.nodes[0]
    ensures l.list == null ==> l.nodes == []
  {
  }

  /** Looking back leaves no library across low, and has found one across start if it moved. */
  lemma LowFacts(l: Layout, stop: int, q: nat, pos: nat, low: int, beg: int, end: int, start: int)
    requires l.Valid() && Bounded(l.nodes, beg, end) && beg <= start && q < pos <= |l.nodes|
    requires stop == (if l.nodes[q].base < beg then q else q - 1) && (q == 0 || l.nodes[q].base < beg)
    requires LookedBack(l.nodes, stop, pos, low, beg, start)
    ensures beg <= low <= start && !Covered(l.nodes, low) && Edge(l.nodes, low, start)
    ensures forall v :: low < v <= start ==> Covered(l.nodes, v)
  {
    forall k | 0 <= k < |l.nodes| ensures !Cuts(l.nodes[k], low) {
      if k <= stop {
        assert k == q || l.nodes[k].base <= l.nodes[q].base;
      }
    }
  }
}
