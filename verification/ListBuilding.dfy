/** Listing the libraries that already have a range (src/layout.c, lines 175-194 and 341-364). */
module ListBuilding {
  import opened Placement

  /** addr_cmp, as an order: libraries with a range first, by base and then by layend. */
  predicate AddrOrder(a: Entry, b: Entry)
    reads a`done, a`base, a`layend, b`done, b`base, b`layend
  {
    if a.done == 0 || b.done == 0 then a.done != 0 || b.done == 0
    else a.base < b.base || (a.base == b.base && a.layend <= b.layend)
  }

  ghost predicate AddrSorted(libs: seq<Entry>)
    reads libs`done, libs`base, libs`layend
  {
    forall i, j :: 0 <= i < j < |libs| ==> AddrOrder(libs[i], libs[j])
  }

  /** The list is libs[first..last], linked up so far. */
  ghost predicate Chained(libs: seq<Entry>, first: nat, last: nat)
    requires first <= last <= |libs|
    reads libs`prev, libs`next
  {
    && (forall k {:trigger libs[k].next} :: first <= k < last - 1 ==> libs[k].next == libs[k + 1])
    && (forall k {:trigger libs[k].prev} :: first < k < last ==> libs[k].prev == libs[k - 1])
    && (forall k :: 0 <= k < |libs| && (k < first || last - 1 <= k) ==> libs[k].next == null)
  }

  /** A random start stays allowed while everything chained, but for the end of the head, is inside. */
  ghost predicate Inside(libs: seq<Entry>, first: nat, last: nat, base: int, end: int)
    requires first < last <= |libs|
    reads libs`base, libs`layend
  {
    libs[first].base >= base && forall k :: first < k < last ==> base <= libs[k].base && libs[k].layend <= end
  }

  ghost predicate Below(libs: seq<Entry>, first: nat, last: nat, end: int)
    requires first <= last <= |libs|
    reads libs`base, libs`done
  {
    forall k :: first <= k < last ==> libs[k].done != 0 && (k > first ==> libs[k].base < end)
  }

  method Link(libs: seq<Entry>, first: nat, j: nat)
    requires first < j < |libs| && Distinct(libs) && Chained(libs, first, j)
    modifies {libs[j]}`prev, {libs[j - 1]}`next
    ensures Chained(libs, first, j + 1)
  {
    Others(libs, j);
    Others(libs, j - 1);
    hide Distinct;
    libs[j].prev := libs[j - 1];
    libs[j - 1].next := libs[j];
  }

  /** libs[first..last] is chained, and random says whether a random start is still allowed. */
  ghost predicate Chaining(libs: seq<Entry>, first: nat, last: nat, base: int, end: int, random: bool)
    requires first < last <= |libs|
    reads libs`prev, libs`next, libs`base, libs`layend, libs`done
  {
    Chained(libs, first, last) && Below(libs, first, last, end) && random == Inside(libs, first, last, base, end)
  }

  lemma ChainingFacts(libs: seq<Entry>, first: nat, last: nat, base: int, end: int, random: bool)
    requires first < last <= |libs|
    ensures Chaining(libs, first, last, base, end, random) <==>
              Chained(libs, first, last) && Below(libs, first, last, end)
              && random == Inside(libs, first, last, base, end)
  {
  }

  /** The inner loop: chain the libraries from first on up to one at or above the region's end. */
  method Chain(libs: seq<Entry>, first: nat, base: int, end: int) returns (j: nat, random: bool)
    requires first < |libs| && Distinct(libs) && libs[first].done != 0
    requires forall k :: 0 <= k < |libs| ==> libs[k].next == null
    modifies libs`prev, libs`next
    ensures first < j <= |libs| && Chained(libs, first, j) && Below(libs, first, j, end)
    ensures j < |libs| ==> libs[j].done == 0 || libs[j].base >= end
    ensures random == Inside(libs, first, j, base, end)
  {
    hide *;
    ChainStart(libs, first, base, end);
    j, random := first + 1, libs[first].base >= base;
    while j < |libs| && libs[j].done != 0 && libs[j].base < end
      invariant first < j <= |libs| && Chaining(libs, first, j, base, end, random)
    {
      random := ChainStep(libs, first, j, base, end, random);
      j := j + 1;
    }
    ChainingFacts(libs, first, j, base, end, random);
  }

  method ChainStep(libs: seq<Entry>, first: nat, j: nat, base: int, end: int, was: bool) returns (random: bool)
    requires first < j < |libs| && Distinct(libs) && libs[j].done != 0 && libs[j].base < end
    requires Chaining(libs, first, j, base, end, was)
    modifies libs`prev, libs`next
    ensures Chaining(libs, first, j + 1, base, end, random)
  {
    hide *;
    ChainingFacts(libs, first, j, base, end, was);
    InsideStep(libs, first, j, base, end);
    random := was;
    if libs[j].base < base || libs[j].layend > end {
      random := false;
    }
    Link(libs, first, j);
    ChainingFacts(libs, first, j + 1, base, end, random);
  }

  lemma ChainStart(libs: seq<Entry>, first: nat, base: int, end: int)
    requires first < |libs| && libs[first].done != 0 && forall k :: 0 <= k < |libs| ==> libs[k].next == null
    ensures Chaining(libs, first, first + 1, base, end, libs[first].base >= base)
  {
  }

  lemma InsideStep(libs: seq<Entry>, first: nat, j: nat, base: int, end: int)
    requires first < j < |libs|
    ensures Below(libs, first, j, end) && libs[j].done != 0 && libs[j].base < end ==> Below(libs, first, j + 1, end)
    ensures Inside(libs, first, j + 1, base, end)
            == (Inside(libs, first, j, base, end) && base <= libs[j].base && libs[j].layend <= end)
  {
  }

  lemma ChainLinked(libs: seq<Entry>, first: nat, last: nat)
    requires first < last <= |libs| && Chained(libs, first, last) && Distinct(libs)
    requires libs[first].prev == libs[last - 1]
    ensures Linked(libs[first], libs[first..last])
  {
    var nodes := libs[first..last];
    forall i | 0 <= i < |nodes| - 1 ensures nodes[i].next == nodes[i + 1] {
      assert libs[first + i].next == libs[first + i + 1];
    }
    forall i | 1 <= i < |nodes| ensures nodes[i].prev == nodes[i - 1] {
      assert libs[first + i].prev == libs[first + i - 1];
    }
  }

  lemma ChainSorted(libs: seq<Entry>, first: nat, last: nat, end: int)
    requires first < last <= |libs| && AddrSorted(libs) && Below(libs, first, last, end)
    ensures Sorted(libs[first..last])
  {
    forall i, j | first <= i < j < last ensures libs[i].base <= libs[j].base {
      assert AddrOrder(libs[i], libs[j]);
    }
  }

  /** What the two loops leave out of the list. */
  lemma LeftOut(libs: seq<Entry>, first: nat, last: nat, base: int, end: int, x: Entry)
    requires first <= last <= |libs| && AddrSorted(libs) && x in libs && x.done != 0
    requires forall k :: 0 <= k < first ==> libs[k].layend < base
    requires last < |libs| ==> libs[last].done == 0 || libs[last].base >= end
    ensures x in libs[first..last] || (x.layend < base && (first < last ==> AddrOrder(x, libs[first])))
            || (x.base >= end && forall n :: n in libs[first..last] ==> AddrOrder(n, x))
  {
    var k :| 0 <= k < |libs| && libs[k] == x;
    if first <= k < last {
      assert libs[first..last][k - first] == x;
    } else if k > last {
      assert AddrOrder(libs[last], libs[k]);
    }
    forall n | n in libs[first..last] && k >= last && libs[last].done != 0 ensures AddrOrder(n, x) {
      var i :| first <= i < last && libs[i] == n;
      assert AddrOrder(libs[i], libs[k]);
    }
  }

  /** The list holds, by address, the libraries with a range from the first one that reaches the region's start, up to
      the first at or above its end; its head alone is not compared with that end. */
  ghost predicate Listed(nodes: seq<Entry>, libs: seq<Entry>, base: int, end: int)
    reads libs`base, libs`layend, libs`done, nodes`base, nodes`layend, nodes`done
  {
    && (forall n :: n in nodes ==> n in libs && n.done != 0) && AddrSorted(nodes)
    && (forall x :: x in libs && x.done != 0 ==> x in nodes || Omitted(x, nodes, base, end))
    && (nodes != [] ==> nodes[0].layend >= base)
    && (forall k :: 1 <= k < |nodes| ==> nodes[k].base < end)
  }

  /** x is left out: it comes before the list and ends below the region, or it comes behind the list and begins above
      the region. */
  ghost predicate Omitted(x: Entry, nodes: seq<Entry>, base: int, end: int)
    reads x`base, x`layend, x`done, nodes`base, nodes`layend, nodes`done
  {
    || (x.layend < base && (nodes != [] ==> AddrOrder(x, nodes[0])))
    || (nodes != [] && x.base >= end && forall n :: n in nodes ==> AddrOrder(n, x))
  }

  lemma ChainListed(libs: seq<Entry>, i: nat, j: nat, base: int, end: int)
    requires i < j <= |libs| && AddrSorted(libs) && Below(libs, i, j, end)
    requires forall k :: 0 <= k < i ==> libs[k].layend < base
    requires j < |libs| ==> libs[j].done == 0 || libs[j].base >= end
    requires libs[i].layend >= base
    ensures Listed(libs[i..j], libs, base, end)
  {
    assert libs[i..j][0] == libs[i];
    forall x | x in libs && x.done != 0 ensures x in libs[i..j] || Omitted(x, libs[i..j], base, end) {
      LeftOut(libs, i, j, base, end, x);
    }
    forall n | n in libs[i..j] ensures n in libs && n.done != 0 {
      var k :| i <= k < j && libs[k] == n;
    }
    forall k, m | 0 <= k < m < j - i ensures AddrOrder(libs[i..j][k], libs[i..j][m]) {
      assert libs[i..j][k] == libs[i + k] && libs[i..j][m] == libs[i + m];
    }
  }

  lemma NothingListed(libs: seq<Entry>, i: nat, base: int, end: int)
    requires i <= |libs| && AddrSorted(libs) && (i < |libs| ==> libs[i].done == 0)
    requires forall k :: 0 <= k < i ==> libs[k].layend < base
    ensures Listed([], libs, base, end)
  {
    forall x | x in libs && x.done != 0 ensures x.layend < base {
      var k :| 0 <= k < |libs| && libs[k] == x;
      if k > i { assert AddrOrder(libs[i], libs[k]); }
    }
  }

  /** Make the chained libraries the list. */
  method ListChain(l: Layout, libs: seq<Entry>, i: nat, j: nat)
    requires i < j <= |libs| && Distinct(libs) && Chained(libs, i, j) && Sorted(libs[i..j])
    modifies l, {libs[i]}`prev
    ensures l.Valid() && l.nodes == libs[i..j] && forall x :: x in libs && x !in l.nodes ==> x.next == null
  {
    ghost var nodes := libs[i..j];
    l.list := libs[i];
    l.list.prev := libs[j - 1];
    Others(libs, i);
    ChainLinked(libs, i, j);
    l.nodes := nodes;
    OutsideNext(libs, i, j);
  }

  lemma OutsideNext(libs: seq<Entry>, i: nat, j: nat)
    requires i <= j <= |libs| && Chained(libs, i, j)
    ensures forall x :: x in libs && x !in libs[i..j] ==> x.next == null
  {
    forall m | i <= m < j ensures libs[m] in libs[i..j] {
      assert libs[i..j][m - i] == libs[m];
    }
  }

  /** List the libraries that already have a range. The result says whether a random start is still allowed. */
  method BuildList(l: Layout, libs: seq<Entry>, base: int, end: int) returns (random: bool)
    requires l.Valid() && l.nodes == [] && Distinct(libs) && AddrSorted(libs)
    requires forall k :: 0 <= k < |libs| ==> libs[k].next == null
    modifies l, libs`prev, libs`next
    ensures l.Valid() && Listed(l.nodes, libs, base, end) && forall x :: x in libs && x !in l.nodes ==> x.next == null
    ensures random == if l.nodes == [] then true else Inside(l.nodes, 0, |l.nodes|, base, end)
  {
    hide *;
    random := true;
    var i := 0;
    while i < |libs| && libs[i].done != 0 && libs[i].layend < base
      invariant 0 <= i <= |libs|
      invariant forall k :: 0 <= k < i ==> libs[k].layend < base
    {
      i := i + 1;
    }
    if i < |libs| && libs[i].done != 0 {
      var j;
      j, random := Chain(libs, i, base, end);
      ChainSorted(libs, i, j, end);
      ListChain(l, libs, i, j);
      ChainListed(libs, i, j, base, end);
      InsideSlice(libs, i, j, base, end);
    } else {
      NothingListed(libs, i, base, end);
    }
  }

  lemma InsideSlice(libs: seq<Entry>, i: nat, j: nat, base: int, end: int)
    requires i < j <= |libs|
    ensures Inside(libs, i, j, base, end) == Inside(libs[i..j], 0, j - i, base, end)
  {
    var nodes := libs[i..j];
    assert forall k :: i < k < j ==> libs[k] == nodes[k - i];
    assert forall k :: 0 < k < j - i ==> nodes[k] == libs[i + k];
  }
}
