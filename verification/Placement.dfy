/** Giving libraries their address ranges (src/layout.c): a first-fit search over the
    doubly linked list of libraries that already have one. */
module Placement {
  /** struct prelink_entry, the fields layout uses. The list is circular through the prev field
      of its head, which points at the tail; next of the tail is null. */
  class Entry {
    var base: int
    var end: int
    var layend: int
    /** The done field without its 0x80 bit, and that bit. */
    var done: nat
    var high: bool
    /** u.tmp */
    var tmp: int
    var prev: Entry?
    var next: Entry?
    /** How many objects use it, whether type is ET_DYN, and what it depends on. */
    var refs: nat
    var dynamic: bool
    var depends: seq<Entry>

    constructor (base: int, end: int, layend: int, tmp: int)
      ensures this.base == base && this.end == end && this.layend == layend && this.tmp == tmp
      ensures done == 0 && !high && prev == null && next == null
      ensures refs == 0 && !dynamic && depends == []
    {
      this.base, this.end, this.layend, this.tmp := base, end, layend, tmp;
      done, high, prev, next := 0, false, null, null;
      refs, dynamic, depends := 0, false, [];
    }
  }

  ghost predicate Distinct(nodes: seq<Entry>) {
    forall i, j :: 0 <= i < j < |nodes| ==> nodes[i] != nodes[j]
  }

  /** The list starting at list runs through exactly these nodes, with consistent links. */
  ghost predicate Linked(list: Entry?, nodes: seq<Entry>)
    reads nodes`prev, nodes`next
  {
    && Distinct(nodes)
    && (if nodes == [] then list == null
        else list == nodes[0] && list.prev == nodes[|nodes| - 1] && nodes[|nodes| - 1].next == null)
    && (forall i {:trigger nodes[i].next} :: 0 <= i < |nodes| - 1 ==> nodes[i].next == nodes[i + 1])
    && (forall i {:trigger nodes[i].prev} :: 1 <= i < |nodes| ==> nodes[i].prev == nodes[i - 1])
  }

  lemma LinkedIntro(list: Entry?, nodes: seq<Entry>)
    requires Distinct(nodes) && nodes != [] && list == nodes[0]
    requires list.prev == nodes[|nodes| - 1] && nodes[|nodes| - 1].next == null
    requires forall i {:trigger nodes[i].next} :: 0 <= i < |nodes| - 1 ==> nodes[i].next == nodes[i + 1]
    requires forall i {:trigger nodes[i].prev} :: 1 <= i < |nodes| ==> nodes[i].prev == nodes[i - 1]
    ensures Linked(list, nodes)
  {
  }

  ghost predicate Sorted(nodes: seq<Entry>)
    reads nodes`base
  {
    forall i, j :: 0 <= i < j < |nodes| ==> nodes[i].base <= nodes[j].base
  }

  /** Changing links does not unsort. */
  twostate lemma SortedKept(nodes: seq<Entry>)
    requires old(Sorted(nodes)) && forall n :: n in nodes ==> n.base == old(n.base)
    ensures Sorted(nodes)
  {
  }

  /** The sequence with x put in at position ins. */
  ghost function Spliced(was: seq<Entry>, x: Entry, ins: nat): (now: seq<Entry>)
    requires ins <= |was|
    ensures |now| == |was| + 1
    ensures forall i :: 0 <= i < |now| ==> now[i] == if i < ins then was[i] else if i == ins then x else was[i - 1]
  {
    seq(|was| + 1, i requires 0 <= i <= |was| => if i < ins then was[i] else if i == ins then x else was[i - 1])
  }

  lemma DistinctSplice(was: seq<Entry>, x: Entry, ins: nat)
    requires Distinct(was) && x !in was && ins <= |was|
    ensures Distinct(Spliced(was, x, ins))
  {
  }

  lemma Others(nodes: seq<Entry>, k: nat)
    requires Distinct(nodes) && k < |nodes|
    ensures forall j :: 0 <= j < |nodes| && j != k ==> nodes[j] != nodes[k]
  {
  }

  lemma SortedInsert(was: seq<Entry>, x: Entry, ins: nat)
    requires Sorted(was) && ins <= |was|
    requires forall k :: 0 <= k < ins ==> was[k].base <= x.base
    requires forall k :: ins <= k < |was| ==> x.base <= was[k].base
    ensures Sorted(Spliced(was, x, ins))
  {
  }

  /** x starts below every entry from position ins on. */
  ghost predicate BelowFrom(x: Entry, nodes: seq<Entry>, ins: nat)
    reads x`base, nodes`base
  {
    forall k :: ins <= k < |nodes| ==> x.base < nodes[k].base
  }

  /** The two address ranges, from base to layend, do not meet. */
  ghost predicate Clear(x: Entry, y: Entry)
    reads x`base, x`layend, y`base, y`layend
  {
    x.layend <= y.base || y.layend <= x.base
  }

  /** Some entry among the first pos that counts stands in the way of size bytes at address b. */
  ghost predicate Blocked(nodes: seq<Entry>, pos: nat, m: int, b: int, size: int)
    requires pos <= |nodes|
    reads nodes`base, nodes`layend, nodes`tmp
  {
    exists k :: 0 <= k < pos && nodes[k].tmp == m && b < nodes[k].layend && nodes[k].base < b + size
  }

  type Page = p: int | p > 0 witness 1

  /** mmap_base, mmap_start, mmap_end, mmap_fin, max_page_size: the region to fill, where the
      search starts, where it gives up, and the page size. */
  datatype Region = Region(base: int, start: int, end: int, fin: int, page: Page)

  function Pages(q: int, page: Page): int {
    q * page
  }

  /** v is a whole number of pages. */
  ghost predicate Aligned(v: int, page: Page) {
    exists q :: v == Pages(q, page)
  }

  lemma AlignedSum(a: int, b: int, page: Page)
    requires Aligned(a, page) && Aligned(b, page)
    ensures Aligned(a + b, page)
  {
    var i :| a == Pages(i, page);
    var j :| b == Pages(j, page);
    assert a + b == Pages(i + j, page);
  }

  lemma AlignedTimes(k: int, v: int, page: Page)
    requires Aligned(v, page)
    ensures Aligned(k * v, page)
  {
    var q :| v == Pages(q, page);
    assert k * v == Pages(k * q, page) by { assert k * (q * page) == (k * q) * page; }
  }

  lemma AlignedDiff(v: int, w: int, page: Page)
    requires Aligned(v, page) && Aligned(w, page)
    ensures Aligned(v - w, page)
  {
    AlignedTimes(-1, w, page);
    AlignedSum(v, -1 * w, page);
  }

  lemma AlignedMod(v: int, m: int, page: Page)
    requires Aligned(v, page) && Aligned(m, page) && m > 0
    ensures Aligned(v % m, page)
  {
    AlignedTimes(v / m, m, page);
    AlignedDiff(v, (v / m) * m, page);
    assert v % m == v - (v / m) * m;
  }

  /** base is the lowest address from the search start on where size bytes meet none of the entries marked m,
      and they end by the limit or in front of such an entry. */
  ghost predicate FitsAt(was: seq<Entry>, m: int, base: int, size: int, r: Region)
    reads was`base, was`layend, was`tmp
  {
    && r.start <= base && size >= 0
    && (base == r.start || exists n :: n in was && n.tmp == m && base == n.layend)
    && (base + size <= r.fin || exists n :: n in was && n.tmp == m && base + size <= n.base)
    && (forall n :: n in was && n.tmp == m ==> base + size <= n.base || n.layend <= base)
    && BlockedBelow(was, |was|, m, r.start, base, size)
  }

  ghost predicate Fitted(was: seq<Entry>, x: Entry, m: int, r: Region)
    reads was`base, was`layend, was`tmp, x`base, x`layend
  {
    FitsAt(was, m, x.base, x.layend - x.base, r)
  }

  ghost predicate BlockedBelow(was: seq<Entry>, pos: nat, m: int, start: int, base: int, size: int)
    requires pos <= |was|
    reads was`base, was`layend, was`tmp
  {
    forall b :: start <= b < base ==> Blocked(was, pos, m, b, size)
  }

  lemma FittedIntro(was: seq<Entry>, pos: nat, x: Entry, m: int, r: Region)
    requires pos <= |was| && Sorted(was) && x.base <= x.layend
    requires pos < |was| ==> was[pos].tmp == m && x.layend <= was[pos].base
    requires pos == |was| ==> x.layend <= r.fin
    requires forall k :: 0 <= k < pos && was[k].tmp == m ==> was[k].layend <= x.base
    requires x.base == r.start || (x.base > r.start && exists k :: 0 <= k < pos && was[k].tmp == m
                                                        && x.base == was[k].layend)
    requires BlockedBelow(was, |was|, m, r.start, x.base, x.layend - x.base)
    ensures Fitted(was, x, m, r)
  {
    hide BlockedBelow;
    forall n | n in was && n.tmp == m ensures x.layend <= n.base || n.layend <= x.base {
      var k :| 0 <= k < |was| && was[k] == n;
    }
    if pos < |was| { assert was[pos] in was; }
  }

  /** From start on there is an entry in the way of size bytes everywhere until top, where no entry
      that counts is left but the limit is too near. */
  ghost predicate NoRoom(nodes: seq<Entry>, m: int, size: int, r: Region)
    reads nodes`base, nodes`layend, nodes`tmp
  {
    exists top :: top + size > r.fin && AllBelow(nodes, m, top) && BlockedBelow(nodes, |nodes|, m, r.start, top, size)
  }

  ghost predicate AllBelow(nodes: seq<Entry>, m: int, top: int)
    reads nodes`layend, nodes`tmp
  {
    forall n :: n in nodes && n.tmp == m ==> n.layend <= top
  }

  lemma NoRoomIntro(nodes: seq<Entry>, m: int, base: int, size: int, r: Region)
    requires BlockedBelow(nodes, |nodes|, m, r.start, base, size) && base + size > r.fin
    requires forall k :: 0 <= k < |nodes| && nodes[k].tmp == m ==> nodes[k].layend <= base
    ensures NoRoom(nodes, m, size, r)
  {
    assert AllBelow(nodes, m, base);
  }

  /** n is one of the entries x must keep clear of and in the way of size bytes at b. */
  ghost predicate Hinders(n: Entry, x: Entry, c: Criteria, b: int, size: int)
    reads n`base, n`layend
  {
    c.Related(x, n) && b < n.layend && n.base < b + size
  }

  ghost predicate InTheWay(nodes: seq<Entry>, x: Entry, c: Criteria, b: int, size: int)
    reads nodes`base, nodes`layend
  {
    exists n :: n in nodes && Hinders(n, x, c, b, size)
  }

  /** There is room at b: nothing is in the way, and size bytes end by the limit of the search or in front of an
      entry that x must keep clear of. */
  ghost predicate RoomAt(nodes: seq<Entry>, x: Entry, c: Criteria, b: int, size: int, r: Region)
    reads nodes`base, nodes`layend
  {
    && r.start <= b && !InTheWay(nodes, x, c, b, size)
    && (b + size <= r.fin || exists n :: n in nodes && c.Related(x, n) && b < n.layend && b + size <= n.base)
  }

  /** There is no room for x, wherever one looks from the start of the search on. */
  ghost predicate Stuck(nodes: seq<Entry>, x: Entry, c: Criteria, size: int, r: Region)
    reads nodes`base, nodes`layend
  {
    forall b :: !RoomAt(nodes, x, c, b, size, r)
  }

  lemma StuckIntro(nodes: seq<Entry>, x: Entry, m: int, c: Criteria, size: int, r: Region)
    requires NoRoom(nodes, m, size, r) && forall n :: n in nodes && n.tmp == m ==> c.Related(x, n)
    requires forall n :: n in nodes && c.Related(x, n) ==> n.tmp == m
    ensures Stuck(nodes, x, c, size, r)
  {
    var top :| top + size > r.fin && AllBelow(nodes, m, top) && BlockedBelow(nodes, |nodes|, m, r.start, top, size);
    forall b ensures !RoomAt(nodes, x, c, b, size, r) {
      if r.start <= b < top {
        assert Blocked(nodes, |nodes|, m, b, size);
        var k :| 0 <= k < |nodes| && nodes[k].tmp == m && b < nodes[k].layend && nodes[k].base < b + size;
        assert Hinders(nodes[k], x, c, b, size);
      }
    }
  }

  /** Nowhere below its base, from the start of the search on, had x had room among the entries of was and the
      libraries placed earlier. */
  ghost predicate Lowest(all: set<Entry>, x: Entry, was: seq<Entry>, earlier: set<Entry>, c: Criteria, start: int)
    requires x in all
    reads all`base, all`layend
  {
    forall b :: start <= b < x.base ==> HinderedBy(all, x, was, earlier, c, b)
  }

  ghost predicate HinderedBy(all: set<Entry>, x: Entry, was: seq<Entry>, earlier: set<Entry>, c: Criteria, b: int)
    requires x in all
    reads all`base, all`layend
  {
    exists n :: n in all && (n in was || n in earlier) && Hinders(n, x, c, b, x.layend - x.base)
  }

  lemma LowestIntro(all: set<Entry>, x: Entry, was: seq<Entry>, before: seq<Entry>, placed: set<Entry>, m: int,
                    c: Criteria, r: Region)
    requires x in all && Members(all - {x}, was, before, placed) && Fitted(before, x, m, r)
    requires forall n :: n in before && n.tmp == m ==> c.Related(x, n)
    ensures Lowest(all, x, was, placed, c, r.start)
  {
    var size := x.layend - x.base;
    forall b | r.start <= b < x.base ensures HinderedBy(all, x, was, placed, c, b) {
      assert Blocked(before, |before|, m, b, size);
      var k :| 0 <= k < |before| && before[k].tmp == m && b < before[k].layend && before[k].base < b + size;
      assert before[k] in before && Hinders(before[k], x, c, b, size);
    }
  }

  /** With everything where at has it, an entry of was or a library placed earlier is in the way of x at b. */
  ghost predicate HinderedAt(x: Entry, b: int, was: seq<Entry>, earlier: set<Entry>, c: Criteria,
                             at: map<Entry, Range>)
    requires x in at
  {
    exists n :: n in at && (n in was || n in earlier) && c.Related(x, n)
                && b < at[n].layend && at[n].base < b + (at[x].layend - at[x].base)
  }

  /** Each of the first i libraries that had no range has the lowest place from the start of the search on that there
      was for it when its turn came. */
  ghost predicate FirstFits(libs: seq<Entry>, i: nat, was: seq<Entry>, snap: map<Entry, Range>, c: Criteria, start: int,
                            at: map<Entry, Range>)
    requires i <= |libs| && forall x :: x in libs ==> x in snap
  {
    forall j, b ::
      0 <= j < i && snap[libs[j]].done == 0 && libs[j] in at && start <= b < at[libs[j]].base ==>
        HinderedAt(libs[j], b, was, Undone(libs, j, snap), c, at)
  }

  /** The same with everything but library i where it was. */
  lemma FirstFitsNext(all: set<Entry>, was: seq<Entry>, libs: seq<Entry>, i: nat, snap: map<Entry, Range>, c: Criteria,
                      start: int, at: map<Entry, Range>)
    requires i < |libs| && (forall x :: x in libs ==> x in all && x in snap) && Distinct(libs) && at.Keys == all
    requires FirstFits(libs, i, was, snap, c, start, at)
    requires forall n :: n in all && n != libs[i] ==> n.base == at[n].base && n.layend == at[n].layend
    requires if snap[libs[i]].done == 0
             then libs[i] !in was && Lowest(all, libs[i], was, Undone(libs, i, snap), c, start)
             else libs[i].base == at[libs[i]].base && libs[i].layend == at[libs[i]].layend
    ensures FirstFits(libs, i + 1, was, snap, c, start, Snapshot(all))
  {
    var now := Snapshot(all);
    forall j, b | 0 <= j < i + 1 && snap[libs[j]].done == 0 && start <= b < now[libs[j]].base
      ensures HinderedAt(libs[j], b, was, Undone(libs, j, snap), c, now)
    {
      if j < i {
        Others(libs, i);
        UndoneMembers(libs, j, snap);
        assert HinderedAt(libs[j], b, was, Undone(libs, j, snap), c, at);
      } else {
        assert HinderedBy(all, libs[i], was, Undone(libs, i, snap), c, b);
      }
    }
  }

  lemma FirstFitsSame(all: set<Entry>, was: seq<Entry>, libs: seq<Entry>, i: nat, snap: map<Entry, Range>, c: Criteria,
                      start: int, at: map<Entry, Range>)
    requires i <= |libs| && (forall x :: x in libs ==> x in all && x in snap) && at.Keys == all
    requires FirstFits(libs, i, was, snap, c, start, at)
    requires forall n :: n in all ==> n.base == at[n].base && n.layend == at[n].layend
    ensures FirstFits(libs, i, was, snap, c, start, Snapshot(all))
  {
    forall j, b |
      0 <= j < i && snap[libs[j]].done == 0 && libs[j] in all && start <= b < Snapshot(all)[libs[j]].base
      ensures HinderedAt(libs[j], b, was, Undone(libs, j, snap), c, Snapshot(all))
    {
      assert HinderedAt(libs[j], b, was, Undone(libs, j, snap), c, at);
    }
  }

  lemma SnapshotPlaces(all: set<Entry>)
    ensures forall n :: n in all ==> Snapshot(all)[n].base == n.base && Snapshot(all)[n].layend == n.layend
  {
  }

  lemma SnapshotKept(all: set<Entry>)
    ensures forall n :: n in all ==> Kept(n, Snapshot(all)[n])
  {
  }

  lemma BlockedSooner(nodes: seq<Entry>, pos: nat, m: int, start: int, base: int, size: int)
    requires pos <= |nodes|
    requires BlockedBelow(nodes, pos, m, start, base, size)
    ensures BlockedBelow(nodes, |nodes|, m, start, base, size)
  {
    forall b | start <= b < base ensures Blocked(nodes, |nodes|, m, b, size) {
      assert Blocked(nodes, pos, m, b, size);
    }
  }

  /** The libraries in placed have been listed besides those of was, everything else is as snap
      recorded it, and each library placed keeps clear of the entries it is related to. */
  ghost predicate LaidOut(all: set<Entry>, was: seq<Entry>, nodes: seq<Entry>, placed: set<Entry>,
                          snap: map<Entry, Range>, c: Criteria, r: Region, rotated: bool)
    requires all <= snap.Keys && forall n :: n in was ==> n in snap
    reads all`base, all`end, all`layend, all`done, all`high
  {
    && Members(all, was, nodes, placed)
    && (forall n :: n in all && n !in placed ==> Kept(n, snap[n]))
    && (forall x :: x in placed && x in all ==> PlacedAs(x, was, snap, r, rotated))
    && (forall n :: n in nodes && n in all ==> Aligned(n.layend, r.page))
    && KeptClear(all, nodes, placed, c)
    && Arranged(all, was, nodes, placed)
  }

  ghost predicate Before(nodes: seq<Entry>, x: Entry, y: Entry) {
    exists i, j :: 0 <= i < j < |nodes| && nodes[i] == x && nodes[j] == y
  }

  /** Entries listed from the beginning keep their order. */
  ghost predicate OrderKept(was: seq<Entry>, nodes: seq<Entry>) {
    forall i, j :: 0 <= i < j < |was| ==> Before(nodes, was[i], was[j])
  }

  /** A library placed is listed after every entry of the beginning that does not start above it. */
  ghost predicate ListedLast(all: set<Entry>, was: seq<Entry>, nodes: seq<Entry>, placed: set<Entry>)
    reads all`base
  {
    forall i, j :: 0 <= i < j < |nodes| && nodes[i] in placed && nodes[j] in was && nodes[i] in all
                   && nodes[j] in all ==>
      nodes[i].base < nodes[j].base
  }

  ghost predicate Arranged(all: set<Entry>, was: seq<Entry>, nodes: seq<Entry>, placed: set<Entry>)
    reads all`base
  {
    OrderKept(was, nodes) && ListedLast(all, was, nodes, placed)
  }

  lemma ArrangedStart(all: set<Entry>, was: seq<Entry>)
    ensures Arranged(all, was, was, {})
  {
    forall i, j | 0 <= i < j < |was| ensures Before(was, was[i], was[j]) {
    }
  }

  lemma OrderAdd(was: seq<Entry>, before: seq<Entry>, x: Entry, ins: nat)
    requires OrderKept(was, before) && ins <= |before|
    ensures OrderKept(was, Spliced(before, x, ins))
  {
    var now := Spliced(before, x, ins);
    forall i, j | 0 <= i < j < |was| ensures Before(now, was[i], was[j]) {
      assert Before(before, was[i], was[j]);
      var a, b :| 0 <= a < b < |before| && before[a] == was[i] && before[b] == was[j];
      assert now[if a < ins then a else a + 1] == was[i] && now[if b < ins then b else b + 1] == was[j];
    }
  }

  lemma ArrangedAdd(all: set<Entry>, was: seq<Entry>, before: seq<Entry>, placed: set<Entry>, x: Entry, ins: nat)
    requires Arranged(all - {x}, was, before, placed) && x !in before && x !in was && ins <= |before|
    requires BelowFrom(x, before, ins)
    ensures Arranged(all, was, Spliced(before, x, ins), placed + {x})
  {
    OrderAdd(was, before, x, ins);
    hide OrderKept, Before, Spliced;
    var now := Spliced(before, x, ins);
    forall i, j | 0 <= i < j < |now| && now[i] in placed + {x} && now[j] in was && now[i] in all && now[j] in all
      ensures now[i].base < now[j].base
    {
      SplicedPair(before, x, ins, i, j);
    }
  }

  /** Where two entries of the spliced sequence come from. */
  lemma SplicedPair(before: seq<Entry>, x: Entry, ins: nat, i: nat, j: nat)
    requires ins <= |before| && i < j <= |before|
    ensures Spliced(before, x, ins)[i] != x ==> Spliced(before, x, ins)[i] == before[if i < ins then i else i - 1]
    ensures Spliced(before, x, ins)[j] != x ==> Spliced(before, x, ins)[j] == before[if j < ins then j else j - 1]
    ensures Spliced(before, x, ins)[i] == x && x !in before ==> i == ins
  {
  }

  ghost predicate Members(all: set<Entry>, was: seq<Entry>, nodes: seq<Entry>, placed: set<Entry>) {
    && (forall n :: n in nodes ==> n in all && (n in was || n in placed))
    && (forall n :: n in was ==> n in nodes)
    && (forall x :: x in placed ==> x in nodes && x !in was)
  }

  /** Each library placed keeps clear of the listed entries it is related to. */
  ghost predicate KeptClear(all: set<Entry>, nodes: seq<Entry>, placed: set<Entry>, c: Criteria)
    reads all`base, all`layend
  {
    forall x, y :: x in placed && x in all && y in nodes && y in all && x != y && c.Related(x, y) ==> Clear(x, y)
  }

  ghost predicate PlacedAs(x: Entry, was: seq<Entry>, snap: map<Entry, Range>, r: Region, rotated: bool)
    requires x in snap && forall n :: n in was ==> n in snap
    reads x`base, x`end, x`layend, x`done, x`high
  {
    && Moved(x, snap[x]) && Within(x, was, snap, r) && Aligned(x.base, r.page)
    && x.high == (rotated && x.base >= r.end)
  }

  lemma LaidOutBut(all: set<Entry>, was: seq<Entry>, nodes: seq<Entry>, placed: set<Entry>, snap: map<Entry, Range>,
                   c: Criteria, r: Region, rotated: bool, x: Entry)
    requires all <= snap.Keys && (forall n :: n in was ==> n in snap) && x !in nodes
    requires LaidOut(all, was, nodes, placed, snap, c, r, rotated)
    ensures LaidOut(all - {x}, was, nodes, placed, snap, c, r, rotated)
    ensures forall n :: n in nodes ==> n in all
  {
  }

  /** A library fitted among the entries it is related to extends the layout. */
  lemma LaidOutAdd(all: set<Entry>, was: seq<Entry>, before: seq<Entry>, placed: set<Entry>, snap: map<Entry, Range>,
                   c: Criteria, r: Region, rotated: bool, x: Entry, m: int, ins: nat)
    requires all <= snap.Keys && (forall n :: n in was ==> n in snap)
    requires LaidOut(all - {x}, was, before, placed, snap, c, r, rotated)
    requires x in all && x !in before && ins <= |before|
    requires Moved(x, snap[x]) && x.high == (rotated && x.base >= r.end) && Fitted(before, x, m, r)
    requires forall n :: n in before && c.Related(x, n) ==> n.tmp == m
    requires Aligned(r.start, r.page) && Aligned(snap[x].layend - snap[x].base, r.page)
    requires BelowFrom(x, before, ins)
    ensures LaidOut(all, was, Spliced(before, x, ins), placed + {x}, snap, c, r, rotated)
    ensures forall n :: n in Spliced(before, x, ins) <==> n == x || n in before
  {
    hide *;
    PlacedAsAdd(all, was, before, placed, snap, c, r, rotated, x, m);
    SplicedMembers(before, x, ins);
    KeptClearAdd(all, was, before, placed, snap, c, r, rotated, x, m, ins);
    LaidOutParts(all - {x}, was, before, placed, snap, c, r, rotated);
    ArrangedAdd(all, was, before, placed, x, ins);
    LaidOutIntro(all, was, before, placed, snap, c, r, rotated, x, ins);
  }

  lemma LaidOutParts(all: set<Entry>, was: seq<Entry>, nodes: seq<Entry>, placed: set<Entry>, snap: map<Entry, Range>,
                     c: Criteria, r: Region, rotated: bool)
    requires all <= snap.Keys && (forall n :: n in was ==> n in snap)
    requires LaidOut(all, was, nodes, placed, snap, c, r, rotated)
    ensures Members(all, was, nodes, placed) && Arranged(all, was, nodes, placed) && KeptClear(all, nodes, placed, c)
    ensures forall n :: n in was ==> n in nodes
    ensures forall n :: n in all && n !in placed ==> Kept(n, snap[n])
    ensures forall x :: x in placed && x in all ==> PlacedAs(x, was, snap, r, rotated)
    ensures forall n :: n in nodes && n in all ==> Aligned(n.layend, r.page)
  {
  }

  lemma LaidOutIntro(all: set<Entry>, was: seq<Entry>, before: seq<Entry>, placed: set<Entry>, snap: map<Entry, Range>,
                     c: Criteria, r: Region, rotated: bool, x: Entry, ins: nat)
    requires all <= snap.Keys && (forall n :: n in was ==> n in snap) && x in all && x !in before && ins <= |before|
    requires Members(all - {x}, was, before, placed)
    requires forall n :: n in all - {x} && n !in placed ==> Kept(n, snap[n])
    requires forall y :: y in placed && y in all - {x} ==> PlacedAs(y, was, snap, r, rotated)
    requires forall n :: n in before && n in all - {x} ==> Aligned(n.layend, r.page)
    requires PlacedAs(x, was, snap, r, rotated) && Aligned(x.layend, r.page)
    requires KeptClear(all, Spliced(before, x, ins), placed + {x}, c)
    requires Arranged(all, was, Spliced(before, x, ins), placed + {x})
    ensures LaidOut(all, was, Spliced(before, x, ins), placed + {x}, snap, c, r, rotated)
  {
    MembersAdd(all, was, before, placed, x, ins);
    SplicedMembers(before, x, ins);
    hide PlacedAs, Kept, Aligned, KeptClear, Arranged, Members, Spliced;
  }

  lemma MembersAdd(all: set<Entry>, was: seq<Entry>, before: seq<Entry>, placed: set<Entry>, x: Entry, ins: nat)
    requires x in all && x !in before && ins <= |before| && Members(all - {x}, was, before, placed)
    ensures Members(all, was, Spliced(before, x, ins), placed + {x}) && x !in was
  {
    SplicedMembers(before, x, ins);
    hide Spliced;
  }

  lemma KeptClearAdd(all: set<Entry>, was: seq<Entry>, before: seq<Entry>, placed: set<Entry>, snap: map<Entry, Range>,
                     c: Criteria, r: Region, rotated: bool, x: Entry, m: int, ins: nat)
    requires all <= snap.Keys && (forall n :: n in was ==> n in snap)
    requires LaidOut(all - {x}, was, before, placed, snap, c, r, rotated)
    requires x in all && x !in before && ins <= |before| && Fitted(before, x, m, r)
    requires forall n :: n in before && c.Related(x, n) ==> n.tmp == m
    ensures KeptClear(all, Spliced(before, x, ins), placed + {x}, c)
  {
    SplicedMembers(before, x, ins);
    FittedClear(before, c, r, x, m);
    hide Fitted, Spliced, PlacedAs, Kept, Moved, Aligned, Arranged;
  }

  lemma FittedClear(before: seq<Entry>, c: Criteria, r: Region, x: Entry, m: int)
    requires Fitted(before, x, m, r) && forall n :: n in before && c.Related(x, n) ==> n.tmp == m
    ensures forall n :: n in before && (c.Related(x, n) || c.Related(n, x)) ==> Clear(x, n)
  {
    assert forall y :: c.Related(y, x) ==> c.Related(x, y);
  }

  lemma PlacedAsAdd(all: set<Entry>, was: seq<Entry>, before: seq<Entry>, placed: set<Entry>, snap: map<Entry, Range>,
                    c: Criteria, r: Region, rotated: bool, x: Entry, m: int)
    requires all <= snap.Keys && forall n :: n in was ==> n in snap
    requires LaidOut(all - {x}, was, before, placed, snap, c, r, rotated)
    requires x in all && x !in before
    requires Moved(x, snap[x]) && x.high == (rotated && x.base >= r.end) && Fitted(before, x, m, r)
    requires Aligned(r.start, r.page) && Aligned(snap[x].layend - snap[x].base, r.page)
    ensures PlacedAs(x, was, snap, r, rotated) && Aligned(x.layend, r.page)
  {
    hide BlockedBelow, Aligned, Arranged, KeptClear;
    if x.layend > r.fin {
      var n :| n in before && x.layend <= n.base;
      if n in was { assert Kept(n, snap[n]); } else { assert PlacedAs(n, was, snap, r, rotated); }
    }
    assert Aligned(x.base, r.page);
    AlignedSum(x.base, x.layend - x.base, r.page);
  }

  lemma SplicedMembers(before: seq<Entry>, x: Entry, ins: nat)
    requires ins <= |before|
    ensures forall n :: n in Spliced(before, x, ins) <==> n == x || n in before
  {
    var now := Spliced(before, x, ins);
    forall n | n in before ensures n in now {
      var k :| 0 <= k < |before| && before[k] == n;
      assert now[if k < ins then k else k + 1] == n;
    }
    assert now[ins] == x;
  }

  class Layout {
    var list: Entry?
    ghost var nodes: seq<Entry>

    constructor ()
      ensures list == null && nodes == []
    {
      list, nodes := null, [];
    }

    ghost predicate Valid()
      reads this, nodes`prev, nodes`next, nodes`base
    {
      Linked(list, nodes) && Sorted(nodes)
    }

    /** The loop that looks for room: the entries that count are those marked m. */
    method FirstFit(m: int, size: int, start: int) returns (base: int, e: Entry?, ghost pos: nat)
      requires Valid() && size >= 0
      ensures pos <= |nodes| && (if pos == |nodes| then e == null else e == nodes[pos])
      ensures e != null ==> e.tmp == m && base + size <= e.base
      ensures forall k :: 0 <= k < pos && nodes[k].tmp == m ==> nodes[k].layend <= base
      ensures base == start || (base > start && exists k :: 0 <= k < pos && nodes[k].tmp == m
                                                 && base == nodes[k].layend)
      // no lower address would do
      ensures BlockedBelow(nodes, pos, m, start, base, size)
    {
      base := start;
      e := list;
      pos := 0;
      while e != null
        invariant pos <= |nodes| && (if pos == |nodes| then e == null else e == nodes[pos])
        invariant forall k :: 0 <= k < pos && nodes[k].tmp == m ==> nodes[k].layend <= base
        invariant base == start || (base > start && exists k :: 0 <= k < pos && nodes[k].tmp == m
                                                     && base == nodes[k].layend)
        invariant forall b :: start <= b < base ==> Blocked(nodes, pos, m, b, size)
        decreases |nodes| - pos
      {
        ghost var before := base;
        if e.tmp == m {
          if base + size <= e.base {
            return;
          }
          if base < e.layend {
            base := e.layend;
          }
        }
        ghost var upTo := pos + 1;
        forall b | start <= b < base ensures Blocked(nodes, upTo, m, b, size) {
          if b < before {
            assert Blocked(nodes, pos, m, b, size);
          } else {
            assert nodes[pos].tmp == m && b < nodes[pos].layend && nodes[pos].base < b + size;
          }
        }
        e := e.next;
        pos := pos + 1;
      }
    }

    /** Walk back to the last entry whose base is not above the new one. */
    method FindPlace(x: Entry, at: Entry?, ghost pos: nat) returns (e: Entry, ghost q: nat)
      requires Valid() && list != null
      requires pos <= |nodes| && (if pos == |nodes| then at == null else at == nodes[pos] && x.base < at.base)
      ensures q < |nodes| && e == nodes[q]
      ensures forall k :: q < k < |nodes| ==> x.base < nodes[k].base
      ensures e.base > x.base ==> q == 0
    {
      if at == null || at == list {
        e, q := list.prev, |nodes| - 1;
      } else {
        e, q := at.prev, pos - 1;
      }
      while e != list && e.base > x.base
        invariant q < |nodes| && e == nodes[q]
        invariant forall k :: q < k < |nodes| ==> x.base < nodes[k].base
        decreases q
      {
        e, q := e.prev, q - 1;
      }
    }

    /** List x when nothing is listed yet. */
    method LinkFirst(x: Entry)
      requires Valid() && list == null && x.next == null
      modifies this, x`prev
      ensures Valid() && nodes == Spliced(old(nodes), x, 0)
    {
      list := x;
      x.prev := x;
      nodes := Spliced(nodes, x, 0);
    }

    /** Link x in before the head. */
    method LinkFront(x: Entry)
      requires Linked(list, nodes) && list != null && x !in nodes
      modifies this, nodes`prev, x`next, x`prev
      ensures Linked(list, nodes) && nodes == Spliced(old(nodes), x, 0)
    {
      DistinctSplice(nodes, x, 0);
      Others(nodes, 0);
      hide Distinct;
      x.next := list;
      x.prev := list.prev;
      list.prev := x;
      list := x;
      nodes := Spliced(nodes, x, 0);
    }

    /** The link updates for putting x in after e. */
    method SpliceLinks(x: Entry, e: Entry)
      requires list != null && x != e && x != list && x != e.next && e.next != e
      modifies e`next, {e.next, list}`prev, x`next, x`prev
      ensures x.next == old(e.next) && x.prev == e && e.next == x
      ensures if old(e.next) != null then old(e.next).prev == x && (old(e.next) != list ==> list.prev == old(list.prev))
              else list.prev == x
    {
      x.next := e.next;
      x.prev := e;
      if e.next != null {
        e.next.prev := x;
      } else {
        list.prev := x;
      }
      e.next := x;
    }

    /** The links once x has been put in after position q. */
    ghost predicate SplicedLinks(list: Entry?, was: seq<Entry>, x: Entry, q: nat)
      requires q < |was|
      reads was`prev, was`next, x`prev, x`next
    {
      && list == was[0] && was[q].next == x && x.prev == was[q]
      && (if q + 1 < |was| then x.next == was[q + 1] && was[q + 1].prev == x && was[0].prev == was[|was| - 1]
          else x.next == null && was[0].prev == x)
      && (q + 1 < |was| ==> was[|was| - 1].next == null)
      && (forall j {:trigger was[j].next} :: 0 <= j < |was| - 1 && j != q ==> was[j].next == was[j + 1])
      && (forall j {:trigger was[j].prev} :: 1 <= j < |was| && j != q + 1 ==> was[j].prev == was[j - 1])
    }

    lemma SplicedLinked(list: Entry?, was: seq<Entry>, x: Entry, q: nat)
      requires q < |was| && Distinct(was) && x !in was && SplicedLinks(list, was, x, q)
      ensures Linked(list, Spliced(was, x, q + 1))
    {
      var now := Spliced(was, x, q + 1);
      DistinctSplice(was, x, q + 1);
      hide Distinct;
      forall i | 0 <= i < |now| - 1 ensures now[i].next == now[i + 1] {
        if i < q { assert was[i].next == was[i + 1]; } else if i > q + 1 { assert was[i - 1].next == was[i]; }
      }
      forall i | 1 <= i < |now| ensures now[i].prev == now[i - 1] {
        if i <= q { assert was[i].prev == was[i - 1]; } else if i > q + 2 { assert was[i - 1].prev == was[i - 2]; }
      }
      LinkedIntro(list, now);
    }

    /** Link x in after the entry at position q. */
    method LinkAfter(x: Entry, e: Entry, ghost q: nat)
      requires Linked(list, nodes) && list != null && x !in nodes && q < |nodes| && e == nodes[q]
      modifies this, nodes`prev, nodes`next, x`next, x`prev
      ensures Linked(list, nodes) && nodes == Spliced(old(nodes), x, q + 1)
    {
      ghost var was, now := nodes, Spliced(nodes, x, q + 1);
      Others(was, 0);
      Others(was, q);
      if q + 1 < |was| { Others(was, q + 1); }
      assert forall j :: 0 <= j < |was| ==> was[j] != x;
      hide Distinct;
      SpliceLinks(x, e);
      assert SplicedLinks(list, was, x, q);
      hide *;
      SplicedLinked(list, was, x, q);
      nodes := now;
    }

    /** Link a new entry in, keeping the list sorted by base. */
    method Insert(x: Entry, at: Entry?, ghost pos: nat) returns (ghost ins: nat)
      requires Valid() && x !in nodes && (nodes == [] ==> x.next == null)
      requires pos <= |nodes| && (if pos == |nodes| then at == null else at == nodes[pos] && x.base < at.base)
      modifies this, nodes`prev, nodes`next, x`prev, x`next
      ensures Valid() && ins <= |old(nodes)|
      ensures nodes == Spliced(old(nodes), x, ins)
      ensures BelowFrom(x, old(nodes), ins)
    {
      ListedWhen();
      hide *;
      if list == null {
        BelowNothing(x, nodes);
        LinkFirst(x);
        ins := 0;
      } else {
        ins := InsertAmong(x, at, pos);
      }
    }

    method InsertAmong(x: Entry, at: Entry?, ghost pos: nat) returns (ghost ins: nat)
      requires Valid() && x !in nodes && list != null
      requires pos <= |nodes| && (if pos == |nodes| then at == null else at == nodes[pos] && x.base < at.base)
      modifies this, nodes`prev, nodes`next, x`prev, x`next
      ensures Valid() && ins <= |old(nodes)|
      ensures nodes == Spliced(old(nodes), x, ins)
      ensures BelowFrom(x, old(nodes), ins)
    {
      ListedWhen();
      hide *;
      var e;
      ghost var q;
      e, q, ins := PlaceFor(x, at, pos);
      LinkAt(x, e, q, ins);
    }

    /** The entry to link x in at, so that the list stays sorted. */
    method PlaceFor(x: Entry, at: Entry?, ghost pos: nat) returns (e: Entry, ghost q: nat, ghost ins: nat)
      requires Valid() && list != null
      requires pos <= |nodes| && (if pos == |nodes| then at == null else at == nodes[pos] && x.base < at.base)
      ensures q < |nodes| && e == nodes[q] && ins == if e.base > x.base then 0 else q + 1
      ensures Sorted(Spliced(nodes, x, ins)) && BelowFrom(x, nodes, ins)
    {
      ListedWhen();
      hide *;
      e, q := FindPlace(x, at, pos);
      ins := if e.base > x.base then 0 else q + 1;
      InsertOrder(x, e, q);
      SortedInsert(nodes, x, ins);
    }

    /** Link x in before e, the head, or after it. */
    method LinkAt(x: Entry, e: Entry, ghost q: nat, ghost ins: nat)
      requires Linked(list, nodes) && list != null && x !in nodes && q < |nodes| && e == nodes[q]
      requires ins == (if e.base > x.base then 0 else q + 1) && Sorted(Spliced(nodes, x, ins))
      modifies this, nodes`prev, nodes`next, x`next, x`prev
      ensures Valid() && nodes == Spliced(old(nodes), x, ins)
    {
      hide *;
      ghost var now := Spliced(nodes, x, ins);
      if e.base > x.base {
        LinkFront(x);
      } else {
        LinkAfter(x, e, q);
      }
      SortedKept(now);
      ValidIntro();
    }

    lemma BelowNothing(x: Entry, none: seq<Entry>)
      requires none == []
      ensures BelowFrom(x, none, 0)
    {
    }

    lemma ListedWhen()
      requires Valid()
      ensures Linked(list, nodes) && Sorted(nodes) && (list == null <==> nodes == [])
    {
    }

    lemma ValidIntro()
      requires Linked(list, nodes) && Sorted(nodes)
      ensures Valid()
    {
    }

    lemma InsertOrder(x: Entry, e: Entry, q: nat)
      requires Sorted(nodes) && q < |nodes| && e == nodes[q] && (e.base > x.base ==> q == 0)
      requires forall k :: q < k < |nodes| ==> x.base < nodes[k].base
      ensures var ins := if e.base > x.base then 0 else q + 1;
              && (forall k :: 0 <= k < ins ==> nodes[k].base <= x.base)
              && (forall k :: ins <= k < |nodes| ==> x.base < nodes[k].base) && BelowFrom(x, nodes, ins)
    {
    }

    /** Find room for x among the entries marked m and move it there; false is the error exit. */
    method Fit(x: Entry, m: int, r: Region, rotated: bool, ghost w: Range) returns (ok: bool, e: Entry?, ghost pos: nat)
      requires Valid() && x !in nodes && x.base < x.layend && Kept(x, w)
      modifies x`base, x`end, x`layend, x`done, x`high
      ensures pos <= |nodes| && (if pos == |nodes| then e == null else e == nodes[pos])
      ensures !ok ==> unchanged(x) && NoRoom(nodes, m, x.layend - x.base, r)
      ensures ok ==> Fitted(nodes, x, m, r) && (e != null ==> x.base < e.base)
      ensures ok ==> Moved(x, w) && x.high == (rotated && x.base >= r.end)
    {
      hide BlockedBelow, Fitted, Linked, Sorted;
      var size := x.layend - x.base;
      var base;
      base, e, pos := FirstFit(m, size, r.start);
      BlockedSooner(nodes, pos, m, r.start, base, size);
      if e == null && base + size > r.fin {
        NoRoomIntro(nodes, m, base, size, r);
        ok := false;
        return;
      }
      ok := true;
      x.end := x.end + (base - x.base);
      x.base := base;
      x.layend := base + size;
      x.done := 1;
      x.high := rotated && base >= r.end;
      FittedIntro(nodes, pos, x, m, r);
    }

    /** One library gets its address range and its place in the list. */
    method Place(x: Entry, m: int, r: Region, rotated: bool, ghost w: Range) returns (ok: bool, ghost ins: nat)
      requires Valid() && x !in nodes && x.next == null && x.base < x.layend && Kept(x, w)
      modifies this, nodes`prev, nodes`next, x`base, x`end, x`layend, x`done, x`high, x`prev, x`next
      ensures x.tmp == old(x.tmp) && Valid() && ins <= |old(nodes)|
      ensures !ok ==> nodes == old(nodes) && unchanged(x) && NoRoom(nodes, m, x.layend - x.base, r)
      ensures ok ==> nodes == Spliced(old(nodes), x, ins) && Fitted(old(nodes), x, m, r)
      ensures ok ==> BelowFrom(x, old(nodes), ins)
      ensures ok ==> Moved(x, w) && x.high == (rotated && x.base >= r.end)
    {
      hide Fitted, Sorted, Linked, NoRoom, Kept, Moved;
      ins := 0;
      var found, e, pos := Fit(x, m, r, rotated, w);
      if found {
        ins := Insert(x, e, pos);
      }
      ok := found;
    }

    /** With --conserve-memory only libraries that ever appear together with x matter; otherwise all do. */
    method MarkRelated(x: Entry, m: int, c: Criteria, ghost all: set<Entry>)
      requires c.Over(all) && x !in c.fake && forall n :: n in nodes ==> n in all && (n.tmp == m <==> !c.conserve)
      modifies all`tmp
      ensures forall n :: n in nodes ==> (n.tmp == m <==> c.Related(x, n))
      ensures forall n :: n in all ==> n.tmp == old(n.tmp) || (c.conserve && n.tmp == m)
    {
      if c.conserve {
        Mark(c.binlibs, x, m, c.fake, all);
      }
    }

    /** One turn of the layout loop: mark the entries that matter to x and place it. */
    method PlaceStep(x: Entry, m: int, c: Criteria, r: Region, rotated: bool, ghost all: set<Entry>,
                     ghost was: seq<Entry>, ghost placed: set<Entry>, ghost snap: map<Entry, Range>) returns (ok: bool)
      requires all <= snap.Keys && forall n :: n in was ==> n in all
      requires Valid() && LaidOut(all, was, nodes, placed, snap, c, r, rotated) && c.Over(all)
      requires x in all && x !in nodes && x !in c.fake && x.next == null && x.base < x.layend && Kept(x, snap[x])
      requires forall n :: n in nodes ==> (n.tmp == m <==> !c.conserve)
      requires Aligned(r.start, r.page) && Aligned(snap[x].layend - snap[x].base, r.page)
      modifies this, all`base, all`end, all`layend, all`done, all`high, all`tmp, all`prev, all`next
      ensures Valid() && LaidOut(all, was, nodes, if ok then placed + {x} else placed, snap, c, r, rotated)
      ensures !ok ==> nodes == old(nodes) && Stuck(nodes, x, c, snap[x].layend - snap[x].base, r)
      ensures ok ==> x in nodes && (forall n :: n in old(nodes) ==> n in nodes) && forall n :: n in nodes ==>
                n == x || n in old(nodes)
      ensures ok ==> forall n :: n in all && n !in nodes ==> n.next == old(n.next)
      ensures forall n :: n in all ==> n.tmp == old(n.tmp) || (c.conserve && n.tmp == m)
      ensures forall n :: n in all && (n != x || !ok) ==> n.base == old(n.base) && n.layend == old(n.layend)
      ensures ok ==> Lowest(all, x, was, placed, c, r.start)
    {
      hide *;
      ghost var before := nodes;
      LaidOutBut(all, was, nodes, placed, snap, c, r, rotated, x);
      MarkRelated(x, m, c, all);
      KeptSize(x, snap[x]);
      ghost var ins;
      ok, ins := Place(x, m, r, rotated, snap[x]);
      if ok {
        LaidOutParts(all - {x}, was, before, placed, snap, c, r, rotated);
        LowestIntro(all, x, was, before, placed, m, c, r);
        LaidOutAdd(all, was, before, placed, snap, c, r, rotated, x, m, ins);
      } else {
        StuckIntro(nodes, x, m, c, snap[x].layend - snap[x].base, r);
      }
    }

    lemma KeptSize(x: Entry, w: Range)
      requires Kept(x, w)
      ensures x.layend - x.base == w.layend - w.base
    {
    }

    /** Marks left by earlier turns cannot be mistaken for the mark of turn i. */
    ghost predicate Marked(libs: seq<Entry>, i: nat, c: Criteria)
      reads this`nodes, nodes`tmp, libs`tmp
    {
      forall n :: n in libs + nodes ==> if c.conserve then n.tmp < i else n.tmp == -1
    }

    /** What the layout loop knows before its turn i. */
    ghost predicate Turn(libs: seq<Entry>, i: nat, c: Criteria, r: Region, rotated: bool, all: set<Entry>,
                         was: seq<Entry>, snap: map<Entry, Range>)
      requires all <= snap.Keys && i <= |libs|
      requires (forall n :: n in libs ==> n in all) && forall n :: n in was ==> n in all
      reads this, nodes, all
    {
      && Valid() && LaidOut(all, was, nodes, Undone(libs, i, snap), snap, c, r, rotated)
      && FirstFits(libs, i, was, snap, c, r.start, Snapshot(all))
      && (forall j :: i <= j < |libs| && snap[libs[j]].done == 0 ==> libs[j] !in nodes && libs[j].next == null)
      && Marked(libs, i, c)
    }

    /** Laying out ends at library i: those before it have a range, and there is no room for it. */
    ghost predicate Halted(libs: seq<Entry>, i: nat, c: Criteria, r: Region, rotated: bool, all: set<Entry>,
                           was: seq<Entry>, snap: map<Entry, Range>)
      requires all <= snap.Keys && i < |libs|
      requires (forall n :: n in libs ==> n in all) && forall n :: n in was ==> n in all
      reads this, nodes, all
    {
      && Valid() && LaidOut(all, was, nodes, Undone(libs, i, snap), snap, c, r, rotated)
      && FirstFits(libs, i, was, snap, c, r.start, Snapshot(all))
      && snap[libs[i]].done == 0 && Stuck(nodes, libs[i], c, snap[libs[i]].layend - snap[libs[i]].base, r)
    }

    lemma HaltedIntro(libs: seq<Entry>, i: nat, c: Criteria, r: Region, rotated: bool, all: set<Entry>,
                      was: seq<Entry>, snap: map<Entry, Range>)
      requires all <= snap.Keys && i < |libs|
      requires (forall n :: n in libs ==> n in all) && forall n :: n in was ==> n in all
      requires Valid() && LaidOut(all, was, nodes, Undone(libs, i, snap), snap, c, r, rotated)
      requires FirstFits(libs, i, was, snap, c, r.start, Snapshot(all))
      requires snap[libs[i]].done == 0 && Stuck(nodes, libs[i], c, snap[libs[i]].layend - snap[libs[i]].base, r)
      ensures Halted(libs, i, c, r, rotated, all, was, snap)
    {
    }

    method PlaceTurn(libs: seq<Entry>, i: nat, c: Criteria, r: Region, rotated: bool, ghost all: set<Entry>,
                     ghost was: seq<Entry>, ghost snap: map<Entry, Range>) returns (ok: bool)
      requires all <= snap.Keys && c.Over(all) && i < |libs| && Distinct(libs) && NoFakes(libs, c)
      requires (forall n :: n in libs ==> n in all) && forall n :: n in was ==> n in all
      requires Turn(libs, i, c, r, rotated, all, was, snap)
      requires Sized(libs, snap, r)
      modifies this, all`base, all`end, all`layend, all`done, all`high, all`tmp, all`prev, all`next
      ensures ok ==> Turn(libs, i + 1, c, r, rotated, all, was, snap)
      ensures !ok ==> Halted(libs, i, c, r, rotated, all, was, snap)
    {
      hide *;
      TurnFacts(libs, i, c, r, rotated, all, was, snap);
      UndoneStep(libs, i, snap);
      SizedAt(libs, i, snap, r);
      ghost var before := Snapshot(all);
      SnapshotPlaces(all);
      if libs[i].done == 0 {
        ok := PlaceStep(libs[i], if c.conserve then i else -1, c, r, rotated, all, was, Undone(libs, i, snap), snap);
        if !ok {
          FirstFitsSame(all, was, libs, i, snap, c, r.start, before);
          HaltedIntro(libs, i, c, r, rotated, all, was, snap);
          return;
        }
      }
      ok := true;
      FirstFitsNext(all, was, libs, i, snap, c, r.start, before);
      MarkedIntro(libs, i + 1, c);
      TurnIntro(libs, i + 1, c, r, rotated, all, was, snap);
    }

    lemma MarkedIntro(libs: seq<Entry>, i: nat, c: Criteria)
      requires forall n :: n in libs + nodes ==> if c.conserve then n.tmp < i else n.tmp == -1
      ensures Marked(libs, i, c)
    {
    }

    lemma TurnIntro(libs: seq<Entry>, i: nat, c: Criteria, r: Region, rotated: bool, all: set<Entry>,
                    was: seq<Entry>, snap: map<Entry, Range>)
      requires all <= snap.Keys && i <= |libs|
      requires (forall n :: n in libs ==> n in all) && forall n :: n in was ==> n in all
      requires Valid() && LaidOut(all, was, nodes, Undone(libs, i, snap), snap, c, r, rotated)
      requires FirstFits(libs, i, was, snap, c, r.start, Snapshot(all))
      requires forall j :: i <= j < |libs| && snap[libs[j]].done == 0 ==> libs[j] !in nodes && libs[j].next == null
      requires Marked(libs, i, c)
      ensures Turn(libs, i, c, r, rotated, all, was, snap)
    {
    }

    /** A library whose turn has not come is as it was. */
    lemma TurnFacts(libs: seq<Entry>, i: nat, c: Criteria, r: Region, rotated: bool, all: set<Entry>,
                    was: seq<Entry>, snap: map<Entry, Range>)
      requires all <= snap.Keys && i < |libs| && Distinct(libs) && NoFakes(libs, c)
      requires (forall n :: n in libs ==> n in all) && forall n :: n in was ==> n in all
      requires Turn(libs, i, c, r, rotated, all, was, snap)
      ensures Kept(libs[i], snap[libs[i]]) && libs[i].done == snap[libs[i]].done && libs[i] !in c.fake
      ensures libs[i].done == 0 ==> libs[i] !in nodes && libs[i] !in was && libs[i].next == null
      ensures forall j :: 0 <= j < |libs| && j != i ==> libs[j] != libs[i]
      ensures forall n :: n in nodes ==> n in all
      ensures forall n :: n in libs + nodes ==> if c.conserve then n.tmp < i else n.tmp == -1
      ensures forall n :: n in nodes ==> n in libs + nodes
      ensures Valid() && LaidOut(all, was, nodes, Undone(libs, i, snap), snap, c, r, rotated)
      ensures FirstFits(libs, i, was, snap, c, r.start, Snapshot(all))
      ensures forall j :: i <= j < |libs| && snap[libs[j]].done == 0 ==> libs[j] !in nodes && libs[j].next == null
    {
      UndoneMembers(libs, i, snap);
      Others(libs, i);
    }

    /** The loop that lays out every library without a range, most wanted first; false is the error exit. */
    method PlaceLoop(libs: seq<Entry>, c: Criteria, r: Region, rotated: bool, ghost all: set<Entry>,
                     ghost was: seq<Entry>, ghost snap: map<Entry, Range>) returns (ok: bool)
      requires all <= snap.Keys && c.Over(all) && Distinct(libs) && NoFakes(libs, c)
      requires (forall n :: n in libs ==> n in all) && forall n :: n in was ==> n in all
      requires Turn(libs, 0, c, r, rotated, all, was, snap)
      requires Sized(libs, snap, r)
      modifies this, all`base, all`end, all`layend, all`done, all`high, all`tmp, all`prev, all`next
      ensures ok ==> Turn(libs, |libs|, c, r, rotated, all, was, snap)
      ensures !ok ==> exists i :: 0 <= i < |libs| && Halted(libs, i, c, r, rotated, all, was, snap)
    {
      hide *;
      for i := 0 to |libs|
        invariant Turn(libs, i, c, r, rotated, all, was, snap)
      {
        ok := PlaceTurn(libs, i, c, r, rotated, all, was, snap);
        if !ok {
          return;
        }
      }
      ok := true;
    }

    /** Give a range to every library without one, or stop at the first for which there is no room. */
    method PlaceAll(libs: seq<Entry>, c: Criteria, r: Region, rotated: bool, ghost all: set<Entry>,
                    ghost snap: map<Entry, Range>) returns (ok: bool)
      requires Valid() && Distinct(libs) && c.Over(all) && NoFakes(libs, c)
      requires all <= snap.Keys && forall n :: n in all ==> Kept(n, snap[n])
      requires forall n :: n in nodes ==> n in all && (n in libs || n in c.fake)
      requires forall n :: n in libs ==> n in all
      requires forall n :: n in c.fake ==> n.tmp == -1
      requires forall x :: x in libs && x.done == 0 ==> x !in nodes && x.next == null
      requires Sized(libs, snap, r) && forall n :: n in nodes ==> Aligned(n.layend, r.page)
      modifies this, all`base, all`end, all`layend, all`done, all`high, all`tmp, all`prev, all`next
      ensures ok ==> Valid() && LaidOut(all, old(nodes), nodes, Undone(libs, |libs|, snap), snap, c, r, rotated)
      ensures ok ==> FirstFits(libs, |libs|, old(nodes), snap, c, r.start, Snapshot(all))
      ensures !ok ==> exists i :: 0 <= i < |libs| && Halted(libs, i, c, r, rotated, all, old(nodes), snap)
    {
      ghost var was := nodes;
      hide *;
      MarkSeq(libs, -1, all);
      TurnStart(libs, c, r, rotated, all, snap);
      ok := PlaceLoop(libs, c, r, rotated, all, was, snap);
      if ok {
        TurnParts(libs, |libs|, c, r, rotated, all, was, snap);
      }
    }

    lemma TurnStart(libs: seq<Entry>, c: Criteria, r: Region, rotated: bool, all: set<Entry>, snap: map<Entry, Range>)
      requires Valid() && all <= snap.Keys && forall n :: n in all ==> Kept(n, snap[n])
      requires forall n :: n in nodes ==> n in all && (n in libs || n in c.fake)
      requires forall n :: n in libs ==> n in all && n.tmp == -1
      requires forall n :: n in c.fake ==> n.tmp == -1
      requires forall x :: x in libs && x.done == 0 ==> x !in nodes && x.next == null
      requires forall n :: n in nodes ==> Aligned(n.layend, r.page)
      ensures Turn(libs, 0, c, r, rotated, all, nodes, snap)
    {
      MarkedIntro(libs, 0, c);
      ArrangedStart(all, nodes);
    }

    lemma TurnParts(libs: seq<Entry>, i: nat, c: Criteria, r: Region, rotated: bool, all: set<Entry>,
                    was: seq<Entry>, snap: map<Entry, Range>)
      requires all <= snap.Keys && i <= |libs|
      requires (forall n :: n in libs ==> n in all) && forall n :: n in was ==> n in all
      requires Turn(libs, i, c, r, rotated, all, was, snap)
      ensures Valid() && LaidOut(all, was, nodes, Undone(libs, i, snap), snap, c, r, rotated)
      ensures FirstFits(libs, i, was, snap, c, r.start, Snapshot(all))
    {
    }

    /** Mark every entry that ever appears in a depends list together with x, and the boundary entries. */
    method Mark(binlibs: seq<seq<Entry>>, x: Entry, m: int, fake: seq<Entry>, ghost all: set<Entry>)
      requires forall b :: b in binlibs ==> forall n :: n in b ==> n in all
      requires forall n :: n in fake ==> n in all
      modifies all`tmp
      ensures forall n :: n in all ==> n.tmp == if Together(binlibs, x, n) || n in fake then m else old(n.tmp)
    {
      var j := 0;
      while j < |binlibs|
        invariant 0 <= j <= |binlibs|
        invariant forall n :: n in all ==> n.tmp == if Together(binlibs[..j], x, n) then m else old(n.tmp)
      {
        assert binlibs[j] in binlibs;
        assert forall n :: Together(binlibs[..j + 1], x, n) <==>
                 Together(binlibs[..j], x, n) || (x in binlibs[j] && n in binlibs[j]);
        if x in binlibs[j] {
          MarkSeq(binlibs[j], m, all);
        }
        j := j + 1;
      }
      assert binlibs[..j] == binlibs;
      MarkSeq(fake, m, all);
    }

    method MarkSeq(es: seq<Entry>, m: int, ghost all: set<Entry>)
      requires forall n :: n in es ==> n in all
      modifies all`tmp
      ensures forall n :: n in all ==> n.tmp == if n in es then m else old(n.tmp)
    {
      var k := 0;
      while k < |es|
        invariant 0 <= k <= |es|
        invariant forall n :: n in all ==> n.tmp == if n in es[..k] then m else old(n.tmp)
      {
        assert es[k] in es;
        es[k].tmp := m;
        k := k + 1;
      }
      assert es[..k] == es;
    }
  }

  /** x and y appear in one object's depends list. */
  ghost predicate Together(binlibs: seq<seq<Entry>>, x: Entry, y: Entry) {
    exists j :: 0 <= j < |binlibs| && x in binlibs[j] && y in binlibs[j]
  }

  /** What decides which ranges must keep clear of each other: the depends lists of all objects,
      the boundary entries of the list, and --conserve-memory. */
  datatype Criteria = Criteria(binlibs: seq<seq<Entry>>, fake: seq<Entry>, conserve: bool) {
    ghost predicate Related(x: Entry, y: Entry) {
      !conserve || Together(binlibs, x, y) || x in fake || y in fake
    }

    ghost predicate Over(all: set<Entry>) {
      && (forall n :: n in fake ==> n in all)
      && (forall b, n :: b in binlibs && n in b ==> n in all)
    }
  }

  /** The address range and done flag an entry had. */
  datatype Range = Range(base: int, end: int, layend: int, done: nat, high: bool)

  ghost function Snapshot(all: set<Entry>): (snap: map<Entry, Range>)
    reads all
    ensures snap.Keys == all
  {
    map n | n in all :: Range(n.base, n.end, n.layend, n.done, n.high)
  }

  /** The libraries among the first n that had no range to begin with. */
  ghost function Undone(libs: seq<Entry>, n: nat, snap: map<Entry, Range>): set<Entry>
    requires n <= |libs| && forall x :: x in libs ==> x in snap
  {
    if n == 0 then {}
    else Undone(libs, n - 1, snap) + if snap[libs[n - 1]].done == 0 then {libs[n - 1]} else {}
  }

  lemma UndoneStep(libs: seq<Entry>, i: nat, snap: map<Entry, Range>)
    requires i < |libs| && forall x :: x in libs ==> x in snap
    ensures snap[libs[i]].done == 0 ==> Undone(libs, i + 1, snap) == Undone(libs, i, snap) + {libs[i]}
    ensures snap[libs[i]].done != 0 ==> Undone(libs, i + 1, snap) == Undone(libs, i, snap)
  {
  }

  lemma {:induction false} UndoneMembers(libs: seq<Entry>, n: nat, snap: map<Entry, Range>)
    requires n <= |libs| && forall x :: x in libs ==> x in snap
    ensures forall x :: x in Undone(libs, n, snap) ==> exists j :: 0 <= j < n && libs[j] == x && snap[x].done == 0
    ensures forall j :: 0 <= j < n && snap[libs[j]].done == 0 ==> libs[j] in Undone(libs, n, snap)
  {
    if n > 0 { UndoneMembers(libs, n - 1, snap); }
  }

  /** The libraries to place take whole pages, and the search starts on a page. */
  ghost predicate Sized(libs: seq<Entry>, snap: map<Entry, Range>, r: Region) {
    && Aligned(r.start, r.page)
    && forall x :: x in libs && x in snap && snap[x].done == 0 ==>
         snap[x].base < snap[x].layend && Aligned(snap[x].layend - snap[x].base, r.page)
  }

  lemma SizedAt(libs: seq<Entry>, i: nat, snap: map<Entry, Range>, r: Region)
    requires Sized(libs, snap, r) && i < |libs| && libs[i] in snap
    ensures Aligned(r.start, r.page)
    ensures snap[libs[i]].done == 0 ==> Aligned(snap[libs[i]].layend - snap[libs[i]].base, r.page)
    ensures snap[libs[i]].done == 0 && Kept(libs[i], snap[libs[i]]) ==> libs[i].base < libs[i].layend
  {
  }

  /** Boundary entries are not libraries. */
  ghost predicate NoFakes(libs: seq<Entry>, c: Criteria) {
    forall n :: n in c.fake ==> n !in libs
  }

  ghost predicate Kept(n: Entry, w: Range)
    reads n`base, n`end, n`layend, n`done, n`high
  {
    n.base == w.base && n.end == w.end && n.layend == w.layend && n.done == w.done && n.high == w.high
  }

  /** A library was given a range: it is shifted as a whole. */
  ghost predicate Moved(x: Entry, w: Range)
    reads x`base, x`end, x`layend, x`done
  {
    x.base <= x.layend && x.layend - x.base == w.layend - w.base && x.end - x.base == w.end - w.base && x.done == 1
  }

  /** The range starts at the search start or above and ends below the limit, or below an entry
      that was listed from the beginning. */
  ghost predicate Within(x: Entry, was: seq<Entry>, snap: map<Entry, Range>, r: Region)
    requires forall n :: n in was ==> n in snap
    reads x`base, x`layend
  {
    x.base >= r.start && (x.layend <= r.fin || exists n :: n in was && x.layend <= snap[n].base)
  }

  /** Listed libraries that kept clear of each other before still do, and so do the new ones: with
      --conserve-memory any two that some object needs together, otherwise any two at all. */
  lemma StillClear(all: set<Entry>, was: seq<Entry>, nodes: seq<Entry>, placed: set<Entry>, snap: map<Entry, Range>,
                   c: Criteria, r: Region, rotated: bool, x: Entry, y: Entry)
    requires all <= snap.Keys && forall n :: n in was ==> n in snap
    requires LaidOut(all, was, nodes, placed, snap, c, r, rotated)
    requires x in nodes && y in nodes && x != y && c.Related(x, y)
    requires x in was && y in was ==> snap[x].layend <= snap[y].base || snap[y].layend <= snap[x].base
    ensures Clear(x, y)
  {
    assert c.Related(y, x);
    if x in placed || y in placed {
      assert Clear(x, y) || Clear(y, x);
    } else {
      assert Kept(x, snap[x]) && Kept(y, snap[y]);
    }
  }
}
