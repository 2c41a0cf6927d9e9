/** When a library is placed outside the region (src/layout.c): the head of the list is not compared with the
    region's end (lines 349-355), and from a random start the end need not be marked in the list (457-475). */
module Limits {
  import opened Placement
  import opened ListBuilding

  /** Some library of whole pages is placed so that it lies across the end of the region. */
  ghost predicate SomeAcross(was: seq<Entry>, m: int, r: Region)
    reads was`base, was`layend, was`tmp
  {
    exists base, size :: Across(was, m, r, base, size)
  }

  ghost predicate Across(was: seq<Entry>, m: int, r: Region, base: int, size: int)
    reads was`base, was`layend, was`tmp
  {
    size > 0 && Aligned(size, r.page) && FitsAt(was, m, base, size, r) && base < r.end < base + size
  }

  /** Some library of whole pages is placed so that it ends past the limit of the search. */
  ghost predicate SomePast(was: seq<Entry>, m: int, r: Region)
    reads was`base, was`layend, was`tmp
  {
    exists base, size :: Past(was, m, r, base, size)
  }

  ghost predicate Past(was: seq<Entry>, m: int, r: Region, base: int, size: int)
    reads was`base, was`layend, was`tmp
  {
    size > 0 && Aligned(size, r.page) && FitsAt(was, m, base, size, r) && r.fin < base + size
  }

  /** A gap of the list from lo to hi: it begins at the start of the search or at the end of an entry, ends at
      the limit, behind all entries, or at the base of an entry, and nothing lies in between. */
  ghost predicate Gap(was: seq<Entry>, m: int, r: Region, lo: int, hi: int)
    reads was`base, was`layend, was`tmp
  {
    && r.start <= lo < hi && (lo == r.start || exists n :: n in was && n.tmp == m && lo == n.layend)
    && (if exists n :: n in was && n.tmp == m && hi == n.base then true
        else hi == r.fin && forall n :: n in was && n.tmp == m ==> n.layend <= lo)
    && forall n :: n in was && n.tmp == m ==> n.layend <= lo || hi <= n.base
  }

  /** The end of the region lies strictly inside a gap, and nothing as long as this gap fits any earlier. */
  ghost predicate OpenEnd(was: seq<Entry>, m: int, r: Region)
    reads was`base, was`layend, was`tmp
  {
    exists lo, hi :: lo < r.end < hi && Gap(was, m, r, lo, hi) && BlockedBelow(was, |was|, m, r.start, lo, hi - lo)
  }

  /** The listed entries and the bounds of the search lie on pages. */
  ghost predicate OnPages(was: seq<Entry>, r: Region)
    reads was`base, was`layend
  {
    && Aligned(r.start, r.page) && Aligned(r.fin, r.page)
    && forall n :: n in was ==> Aligned(n.base, r.page) && Aligned(n.layend, r.page)
  }

  /** The lowest base at or above an address, of the entries marked m among the first k. */
  lemma {:induction false} Lowest(was: seq<Entry>, k: nat, m: int, from: int) returns (found: bool, hi: int)
    requires k <= |was|
    ensures found ==> hi >= from && exists n :: n in was && n.tmp == m && hi == n.base
    ensures forall i :: 0 <= i < k && was[i].tmp == m && was[i].base >= from ==> found && hi <= was[i].base
  {
    if k == 0 {
      found, hi := false, from;
    } else {
      found, hi := Lowest(was, k - 1, m, from);
      var n := was[k - 1];
      if n.tmp == m && n.base >= from && (!found || n.base < hi) {
        assert n in was;
        found, hi := true, n.base;
      }
    }
  }

  /** Whatever is placed fills part of a gap. */
  lemma FitsInGap(was: seq<Entry>, m: int, r: Region, base: int, size: int) returns (hi: int)
    requires FitsAt(was, m, base, size, r) && size > 0
    ensures base + size <= hi && Gap(was, m, r, base, hi) && BlockedBelow(was, |was|, m, r.start, base, hi - base)
  {
    var found;
    found, hi := Lowest(was, |was|, m, base + size);
    hi := if found then hi else r.fin;
    forall n | n in was && n.tmp == m ensures n.layend <= base || (found && hi <= n.base) {
      var i :| 0 <= i < |was| && was[i] == n;
    }
    BlockedLonger(was, m, r.start, base, size, hi - base);
  }

  /** What has no room below an address still has none when it is longer. */
  lemma BlockedLonger(was: seq<Entry>, m: int, start: int, base: int, size: int, more: int)
    requires BlockedBelow(was, |was|, m, start, base, size) && size <= more
    ensures BlockedBelow(was, |was|, m, start, base, more)
  {
    forall b | start <= b < base ensures Blocked(was, |was|, m, b, more) {
      assert Blocked(was, |was|, m, b, size);
    }
  }

  /** A gap as long as no earlier one takes a library of its length. */
  lemma GapTakes(was: seq<Entry>, m: int, r: Region, lo: int, hi: int)
    requires Gap(was, m, r, lo, hi) && BlockedBelow(was, |was|, m, r.start, lo, hi - lo) && OnPages(was, r)
    ensures FitsAt(was, m, lo, hi - lo, r) && Aligned(hi - lo, r.page)
  {
    AlignedDiff(hi, lo, r.page);
    hide Aligned, BlockedBelow;
  }

  /** Some library is placed across the end of the region exactly when that end is not marked in the list: it
      lies strictly inside a gap, and there is no earlier room for what takes the whole gap. */
  lemma AcrossExactly(was: seq<Entry>, m: int, r: Region)
    requires OnPages(was, r)
    ensures SomeAcross(was, m, r) <==> OpenEnd(was, m, r)
  {
    if SomeAcross(was, m, r) {
      var base, size :| Across(was, m, r, base, size);
      var hi := FitsInGap(was, m, r, base, size);
      assert base < r.end < hi;
    }
    if OpenEnd(was, m, r) {
      var lo, hi :| lo < r.end < hi && Gap(was, m, r, lo, hi) && BlockedBelow(was, |was|, m, r.start, lo, hi - lo);
      GapTakes(was, m, r, lo, hi);
      assert Across(was, m, r, lo, hi - lo);
    }
  }

  /** Some library of whole pages is placed at v or further up. */
  ghost predicate SomeFrom(was: seq<Entry>, m: int, r: Region, v: int)
    reads was`base, was`layend, was`tmp
  {
    exists base, size :: From(was, m, r, v, base, size)
  }

  ghost predicate From(was: seq<Entry>, m: int, r: Region, v: int, base: int, size: int)
    reads was`base, was`layend, was`tmp
  {
    size > 0 && Aligned(size, r.page) && FitsAt(was, m, base, size, r) && v <= base
  }

  /** From the limit of the search on there is a gap below an entry that counts, and nothing as long as this gap fits
      any earlier. */
  ghost predicate OpenFrom(was: seq<Entry>, m: int, r: Region, v: int)
    reads was`base, was`layend, was`tmp
  {
    exists lo, n :: n in was && n.tmp == m && v <= lo && Gap(was, m, r, lo, n.base)
                    && BlockedBelow(was, |was|, m, r.start, lo, n.base - lo)
  }

  lemma GapLong(was: seq<Entry>, m: int, r: Region, lo: int, hi: int)
    requires Gap(was, m, r, lo, hi)
    ensures lo < hi
  {
  }

  /** A gap past the limit ends at an entry. */
  lemma GapAbove(was: seq<Entry>, m: int, r: Region, lo: int, hi: int) returns (n: Entry)
    requires Gap(was, m, r, lo, hi) && r.fin <= lo
    ensures n in was && n.tmp == m && hi == n.base
  {
    n :| n in was && n.tmp == m && hi == n.base;
  }

  /** Some library is placed past the limit exactly then. */
  lemma FromExactly(was: seq<Entry>, m: int, r: Region, v: int)
    requires OnPages(was, r) && r.fin <= v
    ensures SomeFrom(was, m, r, v) <==> OpenFrom(was, m, r, v)
  {
    hide Gap, FitsAt, BlockedBelow, Aligned, OnPages;
    if SomeFrom(was, m, r, v) {
      var base, size :| From(was, m, r, v, base, size);
      var hi := FitsInGap(was, m, r, base, size);
      var n := GapAbove(was, m, r, base, hi);
    }
    if OpenFrom(was, m, r, v) {
      var lo, n :| n in was && n.tmp == m && v <= lo && Gap(was, m, r, lo, n.base)
                   && BlockedBelow(was, |was|, m, r.start, lo, n.base - lo);
      GapTakes(was, m, r, lo, n.base);
      GapLong(was, m, r, lo, n.base);
      assert From(was, m, r, v, lo, n.base - lo);
    }
  }

  /** The boundary entry is there to prevent it. */
  lemma BoundaryClosesEnd(was: seq<Entry>, m: int, r: Region, boundary: Entry)
    requires boundary in was && boundary.tmp == m && boundary.base == boundary.layend == r.end && OnPages(was, r)
    ensures !SomeAcross(was, m, r)
  {
    AcrossExactly(was, m, r);
  }

  /** With nothing listed it is not there, and every random start above the region's base leaves the end open. */
  lemma EmptyListOpensEnd(m: int, r: Region)
    requires r.start < r.end < r.fin && OnPages([], r)
    ensures SomeAcross([], m, r)
  {
    AcrossExactly([], m, r);
    assert Gap([], m, r, r.start, r.fin);
  }

  /** From a start one page below the end of an empty region of ten pages, three pages are laid across the end,
      where they are not marked to be moved back. */
  lemma StraddleExample(x: Entry)
    requires x.base == 0x9000 && x.layend == 0xC000
    ensures var r := Region(0, 0x9000, 0xA000, 0x13000, 0x1000); Fitted([], x, -1, r) && x.base < r.end < x.layend
  {
  }

  /** What lies across the end may collide with a library that is not listed because it begins above the region:
      one library is listed (and moved up), another one just above the region is not, and three pages laid out
      from the last page of the region meet it. */
  lemma StraddleCollides(low: Entry, moved: Entry, high: Entry, x: Entry)
    requires low.done == 1 && low.base == 0x5000 && low.layend == 0x6000 && moved.base == 0xF000
             && moved.layend == 0x10000
    requires high.done == 1 && high.base == 0xA000 && high.layend == 0xB000 && moved.tmp == -1
    requires x.base == 0x9000 && x.layend == 0xC000
    ensures Listed([low], [low, high], 0, 0xA000) && Fitted([moved], x, -1, Region(0, 0x9000, 0xA000, 0x13000, 0x1000))
    ensures !Clear(x, high)
  {
    assert moved in [moved] && low in [low] && low in [low, high];
  }

  /** The list is sorted, and none of its entries but the head begins past the limit of the search. */
  ghost predicate HeadApart(nodes: seq<Entry>, r: Region)
    reads nodes`base
  {
    Sorted(nodes) && forall k :: 1 <= k < |nodes| ==> nodes[k].base <= r.fin
  }

  /** That is so of the list as it is built. */
  lemma ListedHeadApart(nodes: seq<Entry>, libs: seq<Entry>, r: Region)
    requires Listed(nodes, libs, r.base, r.end) && Sorted(nodes) && r.end <= r.fin
    ensures HeadApart(nodes, r)
  {
  }

  /** The head of the list, the one entry that is not compared with the end of the region, begins past the limit of
      the search, and counts. */
  ghost predicate HeadFar(nodes: seq<Entry>, m: int, r: Region)
    reads nodes`base, nodes`tmp
  {
    nodes != [] && nodes[0].tmp == m && nodes[0].base > r.fin
  }

  lemma FarAlone(nodes: seq<Entry>, m: int, r: Region)
    requires HeadApart(nodes, r) && HeadFar(nodes, m, r)
    ensures nodes == [nodes[0]]
  {
    var k := if |nodes| > 1 then 1 else 0;
    assert nodes[0].base <= nodes[k].base;
  }

  /** Unless the head is far whatever counts begins by the limit. */
  lemma NearCounts(nodes: seq<Entry>, m: int, r: Region)
    requires HeadApart(nodes, r) && !HeadFar(nodes, m, r)
    ensures forall n :: n in nodes && n.tmp == m ==> n.base <= r.fin
  {
    forall n | n in nodes && n.tmp == m ensures n.base <= r.fin {
      var k :| 0 <= k < |nodes| && nodes[k] == n;
    }
  }

  /** Some library is placed past the limit exactly when the head of the list is far. */
  lemma PastExactly(nodes: seq<Entry>, m: int, r: Region)
    requires HeadApart(nodes, r) && OnPages(nodes, r) && r.base <= r.start <= r.fin && r.end <= r.fin
    ensures SomePast(nodes, m, r) <==> HeadFar(nodes, m, r)
  {
    if HeadFar(nodes, m, r) {
      FarAlone(nodes, m, r);
      var n, size := nodes[0], nodes[0].base - r.start;
      AlignedDiff(n.base, r.start, r.page);
      assert n in nodes && Past(nodes, m, r, r.start, size);
    } else {
      NearCounts(nodes, m, r);
    }
  }

  /** As FitsAt, with len bytes at lo placed among the entries that count. */
  ghost predicate FitsBeside(was: seq<Entry>, m: int, lo: int, len: int, base: int, size: int, r: Region)
    reads was`base, was`layend, was`tmp
  {
    && r.start <= base && size >= 0
    && (base == r.start || base == lo + len || exists n :: n in was && n.tmp == m && base == n.layend)
    && (base + size <= r.fin || base + size <= lo || exists n :: n in was && n.tmp == m && base + size <= n.base)
    && (base + size <= lo || lo + len <= base)
    && (forall n :: n in was && n.tmp == m ==> base + size <= n.base || n.layend <= base)
    && (forall b :: r.start <= b < base ==> (b < lo + len && lo < b + size) || Blocked(was, |was|, m, b, size))
  }

  /** It is FitsAt on the list with a library there. */
  lemma BesideIs(was: seq<Entry>, m: int, first: Entry, base: int, size: int, r: Region)
    requires first.tmp == m
    ensures FitsAt(was + [first], m, base, size, r)
            <==> FitsBeside(was, m, first.base, first.layend - first.base, base, size, r)
  {
    var now := was + [first];
    assert first in now && forall n :: n in now <==> n in was || n == first;
    forall b ensures Blocked(now, |now|, m, b, size)
                     <==> (b < first.layend && first.base < b + size) || Blocked(was, |was|, m, b, size) {
      if Blocked(was, |was|, m, b, size) {
        var k :| 0 <= k < |was| && was[k].tmp == m && b < was[k].layend && was[k].base < b + size;
        assert now[k] == was[k];
      }
      if b < first.layend && first.base < b + size { assert now[|was|] == first; }
    }
    assert BlockedBelow(now, |now|, m, r.start, base, size) <==> forall b :: r.start <= b < base ==>
      (b < first.layend && first.base < b + size) || Blocked(was, |was|, m, b, size);
  }

  /** Where an address ends when everything above the region is moved back. */
  function MovedBack(base: int, r: Region): int {
    if r.start != r.base && base >= r.end then base - (r.end - r.base) else base
  }

  /** Two libraries of whole pages, one placed after the other, meet once they are moved back. */
  ghost predicate Meet(was: seq<Entry>, m: int, r: Region, lo: int, len: int, base: int, size: int)
    reads was`base, was`layend, was`tmp
  {
    && len > 0 && size > 0 && Aligned(len, r.page) && Aligned(size, r.page)
    && FitsAt(was, m, lo, len, r) && FitsBeside(was, m, lo, len, base, size, r)
    && MovedBack(lo, r) < MovedBack(base, r) + size && MovedBack(base, r) < MovedBack(lo, r) + len
  }

  ghost predicate SomeMeet(was: seq<Entry>, m: int, r: Region)
    reads was`base, was`layend, was`tmp
  {
    exists lo, len, base, size :: Meet(was, m, r, lo, len, base, size)
  }

  /** With a random start some libraries, moved back, meet exactly when the head of the list is far. */
  lemma MeetExactly(nodes: seq<Entry>, m: int, r: Region)
    requires HeadApart(nodes, r) && OnPages(nodes, r) && Aligned(r.end, r.page)
    requires r.base < r.start < r.end && r.fin == r.end + (r.start - r.base)
    ensures SomeMeet(nodes, m, r) <==> HeadFar(nodes, m, r)
  {
    if HeadFar(nodes, m, r) {
      FarAlone(nodes, m, r);
      var n := nodes[0];
      assert n in nodes;
      AlignedDiff(r.end, r.start, r.page);
      AlignedDiff(n.base, r.end, r.page);
      assert Meet(nodes, m, r, r.start, r.end - r.start, r.end, n.base - r.end);
    } else {
      NearCounts(nodes, m, r);
    }
  }

  /** An input where this happens. */
  lemma WrapCollides(far: Entry, first: Entry, x: Entry)
    requires far.base == 0x20000 && far.layend == 0x21000 && far.tmp == first.tmp == -1
    requires first.base == 0x9000 && first.layend == 0xA000 && x.base == 0xA000 && x.layend == 0x16000
    ensures var r := Region(0, 0x9000, 0xA000, 0x13000, 0x1000);
            && Fitted([far], first, -1, r) && Fitted([first, far], x, -1, r)
            && x.base >= r.end && x.base - (r.end - r.base) < first.base < x.layend - (r.end - r.base)
  {
    var r, was := Region(0, 0x9000, 0xA000, 0x13000, 0x1000), [first, far];
    assert far in [far] && first in was && far in was;
    var size := x.layend - x.base;
    forall b | r.start <= b < x.base ensures Blocked(was, 2, -1, b, size) {
      assert was[0].tmp == -1 && b < was[0].layend;
    }
  }

  /** One listed library far above a region of one page makes room for two pages below it. */
  lemma OverrunExample(far: Entry, x: Entry)
    requires far.done == 1 && far.base == 0x10000 && far.layend == 0x13000 && far.tmp == -1
    requires x.base == 0 && x.layend == 0x2000
    ensures var r := Region(0, 0, 0x1000, 0x1000, 0x1000);
            Listed([far], [far], r.base, r.end) && Fitted([far], x, -1, r) && x.layend > r.fin
  {
    assert far in [far];
  }
}
