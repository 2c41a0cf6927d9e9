/** The check that layout_libs makes at its end when it is built with DEBUG_LAYOUT (src/layout.c, lines 631-652), and
    exactly when it fails: the ranges of libraries known from the cache are not looked at when overlaps are resolved
    (lines 303-308), but the check asks for them. */
module LayoutCheck {
  import opened Placement
  import opened Rotation
  import opened LayOutLibs
  import Eviction

  /** x, which comes before y, ends on a page before y, unless both are known from the cache. */
  ghost predicate Passes(x: Entry, y: Entry, page: Page)
    reads x`end, x`dynamic, y`base, y`dynamic
  {
    !Eviction.EitherDynamic(y, x) || RoundUp(x.end, page) <= y.base
  }

  ghost predicate AllPass(sorted: seq<Entry>, page: Page)
    reads sorted`base, sorted`end, sorted`dynamic
  {
    forall j :: 1 <= j < |sorted| ==> Passes(sorted[j - 1], sorted[j], page)
  }

  /** Some order of the libraries by base. */
  ghost predicate Arrangement(sorted: seq<Entry>, depends: seq<Entry>)
    reads sorted`base
  {
    && Sorted(sorted) && Distinct(sorted)
    && (forall x :: x in sorted ==> x in depends) && forall x :: x in depends ==> x in sorted
  }

  /** One object's turn: it is passed over if one of its dependencies has no range. */
  method Check(depends: seq<Entry>, page: Page) returns (passed: bool, ghost sorted: seq<Entry>)
    requires Distinct(depends)
    ensures Arrangement(sorted, depends)
    ensures passed <==> (exists x :: x in depends && x.done == 0) || AllPass(sorted, page)
  {
    hide Distinct, Sorted;
    var deps := Eviction.SortByBase(depends);
    sorted := deps;
    var j := 0;
    while j < |depends|
      invariant j <= |depends| && forall k :: 0 <= k < j ==> depends[k].done != 0
    {
      if depends[j].done == 0 {
        return true, sorted;
      }
      j := j + 1;
    }
    j := 1;
    while j < |deps|
      invariant 1 <= j && forall k :: 1 <= k < j && k < |deps| ==> Passes(deps[k - 1], deps[k], page)
    {
      if deps[j].base < RoundUp(deps[j - 1].end, page) && Eviction.EitherDynamic(deps[j], deps[j - 1]) {
        assert !Passes(deps[j - 1], deps[j], page);
        return false, sorted;
      }
      j := j + 1;
    }
    passed := true;
  }

  /** Libraries that are not empty and begin on pages. */
  ghost predicate Proper(deps: seq<Entry>, page: Page)
    reads deps`base, deps`end
  {
    forall x :: x in deps ==> x.base < x.end && Aligned(x.base, page)
  }

  /** Libraries known from the cache do not overlap each other; they were laid out together. */
  ghost predicate CachedApart(deps: seq<Entry>)
    reads deps`base, deps`end, deps`dynamic
  {
    forall x, y :: x in deps && y in deps && x != y && !x.dynamic && !y.dynamic ==> Eviction.Disjoint(x, y)
  }

  ghost predicate AllApart(deps: seq<Entry>)
    reads deps`base, deps`end
  {
    forall x, y :: x in deps && y in deps && x != y ==> Eviction.Disjoint(x, y)
  }

  /** Looking at neighbours only is enough. */
  lemma NeighboursSuffice(sorted: seq<Entry>, depends: seq<Entry>, page: Page)
    requires Arrangement(sorted, depends) && Proper(depends, page) && CachedApart(depends)
    ensures AllPass(sorted, page) <==> AllApart(depends)
  {
    if AllPass(sorted, page) {
      forall j | 1 <= j < |sorted| ensures sorted[j - 1].end <= sorted[j].base {
        assert Passes(sorted[j - 1], sorted[j], page) && sorted[j - 1] in sorted && sorted[j] in sorted;
      }
      Eviction.AllDisjoint(sorted, |sorted|);
    }
    if AllApart(depends) {
      forall j | 1 <= j < |sorted| ensures Passes(sorted[j - 1], sorted[j], page) {
        assert sorted[j - 1] in sorted && sorted[j] in sorted && Eviction.Disjoint(sorted[j - 1], sorted[j]);
        RoundUpLeast(sorted[j - 1].end, sorted[j].base, page);
      }
    }
  }

  /** No library that may be changed overlaps one that is known from the cache. */
  ghost predicate CacheClear(deps: seq<Entry>)
    reads deps`base, deps`end, deps`dynamic
  {
    forall x, y :: x in deps && y in deps && x.dynamic && !y.dynamic ==> Eviction.Disjoint(x, y)
  }

  /** When the libraries that are in the way of each other have lost their range, an object whose dependencies all have
      one passes the check exactly if none that kept its range overlaps one that is known from the cache. */
  lemma EvictedPasses(depends: seq<Entry>, sorted: seq<Entry>, page: Page)
    requires Eviction.Settled(depends) && forall x :: x in depends ==> x.done != 0
    requires Arrangement(sorted, depends) && Proper(depends, page) && CachedApart(depends)
    ensures AllPass(sorted, page) <==> CacheClear(depends)
  {
    NeighboursSuffice(sorted, depends, page);
    if CacheClear(depends) {
      forall x, y | x in depends && y in depends && x != y ensures Eviction.Disjoint(x, y) {
        DisjointBoth(x, y);
      }
    }
  }

  /** As CacheClear, of the libraries that had a range before anything was laid out. */
  ghost predicate CacheWasClear(deps: seq<Entry>, orig: map<Entry, Range>)
    requires forall x :: x in deps ==> x in orig
    reads deps`dynamic
  {
    forall x, y :: x in deps && y in deps && x.dynamic && !y.dynamic && orig[x].done != 0 && orig[y].done != 0 ==>
      orig[x].end <= orig[y].base || orig[y].end <= orig[x].base
  }

  /** At the end an object passes the check exactly if none of the libraries that kept its range overlaps one that is
      known from the cache and kept its own. */
  lemma LaidOutPasses(libs: seq<Entry>, binlibs: seq<seq<Entry>>, depends: seq<Entry>, sorted: seq<Entry>,
                      was: seq<Entry>, nodes: seq<Entry>, fake: Entry, b: Criteria, line: Region,
                      orig: map<Entry, Range>, dynamic: set<Entry>)
    requires Outcome(libs, was, nodes, fake, b, line, orig) && Checked(libs, binlibs, nodes, true, dynamic, orig)
    requires depends in binlibs && forall x :: x in depends ==> x in libs && x in orig && (x in dynamic <==> x.dynamic)
    requires Arrangement(sorted, depends) && Proper(depends, line.page) && CachedApart(depends)
    ensures AllPass(sorted, line.page) <==> CacheWasClear(depends, orig)
  {
    NeighboursSuffice(sorted, depends, line.page);
    hide Lies, HeadNear, OffList;
    forall x | x in depends && orig[x].done != 0 ensures x.base == orig[x].base && x.end == orig[x].end {
    }
    if AllApart(depends) {
      forall x, y | x in depends && y in depends && x.dynamic && !y.dynamic && orig[x].done != 0 && orig[y].done != 0
        ensures orig[x].end <= orig[y].base || orig[y].end <= orig[x].base
      {
        assert Eviction.Disjoint(x, y);
      }
    }
    if CacheWasClear(depends, orig) {
      forall x, y | x in depends && y in depends && x != y ensures Eviction.Disjoint(x, y) {
        if orig[x].done != 0 && orig[y].done != 0 && x.dynamic != y.dynamic {
          DisjointBoth(x, y);
        }
      }
    }
  }

  lemma OnPage(q: int)
    ensures Aligned(0x1000 * q, 0x1000)
  {
    assert 0x1000 * q == Pages(q, 0x1000);
  }

  /** A region of 240 pages. */
  const REGION := Region(0x10000, 0x10000, 0x100000, 0x100000, 0x1000)

  lemma RegionFits()
    ensures RegionOk(REGION) && RegionAligned(REGION) && REGION.page == 0x1000
  {
    OnPage(0x10);
    OnPage(0x100);
    OnPage(0xf0);
  }

  /** x may be changed, y is known from the cache and overlaps it; nothing else is there. */
  ghost predicate Pair(x: Entry, y: Entry, w: Before) {
    && x != y && w.dynamic == {x} && w.given.Keys == w.needs.Keys == w.refs.Keys == {x, y}
    && w.given[x] == Range(0x10000, 0x12000, 0x14000, 1, false) && w.needs[x] == []
    && w.given[y] == Range(0x11000, 0x13000, 0x15000, 2, false) && w.needs[y] == []
  }

  /** A library cannot give way to itself. */
  lemma NoneLoses(x: Entry, deps: seq<Entry>, claims: map<Entry, Eviction.Claim>, ranged: set<Entry>)
    requires ranged <= {x}
    ensures forall o :: o in {x} || o !in ranged ==> !Eviction.Loses(o, [], [deps], claims, ranged)
  {
  }

  lemma FirstLoses(order: seq<Entry>, binlibs: seq<seq<Entry>>, claims: map<Entry, Eviction.Claim>, ranged: set<Entry>)
    requires Eviction.Sequence(order, binlibs, claims, ranged) && order != []
    ensures Eviction.Loses(order[0], [], binlibs, claims, ranged)
  {
    assert order[..0] == [];
  }

  lemma NobodyLoses(x: Entry, deps: seq<Entry>, order: seq<Entry>, claims: map<Entry, Eviction.Claim>,
                    ranged: set<Entry>)
    requires Eviction.Sequence(order, [deps], claims, ranged) && ranged <= {x}
    ensures order == []
  {
    NoneLoses(x, deps, claims, ranged);
    hide Eviction.Loses;
    if order != [] {
      FirstLoses(order, [deps], claims, ranged);
      assert false;
    }
  }

  /** There is none for x to give way to, so both keep their range. */
  lemma PairStays(x: Entry, y: Entry, w: Before, order: seq<Entry>, orig: map<Entry, Range>)
    requires Pair(x, y, w) && SiftedTo([x, y], w, Setup(false, 0x1000, false), order, orig)
    requires Evicted(order, [[x, y]], [x, y], w, Setup(false, 0x1000, false))
    ensures orig.Keys == {x, y} && orig[x].done == 1 && orig[y].done == 2
    ensures orig[x].base == 0x10000 && orig[x].end == 0x12000 && orig[y].base == 0x11000 && orig[y].end == 0x13000
  {
    var how := Setup(false, 0x1000, false);
    var claims, ranged := Claims([x, y], w, how), Ranged([x, y], w, how);
    NobodyLoses(x, [x, y], order, claims, ranged);
    assert x in w.given && y in w.given;
    hide RoundUp;
  }

  /** With nothing to lay out the search does not stop. */
  lemma NoneWaits(nodes: seq<Entry>, wanted: seq<Entry>, was: seq<Entry>, fake: Entry, c: Criteria, line: Region,
                  orig: map<Entry, Range>, mid: map<Entry, Range>)
    requires forall x :: x in wanted ==> x in orig && orig[x].done != 0
    ensures !Full(nodes, wanted, was, fake, c, line, orig, mid)
  {
    hide Line, FirstFits, Stuck;
  }

  lemma KeptPlace(x: Entry, libs: seq<Entry>, was: seq<Entry>, nodes: seq<Entry>, fake: Entry, b: Criteria,
                  line: Region, orig: map<Entry, Range>)
    requires Outcome(libs, was, nodes, fake, b, line, orig) && x in libs && x in orig && orig[x].done != 0
    ensures x.base == orig[x].base && x.end == orig[x].end && x.done == orig[x].done
  {
    hide Lies, HeadNear, OffList;
  }

  lemma PairFails(x: Entry, y: Entry, sorted: seq<Entry>)
    requires Arrangement(sorted, [x, y]) && x.base == 0x10000 && x.end == 0x12000 && y.base == 0x11000 && x.dynamic
    ensures !AllPass(sorted, 0x1000)
  {
    assert x in [x, y] && y in [x, y];
    var i :| 0 <= i < |sorted| && sorted[i] == x;
    var j :| 0 <= j < |sorted| && sorted[j] == y;
    assert i < j && sorted[j - 1] in sorted && sorted[j - 1] in [x, y];
    assert !Passes(sorted[j - 1], sorted[j], 0x1000);
  }

  lemma PairSeen(x: Entry, y: Entry)
    requires x != y && x.dynamic && !y.dynamic && x.depends == y.depends == [] && x.done == 1 && y.done == 2
    requires !x.high && !y.high && x.base == 0x10000 && x.end == 0x12000 && x.layend == 0x14000
    requires y.base == 0x11000 && y.end == 0x13000 && y.layend == 0x15000
    ensures Pair(x, y, Seen({x, y}))
  {
    SeenFacts({x, y});
    assert x in {x, y} && y in {x, y};
    assert Seen({x, y}).dynamic == {x};
  }

  lemma PairGiven(x: Entry, y: Entry)
    requires x != y && x.depends == y.depends == [] && x.next == y.next == null && !x.high && !y.high
    requires x.base <= x.end && y.base <= y.end
    ensures Given([x, y], [[x, y]], {x, y}) && OrderOf([x, y], [x, y])
  {
    assert forall n :: n in [x, y] ==> n == x || n == y;
    assert Eviction.Closed([x, y]) && Distinct([x, y]);
  }

  method NewPair() returns (x: Entry, y: Entry)
    ensures fresh(x) && fresh(y) && x.dynamic && Pair(x, y, Seen({x, y}))
    ensures Given([x, y], [[x, y]], {x, y}) && OrderOf([x, y], [x, y])
  {
    x := new Entry(0x10000, 0x12000, 0x14000, 0);
    y := new Entry(0x11000, 0x13000, 0x15000, 0);
    x.dynamic, x.done, y.done := true, 1, 2;
    hide *;
    PairSeen(x, y);
    PairGiven(x, y);
  }

  method LayOutPair(x: Entry, y: Entry) returns (ok: bool)
    requires Pair(x, y, Seen({x, y})) && Given([x, y], [[x, y]], {x, y}) && OrderOf([x, y], [x, y])
    modifies {x, y}`base, {x, y}`end, {x, y}`layend, {x, y}`done, {x, y}`high, {x, y}`tmp, {x, y}`prev, {x, y}`next
    ensures ok && x.base == 0x10000 && x.end == 0x12000 && y.base == 0x11000 && x.done == 1 && y.done == 2
  {
    hide *;
    var libs := [x, y];
    ghost var w := Seen({x, y});
    RegionFits();
    var l;
    ghost var order, orig, was, fake, line, c, mid;
    ok, l, order, orig, was, fake, line, c, mid := LayOut(libs, libs, [libs], false, false, REGION, {x, y});
    PairStays(x, y, w, order, orig);
    NoneWaits(l.nodes, libs, was, fake, c, line, orig, mid);
    KeptPlace(x, libs, was, l.nodes, fake, Criteria([libs], [], false), line, orig);
    KeptPlace(y, libs, was, l.nodes, fake, Criteria([libs], [], false), line, orig);
  }

  /** Two libraries that one object needs, the first to be prelinked, the second known from the cache and overlapping
      it: they are laid out as they are, and the check fails. */
  method CachedOverlap() returns (x: Entry, y: Entry, ok: bool, passed: bool)
    ensures ok && x.base < y.base < x.end && !passed
  {
    x, y := NewPair();
    ok := LayOutPair(x, y);
    ghost var sorted;
    passed, sorted := Check([x, y], 0x1000);
    PairFails(x, y, sorted);
  }
}
