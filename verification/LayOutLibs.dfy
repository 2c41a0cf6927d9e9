/** layout_libs as a whole (src/layout.c): prepare the libraries, take the range of those that are in the way of
    each other, list the others, and lay out what has no range. What it comes to is stated by equations over the
    libraries as they were, and of that the check is proved that the source makes when it is built with DEBUG_LAYOUT
    (lines 631-652). The hooks of src/arch-i386.c are left out here. */
module LayOutLibs {
  import opened Placement
  import opened ListBuilding
  import opened Rotation
  import opened FreeAddress
  import ByteImage
  import Eviction
  import Unfolding

  /** The room between libraries. */
  const ROOM := 8192

  /** What is known of the libraries before anything is done: their ranges, what they depend on, how many objects use
      them, and which are of type ET_DYN. */
  datatype Before = Before(given: map<Entry, Range>, needs: map<Entry, seq<Entry>>, refs: map<Entry, nat>,
                           dynamic: set<Entry>)

  ghost function Seen(all: set<Entry>): (w: Before)
    reads all
    ensures w.given.Keys == all && w.needs.Keys == all && w.refs.Keys == all
  {
    Before(Snapshot(all), map x | x in all :: x.depends, map x | x in all :: x.refs, set x | x in all && x.dynamic)
  }

  lemma SeenFacts(all: set<Entry>)
    ensures var w := Seen(all);
            && (forall x :: x in all ==> Kept(x, w.given[x]) && w.needs[x] == x.depends && w.refs[x] == x.refs)
            && forall x :: x in w.dynamic <==> x in all && x.dynamic
  {
    SnapshotKept(all);
  }

  // Preparing

  /** What the libraries are prepared for: with --force, for pages of this size, under --exec-shield on i386. */
  datatype Setup = Setup(force: bool, page: Page, shield: bool)

  /** From find_libs, lines 263-266 and i386_layout_libs_init: with force a library loses its range, one known from the
      cache has it, one that does not begin on a page, or under --exec-shield does not lie in one of the three regions,
      loses it in any case; and there is room behind each. */
  ghost function Readied(g: Range, dynamic: bool, how: Setup): Range {
    var done := if !dynamic then 2 else if how.force then 0 else g.done;
    if g.base % how.page != 0 then Range(0, g.end - g.base, RoundUp(g.end - g.base + 8192, how.page), 0, g.high)
    else Shielded(Range(g.base, g.end, RoundUp(g.end + 8192, how.page), done, g.high), how)
  }

  ghost function Shielded(g: Range, how: Setup): Range {
    if how.shield && !InOneRegion(g.base, g.layend, RoundUp(REG0S, how.page)) then g.(done := 0) else g
  }

  /** Pages are not larger than the regions allow for. */
  ghost predicate HowOk(how: Setup) {
    how.shield ==> how.page <= Unfolding.BLOCK && Aligned(Unfolding.BLOCK, how.page)
  }

  lemma ReadiedFacts(g: Range, dynamic: bool, how: Setup)
    requires g.base <= g.end
    ensures var w := Readied(g, dynamic, how);
            && w.base <= w.end && w.end - w.base == g.end - g.base && w.high == g.high
            && w.end + 8192 <= w.layend < w.end + 8192 + how.page
            && Aligned(w.base, how.page) && Aligned(w.layend, how.page)
  {
    DivisibleAligned(if g.base % how.page != 0 then 0 else g.base, how.page);
    RoundUpNear(g.end + 8192, how.page);
    RoundUpNear(g.end - g.base + 8192, how.page);
    hide Aligned, RoundUp;
  }

  lemma RoundUpNear(v: int, page: Page)
    ensures v <= RoundUp(v, page) < v + page
  {
  }

  lemma DivisibleAligned(v: int, page: Page)
    requires v % page == 0
    ensures Aligned(v, page)
  {
    assert v == Pages(v / page, page);
  }

  /** The same before the regions are looked at. */
  function Opened(how: Setup): Setup {
    how.(shield := false)
  }

  method PrepareOne(x: Entry, how: Setup, ghost g: Range)
    requires Kept(x, g)
    modifies x`base, x`end, x`layend, x`done
    ensures Kept(x, Readied(g, x.dynamic, Opened(how)))
  {
    hide RoundUp;
    if how.force {
      x.done := 0;
    }
    if !x.dynamic {
      x.done := 2;
    }
    if x.base % how.page != 0 {
      x.done := 0;
      x.end := x.end - x.base;
      x.base := 0;
    }
    x.layend := RoundUp(x.end + ROOM, how.page);
  }

  method PrepareEach(libs: seq<Entry>, how: Setup, ghost given: map<Entry, Range>)
    requires Distinct(libs) && forall x :: x in libs ==> x in given && Kept(x, given[x])
    modifies libs`base, libs`end, libs`layend, libs`done
    ensures forall x :: x in libs ==> Kept(x, Readied(given[x], x.dynamic, Opened(how)))
  {
    hide Kept, Readied;
    var i := 0;
    while i < |libs|
      invariant i <= |libs|
      invariant forall k :: 0 <= k < i ==> Kept(libs[k], Readied(given[libs[k]], libs[k].dynamic, Opened(how)))
      invariant forall k :: i <= k < |libs| ==> Kept(libs[k], given[libs[k]])
    {
      Others(libs, i);
      PrepareOne(libs[i], how, given[libs[i]]);
      i := i + 1;
    }
  }

  method Prepare(libs: seq<Entry>, how: Setup, ghost given: map<Entry, Range>)
    requires Distinct(libs) && (forall x :: x in libs ==> x in given && Kept(x, given[x])) && HowOk(how)
    modifies libs`base, libs`end, libs`layend, libs`done
    ensures forall x :: x in libs ==> Kept(x, Readied(given[x], x.dynamic, how))
  {
    PrepareEach(libs, how, given);
    if how.shield {
      ghost var ready := map x | x in libs :: Readied(given[x], x.dynamic, Opened(how));
      Unfolding.FirstPageFits(how.page);
      hide Readied, Distinct;
      LayoutInit(libs, RoundUp(REG0S, how.page));
      forall x | x in libs ensures Kept(x, Readied(given[x], x.dynamic, how)) {
        ShieldedIs(given[x], x.dynamic, how);
        assert Kept(x, Shielded(ready[x], how));
      }
    }
  }

  lemma ShieldedIs(g: Range, dynamic: bool, how: Setup)
    ensures Readied(g, dynamic, how) == Shielded(Readied(g, dynamic, Opened(how)), how)
  {
  }

  // What sifting leaves, in terms of what was there

  ghost function ReadyRange(x: Entry, libs: seq<Entry>, w: Before, how: Setup): Range
    requires x in w.given
  {
    if x in libs then Readied(w.given[x], x in w.dynamic, how) else w.given[x]
  }

  /** x has no range once the libraries have been prepared, or is one of those that lose it to another one. */
  ghost predicate Gone(x: Entry, libs: seq<Entry>, w: Before, how: Setup, order: seq<Entry>) {
    x in w.given && (ReadyRange(x, libs, w, how).done == 0 || x in order)
  }

  /** x is gone or depends on one that is. */
  ghost predicate Lost(x: Entry, libs: seq<Entry>, w: Before, how: Setup, order: seq<Entry>)
    requires x in w.needs
  {
    || Gone(x, libs, w, how, order)
    || (x in libs && exists y :: y in w.needs[x] && Gone(y, libs, w, how, order))
  }

  ghost function SiftedRange(x: Entry, libs: seq<Entry>, w: Before, how: Setup, order: seq<Entry>): Range
    requires x in w.given && x in w.needs
  {
    var g := ReadyRange(x, libs, w, how);
    if Lost(x, libs, w, how, order) then g.(done := 0) else g
  }

  /** Exactly the libraries that are lost lose their range, and nothing else changes after they have been prepared. */
  ghost predicate SiftedTo(libs: seq<Entry>, w: Before, how: Setup, order: seq<Entry>,
                           orig: map<Entry, Range>)
  {
    && orig.Keys == w.given.Keys == w.needs.Keys
    && forall x :: x in w.given ==> orig[x] == SiftedRange(x, libs, w, how, order)
  }

  /** What the libraries bring forward against each other once they have been prepared. */
  ghost function Claims(libs: seq<Entry>, w: Before, how: Setup): (claims: map<Entry, Eviction.Claim>)
    requires w.refs.Keys == w.given.Keys
    ensures claims.Keys == w.given.Keys
  {
    map x | x in w.given ::
      var g := ReadyRange(x, libs, w, how); Eviction.Claim(g.base, g.end, w.refs[x])
  }

  ghost function Ranged(libs: seq<Entry>, w: Before, how: Setup): set<Entry> {
    set x | x in w.given && x in w.dynamic && ReadyRange(x, libs, w, how).done != 0
  }

  /** As Eviction.Sequence: each library of order gives way to one that some object needs as well and that has not lost
      its range yet. */
  ghost predicate Evicted(order: seq<Entry>, binlibs: seq<seq<Entry>>, libs: seq<Entry>, w: Before, how: Setup)
    requires w.refs.Keys == w.given.Keys
  {
    Eviction.Sequence(order, binlibs, Claims(libs, w, how), Ranged(libs, w, how))
  }

  /** Libraries that are in the way of each other lose their range, and what depends on one without does. */
  method Evict(binlibs: seq<seq<Entry>>, libs: seq<Entry>, ghost all: set<Entry>,
               ghost claims: map<Entry, Eviction.Claim>, ghost ranged: set<Entry>) returns (ghost order: seq<Entry>)
    requires Distinct(libs) && Eviction.Closed(libs) && Eviction.Claimed(all, claims)
    requires forall x :: x in libs ==> x in all && forall y :: y in x.depends ==> y in all
    requires forall b :: b in binlibs ==> Distinct(b) && forall x :: x in b ==> x in all
    requires forall x :: x in all ==> (x in ranged <==> x.dynamic && x.done != 0)
    modifies all`done
    ensures Eviction.Sequence(order, binlibs, claims, ranged)
    ensures forall b :: b in binlibs ==> Eviction.Settled(b)
    ensures forall x :: x in all ==>
              x.done == if x in order || (x in libs && exists y :: y in x.depends && (old(y.done) == 0 || y in order))
                        then 0 else old(x.done)
    ensures forall x, y :: x in libs && x.done != 0 && y in x.depends ==> y.done != 0
  {
    hide Distinct, Eviction.Claimed, Eviction.Sequence, Eviction.Closed;
    order := Eviction.EvictAll(binlibs, all, ranged, claims);
    ghost var lost := set x | x in all && x.done == 0;
    label Evicted:
    Eviction.Propagate(libs, all, lost);
    forall b | b in binlibs ensures Eviction.Settled(b) {
      forall x, y | x in b && y in b && x != y && x.dynamic && y.dynamic && x.done != 0 && y.done != 0
        ensures Eviction.Disjoint(x, y)
      {
        assert old@Evicted(x.done) != 0 && old@Evicted(y.done) != 0;
      }
    }
    forall x | x in libs
      ensures Eviction.Needs(x, lost) <==> exists y :: y in x.depends && (old(y.done) == 0 || y in order)
    {
    }
  }

  /** All libraries are as preparing makes them. */
  ghost predicate ReadyAll(all: set<Entry>, libs: seq<Entry>, w: Before, how: Setup)
    requires all <= w.given.Keys
    reads all`base, all`end, all`layend, all`done, all`high
  {
    forall x :: x in all ==> Kept(x, ReadyRange(x, libs, w, how))
  }

  method PrepareStage(libs: seq<Entry>, how: Setup, ghost all: set<Entry>, ghost w: Before)
    requires Distinct(libs) && w.given.Keys == all && (forall x :: x in libs ==> x in all) && HowOk(how)
    requires forall x :: x in all ==> Kept(x, w.given[x]) && (x in w.dynamic <==> x.dynamic)
    modifies libs`base, libs`end, libs`layend, libs`done
    ensures ReadyAll(all, libs, w, how)
  {
    hide *;
    Prepare(libs, how, w.given);
    ReadyAllIntro(all, libs, w, how);
  }

  lemma ReadyAllIntro(all: set<Entry>, libs: seq<Entry>, w: Before, how: Setup)
    requires all <= w.given.Keys && forall x :: x in all ==> (x in w.dynamic <==> x.dynamic)
    requires forall x :: x in libs ==> x in all && Kept(x, Readied(w.given[x], x.dynamic, how))
    requires forall x :: x in all && x !in libs ==> Kept(x, w.given[x])
    ensures ReadyAll(all, libs, w, how)
  {
    hide Kept, Readied;
  }

  method EvictStage(libs: seq<Entry>, binlibs: seq<seq<Entry>>, how: Setup, ghost all: set<Entry>,
                    ghost w: Before)
    returns (ghost order: seq<Entry>, ghost orig: map<Entry, Range>)
    requires Distinct(libs) && Eviction.Closed(libs)
    requires forall x :: x in libs ==> x in all && forall y :: y in x.depends ==> y in all
    requires forall b :: b in binlibs ==> Distinct(b) && forall x :: x in b ==> x in all
    requires w.given.Keys == w.needs.Keys == w.refs.Keys == all && ReadyAll(all, libs, w, how)
    requires forall x :: x in all ==> w.needs[x] == x.depends && w.refs[x] == x.refs
    requires forall x :: x in w.dynamic <==> x in all && x.dynamic
    modifies all`done
    ensures SiftedTo(libs, w, how, order, orig) && Evicted(order, binlibs, libs, w, how)
    ensures forall b :: b in binlibs ==> Eviction.Settled(b)
    ensures forall x, y :: x in libs && x.done != 0 && y in x.depends ==> y.done != 0
    ensures orig.Keys == all && forall x :: x in all ==> Kept(x, orig[x])
  {
    hide *;
    ghost var ready := map x | x in all :: x.done;
    ReadyFacts(all, libs, w, how);
    ClaimsFacts(all, libs, w, how);
    order := Evict(binlibs, libs, all, Claims(libs, w, how), Ranged(libs, w, how));
    orig := Snapshot(all);
    SnapshotKept(all);
    SiftedRangesAre(all, libs, w, how, order, ready, orig);
    SiftedIntro(libs, binlibs, w, how, order, orig);
  }

  /** Both steps. */
  method Sift(libs: seq<Entry>, binlibs: seq<seq<Entry>>, how: Setup, ghost all: set<Entry>)
    returns (ghost order: seq<Entry>, ghost orig: map<Entry, Range>)
    requires Given(libs, binlibs, all) && HowOk(how)
    modifies libs`base, libs`end, libs`layend, all`done
    ensures SiftedTo(libs, old(Seen(all)), how, order, orig)
    ensures Evicted(order, binlibs, libs, old(Seen(all)), how)
    ensures KeptApart(binlibs, orig, old(Seen(all)).dynamic)
    ensures NeedsKept(libs, old(Seen(all)).needs, orig)
    ensures orig.Keys == all && forall x :: x in all ==> Kept(x, orig[x])
  {
    ghost var w := Seen(all);
    SeenFacts(all);
    GivenFacts(libs, binlibs, all);
    hide *;
    PrepareStage(libs, how, all, w);
    order, orig := EvictStage(libs, binlibs, how, all, w);
    NeedsKeptIntro(libs, w.needs, orig, all);
    KeptApartIntro(binlibs, orig, w.dynamic);
  }

  lemma ClaimsFacts(all: set<Entry>, libs: seq<Entry>, w: Before, how: Setup)
    requires w.given.Keys == w.refs.Keys == all
    requires ReadyAll(all, libs, w, how) && forall x :: x in all ==> w.refs[x] == x.refs
    requires forall x :: x in w.dynamic <==> x in all && x.dynamic
    ensures Eviction.Claimed(all, Claims(libs, w, how))
    ensures forall x :: x in all ==> (x in Ranged(libs, w, how) <==> x.dynamic && x.done != 0)
  {
    hide ReadyRange;
  }

  lemma ReadyFacts(all: set<Entry>, libs: seq<Entry>, w: Before, how: Setup)
    requires all <= w.given.Keys && ReadyAll(all, libs, w, how)
    ensures forall x :: x in all ==> x.done == ReadyRange(x, libs, w, how).done
    ensures forall x :: x in all ==> SamePlace(x, ReadyRange(x, libs, w, how))
  {
    hide ReadyRange;
  }

  ghost predicate SamePlace(x: Entry, g: Range)
    reads x`base, x`end, x`layend, x`high
  {
    x.base == g.base && x.end == g.end && x.layend == g.layend && x.high == g.high
  }

  /** What the libraries come to once some of those that were ready with a range have lost it. */
  lemma SiftedRangesAre(all: set<Entry>, libs: seq<Entry>, w: Before, how: Setup, order: seq<Entry>,
                        ready: map<Entry, nat>, orig: map<Entry, Range>)
    requires w.given.Keys == w.needs.Keys == all == orig.Keys == ready.Keys
    requires forall x :: x in all ==> w.needs[x] == x.depends && Kept(x, orig[x])
    requires forall x :: x in libs ==> forall y :: y in x.depends ==> y in all
    requires forall x :: x in all ==>
               ready[x] == ReadyRange(x, libs, w, how).done && SamePlace(x, ReadyRange(x, libs, w, how))
    requires forall x :: x in all ==>
               x.done == if x in order || (x in libs && exists y :: y in x.depends && (ready[y] == 0 || y in order))
                         then 0 else ready[x]
    ensures forall x :: x in all ==> orig[x] == SiftedRange(x, libs, w, how, order)
  {
    hide ReadyRange;
    forall x | x in all ensures orig[x] == SiftedRange(x, libs, w, how, order) {
      assert SamePlace(x, ReadyRange(x, libs, w, how)) && Kept(x, orig[x]);
      assert Lost(x, libs, w, how, order) <==>
               ready[x] == 0 || x in order
               || (x in libs && exists y :: y in x.depends && (ready[y] == 0 || y in order));
    }
  }

  lemma SiftedIntro(libs: seq<Entry>, binlibs: seq<seq<Entry>>, w: Before, how: Setup, order: seq<Entry>,
                    orig: map<Entry, Range>)
    requires orig.Keys == w.given.Keys == w.needs.Keys == w.refs.Keys
    requires forall x :: x in w.given ==> orig[x] == SiftedRange(x, libs, w, how, order)
    requires Eviction.Sequence(order, binlibs, Claims(libs, w, how), Ranged(libs, w, how))
    ensures SiftedTo(libs, w, how, order, orig) && Evicted(order, binlibs, libs, w, how)
  {
    hide SiftedRange, Claims, Ranged, Eviction.Sequence;
  }

  /** What is left of a library: its size, in whole pages, and its place if it has a range. */
  lemma SiftedFacts(x: Entry, libs: seq<Entry>, w: Before, how: Setup, order: seq<Entry>,
                    orig: map<Entry, Range>)
    requires SiftedTo(libs, w, how, order, orig) && x in libs && x in orig && w.given[x].base <= w.given[x].end
    ensures Aligned(orig[x].base, how.page) && Aligned(orig[x].layend, how.page) && orig[x].base <= orig[x].end
    ensures orig[x].end + 8192 <= orig[x].layend < orig[x].end + 8192 + how.page
    ensures orig[x].end - orig[x].base == w.given[x].end - w.given[x].base && orig[x].high == w.given[x].high
    ensures orig[x].done != 0 ==> orig[x].base == w.given[x].base
  {
    ReadiedFacts(w.given[x], x in w.dynamic, how);
    hide Lost;
  }

  // Sorting by address

  // The same from the libraries as they were

  /** Wholly in one of the three regions, with the room behind. */
  predicate RegionHolds(base: int, end: int) {
    || (0x10_1000 <= base && end + 8192 <= 0xe0_0000)
    || (0x200_0000 <= base && end + 8192 <= 0x800_0000)
    || (0x4100_0000 <= base && end + 8192 <= 0x5000_0000)
  }

  /** Nothing about x itself takes its range: it gives way to none, begins on a page, has a range and, if it is to be
      prelinked, is not forced to another one; under --exec-shield it lies in one region. */
  ghost predicate Stands(x: Entry, libs: seq<Entry>, w: Before, how: Setup, order: seq<Entry>)
    requires x in w.given
  {
    var g := w.given[x];
    && x !in order
    && if x !in libs then g.done != 0
       else g.base % how.page == 0 && (x in w.dynamic ==> !how.force && g.done != 0)
            && (how.shield ==> RegionHolds(g.base, g.end))
  }

  /** A library keeps its range exactly if it stands and so does all it depends on. One that does not begin on a page is
      moved to zero. There is room behind each, up to the first page 8192 bytes or more away. */
  ghost predicate Decided(libs: seq<Entry>, w: Before, how: Setup, order: seq<Entry>, orig: map<Entry, Range>) {
    forall x :: x in libs && x in w.given && x in w.needs && x in orig ==>
      var g, o := w.given[x], orig[x];
      && (o.done != 0 <==>
            Stands(x, libs, w, how, order)
            && forall y :: y in w.needs[x] && y in w.given ==> Stands(y, libs, w, how, order))
      && o.base == (if g.base % how.page == 0 then g.base else 0) && o.end - o.base == g.end - g.base
      && o.layend % how.page == 0 && o.end + 8192 <= o.layend < o.end + 8192 + how.page
  }

  /** Nothing on a page is jumped over by rounding up. */
  lemma RoundUpLeast(v: int, w: int, page: Page)
    requires v <= w && Aligned(w, page)
    ensures RoundUp(v, page) <= w
  {
    var q :| w == Pages(q, page);
    var k := (v + page - 1) / page;
    assert Pages(q + 1, page) == w + page && Pages(k, page) <= v + page - 1;
    if k > q {
      PagesMono(q + 1, k, page);
    } else {
      PagesMono(k, q, page);
    }
  }

  lemma PagesMono(k: int, q: int, page: Page)
    requires k <= q
    ensures Pages(k, page) <= Pages(q, page)
  {
  }

  /** Up to a bound that is on a page, rounding up does not matter. */
  lemma RoundUpWithin(v: int, bound: int, page: Page)
    requires Aligned(bound, page)
    ensures RoundUp(v, page) <= bound <==> v <= bound
  {
    RoundUpNear(v, page);
    if v <= bound { RoundUpLeast(v, bound, page); }
  }

  lemma ShieldDecides(base: int, end: int, how: Setup)
    requires how.shield && HowOk(how) && base <= end && base % how.page == 0
    ensures InOneRegion(base, RoundUp(end + 8192, how.page), RoundUp(REG0S, how.page)) <==> RegionHolds(base, end)
  {
    Unfolding.BoundsAligned(how.page);
    DivisibleAligned(base, how.page);
    hide RoundUp, Aligned;
    RoundUpWithin(end + 8192, REG0E, how.page);
    RoundUpWithin(end + 8192, REG1E, how.page);
    RoundUpWithin(end + 8192, REG2E, how.page);
    RoundUpWithin(REG0S, base, how.page);
  }

  lemma StandsReady(x: Entry, libs: seq<Entry>, w: Before, how: Setup, order: seq<Entry>)
    requires x in w.given && HowOk(how) && (x in libs ==> w.given[x].base <= w.given[x].end)
    ensures Stands(x, libs, w, how, order) <==> !Gone(x, libs, w, how, order)
  {
    var g := w.given[x];
    if x in libs && how.shield && g.base % how.page == 0 { ShieldDecides(g.base, g.end, how); }
    hide InOneRegion, RegionHolds, RoundUp, Aligned;
  }

  lemma DecidedIntro(libs: seq<Entry>, w: Before, how: Setup, order: seq<Entry>, orig: map<Entry, Range>)
    requires SiftedTo(libs, w, how, order, orig) && HowOk(how)
    requires forall x :: x in libs ==> x in w.given && w.given[x].base <= w.given[x].end
    ensures Decided(libs, w, how, order, orig)
  {
    forall x | x in libs && x in w.given && x in w.needs && x in orig
      ensures orig[x].done != 0 <==>
              Stands(x, libs, w, how, order)
              && forall y :: y in w.needs[x] && y in w.given ==> Stands(y, libs, w, how, order)
    {
      hide Gone, Stands, ReadyRange;
      StandsReady(x, libs, w, how, order);
      forall y | y in w.needs[x] && y in w.given
        ensures Stands(y, libs, w, how, order) <==> !Gone(y, libs, w, how, order)
      {
        StandsReady(y, libs, w, how, order);
      }
      LostDone(x, libs, w, how, order, orig);
      GoneGiven(libs, w, how, order);
    }
    forall x | x in libs && x in w.given && x in w.needs && x in orig
      ensures var g, o := w.given[x], orig[x];
              && o.base == (if g.base % how.page == 0 then g.base else 0) && o.end - o.base == g.end - g.base
              && o.layend % how.page == 0 && o.end + 8192 <= o.layend < o.end + 8192 + how.page
    {
      SiftedFacts(x, libs, w, how, order, orig);
      SiftedBase(x, libs, w, how, order, orig);
    }
  }

  /** With force every library that may be prelinked is laid out anew. */
  lemma ForcedAnew(libs: seq<Entry>, w: Before, how: Setup, order: seq<Entry>, orig: map<Entry, Range>)
    requires SiftedTo(libs, w, how, order, orig) && Decided(libs, w, how, order, orig)
    ensures how.force ==> forall x :: x in libs && x in w.given && x in w.dynamic ==> x in orig && orig[x].done == 0
  {
    hide Lost;
    forall x | how.force && x in libs && x in w.given && x in w.dynamic ensures x in orig && orig[x].done == 0 {
      assert !Stands(x, libs, w, how, order);
    }
  }

  lemma GoneGiven(libs: seq<Entry>, w: Before, how: Setup, order: seq<Entry>)
    ensures forall y :: Gone(y, libs, w, how, order) ==> y in w.given
  {
  }

  lemma LostDone(x: Entry, libs: seq<Entry>, w: Before, how: Setup, order: seq<Entry>, orig: map<Entry, Range>)
    requires SiftedTo(libs, w, how, order, orig) && x in libs && x in w.given
    ensures x in orig && x in w.needs && (orig[x].done == 0 <==> Lost(x, libs, w, how, order))
  {
  }

  lemma SiftedBase(x: Entry, libs: seq<Entry>, w: Before, how: Setup, order: seq<Entry>, orig: map<Entry, Range>)
    requires SiftedTo(libs, w, how, order, orig) && x in libs && x in w.given
    ensures x in orig && orig[x].base == (if w.given[x].base % how.page == 0 then w.given[x].base else 0)
    ensures orig[x].layend % how.page == 0
  {
    hide Lost;
    RoundUpDivisible(w.given[x].end + 8192, how.page);
    RoundUpDivisible(w.given[x].end - w.given[x].base + 8192, how.page);
    hide RoundUp;
  }

  lemma RoundUpDivisible(v: int, page: Page)
    ensures RoundUp(v, page) % page == 0
  {
    var k := (v + page - 1) / page;
    ByteImage.ModUnique(k * page, page, k, 0);
  }


  lemma AddrBefore(x: Entry, y: Entry, z: Entry)
    ensures AddrOrder(x, y) || AddrOrder(y, x)
    ensures AddrOrder(x, y) && AddrOrder(y, z) ==> AddrOrder(x, z)
  {
  }

  method FindPlace(s: seq<Entry>, x: Entry) returns (at: nat)
    requires AddrSorted(s)
    ensures at <= |s| && (forall i :: 0 <= i < at ==> AddrOrder(s[i], x)) && forall i :: at <= i < |s| ==>
              AddrOrder(x, s[i])
  {
    at := 0;
    while at < |s| && AddrOrder(s[at], x)
      invariant at <= |s| && forall i :: 0 <= i < at ==> AddrOrder(s[i], x)
    {
      at := at + 1;
    }
    forall i | at <= i < |s| ensures AddrOrder(x, s[i]) {
      AddrBefore(s[at], x, x);
      AddrBefore(x, s[at], s[i]);
    }
  }

  lemma AddrInsert(s: seq<Entry>, x: Entry, at: nat)
    requires AddrSorted(s) && at <= |s|
    requires (forall i :: 0 <= i < at ==> AddrOrder(s[i], x)) && forall i :: at <= i < |s| ==> AddrOrder(x, s[i])
    ensures AddrSorted(Spliced(s, x, at))
  {
    hide AddrOrder;
  }

  lemma NothingSorted()
    ensures AddrSorted([])
  {
  }

  /** qsort with addr_cmp: any arrangement by address will do. */
  method SortByAddress(libs: seq<Entry>) returns (sorted: seq<Entry>)
    requires Distinct(libs)
    ensures AddrSorted(sorted) && Distinct(sorted) && forall x :: x in sorted <==> x in libs
  {
    hide AddrSorted, AddrOrder, Spliced;
    sorted := [];
    NothingSorted();
    var n := 0;
    while n < |libs|
      invariant n <= |libs| && AddrSorted(sorted) && Distinct(sorted) && forall x :: x in sorted <==> x in libs[..n]
    {
      var at := FindPlace(sorted, libs[n]);
      assert libs[..n + 1] == libs[..n] + [libs[n]];
      AddrInsert(sorted, libs[n], at);
      SplicedMembers(sorted, libs[n], at);
      DistinctSplice(sorted, libs[n], at);
      Eviction.SplicedIs(sorted, libs[n], at);
      sorted := sorted[..at] + [libs[n]] + sorted[at..];
      n := n + 1;
    }
    assert libs[..n] == libs;
  }

  // Before the placement, as values

  /** Libraries that keep their range and that one object needs together do not overlap. */
  ghost predicate KeptApart(binlibs: seq<seq<Entry>>, orig: map<Entry, Range>, dynamic: set<Entry>) {
    forall b, x, y ::
      b in binlibs && x in b && y in b && x != y && x in dynamic && y in dynamic && x in orig && y in orig
      && orig[x].done != 0 && orig[y].done != 0 ==>
        orig[x].end <= orig[y].base || orig[y].end <= orig[x].base
  }

  lemma KeptApartIntro(binlibs: seq<seq<Entry>>, orig: map<Entry, Range>, dynamic: set<Entry>)
    requires forall b :: b in binlibs ==> Eviction.Settled(b)
    requires forall b, x :: b in binlibs && x in b ==> x in orig && Kept(x, orig[x]) && (x in dynamic <==> x.dynamic)
    ensures KeptApart(binlibs, orig, dynamic)
  {
    forall b, x, y |
      b in binlibs && x in b && y in b && x != y && x in dynamic && y in dynamic && x in orig && y in orig
      && orig[x].done != 0 && orig[y].done != 0
      ensures orig[x].end <= orig[y].base || orig[y].end <= orig[x].base
    {
      assert Eviction.Settled(b) && Kept(x, orig[x]) && Kept(y, orig[y]);
      assert Eviction.Disjoint(x, y);
    }
  }

  /** addr_cmp on values. */
  predicate AddrBelow(a: Range, b: Range) {
    if a.done == 0 || b.done == 0 then a.done != 0 || b.done == 0
    else a.base < b.base || (a.base == b.base && a.layend <= b.layend)
  }

  /** A library with a range that is not listed: it comes before the list and ends below the region, or it comes
      behind the list and begins above the region. */
  ghost predicate OffList(y: Entry, was: seq<Entry>, orig: map<Entry, Range>, r: Region)
    requires y in orig && forall n :: n in was ==> n in orig
  {
    || (orig[y].layend < r.base && (was != [] ==> AddrBelow(orig[y], orig[was[0]])))
    || (was != [] && orig[y].base >= r.end && forall n :: n in was ==> AddrBelow(orig[n], orig[y]))
  }

  /** The list before anything is laid out: by address, the libraries with a range from the first that reaches the
      region to the last that begins in it. */
  ghost predicate ListedAs(was: seq<Entry>, libs: seq<Entry>, orig: map<Entry, Range>, r: Region) {
    && Distinct(was) && (forall x :: x in libs ==> x in orig)
    && (forall n :: n in was ==> n in libs && orig[n].done != 0)
    && (forall i, j :: 0 <= i < j < |was| ==> AddrBelow(orig[was[i]], orig[was[j]]))
    && (was != [] ==> orig[was[0]].layend >= r.base) && (forall k :: 1 <= k < |was| ==> orig[was[k]].base < r.end)
    && forall y :: y in libs && orig[y].done != 0 && y !in was ==> OffList(y, was, orig, r)
  }

  /** Where the search starts: where it was asked to, if every listed library, but for the end of the first one, lies
      in the region. */
  ghost function StartOf(r: Region, was: seq<Entry>, orig: map<Entry, Range>): Region
    requires forall n :: n in was ==> n in orig
  {
    var random := was != [] ==>
      orig[was[0]].base >= r.base
      && forall k :: 1 <= k < |was| ==> r.base <= orig[was[k]].base && orig[was[k]].layend <= r.end;
    if random then r else r.(start := r.base)
  }

  lemma ListedAsIntro(was: seq<Entry>, libs: seq<Entry>, sorted: seq<Entry>, orig: map<Entry, Range>, r: Region)
    requires Distinct(was) && Listed(was, sorted, r.base, r.end) && forall x :: x in sorted <==> x in libs
    requires forall x :: x in libs ==> x in orig && Kept(x, orig[x])
    ensures ListedAs(was, libs, orig, r)
  {
    OrderValues(libs, orig);
    hide AddrOrder, AddrBelow;
    forall n | n in was ensures n in libs && orig[n].done != 0 && Kept(n, orig[n]) {
    }
    forall i, j | 0 <= i < j < |was| ensures AddrBelow(orig[was[i]], orig[was[j]]) {
      assert was[i] in libs && was[j] in libs && AddrOrder(was[i], was[j]);
    }
    forall k | 0 <= k < |was| ensures Kept(was[k], orig[was[k]]) {
      assert was[k] in was;
    }
    forall y | y in libs && orig[y].done != 0 && y !in was ensures OffList(y, was, orig, r) {
      assert Kept(y, orig[y]) && y in sorted && Omitted(y, was, r.base, r.end);
    }
  }

  lemma OrderValues(libs: seq<Entry>, orig: map<Entry, Range>)
    requires forall x :: x in libs ==> x in orig && Kept(x, orig[x])
    ensures forall x, y :: x in libs && y in libs ==> (AddrOrder(x, y) <==> AddrBelow(orig[x], orig[y]))
  {
    forall x, y | x in libs && y in libs ensures AddrOrder(x, y) <==> AddrBelow(orig[x], orig[y]) {
      assert Kept(x, orig[x]) && Kept(y, orig[y]);
    }
  }

  lemma StartIs(l: Layout, orig: map<Entry, Range>, r: Region, random: bool)
    requires forall n :: n in l.nodes ==> n in orig && Kept(n, orig[n])
    requires random == if l.nodes == [] then true else Inside(l.nodes, 0, |l.nodes|, r.base, r.end)
    ensures StartOf(r, l.nodes, orig) == if random then r else r.(start := r.base)
  {
    forall k | 0 <= k < |l.nodes| ensures Kept(l.nodes[k], orig[l.nodes[k]]) {
      assert l.nodes[k] in l.nodes;
    }
  }

  /** What LayOutFrom needs of the list. */
  lemma SettledIntro(l: Layout, libs: seq<Entry>, r: Region, orig: map<Entry, Range>)
    requires l.Valid() && ListedAs(l.nodes, libs, orig, r) && forall x :: x in libs ==> Kept(x, orig[x])
    requires forall x :: x in libs ==>
               orig[x].base <= orig[x].end <= orig[x].layend && Aligned(orig[x].layend, r.page) && !orig[x].high
    ensures Settled(l, StartOf(r, l.nodes, orig), orig)
  {
    var s := StartOf(r, l.nodes, orig);
    forall n | n in l.nodes ensures InReach(orig[n], s) {
      var k :| 0 <= k < |l.nodes| && l.nodes[k] == n;
      assert n in libs;
    }
  }

  lemma WaitingIntro(l: Layout, libs: seq<Entry>, wanted: seq<Entry>, r: Region, orig: map<Entry, Range>)
    requires ListedAs(l.nodes, libs, orig, r) && forall x :: x in wanted ==> x in libs
    requires forall x :: x in libs ==> Kept(x, orig[x]) && (x !in l.nodes ==> x.next == null)
    requires forall x :: x in libs ==>
               orig[x].base <= orig[x].end < orig[x].layend && Aligned(orig[x].base, r.page)
               && Aligned(orig[x].layend, r.page)
    ensures Waiting(l, wanted, StartOf(r, l.nodes, orig), orig)
  {
    forall x | x in wanted && orig[x].done == 0 ensures Aligned(orig[x].layend - orig[x].base, r.page) {
      AlignedDiff(orig[x].layend, orig[x].base, r.page);
    }
  }

  // The whole

  /** The libraries, the dependencies of all objects, and everything that is reached from them. */
  ghost predicate Given(libs: seq<Entry>, binlibs: seq<seq<Entry>>, all: set<Entry>)
    reads libs, all
  {
    && Distinct(libs)
    && (forall x :: x in libs ==> x in all && x.base <= x.end && x.next == null && !x.high)
    && (forall x :: x in libs ==> forall y :: y in x.depends ==> y in all)
    && (forall b :: b in binlibs ==> Distinct(b) && forall x :: x in b ==> x in all)
    && Eviction.Closed(libs)
  }

  lemma GivenFacts(libs: seq<Entry>, binlibs: seq<seq<Entry>>, all: set<Entry>)
    requires Given(libs, binlibs, all)
    ensures Distinct(libs)
    ensures forall x :: x in libs ==> x in all && x.base <= x.end && x.next == null && !x.high
    ensures forall x :: x in libs ==> forall y :: y in x.depends ==> y in all
    ensures forall b :: b in binlibs ==> Distinct(b) && forall x :: x in b ==> x in all
    ensures Eviction.Closed(libs)
  {
  }

  /** wanted is an order of the libraries, the one in which they are laid out. */
  ghost predicate OrderOf(wanted: seq<Entry>, libs: seq<Entry>) {
    Distinct(wanted) && (forall x :: x in wanted ==> x in libs) && forall x :: x in libs ==> x in wanted
  }

  /** A new range does not get in the way of a library that is not listed: the line was searched from the base of
      the region, or the end of the region is marked in the list, or no such library begins above it. */
  ghost predicate Guarded(libs: seq<Entry>, nodes: seq<Entry>, fake: Entry, line: Region, orig: map<Entry, Range>)
  {
    || line.start == line.base || fake in nodes
    || forall y :: y in libs && y in orig && orig[y].done != 0 && y !in nodes ==> orig[y].base < line.end
  }

  /** The state at the end of the layout: libraries that had a range have it still, the others are listed with one of
      their size, and with the head of the list near enough two libraries do not overlap if they must keep clear of
      each other and one is new. */
  ghost predicate Outcome(libs: seq<Entry>, was: seq<Entry>, nodes: seq<Entry>, fake: Entry, b: Criteria, line: Region,
                          orig: map<Entry, Range>)
    reads libs`base, libs`end, libs`done, nodes`base, nodes`end
  {
    && (forall n :: n in was ==> n in orig)
    && (forall x :: x in libs ==>
          x in orig && x != fake && orig[x].base <= orig[x].end && orig[x].end + 8192 <= orig[x].layend)
    && (forall y :: y in libs && orig[y].done != 0 ==>
          y.base == orig[y].base && y.end == orig[y].end && y.done == orig[y].done)
    && (forall y :: y in libs && orig[y].done != 0 && y !in nodes ==> OffList(y, was, orig, line))
    && (forall x :: x in libs && orig[x].done == 0 ==>
          x in nodes && x.end - x.base == orig[x].end - orig[x].base && x.done == 1
          && Lies(x, orig[x], nodes, was, fake, line, orig))
    && (HeadNear(was, orig, line) ==>
          forall x, y :: x in libs && orig[x].done == 0 && y in nodes && x != y && y != fake && b.Related(x, y) ==>
            y in orig && KeepOff(x, orig[x], y, orig[y]))
  }

  /** One begins 8192 bytes or more behind the other one. */
  ghost predicate Spaced(x: Entry, y: Entry)
    reads x`base, x`end, y`base, y`end
  {
    x.end + 8192 <= y.base || y.end + 8192 <= x.base
  }

  /** Between a library and the next there is room. */
  lemma KeepOffSpaced(libs: seq<Entry>, was: seq<Entry>, nodes: seq<Entry>, fake: Entry, b: Criteria, line: Region,
                      orig: map<Entry, Range>, x: Entry, y: Entry)
    requires Outcome(libs, was, nodes, fake, b, line, orig) && x in libs && y in libs
    requires KeepOff(x, orig[x], y, orig[y])
    ensures Spaced(x, y)
  {
    hide Lies, HeadNear, OffList;
    forall n | n == x || n == y ensures n.end - n.base == orig[n].end - orig[n].base {
      if orig[n].done != 0 { assert n.base == orig[n].base && n.end == orig[n].end; }
    }
  }

  /** A new range against any other library of the object. */
  lemma NewSpaced(libs: seq<Entry>, was: seq<Entry>, nodes: seq<Entry>, fake: Entry, b: Criteria, line: Region,
                    orig: map<Entry, Range>, x: Entry, y: Entry)
    requires Outcome(libs, was, nodes, fake, b, line, orig) && x in libs && y in libs && x != y && b.Related(x, y)
    requires HeadNear(was, orig, line) && line.base <= line.end
    requires orig[x].done == 0 && (y in nodes || Guarded(libs, nodes, fake, line, orig))
    ensures Spaced(x, y)
  {
    if y !in nodes {
      assert orig[y].done != 0 && OffList(y, was, orig, line) && Lies(x, orig[x], nodes, was, fake, line, orig);
      assert y.base == orig[y].base;
    }
    KeepOffSpaced(libs, was, nodes, fake, b, line, orig, x, y);
  }

  /** The check, pair by pair: two libraries that one object needs together do not overlap, if both are shared
      libraries that prelinking may change, and there is room between them if one has its range from now. Without the
      end of the region guarded, this is promised of listed libraries only. */
  ghost predicate Checked(libs: seq<Entry>, binlibs: seq<seq<Entry>>, nodes: seq<Entry>, guarded: bool,
                          dynamic: set<Entry>, orig: map<Entry, Range>)
    reads libs`base, libs`end
  {
    forall b, x, y ::
      b in binlibs && x in b && y in b && x != y && x in libs && y in libs && x in orig && y in orig
      && ((x in dynamic && y in dynamic) || orig[x].done == 0 || orig[y].done == 0)
      && (guarded || (x in nodes && y in nodes)) ==>
        if orig[x].done == 0 || orig[y].done == 0 then Spaced(x, y) else Eviction.Disjoint(x, y)
  }

  lemma CheckedIntro(libs: seq<Entry>, binlibs: seq<seq<Entry>>, was: seq<Entry>, nodes: seq<Entry>, fake: Entry,
                     b: Criteria, line: Region, dynamic: set<Entry>, orig: map<Entry, Range>)
    requires Outcome(libs, was, nodes, fake, b, line, orig) && KeptApart(binlibs, orig, dynamic) && b.binlibs == binlibs
    requires HeadNear(was, orig, line) && line.base <= line.end
    ensures Checked(libs, binlibs, nodes, Guarded(libs, nodes, fake, line, orig), dynamic, orig)
  {
    var guarded := Guarded(libs, nodes, fake, line, orig);
    hide Guarded, Outcome, Eviction.Disjoint, HeadNear;
    forall d, x, y |
      d in binlibs && x in d && y in d && x != y && x in libs && y in libs && x in orig && y in orig
      && ((x in dynamic && y in dynamic) || orig[x].done == 0 || orig[y].done == 0)
      && (guarded || (x in nodes && y in nodes))
      ensures if orig[x].done == 0 || orig[y].done == 0 then Spaced(x, y) else Eviction.Disjoint(x, y)
    {
      TogetherRelated(b, d, x, y);
      if orig[x].done == 0 {
        NewSpaced(libs, was, nodes, fake, b, line, orig, x, y);
      } else if orig[y].done == 0 {
        NewSpaced(libs, was, nodes, fake, b, line, orig, y, x);
        SpacedBoth(x, y);
      } else {
        KeptDisjoint(libs, was, nodes, fake, b, line, orig, x, y);
      }
    }
  }

  lemma DisjointBoth(x: Entry, y: Entry)
    ensures Eviction.Disjoint(x, y) <==> Eviction.Disjoint(y, x)
  {
  }

  lemma SpacedBoth(x: Entry, y: Entry)
    ensures Spaced(x, y) <==> Spaced(y, x)
  {
  }

  lemma TogetherRelated(b: Criteria, d: seq<Entry>, x: Entry, y: Entry)
    requires d in b.binlibs && x in d && y in d
    ensures b.Related(x, y) && b.Related(y, x)
  {
    var j :| 0 <= j < |b.binlibs| && b.binlibs[j] == d;
    assert Together(b.binlibs, x, y) && Together(b.binlibs, y, x);
  }

  lemma KeptDisjoint(libs: seq<Entry>, was: seq<Entry>, nodes: seq<Entry>, fake: Entry, b: Criteria, line: Region,
                     orig: map<Entry, Range>, x: Entry, y: Entry)
    requires Outcome(libs, was, nodes, fake, b, line, orig) && x in libs && y in libs && orig[x].done != 0
             && orig[y].done != 0
    requires orig[x].end <= orig[y].base || orig[y].end <= orig[x].base
    ensures Eviction.Disjoint(x, y)
  {
  }

  lemma OutcomeIntro(libs: seq<Entry>, wanted: seq<Entry>, was: seq<Entry>, nodes: seq<Entry>, fake: Entry, b: Criteria,
                     r: Region, line: Region, all: set<Entry>, orig: map<Entry, Range>)
    requires ListedAs(was, libs, orig, r) && (forall x :: x in libs ==> x in all && x in wanted && x != fake)
    requires line.base == r.base && line.end == r.end
    requires forall x :: x in libs ==> orig[x].base <= orig[x].end && orig[x].end + 8192 <= orig[x].layend
    requires forall n :: n in was ==>
               n in nodes && n.base == orig[n].base && n.end == orig[n].end && n.done == orig[n].done
    requires forall n :: n in all && n !in nodes ==> n in orig && Kept(n, orig[n])
    requires forall n :: n in nodes && n != fake ==> n in was || (n in libs && orig[n].done == 0)
    requires forall x :: x in wanted && x in orig && orig[x].done == 0 ==>
               x in nodes && x.end - x.base == orig[x].end - orig[x].base && x.done == 1
               && Lies(x, orig[x], nodes, was, fake, line, orig)
    requires HeadNear(was, orig, line) ==>
               forall x, y :: x in wanted && x in orig && orig[x].done == 0 && y in nodes && x != y && y != fake
                              && b.Related(x, y) ==>
                 y in orig && KeepOff(x, orig[x], y, orig[y])
    ensures Outcome(libs, was, nodes, fake, b, line, orig)
  {
    hide Lies, HeadNear, AddrBelow;
    forall y | y in libs && orig[y].done != 0
      ensures y.base == orig[y].base && y.end == orig[y].end && y.done == orig[y].done
    {
      if y !in was { assert y !in nodes && Kept(y, orig[y]); }
    }
    forall y | y in libs && orig[y].done != 0 && y !in nodes ensures OffList(y, was, orig, line) {
      assert OffList(y, was, orig, r);
    }
  }

  /** What a library with a range depends on has one. */
  ghost predicate NeedsKept(libs: seq<Entry>, needs: map<Entry, seq<Entry>>, orig: map<Entry, Range>) {
    forall x, y :: x in libs && x in needs && x in orig && orig[x].done != 0 && y in needs[x] && y in orig ==>
      orig[y].done != 0
  }

  lemma NeedsKeptIntro(libs: seq<Entry>, needs: map<Entry, seq<Entry>>, orig: map<Entry, Range>, all: set<Entry>)
    requires forall x :: x in all ==> x in orig && x in needs && Kept(x, orig[x]) && needs[x] == x.depends
    requires (forall x :: x in libs ==> x in all) && orig.Keys == all
    requires forall x, y :: x in libs && x.done != 0 && y in x.depends ==> y.done != 0
    ensures NeedsKept(libs, needs, orig)
  {
  }

  /** The first half: what keeps its range. */
  method ListKept(libs: seq<Entry>, wanted: seq<Entry>, r: Region, ghost all: set<Entry>, ghost orig: map<Entry, Range>)
    returns (l: Layout, start: Region)
    requires Distinct(libs) && OrderOf(wanted, libs) && orig.Keys == all && forall x :: x in all ==> Kept(x, orig[x])
    requires forall x :: x in libs ==> x in all && x.next == null && Fit(orig[x], r.page)
    modifies libs`prev, libs`next
    ensures fresh(l) && ListedAs(l.nodes, libs, orig, r) && start == StartOf(r, l.nodes, orig)
    ensures Settled(l, start, orig) && Waiting(l, wanted, start, orig)
  {
    hide *;
    var sorted := SortByAddress(libs);
    l := new Layout();
    EmptyLayout(l);
    assert forall k :: 0 <= k < |sorted| ==> sorted[k] in sorted && sorted[k] in libs;
    var random := BuildList(l, sorted, r.base, r.end);
    start := if random then r else r.(start := r.base);
    OrderOfFacts(wanted, libs);
    FitFacts(libs, orig, r.page);
    ValidDistinct(l, sorted, r);
    ListedAsIntro(l.nodes, libs, sorted, orig, r);
    StartIs(l, orig, r, random);
    SettledIntro(l, libs, r, orig);
    WaitingIntro(l, libs, wanted, r, orig);
  }

  /** A range of whole pages, not moved, with the room behind it: up to the first page 8192 bytes or more away. */
  ghost predicate Fit(w: Range, page: Page) {
    && w.base <= w.end && w.end + 8192 <= w.layend < w.end + 8192 + page
    && Aligned(w.base, page) && Aligned(w.layend, page) && !w.high
  }

  lemma FitFacts(libs: seq<Entry>, orig: map<Entry, Range>, page: Page)
    requires forall x :: x in libs ==> x in orig && Fit(orig[x], page)
    ensures forall x :: x in libs ==>
              orig[x].base <= orig[x].end && orig[x].end + 8192 <= orig[x].layend && !orig[x].high
    ensures forall x :: x in libs ==> Aligned(orig[x].base, page) && Aligned(orig[x].layend, page)
  {
  }

  lemma OrderOfFacts(wanted: seq<Entry>, libs: seq<Entry>)
    requires OrderOf(wanted, libs)
    ensures Distinct(wanted) && (forall x :: x in wanted ==> x in libs) && forall x :: x in libs ==> x in wanted
  {
  }

  lemma ValidDistinct(l: Layout, sorted: seq<Entry>, r: Region)
    requires l.Valid() && Listed(l.nodes, sorted, r.base, r.end)
    ensures Distinct(l.nodes) && forall n :: n in l.nodes ==> n in sorted
  {
  }

  lemma EmptyLayout(l: Layout)
    requires l.list == null && l.nodes == []
    ensures l.Valid()
  {
  }

  lemma ListedAsFacts(was: seq<Entry>, libs: seq<Entry>, orig: map<Entry, Range>, r: Region)
    requires ListedAs(was, libs, orig, r)
    ensures forall n :: n in was ==> n in libs && n in orig
    ensures var s := StartOf(r, was, orig);
            && s.base == r.base && s.end == r.end && s.page == r.page && s.fin == r.fin
            && (s.start == r.start || s.start == r.base)
  {
  }

  lemma StartAligned(s: Region, r: Region)
    requires s.base == r.base && s.end == r.end && s.page == r.page && s.fin == r.fin
    requires s.start == r.start || s.start == r.base
    requires RegionOk(r) && RegionAligned(r)
    ensures RegionOk(s) && RegionAligned(s)
  {
  }

  /** The second half: lay out what waits. */
  method Finish(l: Layout, libs: seq<Entry>, wanted: seq<Entry>, b: Criteria, r: Region, s: Region,
                ghost all: set<Entry>, ghost orig: map<Entry, Range>, ghost dynamic: set<Entry>)
    returns (ok: bool, ghost fake: Entry, ghost line: Region, ghost c: Criteria, ghost mid: map<Entry, Range>)
    requires ListedAs(l.nodes, libs, orig, r) && s == StartOf(r, l.nodes, orig)
    requires Settled(l, s, orig) && Waiting(l, wanted, s, orig) && RegionOk(r) && RegionAligned(r)
    requires OrderOf(wanted, libs) && b.fake == [] && b.Over(all) && forall x :: x in libs ==> x in all
    requires orig.Keys == all && forall n :: n in all ==> Kept(n, orig[n])
    requires (forall x :: x in libs ==> Fit(orig[x], r.page)) && KeptApart(b.binlibs, orig, dynamic)
    modifies l, all`base, all`end, all`layend, all`done, all`high, all`tmp, all`prev, all`next
    ensures (forall n :: n in old(l.nodes) ==> n in orig) && line == LineFrom(old(l.nodes), orig, s)
    ensures fresh(fake) && c == WithFake(b, fake, EndListed(old(l.nodes), orig, s))
    ensures fake in l.nodes <==> EndListed(old(l.nodes), orig, s)
    ensures !ok ==> Full(l.nodes, wanted, old(l.nodes), fake, c, line, orig, mid)
    ensures ok ==> (forall x :: x in wanted ==> x in orig)
                   && Arrived(l.nodes, wanted, old(l.nodes), fake, c, line, orig, mid)
    ensures ok ==> Outcome(libs, old(l.nodes), l.nodes, fake, b, line, orig)
    ensures ok && HeadNear(old(l.nodes), orig, line) ==>
              Checked(libs, b.binlibs, l.nodes, Guarded(libs, l.nodes, fake, line, orig), dynamic, orig)
  {
    hide *;
    ghost var was := l.nodes;
    ListedAsFacts(was, libs, orig, r);
    OrderOfFacts(wanted, libs);
    StartAligned(s, r);
    RegionFacts(s);
    LineFromFacts(was, s, orig);
    LineOfFacts(LineFrom(was, orig, s), s);
    FitFacts(libs, orig, r.page);
    ok, fake, line, c, mid := LayOutFrom(l, wanted, b, s, all, orig);
    if ok {
      OutcomeIntro(libs, wanted, was, l.nodes, fake, b, r, line, all, orig);
      if HeadNear(was, orig, line) {
        CheckedIntro(libs, b.binlibs, was, l.nodes, fake, b, line, dynamic, orig);
      }
    } else {
      FullIntro(l.nodes, wanted, was, fake, c, line, orig, mid);
    }
  }

  /** The search stopped at a library for which there was no room. */
  ghost predicate Full(nodes: seq<Entry>, wanted: seq<Entry>, was: seq<Entry>, fake: Entry, c: Criteria, line: Region,
                       orig: map<Entry, Range>, mid: map<Entry, Range>)
    reads nodes`base, nodes`end, nodes`layend, nodes`done, nodes`high
  {
    && (forall x :: x in wanted ==> x in orig) && (forall n :: n in nodes ==> n in mid && Kept(n, mid[n]))
    && exists i :: 0 <= i < |wanted| && HaltedOn(nodes, wanted, i, was, fake, c, line, orig, mid)
  }

  lemma FullIntro(nodes: seq<Entry>, wanted: seq<Entry>, was: seq<Entry>, fake: Entry, c: Criteria, line: Region,
                  orig: map<Entry, Range>, mid: map<Entry, Range>)
    requires (forall x :: x in wanted ==> x in orig) && forall n :: n in nodes ==> n in mid && Kept(n, mid[n])
    requires exists i :: 0 <= i < |wanted| && HaltedOn(nodes, wanted, i, was, fake, c, line, orig, mid)
    ensures Full(nodes, wanted, was, fake, c, line, orig, mid)
  {
    hide HaltedOn;
  }

  lemma CriteriaOver(binlibs: seq<seq<Entry>>, conserve: bool, all: set<Entry>)
    requires forall b :: b in binlibs ==> forall x :: x in b ==> x in all
    ensures Criteria(binlibs, [], conserve).Over(all)
  {
  }

  lemma AllFit(libs: seq<Entry>, w: Before, how: Setup, order: seq<Entry>, orig: map<Entry, Range>)
    requires SiftedTo(libs, w, how, order, orig)
    requires forall x :: x in libs ==> x in w.given && w.given[x].base <= w.given[x].end && !w.given[x].high
    ensures forall x :: x in libs ==> x in orig && Fit(orig[x], how.page)
  {
    hide SiftedTo, Aligned;
    forall x | x in libs ensures x in orig && Fit(orig[x], how.page) {
      KeysSame(libs, w, how, order, orig);
      SiftedFacts(x, libs, w, how, order, orig);
    }
  }

  lemma KeysSame(libs: seq<Entry>, w: Before, how: Setup, order: seq<Entry>, orig: map<Entry, Range>)
    requires SiftedTo(libs, w, how, order, orig)
    ensures orig.Keys == w.given.Keys
  {
  }

  /** All that comes after the sifting. */
  method LayOutSifted(libs: seq<Entry>, wanted: seq<Entry>, binlibs: seq<seq<Entry>>, conserve: bool, r: Region,
                      ghost all: set<Entry>, ghost orig: map<Entry, Range>, ghost dynamic: set<Entry>)
    returns (ok: bool, l: Layout, ghost was: seq<Entry>, ghost fake: Entry, ghost line: Region, ghost c: Criteria,
             ghost mid: map<Entry, Range>)
    requires Distinct(libs) && OrderOf(wanted, libs) && RegionOk(r) && RegionAligned(r)
    requires orig.Keys == all && forall x :: x in all ==> Kept(x, orig[x])
    requires forall x :: x in libs ==> x in all && x.next == null && Fit(orig[x], r.page)
    requires KeptApart(binlibs, orig, dynamic) && forall b :: b in binlibs ==> forall x :: x in b ==> x in all
    modifies all`base, all`end, all`layend, all`done, all`high, all`tmp, all`prev, all`next
    ensures ListedAs(was, libs, orig, r) && (forall n :: n in was ==> n in orig)
    ensures line == LineFrom(was, orig, StartOf(r, was, orig)) && fresh(fake)
    ensures c == WithFake(Criteria(binlibs, [], conserve), fake, EndListed(was, orig, StartOf(r, was, orig)))
    ensures fake in l.nodes <==> EndListed(was, orig, StartOf(r, was, orig))
    ensures !ok ==> Full(l.nodes, wanted, was, fake, c, line, orig, mid)
    ensures ok ==> (forall x :: x in wanted ==> x in orig) && Arrived(l.nodes, wanted, was, fake, c, line, orig, mid)
    ensures ok ==> Outcome(libs, was, l.nodes, fake, Criteria(binlibs, [], conserve), line, orig)
    ensures ok && HeadNear(was, orig, line) ==>
              Checked(libs, binlibs, l.nodes, Guarded(libs, l.nodes, fake, line, orig), dynamic, orig)
  {
    hide *;
    CriteriaOver(binlibs, conserve, all);
    var s;
    l, s := ListKept(libs, wanted, r, all, orig);
    was := l.nodes;
    ListedAsFacts(was, libs, orig, r);
    ok, fake, line, c, mid := Finish(l, libs, wanted, Criteria(binlibs, [], conserve), r, s, all, orig, dynamic);
  }

  lemma OpenOk(force: bool, page: Page)
    ensures HowOk(Setup(force, page, false))
  {
  }

  lemma GivenValues(libs: seq<Entry>, all: set<Entry>)
    requires forall x :: x in libs ==> x in all && x.base <= x.end && !x.high
    ensures forall x :: x in libs ==>
              x in Seen(all).given && Seen(all).given[x].base <= Seen(all).given[x].end && !Seen(all).given[x].high
  {
    SeenFacts(all);
  }

  /** All libraries are laid out. orig is what they come to when those that lose their range have lost it: the ones that
      do not begin on a page, those in order, each of which gives way to another one, and whatever depends on these.
      was is the list of the others, line the line that is searched for those without, in the order of wanted; they
      get the lowest places on it, or there is no room for one of them. Unless the head of the list begins past the
      limit of the search, the check of DEBUG_LAYOUT then holds pair by pair. */
  method LayOut(libs: seq<Entry>, wanted: seq<Entry>, binlibs: seq<seq<Entry>>, force: bool, conserve: bool, r: Region,
                ghost all: set<Entry>)
    returns (ok: bool, l: Layout, ghost order: seq<Entry>, ghost orig: map<Entry, Range>, ghost was: seq<Entry>,
             ghost fake: Entry, ghost line: Region, ghost c: Criteria, ghost mid: map<Entry, Range>)
    requires Given(libs, binlibs, all) && OrderOf(wanted, libs) && RegionOk(r) && RegionAligned(r)
    modifies all`base, all`end, all`layend, all`done, all`high, all`tmp, all`prev, all`next
    ensures SiftedTo(libs, old(Seen(all)), Setup(force, r.page, false), order, orig)
    ensures Evicted(order, binlibs, libs, old(Seen(all)), Setup(force, r.page, false))
    ensures Decided(libs, old(Seen(all)), Setup(force, r.page, false), order, orig)
    ensures force ==> forall x :: x in libs && x in old(Seen(all)).dynamic ==> x in orig && orig[x].done == 0
    ensures KeptApart(binlibs, orig, old(Seen(all)).dynamic) && NeedsKept(libs, old(Seen(all)).needs, orig)
    ensures ListedAs(was, libs, orig, r) && (forall n :: n in was ==> n in orig)
    ensures line == LineFrom(was, orig, StartOf(r, was, orig)) && fresh(fake)
    ensures c == WithFake(Criteria(binlibs, [], conserve), fake, EndListed(was, orig, StartOf(r, was, orig)))
    ensures fake in l.nodes <==> EndListed(was, orig, StartOf(r, was, orig))
    ensures !ok ==> Full(l.nodes, wanted, was, fake, c, line, orig, mid)
    ensures ok ==> (forall x :: x in wanted ==> x in orig) && Arrived(l.nodes, wanted, was, fake, c, line, orig, mid)
    ensures ok ==> Outcome(libs, was, l.nodes, fake, Criteria(binlibs, [], conserve), line, orig)
    ensures ok && HeadNear(was, orig, line) ==>
              Checked(libs, binlibs, l.nodes, Guarded(libs, l.nodes, fake, line, orig), old(Seen(all)).dynamic, orig)
  {
    GivenFacts(libs, binlibs, all);
    GivenValues(libs, all);
    hide *;
    ghost var w := Seen(all);
    OpenOk(force, r.page);
    order, orig := Sift(libs, binlibs, Setup(force, r.page, false), all);
    AllFit(libs, w, Setup(force, r.page, false), order, orig);
    DecidedIntro(libs, w, Setup(force, r.page, false), order, orig);
    ForcedAnew(libs, w, Setup(force, r.page, false), order, orig);
    ok, l, was, fake, line, c, mid := LayOutSifted(libs, wanted, binlibs, conserve, r, all, orig, w.dynamic);
  }
}
