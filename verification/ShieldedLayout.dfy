/** layout_libs under --exec-shield on i386, all stages joined: the hooks of src/arch-i386.c (lines 866-1090) in their
    places in src/layout.c. Libraries that do not lie in one of the three regions lose their range, the other ones are
    all listed, and the rest is laid out on the folded line. */
module ShieldedLayout {
  import opened Placement
  import opened Rotation
  import opened FreeAddress
  import opened LayOutLibs
  import opened Unfolding
  import Eviction

  /** mmap_base, mmap_start, mmap_end. */
  function Regions(page: Page, start: int): Region {
    Region(RoundUp(REG0S, page), start, REG2E, REG2E, page)
  }

  ghost predicate PageOk(page: Page, start: int) {
    page <= BLOCK && Aligned(BLOCK, page) && Aligned(start, page) && RoundUp(REG0S, page) <= start <= REG2E
  }

  lemma RegionsOk(page: Page, start: int)
    requires PageOk(page, start)
    ensures RegionOk(Regions(page, start)) && RegionAligned(Regions(page, start)) && HowOk(Setup(false, page, true))
    ensures RoundUp(REG0S, page) <= BLOCK
  {
    FirstPageFits(page);
    BoundsAligned(page);
    AlignedDiff(REG2E, RoundUp(REG0S, page), page);
  }

  /** What keeps its range lies in one region. */
  lemma KeptInRegion(x: Entry, libs: seq<Entry>, w: Before, how: Setup, order: seq<Entry>, orig: map<Entry, Range>)
    requires SiftedTo(libs, w, how, order, orig) && how.shield && x in libs && x in orig && orig[x].done != 0
    ensures InOneRegion(orig[x].base, orig[x].layend, RoundUp(REG0S, how.page))
  {
    hide Lost, RoundUp;
    assert x in w.given;
  }

  /** So all that do are listed. */
  lemma AllListed(was: seq<Entry>, libs: seq<Entry>, orig: map<Entry, Range>, page: Page, start: int)
    requires ListedAs(was, libs, orig, Regions(page, start)) && RoundUp(REG0S, page) <= BLOCK
    requires forall x :: x in libs && x in orig && orig[x].done != 0 ==>
               InOneRegion(orig[x].base, orig[x].layend, RoundUp(REG0S, page))
    requires forall x :: x in libs ==> x in orig && Fit(orig[x], page)
    ensures forall x :: x in libs && orig[x].done != 0 ==> x in was
    ensures StartOf(Regions(page, start), was, orig) == Regions(page, start)
  {
    hide RoundUp, AddrBelow, Aligned;
    forall x | x in libs && orig[x].done != 0 ensures x in was {
      assert InOneRegion(orig[x].base, orig[x].layend, RoundUp(REG0S, page)) && Fit(orig[x], page);
    }
    forall k | 0 <= k < |was| ensures was[k] in libs && orig[was[k]].done != 0 && Fit(orig[was[k]], page)
                                      && InOneRegion(orig[was[k]].base, orig[was[k]].layend, RoundUp(REG0S, page)) {
      assert was[k] in was;
    }
  }

  lemma SoundIntro(l: Layout, libs: seq<Entry>, orig: map<Entry, Range>, page: Page, start: int)
    requires l.Valid() && ListedAs(l.nodes, libs, orig, Regions(page, start))
    requires forall x :: x in libs ==> x in orig && Kept(x, orig[x]) && Fit(orig[x], page)
    requires forall x :: x in libs && orig[x].done != 0 ==>
               InOneRegion(orig[x].base, orig[x].layend, RoundUp(REG0S, page))
    ensures Sound(l, RoundUp(REG0S, page), page, orig)
  {
    hide InOneRegion, Aligned, OffList, AddrBelow;
    forall n | n in l.nodes
      ensures n in orig && Kept(n, orig[n]) && Aligned(n.base, page) && Aligned(n.layend, page)
              && orig[n].base < orig[n].layend && InOneRegion(orig[n].base, orig[n].layend, RoundUp(REG0S, page))
    {
      assert n in libs && orig[n].done != 0 && Fit(orig[n], page) && Kept(n, orig[n]);
    }
  }

  lemma WaitingOn(l: Layout, wanted: seq<Entry>, r: Region, s: Region, orig: map<Entry, Range>)
    requires Waiting(l, wanted, r, orig) && r.page == s.page
    ensures Waiting(l, wanted, s, orig)
  {
  }

  /** The state at the end: a library that had a range has it still, another one has one of its size in one part of one
      region, and two that one object needs do not overlap if one of them is new. */
  ghost predicate ShieldedOutcome(libs: seq<Entry>, b: Criteria, orig: map<Entry, Range>, a: seq<int>)
    requires |a| == 12
    reads libs`base, libs`end, libs`layend, libs`done, libs`high
  {
    && (forall x :: x in libs ==> x in orig)
    && (forall x :: x in libs ==> if orig[x].done != 0 then Kept(x, orig[x]) else Sizes(x, orig[x]) && InSomePart(x, a))
    && forall x, y ::
         x in libs && y in libs && x != y && (orig[x].done == 0 || orig[y].done == 0) && b.Related(x, y) ==>
           Clear(x, y)
  }

  lemma OutcomeIntro(libs: seq<Entry>, wanted: seq<Entry>, was: seq<Entry>, nodes: seq<Entry>, fake: seq<Entry>,
                     b: Criteria, orig: map<Entry, Range>, a: seq<int>)
    requires |a| == 12 && OrderOf(wanted, libs) && forall x :: x in libs ==> x in orig && x !in fake
    requires forall x :: x in libs && orig[x].done != 0 ==> x in was
    requires forall n :: n in was ==> n in nodes && n in orig && orig[n].done != 0 && Folding.ShiftedBy(n, orig[n], 0)
    requires forall x :: x in wanted && orig[x].done == 0 ==> x in nodes && Sizes(x, orig[x])
    requires (forall n :: n in nodes && n !in fake ==> InSomePart(n, a)) && NewClear(nodes, was, fake, b)
    ensures ShieldedOutcome(libs, b, orig, a)
  {
    hide InSomePart, Sizes, Distinct;
  }

  /** As the check of DEBUG_LAYOUT has it. Nothing is left open here: all libraries are listed. */
  lemma ShieldedChecked(libs: seq<Entry>, binlibs: seq<seq<Entry>>, nodes: seq<Entry>, b: Criteria, a: seq<int>,
                        dynamic: set<Entry>, orig: map<Entry, Range>, page: Page)
    requires |a| == 12 && ShieldedOutcome(libs, b, orig, a) && b.binlibs == binlibs
    requires KeptApart(binlibs, orig, dynamic) && forall x :: x in libs ==> Fit(orig[x], page)
    ensures Checked(libs, binlibs, nodes, true, dynamic, orig)
  {
    hide Aligned, InSomePart;
    forall d, x, y |
      d in binlibs && x in d && y in d && x != y && x in libs && y in libs && x in orig && y in orig
      && ((x in dynamic && y in dynamic) || orig[x].done == 0 || orig[y].done == 0)
      ensures if orig[x].done == 0 || orig[y].done == 0 then Spaced(x, y) else Eviction.Disjoint(x, y)
    {
      TogetherRelated(b, d, x, y);
      assert Fit(orig[x], page) && Fit(orig[y], page);
      if orig[x].done == 0 || orig[y].done == 0 {
        assert Clear(x, y);
      }
    }
  }

  /** Everything after the sifting. */
  method LayOutListed(libs: seq<Entry>, wanted: seq<Entry>, binlibs: seq<seq<Entry>>, conserve: bool, page: Page,
                      start: int, ghost all: set<Entry>, ghost orig: map<Entry, Range>)
    returns (ok: bool, l: Layout, ghost was: seq<Entry>, ghost fake: seq<Entry>, ghost a: seq<int>,
             ghost line: seq<Entry>, ghost home: map<Entry, nat>, ghost snap: map<Entry, Range>,
             ghost mid: map<Entry, Range>)
    requires Distinct(libs) && OrderOf(wanted, libs) && PageOk(page, start)
    requires orig.Keys == all && forall x :: x in all ==> Kept(x, orig[x])
    requires forall x :: x in libs ==> x in all && x.next == null && Fit(orig[x], page)
    requires forall x :: x in libs && orig[x].done != 0 ==>
               InOneRegion(orig[x].base, orig[x].layend, RoundUp(REG0S, page))
    requires forall b :: b in binlibs ==> forall x :: x in b ==> x in all
    modifies all`base, all`end, all`layend, all`done, all`high, all`tmp, all`prev, all`next
    ensures ListedAs(was, libs, orig, Regions(page, start)) && forall x :: x in libs && orig[x].done != 0 ==> x in was
    ensures RoundUp(REG0S, page) <= BLOCK && |a| == 12 && CutUp(a, RoundUp(REG0S, page), start, was, orig)
    ensures LineValues(line, was, fake, a, orig, home, snap) && forall x :: x in libs ==> x in snap
    ensures !ok ==>
              exists i :: HaltedInLine(l, wanted, i, line, Criteria(binlibs, fake, conserve), LineRegion(a, page),
                                       Among(all, fake), snap)
    ensures ok ==> Restored(l.nodes, was, fake, a, orig, mid) && (forall x :: x in wanted ==> x in snap)
                   && FirstFits(wanted, |wanted|, line, snap, Criteria(binlibs, fake, conserve), 0, mid)
    ensures ok ==> ShieldedOutcome(libs, Criteria(binlibs, [], conserve), orig, a)
  {
    hide *;
    RegionsOk(page, start);
    RegionsPage(page, start);
    CriteriaOver(binlibs, conserve, all);
    OrderOfFacts(wanted, libs);
    var s;
    l, s := ListKept(libs, wanted, Regions(page, start), all, orig);
    was := l.nodes;
    AllListed(was, libs, orig, page, start);
    ListedFacts(was, libs, orig, Regions(page, start));
    ValidIs(l, s, orig);
    SoundIntro(l, libs, orig, page, start);
    WaitingOn(l, wanted, s, Region(0, 0, 0, 0, page), orig);
    ok, fake, a, line, home, snap, mid :=
      LayOutRegions(l, wanted, Criteria(binlibs, [], conserve), page, page, start, all, orig);
    if ok {
      OutcomeIntro(libs, wanted, was, l.nodes, fake, Criteria(binlibs, [], conserve), orig, a);
    }
  }

  lemma RegionsPage(page: Page, start: int)
    requires PageOk(page, start)
    ensures Regions(page, start).page == page && page <= BLOCK && Aligned(BLOCK, page) && Aligned(start, page)
    ensures RoundUp(REG0S, page) <= start <= REG2E
  {
  }

  lemma ValidIs(l: Layout, s: Region, orig: map<Entry, Range>)
    requires Settled(l, s, orig)
    ensures l.Valid()
  {
  }

  lemma ListedFacts(was: seq<Entry>, libs: seq<Entry>, orig: map<Entry, Range>, r: Region)
    requires ListedAs(was, libs, orig, r)
    ensures forall n :: n in was ==> n in libs && n in orig && orig[n].done != 0
  {
  }

  /** All libraries are laid out in the three regions. orig is what they come to when those that lose their range have
      lost it, was the list of all others; a are the cuts of the regions, line the folded line, with the places snap,
      on which those without get the lowest places, mid, or there is no room for one of them. The check of DEBUG_LAYOUT
      holds pair by pair. */
  method LayOutShielded(libs: seq<Entry>, wanted: seq<Entry>, binlibs: seq<seq<Entry>>, force: bool, conserve: bool,
                        page: Page, start: int, ghost all: set<Entry>)
    returns (ok: bool, l: Layout, ghost order: seq<Entry>, ghost orig: map<Entry, Range>, ghost was: seq<Entry>,
             ghost fake: seq<Entry>, ghost a: seq<int>, ghost line: seq<Entry>, ghost home: map<Entry, nat>,
             ghost snap: map<Entry, Range>, ghost mid: map<Entry, Range>)
    requires Given(libs, binlibs, all) && OrderOf(wanted, libs) && PageOk(page, start)
    modifies all`base, all`end, all`layend, all`done, all`high, all`tmp, all`prev, all`next
    ensures SiftedTo(libs, old(Seen(all)), Setup(force, page, true), order, orig)
    ensures Evicted(order, binlibs, libs, old(Seen(all)), Setup(force, page, true))
    ensures Decided(libs, old(Seen(all)), Setup(force, page, true), order, orig)
    ensures force ==> forall x :: x in libs && x in old(Seen(all)).dynamic ==> x in orig && orig[x].done == 0
    ensures KeptApart(binlibs, orig, old(Seen(all)).dynamic) && NeedsKept(libs, old(Seen(all)).needs, orig)
    ensures (forall x :: x in libs ==> x in orig) && ListedAs(was, libs, orig, Regions(page, start))
    ensures forall x :: x in libs && orig[x].done != 0 ==> x in was
    ensures RoundUp(REG0S, page) <= BLOCK && |a| == 12 && CutUp(a, RoundUp(REG0S, page), start, was, orig)
    ensures LineValues(line, was, fake, a, orig, home, snap) && forall x :: x in libs ==> x in snap
    ensures !ok ==>
              exists i :: HaltedInLine(l, wanted, i, line, Criteria(binlibs, fake, conserve), LineRegion(a, page),
                                       Among(all, fake), snap)
    ensures ok ==> Restored(l.nodes, was, fake, a, orig, mid) && (forall x :: x in wanted ==> x in snap)
                   && FirstFits(wanted, |wanted|, line, snap, Criteria(binlibs, fake, conserve), 0, mid)
    ensures ok ==> ShieldedOutcome(libs, Criteria(binlibs, [], conserve), orig, a)
    ensures ok ==> Checked(libs, binlibs, l.nodes, true, old(Seen(all)).dynamic, orig)
  {
    GivenFacts(libs, binlibs, all);
    GivenValues(libs, all);
    RegionsOk(page, start);
    HowIs(force, page);
    hide *;
    ghost var w := Seen(all);
    order, orig := Sift(libs, binlibs, Setup(force, page, true), all);
    AllFit(libs, w, Setup(force, page, true), order, orig);
    DecidedIntro(libs, w, Setup(force, page, true), order, orig);
    ForcedAnew(libs, w, Setup(force, page, true), order, orig);
    forall x | x in libs && orig[x].done != 0
      ensures InOneRegion(orig[x].base, orig[x].layend, RoundUp(REG0S, page))
    {
      KeptInRegion(x, libs, w, Setup(force, page, true), order, orig);
    }
    ok, l, was, fake, a, line, home, snap, mid :=
      LayOutListed(libs, wanted, binlibs, conserve, page, start, all, orig);
    if ok {
      ShieldedChecked(libs, binlibs, l.nodes, Criteria(binlibs, [], conserve), a, w.dynamic, orig, page);
    }
  }

  lemma HowIs(force: bool, page: Page)
    requires HowOk(Setup(false, page, true))
    ensures HowOk(Setup(force, page, true))
  {
  }
}
