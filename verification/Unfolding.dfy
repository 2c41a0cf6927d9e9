/** Unfolding the line back into the three i386 regions, and the whole --exec-shield layout: cut, fold,
    place, unfold (src/arch-i386.c, src/layout.c). */
module Unfolding {
  import opened Placement
  import opened FreeAddress
  import opened Rotation
  import opened Folding
  import opened Word32
  import Limits

  /** Where the openers stand in the list, in the order of the line, the first one at its head. */
  ghost predicate Stops(p: seq<nat>, nodes: seq<Entry>, fake: seq<Entry>) {
    && |p| == 6 && |fake| == 6 && p[0] == 0
    && (forall t :: 0 <= t < 6 ==> p[t] < |nodes| && nodes[p[t]] == fake[Xor1(t)])
    && (forall s, t :: 0 <= s < t < 6 ==> p[s] < p[t])
  }

  /** Position m lies in the part that opens at stop t. */
  predicate Between(p: seq<nat>, t: nat, m: nat)
    requires |p| == 6 && t < 6
  {
    p[t] < m && (t < 5 ==> m < p[t + 1])
  }

  lemma BetweenOne(p: seq<nat>, nodes: seq<Entry>, fake: seq<Entry>, s: nat, t: nat, m: nat)
    requires Stops(p, nodes, fake) && s < 6 && t < 6 && Between(p, s, m) && Between(p, t, m)
    ensures s == t
  {
  }

  /** What the loop of i386_layout_libs_post knows at position k, having passed i openers. */
  ghost predicate Unfolded(k: nat, i: nat, adj: int, p: seq<nat>, nodes: seq<Entry>, fake: seq<Entry>, a: seq<int>,
                           mid: map<Entry, Range>)
    reads nodes`base, nodes`end, nodes`layend, nodes`done, nodes`high
  {
    && |a| == 12 && Stops(p, nodes, fake) && k <= |nodes| && i <= 6 && (forall n :: n in nodes ==> n in mid)
    && (forall t :: 0 <= t < 6 ==> (t < i <==> p[t] < k)) && (i > 0 ==> adj == -Delta(a, Xor1(i - 1)))
    && (forall m, t :: 0 <= m < k && 0 <= t < 6 && Between(p, t, m) ==>
          ShiftedBy(nodes[m], mid[nodes[m]], -Delta(a, Xor1(t))))
    && (forall m :: 0 <= m < |nodes| && (m >= k || exists t :: 0 <= t < 6 && m == p[t]) ==>
      Kept(nodes[m], mid[nodes[m]]))
  }

  lemma UnfoldFacts(k: nat, i: nat, adj: int, p: seq<nat>, nodes: seq<Entry>, fake: seq<Entry>, a: seq<int>,
                    mid: map<Entry, Range>)
    requires Unfolded(k, i, adj, p, nodes, fake, a, mid) && Distinct(nodes) && k < |nodes|
    ensures i < 6 ==> |fake| == 6 && (nodes[k] == fake[Xor1(i)] <==> k == p[i])
    ensures !(i < 6 && nodes[k] == fake[Xor1(i)]) ==> i > 0 && Between(p, i - 1, k) && adj == -Delta(a, Xor1(i - 1))
    ensures nodes[k] in mid && Kept(nodes[k], mid[nodes[k]])
    ensures forall m :: 0 <= m < |nodes| && m != k ==> nodes[m] != nodes[k]
  {
    Others(nodes, k);
    assert nodes[k] in nodes;
  }

  lemma UnfoldPassed(k: nat, i: nat, adj: int, p: seq<nat>, nodes: seq<Entry>, fake: seq<Entry>, a: seq<int>,
                     mid: map<Entry, Range>)
    requires Unfolded(k, i, adj, p, nodes, fake, a, mid) && i < 6 && k < |nodes| && k == p[i]
    ensures Unfolded(k + 1, i + 1, -Delta(a, Xor1(i)), p, nodes, fake, a, mid)
  {
  }

  lemma UnfoldShifted(k: nat, i: nat, adj: int, p: seq<nat>, nodes: seq<Entry>, fake: seq<Entry>, a: seq<int>,
                      mid: map<Entry, Range>)
    requires |a| == 12 && Stops(p, nodes, fake) && k < |nodes| && 0 < i <= 6 && (forall n :: n in nodes ==> n in mid)
    requires (forall t :: 0 <= t < 6 ==> (t < i <==> p[t] < k)) && adj == -Delta(a, Xor1(i - 1)) && Between(p, i - 1, k)
    requires forall m, t :: 0 <= m < k && 0 <= t < 6 && Between(p, t, m) ==>
               ShiftedBy(nodes[m], mid[nodes[m]], -Delta(a, Xor1(t)))
    requires ShiftedBy(nodes[k], mid[nodes[k]], adj)
    requires forall m :: 0 <= m < |nodes| && m != k && (m >= k || exists t :: 0 <= t < 6 && m == p[t]) ==>
               Kept(nodes[m], mid[nodes[m]])
    ensures Unfolded(k + 1, i, adj, p, nodes, fake, a, mid)
  {
    forall m, t | 0 <= m < k + 1 && 0 <= t < 6 && Between(p, t, m)
      ensures ShiftedBy(nodes[m], mid[nodes[m]], -Delta(a, Xor1(t))) {
      if m == k { BetweenOne(p, nodes, fake, i - 1, t, k); }
    }
  }

  lemma UnfoldSpread(k: nat, i: nat, adj: int, p: seq<nat>, nodes: seq<Entry>, fake: seq<Entry>, a: seq<int>,
                     mid: map<Entry, Range>)
    requires Unfolded(k, i, adj, p, nodes, fake, a, mid)
    ensures |a| == 12 && Stops(p, nodes, fake) && (forall n :: n in nodes ==> n in mid) && i <= 6 && |p| == 6
            && |fake| == 6
    ensures forall t :: 0 <= t < 6 ==> (t < i <==> p[t] < k)
    ensures forall m, t :: 0 <= m < k && m < |nodes| && 0 <= t < 6 && Between(p, t, m) ==>
              ShiftedBy(nodes[m], mid[nodes[m]], -Delta(a, Xor1(t)))
    ensures forall m :: 0 <= m < |nodes| && (m >= k || exists t :: 0 <= t < 6 && m == p[t]) ==>
              Kept(nodes[m], mid[nodes[m]])
  {
  }

  /** One turn: pass an opener and take its shift, or shift a library. */
  method UnfoldOne(e: Entry, fake: seq<Entry>, a: seq<int>, i: nat, adj: int, ghost k: nat, ghost p: seq<nat>,
                   ghost nodes: seq<Entry>, ghost mid: map<Entry, Range>) returns (i': nat, adj': int)
    requires |a| == 12 && Divided(a) && |fake| == 6 && Distinct(nodes) && k < |nodes| && e == nodes[k]
    requires Unfolded(k, i, adj, p, nodes, fake, a, mid)
    requires forall j :: 0 <= j < 6 ==> fake[j] in mid && mid[fake[j]].base == FoldBase(a, j)
    modifies e`base, e`end, e`layend
    ensures Unfolded(k + 1, i', adj', p, nodes, fake, a, mid)
  {
    hide *;
    UnfoldFacts(k, i, adj, p, nodes, fake, a, mid);
    UnfoldSpread(k, i, adj, p, nodes, fake, a, mid);
    i', adj' := i, adj;
    if i < 6 && e == fake[Xor1(i)] {
      ShiftExact(a, Xor1(i));
      KeptBase(e, mid[e]);
      adj' := Sword(a[2 * Xor1(i)] - e.base);
      i' := i + 1;
      UnfoldPassed(k, i, adj, p, nodes, fake, a, mid);
    } else {
      Shift(e, adj, mid[e]);
      UnfoldShifted(k, i, adj, p, nodes, fake, a, mid);
    }
  }

  lemma KeptBase(e: Entry, w: Range)
    requires Kept(e, w)
    ensures e.base == w.base && e.end == w.end && e.layend == w.layend && e.done == w.done && e.high == w.high
  {
  }

  /** Between the openers everything has been moved back to where it belongs. */
  ghost predicate MovedBack(nodes: seq<Entry>, p: seq<nat>, a: seq<int>, mid: map<Entry, Range>)
    requires |a| == 12 && |p| == 6 && forall n :: n in nodes ==> n in mid
    reads nodes`base, nodes`end, nodes`layend, nodes`done, nodes`high
  {
    forall m, t :: 0 <= m < |nodes| && 0 <= t < 6 && Between(p, t, m) ==>
      ShiftedBy(nodes[m], mid[nodes[m]], -Delta(a, Xor1(t)))
  }

  /** i386_layout_libs_post: what stands between two openers moves back to its region. */
  method Unfold(l: Layout, fake: seq<Entry>, a: seq<int>, ghost p: seq<nat>, ghost mid: map<Entry, Range>)
    requires |a| == 12 && Divided(a) && |fake| == 6 && Linked(l.list, l.nodes) && Stops(p, l.nodes, fake)
    requires forall n :: n in l.nodes ==> n in mid && Kept(n, mid[n])
    requires forall j :: 0 <= j < 6 ==> fake[j] in mid && mid[fake[j]].base == FoldBase(a, j)
    modifies l.nodes`base, l.nodes`end, l.nodes`layend
    ensures |p| == 6 && MovedBack(l.nodes, p, a, mid)
  {
    hide *;
    ghost var nodes := l.nodes;
    UnfoldStart(p, nodes, fake, a, mid);
    ListSteps(l);
    var e, i, adj := l.list, 0, 0;
    ghost var k := 0;
    while e != null
      invariant k <= |nodes| && e == EntryAt(nodes, k) && (e == null <==> k == |nodes|)
      invariant Unfolded(k, i, adj, p, nodes, fake, a, mid)
      decreases |nodes| - k
    {
      assert e == nodes[k] && e in nodes;
      i, adj := UnfoldOne(e, fake, a, i, adj, k, p, nodes, mid);
      e := e.next;
      k := k + 1;
    }
    UnfoldSpread(k, i, adj, p, nodes, fake, a, mid);
    UnfoldedAll(k, i, adj, p, nodes, fake, a, mid);
  }

  lemma UnfoldedAll(k: nat, i: nat, adj: int, p: seq<nat>, nodes: seq<Entry>, fake: seq<Entry>, a: seq<int>,
                    mid: map<Entry, Range>)
    requires Unfolded(k, i, adj, p, nodes, fake, a, mid) && k == |nodes|
    ensures MovedBack(nodes, p, a, mid)
  {
  }

  lemma UnfoldStart(p: seq<nat>, nodes: seq<Entry>, fake: seq<Entry>, a: seq<int>, mid: map<Entry, Range>)
    requires |a| == 12 && Stops(p, nodes, fake) && forall n :: n in nodes ==> n in mid && Kept(n, mid[n])
    ensures Unfolded(0, 0, 0, p, nodes, fake, a, mid)
  {
  }

  lemma ListSteps(l: Layout)
    requires Linked(l.list, l.nodes)
    ensures Distinct(l.nodes) && l.list == EntryAt(l.nodes, 0)
    ensures forall k :: 0 <= k <= |l.nodes| ==> (EntryAt(l.nodes, k) == null <==> k == |l.nodes|)
    ensures forall k {:trigger l.nodes[k]} :: 0 <= k < |l.nodes| ==>
              EntryAt(l.nodes, k) == l.nodes[k] && l.nodes[k].next == EntryAt(l.nodes, k + 1)
  {
  }

  // Making the cuts

  /** The two megabytes that the region bounds are multiples of. */
  const BLOCK := 0x200000

  lemma BoundsAligned(page: Page)
    requires Aligned(BLOCK, page)
    ensures Aligned(REG0E, page) && Aligned(REG1S, page) && Aligned(REG1E, page) && Aligned(REG2S, page)
            && Aligned(REG2E, page)
  {
    AlignedTimes(7, BLOCK, page);
    AlignedTimes(16, BLOCK, page);
    AlignedTimes(64, BLOCK, page);
    AlignedTimes(0x208, BLOCK, page);
    AlignedTimes(0x280, BLOCK, page);
  }

  /** Libraries of a positive size, each wholly in one region. */
  ghost predicate InRegions(nodes: seq<Entry>, orig: map<Entry, Range>, reg0s: int) {
    forall n :: n in nodes ==>
      n in orig && orig[n].base < orig[n].layend && InOneRegion(orig[n].base, orig[n].layend, reg0s)
  }

  lemma RegionsBounded(nodes: seq<Entry>, orig: map<Entry, Range>, reg0s: int)
    requires InRegions(nodes, orig, reg0s) && (forall n :: n in nodes ==> Kept(n, orig[n])) && reg0s <= BLOCK
    ensures Bounded(nodes, reg0s, REG0E) && Bounded(nodes, REG1S, REG1E) && Bounded(nodes, REG2S, REG2E)
  {
    forall k | 0 <= k < |nodes| ensures nodes[k] in orig && Kept(nodes[k], orig[nodes[k]])
                                        && orig[nodes[k]].base < orig[nodes[k]].layend
                                        && InOneRegion(orig[nodes[k]].base, orig[nodes[k]].layend, reg0s) {
      assert nodes[k] in nodes;
    }
  }

  function HomeOf(base: int, a: seq<int>): (h: nat)
    requires |a| == 12
    ensures h < 6
  {
    if base < a[1] then 0 else if base < a[3] then 1 else if base < a[5] then 2 else if base < a[7] then 3
    else if base < a[9] then 4 else 5
  }

  /** A library that none of the cuts lies in lies in one part. */
  lemma HomeHolds(w: Range, a: seq<int>)
    requires Divided(a) && w.base < w.layend && InOneRegion(w.base, w.layend, a[0])
    requires a[3] == REG0E && a[4] == REG1S && a[7] == REG1E && a[8] == REG2S && a[11] == REG2E
    requires !(w.base < a[1] < w.layend) && !(w.base < a[5] < w.layend) && !(w.base < a[9] < w.layend)
    ensures InPart(w, a, HomeOf(w.base, a))
  {
  }

  /** The address asked for in a region: a pseudo-random distance from its beginning. */
  function Wanted(beg: int, end: int, from: int): int
    requires end - beg > BLOCK
  {
    beg + from % (end - beg - BLOCK)
  }

  /** The cuts: the three regions, each in two parts, as near as can be to where the start of the search asks for. */
  ghost predicate CutUp(a: seq<int>, reg0s: int, start: int, nodes: seq<Entry>, orig: map<Entry, Range>)
    requires reg0s <= BLOCK
  {
    && Divided(a) && CutsNearest(a, reg0s, start, nodes, orig) && a[0] == reg0s && a[3] == REG0E
    && a[4] == REG1S && a[7] == REG1E && a[8] == REG2S && a[11] == REG2E
    && forall n :: n in nodes ==> n in orig && InPart(orig[n], a, HomeOf(orig[n].base, a))
  }

  ghost predicate CutsNearest(a: seq<int>, reg0s: int, start: int, nodes: seq<Entry>, orig: map<Entry, Range>)
    requires |a| == 12 && reg0s <= BLOCK
  {
    && Nearest(nodes, orig, a[1], Wanted(reg0s, REG0E, start - reg0s))
    && Nearest(nodes, orig, a[5], Wanted(REG1S, REG1E, start - reg0s))
    && Nearest(nodes, orig, a[9], Wanted(REG2S, REG2E, start - reg0s))
  }

  ghost predicate AllAligned(a: seq<int>, page: Page) {
    forall j :: 0 <= j < |a| ==> Aligned(a[j], page)
  }

  /** The beginning of i386_layout_libs_pre: a cut in each region. */
  method Divide(l: Layout, reg0s: int, start: int, ghost unit: Page, ghost orig: map<Entry, Range>)
    returns (a: seq<int>)
    requires l.Valid() && InRegions(l.nodes, orig, reg0s) && (forall n :: n in l.nodes ==> Kept(n, orig[n]))
    requires REG0S <= reg0s <= BLOCK && reg0s <= start <= REG2E
    requires Aligned(BLOCK, unit) && Aligned(reg0s, unit) && Aligned(start, unit)
    requires forall n :: n in l.nodes ==> Aligned(n.base, unit) && Aligned(n.layend, unit)
    ensures |a| == 12 && CutUp(a, reg0s, start, l.nodes, orig) && AllAligned(a, unit)
  {
    hide Linked, Sorted, Bounded, Kept, Aligned, InRegions, Edge, CoveredAt, Nearest;
    RegionsBounded(l.nodes, orig, reg0s);
    RegionsKnown(l.nodes, orig, reg0s);
    BoundsAligned(unit);
    var from := start - reg0s;
    AlignedDiff(start, reg0s, unit);
    AlignedDiff(REG0E, reg0s, unit);
    AlignedDiff(REG0E - reg0s, BLOCK, unit);
    var c0 := CutRegion(l, reg0s, REG0E, from, unit, orig);
    AlignedDiff(REG1E, REG1S, unit);
    AlignedDiff(REG1E - REG1S, BLOCK, unit);
    var c1 := CutRegion(l, REG1S, REG1E, from, unit, orig);
    AlignedDiff(REG2E, REG2S, unit);
    AlignedDiff(REG2E - REG2S, BLOCK, unit);
    var c2 := CutRegion(l, REG2S, REG2E, from, unit, orig);
    a := [reg0s, c0, c0, REG0E, REG1S, c1, c1, REG1E, REG2S, c2, c2, REG2E];
    forall n | n in l.nodes ensures n in orig && InPart(orig[n], a, HomeOf(orig[n].base, a)) {
      NotCut(n, orig, l.nodes, reg0s, c0);
      NotCut(n, orig, l.nodes, reg0s, c1);
      NotCut(n, orig, l.nodes, reg0s, c2);
      HomeHolds(orig[n], a);
    }
  }

  lemma RegionsKnown(nodes: seq<Entry>, orig: map<Entry, Range>, reg0s: int)
    requires InRegions(nodes, orig, reg0s)
    ensures forall n :: n in nodes ==> n in orig
  {
  }

  lemma NotCut(n: Entry, orig: map<Entry, Range>, nodes: seq<Entry>, reg0s: int, at: int)
    requires n in nodes && InRegions(nodes, orig, reg0s) && !CoveredAt(nodes, orig, at)
    ensures n in orig && orig[n].base < orig[n].layend && InOneRegion(orig[n].base, orig[n].layend, reg0s)
    ensures !(orig[n].base < at < orig[n].layend)
  {
  }

  /** The cut of one region, asked for at a pseudo-random distance from its start. */
  method CutRegion(l: Layout, beg: int, end: int, from: int, ghost unit: Page, ghost at: map<Entry, Range>)
    returns (cut: int)
    requires l.Valid() && Bounded(l.nodes, beg, end) && end - beg > BLOCK && from >= 0
    requires Aligned(beg, unit) && Aligned(from, unit) && Aligned(end - beg - BLOCK, unit)
    requires forall n :: n in l.nodes ==> Aligned(n.base, unit) && Aligned(n.layend, unit)
    requires forall n :: n in l.nodes ==> n in at && Kept(n, at[n])
    ensures beg <= cut <= end && Aligned(cut, unit)
    ensures Nearest(l.nodes, at, cut, Wanted(beg, end, from)) && !CoveredAt(l.nodes, at, cut)
  {
    var virt := from % (end - beg - BLOCK);
    AlignedMod(from, end - beg - BLOCK, unit);
    AlignedSum(beg, virt, unit);
    hide Linked, Sorted, Bounded, Aligned, CoveredAt;
    cut := FindFreeAddr(l, beg, end, beg + virt, at);
  }

  // Where entries stand on the line

  lemma {:induction false} JoinedBefore(parts: seq<seq<Entry>>, s: nat, t: nat, x: Entry, y: Entry)
    requires |parts| == 6 && s < t < 6 && x in parts[Xor1(s)] && y in parts[Xor1(t)]
    ensures Before(Joined(parts, t), x, y)
  {
    var xs, ys := Joined(parts, t - 1), parts[Xor1(t)];
    JoinedMembers(parts, t - 1);
    assert x in parts[Xor1(s)] && x in xs;
    JoinedStep(parts, t);
    var i :| 0 <= i < |xs| && xs[i] == x;
    var j :| 0 <= j < |ys| && ys[j] == y;
    assert (xs + ys)[i] == x && (xs + ys)[|xs| + j] == y;
  }

  lemma {:induction false} JoinedPrefix(parts: seq<seq<Entry>>, t: nat, u: nat)
    requires |parts| == 6 && t <= u < 6
    ensures Joined(parts, t) <= Joined(parts, u)
  {
    if t < u {
      JoinedPrefix(parts, t, u - 1);
      JoinedStep(parts, u);
    }
  }

  lemma BeforePrefix(xs: seq<Entry>, ys: seq<Entry>, x: Entry, y: Entry)
    requires xs <= ys && Before(xs, x, y)
    ensures Before(ys, x, y)
  {
    var i, j :| 0 <= i < j < |xs| && xs[i] == x && xs[j] == y;
    assert ys[i] == x && ys[j] == y;
  }

  /** On the line a library stands after the opener of its part. */
  lemma AfterOpener(parts: seq<seq<Entry>>, t: nat, n: Entry)
    requires |parts| == 6 && t < 6 && parts[Xor1(t)] != [] && n in parts[Xor1(t)] && n != parts[Xor1(t)][0]
    ensures Before(Joined(parts, t), parts[Xor1(t)][0], n)
  {
    var es := parts[Xor1(t)];
    var k :| 0 <= k < |es| && es[k] == n;
    if t == 0 {
      assert Joined(parts, t) == es;
    } else {
      JoinedStep(parts, t);
      var xs := Joined(parts, t - 1);
      assert (xs + es)[|xs|] == es[0] && (xs + es)[|xs| + k] == n;
    }
  }

  /** The order of the line: openers in turn, each library after the opener of its part and before the next. */
  ghost predicate InTurn(now: seq<Entry>, was: seq<Entry>, fake: seq<Entry>, home: map<Entry, nat>) {
    && |fake| == 6 && now != [] && now[0] == fake[1]
    && (forall s, t :: 0 <= s < t < 6 ==> Before(now, fake[Xor1(s)], fake[Xor1(t)]))
    && (forall n, t :: n in was && 0 <= t < 6 && n in home && home[n] == Xor1(t) ==> Before(now, fake[Xor1(t)], n))
    && (forall n, t :: n in was && 0 <= t < 5 && n in home && home[n] == Xor1(t) ==> Before(now, n, fake[Xor1(t + 1)]))
    && (forall n :: n in now ==> n in was || n in fake) && (forall n :: n in was ==> n in now)
  }

  lemma LineInTurn(now: seq<Entry>, was: seq<Entry>, fake: seq<Entry>, parts: seq<seq<Entry>>, a: seq<int>,
                   orig: map<Entry, Range>, home: map<Entry, nat>, all: set<Entry>)
    requires OnLine(now, was, fake, parts, a, orig, home, all)
    ensures InTurn(now, was, fake, home)
  {
    JoinedPrefix(parts, 0, 5);
    JoinedMembers(parts, 5);
    assert Xor1(0) == 1;
    forall s, t | 0 <= s < t < 6 ensures Before(now, fake[Xor1(s)], fake[Xor1(t)]) {
      JoinedBefore(parts, s, t, fake[Xor1(s)], fake[Xor1(t)]);
      JoinedPrefix(parts, t, 5);
      BeforePrefix(Joined(parts, t), now, fake[Xor1(s)], fake[Xor1(t)]);
    }
    forall n | n in was ensures n in parts[home[n]] && home[n] < 6 && n !in fake {
      var m :| 0 <= m < |was| && was[m] == n;
    }
    forall n, t | n in was && 0 <= t < 6 && n in home && home[n] == Xor1(t) ensures Before(now, fake[Xor1(t)], n) {
      assert fake[Xor1(t)] in fake;
      AfterOpener(parts, t, n);
      JoinedPrefix(parts, t, 5);
      BeforePrefix(Joined(parts, t), now, fake[Xor1(t)], n);
    }
    forall n, t | n in was && 0 <= t < 5 && n in home && home[n] == Xor1(t) ensures Before(now, n, fake[Xor1(t + 1)]) {
      JoinedBefore(parts, t, t + 1, n, fake[Xor1(t + 1)]);
      JoinedPrefix(parts, t + 1, 5);
      BeforePrefix(Joined(parts, t + 1), now, n, fake[Xor1(t + 1)]);
    }
    LineMembers(now, was, fake, parts, a, orig, home, all);
  }

  lemma LineMembers(now: seq<Entry>, was: seq<Entry>, fake: seq<Entry>, parts: seq<seq<Entry>>, a: seq<int>,
                    orig: map<Entry, Range>, home: map<Entry, nat>, all: set<Entry>)
    requires OnLine(now, was, fake, parts, a, orig, home, all)
    ensures forall n :: n in now ==> n in was || n in fake
    ensures forall n :: n in was ==> n in now
  {
    JoinedMembers(parts, 5);
    forall n | n in now ensures n in was || n in fake {
      var s :| 0 <= s <= 5 && n in parts[Xor1(s)];
    }
    forall n | n in was ensures n in now {
      var m :| 0 <= m < |was| && was[m] == n;
      assert Xor1(Xor1(home[n])) == home[n];
    }
  }

  // What the placement leaves of it

  lemma BeforeKept(was: seq<Entry>, now: seq<Entry>, x: Entry, y: Entry)
    requires OrderKept(was, now) && Before(was, x, y)
    ensures Before(now, x, y)
  {
    var i, j :| 0 <= i < j < |was| && was[i] == x && was[j] == y;
  }

  lemma BeforeAt(now: seq<Entry>, x: Entry, y: Entry, i: nat, j: nat)
    requires Distinct(now) && Before(now, x, y) && i < |now| && j < |now| && now[i] == x && now[j] == y
    ensures i < j
  {
    var i', j' :| 0 <= i' < j' < |now| && now[i'] == x && now[j'] == y;
    Others(now, i);
    Others(now, j);
  }

  lemma BeforeIn(now: seq<Entry>, x: Entry, y: Entry)
    requires Before(now, x, y)
    ensures x in now && y in now
  {
  }

  ghost function PosOf(nodes: seq<Entry>, n: Entry): (k: nat)
    requires n in nodes
    ensures k < |nodes| && nodes[k] == n
  {
    var k :| 0 <= k < |nodes| && nodes[k] == n;
    k
  }

  /** The layout of the line: sorted, nothing before the first opener. */
  ghost predicate Spread(nodes: seq<Entry>, line: seq<Entry>, was: seq<Entry>, fake: seq<Entry>,
                         home: map<Entry, nat>) {
    && Distinct(nodes) && OrderKept(line, nodes) && InTurn(line, was, fake, home)
    && nodes != [] && nodes[0] == fake[1]
  }

  lemma StopsExist(nodes: seq<Entry>, line: seq<Entry>, was: seq<Entry>, fake: seq<Entry>, home: map<Entry, nat>)
    returns (p: seq<nat>)
    requires Spread(nodes, line, was, fake, home)
    ensures Stops(p, nodes, fake)
  {
    forall t | 0 <= t < 6 ensures fake[Xor1(t)] in nodes {
      var s, u := if t == 0 then 0 else t - 1, if t == 0 then 1 else t;
      BeforeKept(line, nodes, fake[Xor1(s)], fake[Xor1(u)]);
      BeforeIn(nodes, fake[Xor1(s)], fake[Xor1(u)]);
    }
    p := seq(6, t requires 0 <= t < 6 => PosOf(nodes, fake[Xor1(t)]));
    forall s, t | 0 <= s < t < 6 ensures p[s] < p[t] {
      BeforeKept(line, nodes, fake[Xor1(s)], fake[Xor1(t)]);
      BeforeAt(nodes, fake[Xor1(s)], fake[Xor1(t)], p[s], p[t]);
    }
    Others(nodes, 0);
    assert Xor1(0) == 1;
  }

  /** A library that was listed stands between the same two openers as before. */
  lemma OldBetween(nodes: seq<Entry>, line: seq<Entry>, was: seq<Entry>, fake: seq<Entry>, home: map<Entry, nat>,
                   p: seq<nat>, n: Entry, m: nat)
    requires Spread(nodes, line, was, fake, home) && Stops(p, nodes, fake)
    requires n in was && n in home && home[n] < 6 && m < |nodes| && nodes[m] == n
    ensures Between(p, Xor1(home[n]), m)
  {
    var t := Xor1(home[n]);
    assert home[n] == Xor1(t);
    BeforeKept(line, nodes, fake[Xor1(t)], n);
    BeforeAt(nodes, fake[Xor1(t)], n, p[t], m);
    if t < 5 {
      BeforeKept(line, nodes, n, fake[Xor1(t + 1)]);
      BeforeAt(nodes, n, fake[Xor1(t + 1)], m, p[t + 1]);
    }
  }

  /** Every other position lies between two openers, too. */
  lemma SomeBetween(p: seq<nat>, nodes: seq<Entry>, fake: seq<Entry>, m: nat) returns (t: nat)
    requires Stops(p, nodes, fake) && m < |nodes| && nodes[m] !in fake
    ensures t < 6 && Between(p, t, m)
  {
    forall u | 0 <= u < 6 ensures m != p[u] {
      assert fake[Xor1(u)] in fake;
    }
    t := if m < p[1] then 0 else if m < p[2] then 1 else if m < p[3] then 2 else if m < p[4] then 3
         else if m < p[5] then 4 else 5;
  }

  /** A place on the line inside part j: its real range lies in that part of a region. */
  ghost predicate OnPart(w: Range, a: seq<int>, j: nat)
    requires |a| == 12 && j < 6
  {
    FoldBase(a, j) <= w.base < w.layend <= FoldBase(a, j) + Len(a, j)
  }

  /** A library placed between two openers fits in the part of the first one. */
  lemma NewOnPart(all: set<Entry>, nodes: seq<Entry>, line: seq<Entry>, placed: set<Entry>, fake: seq<Entry>,
                  a: seq<int>,
                  snap: map<Entry, Range>, mid: map<Entry, Range>, c: Criteria, r: Region, p: seq<nat>, t: nat, m: nat)
    requires Divided(a) && Stops(p, nodes, fake) && t < 6 && m < |nodes| && Between(p, t, m) && Sorted(nodes)
    requires all <= snap.Keys && (forall n :: n in line ==> n in snap)
             && LaidOut(all, line, nodes, placed, snap, c, r, false)
    requires nodes[m] in placed && nodes[m] in mid && Kept(nodes[m], mid[nodes[m]]) && nodes[m] in snap
             && r.fin == FoldBase(a, 4)
    requires snap[nodes[m]].base < snap[nodes[m]].layend && nodes[m] !in fake
    requires forall x :: x in fake ==> x in c.fake && x in line && x in all && x !in placed
    requires forall j :: 0 <= j < 6 ==>
               fake[j] in snap && snap[fake[j]].base == FoldBase(a, j) && snap[fake[j]].layend == FoldBase(a, j)
    requires forall n :: n in line ==> snap[n].base <= FoldBase(a, 4) + Len(a, 4)
    ensures OnPart(mid[nodes[m]], a, Xor1(t))
  {
    var x := nodes[m];
    assert Xor1(5) == 4 && x in nodes && x in all;
    assert PlacedAs(x, line, snap, r, false);
    OpenerAt(all, nodes, line, placed, fake, a, snap, c, r, p, t);
    assert fake[Xor1(t)].base <= x.base;
    if t < 5 {
      PartsFollow(a, t);
      OpenerAt(all, nodes, line, placed, fake, a, snap, c, r, p, t + 1);
      var y := fake[Xor1(t + 1)];
      assert nodes[p[t + 1]] == y && y in nodes;
      assert x.base < y.base;
      assert c.Related(x, y) && Clear(x, y);
    }
  }

  lemma OpenerAt(all: set<Entry>, nodes: seq<Entry>, line: seq<Entry>, placed: set<Entry>, fake: seq<Entry>,
                 a: seq<int>,
                 snap: map<Entry, Range>, c: Criteria, r: Region, p: seq<nat>, t: nat)
    requires Divided(a) && Stops(p, nodes, fake) && t < 6
    requires all <= snap.Keys && (forall n :: n in line ==> n in snap)
             && LaidOut(all, line, nodes, placed, snap, c, r, false)
    requires forall x :: x in fake ==> x in c.fake && x in line && x in all && x !in placed
    requires forall j :: 0 <= j < 6 ==>
               fake[j] in snap && snap[fake[j]].base == FoldBase(a, j) && snap[fake[j]].layend == FoldBase(a, j)
    ensures fake[Xor1(t)].base == FoldBase(a, Xor1(t)) == fake[Xor1(t)].layend && fake[Xor1(t)] in c.fake
            && fake[Xor1(t)] in line
    ensures fake[Xor1(t)] in all
  {
    assert fake[Xor1(t)] in fake;
    assert Kept(fake[Xor1(t)], snap[fake[Xor1(t)]]);
  }

  // The whole layout

  /** The line before libraries are placed, as values. */
  ghost predicate LineValues(line: seq<Entry>, was: seq<Entry>, fake: seq<Entry>, a: seq<int>, orig: map<Entry, Range>,
                             home: map<Entry, nat>, snap: map<Entry, Range>)
  {
    && Divided(a) && InTurn(line, was, fake, home)
    && (forall n :: n in was ==> n in orig && n in home && home[n] < 6 && n in snap && n !in fake
                                 && InPart(orig[n], a, home[n]) && Moves(snap[n], orig[n], Delta(a, home[n])))
    && (forall n :: n in line ==> n in snap && snap[n].base <= FoldBase(a, 4) + Len(a, 4))
    && (forall j :: 0 <= j < 6 ==>
      fake[j] in snap && snap[fake[j]].base == FoldBase(a, j) && snap[fake[j]].layend == FoldBase(a, j))
    && (forall x :: x in fake ==> x in line)
  }

  predicate Moves(w: Range, v: Range, d: int) {
    w.base == v.base + d && w.end == v.end + d && w.layend == v.layend + d && w.done == v.done && w.high == v.high
  }

  /** Nothing gets before the head of the line. */
  lemma HeadBefore(all: set<Entry>, nodes: seq<Entry>, line: seq<Entry>, was: seq<Entry>, placed: set<Entry>,
                   fake: seq<Entry>,
                  a: seq<int>, orig: map<Entry, Range>, home: map<Entry, nat>, snap: map<Entry, Range>, c: Criteria,
                  r: Region,
                  q: nat, j: nat)
    requires LineValues(line, was, fake, a, orig, home, snap) && Distinct(nodes) && r.start == 0
    requires all <= snap.Keys && (forall n :: n in line ==> n in snap)
             && LaidOut(all, line, nodes, placed, snap, c, r, false)
    requires q < |nodes| && j < |nodes| && j != q && nodes[q] == fake[1]
    ensures q < j
  {
    var x, n := fake[1], nodes[j];
    assert Xor1(0) == 1 && line[0] == x && x in line && x in nodes && x in all && Kept(x, snap[x]);
    assert n in nodes && n in all;
    Others(nodes, q);
    if n in line {
      var k :| 0 <= k < |line| && line[k] == n;
      assert Before(nodes, line[0], line[k]);
      BeforeAt(nodes, x, n, q, j);
    } else {
      assert PlacedAs(n, line, snap, r, false);
      assert n.base >= 0 && x.base == 0;
    }
  }

  /** The head of the line stays its head. */
  lemma HeadStays(all: set<Entry>, nodes: seq<Entry>, line: seq<Entry>, was: seq<Entry>, placed: set<Entry>,
                  fake: seq<Entry>,
                  a: seq<int>, orig: map<Entry, Range>, home: map<Entry, nat>, snap: map<Entry, Range>, c: Criteria,
                  r: Region)
    requires LineValues(line, was, fake, a, orig, home, snap) && Distinct(nodes) && r.start == 0
    requires all <= snap.Keys && (forall n :: n in line ==> n in snap)
             && LaidOut(all, line, nodes, placed, snap, c, r, false)
    ensures Spread(nodes, line, was, fake, home)
  {
    var x := fake[1];
    assert Xor1(0) == 1 && line[0] == x && x in line && x in nodes;
    var q := PosOf(nodes, x);
    forall j {:trigger nodes[j]} | 0 <= j < |nodes| && j != q ensures q < j {
      HeadBefore(all, nodes, line, was, placed, fake, a, orig, home, snap, c, r, q, j);
    }
  }

  /** n lies in part j of a region: it was at w on the line and has been moved back. */
  ghost predicate Seated(n: Entry, w: Range, a: seq<int>, j: nat)
    requires |a| == 12
    reads n`base, n`end, n`layend, n`done, n`high
  {
    j < 6 && OnPart(w, a, j) && ShiftedBy(n, w, -Delta(a, j))
  }

  lemma SeatedInPart(n: Entry, w: Range, a: seq<int>, j: nat)
    requires Divided(a) && Seated(n, w, a, j)
    ensures a[2 * j] <= n.base < n.layend <= a[2 * j + 1]
  {
  }

  /** Clear of each other on the line, clear of each other in the regions. */
  lemma SeatedClear(x: Entry, wx: Range, i: nat, y: Entry, wy: Range, j: nat, a: seq<int>)
    requires Divided(a) && Seated(x, wx, a, i) && Seated(y, wy, a, j) && Apart(wx, wy)
    ensures Clear(x, y)
  {
    SeatedInPart(x, wx, a, i);
    SeatedInPart(y, wy, a, j);
  }

  lemma OldSeated(n: Entry, w: Range, v: Range, snap: Range, a: seq<int>, j: nat)
    requires Divided(a) && j < 6 && InPart(v, a, j) && Moves(snap, v, Delta(a, j)) && w == snap
             && ShiftedBy(n, w, -Delta(a, j))
    ensures Seated(n, w, a, j) && ShiftedBy(n, v, 0)
  {
  }

  /** Everything listed in the end: old libraries where they were, all libraries in their parts. */
  ghost predicate Restored(nodes: seq<Entry>, was: seq<Entry>, fake: seq<Entry>, a: seq<int>, orig: map<Entry, Range>,
                           mid: map<Entry, Range>)
    requires |a| == 12
    reads nodes`base, nodes`end, nodes`layend, nodes`done, nodes`high
  {
    && (forall n :: n in was ==> n in nodes && n in orig && ShiftedBy(n, orig[n], 0))
    && (forall n :: n in nodes && n !in fake ==> n in mid && exists j :: 0 <= j < 6 && Seated(n, mid[n], a, j))
  }

  /** How the libraries of the line relate to their parts, as values: what the places mid say. */
  ghost predicate Placed(nodes: seq<Entry>, line: seq<Entry>, was: seq<Entry>, fake: seq<Entry>, a: seq<int>,
                         home: map<Entry, nat>, snap: map<Entry, Range>, mid: map<Entry, Range>, p: seq<nat>)
    requires |a| == 12
  {
    && Stops(p, nodes, fake) && Spread(nodes, line, was, fake, home) && |p| == 6
    && (forall n :: n in nodes ==> n in mid && (n in line ==> n in snap && mid[n] == snap[n]))
    && (forall n :: n in was ==> n in nodes)
    && (forall m, t :: 0 <= m < |nodes| && nodes[m] !in line && 0 <= t < 6 && Between(p, t, m) ==>
      OnPart(mid[nodes[m]], a, Xor1(t)))
  }

  lemma RestoredOld(nodes: seq<Entry>, line: seq<Entry>, was: seq<Entry>, fake: seq<Entry>, a: seq<int>,
                    orig: map<Entry, Range>, home: map<Entry, nat>, snap: map<Entry, Range>, mid: map<Entry, Range>,
                    p: seq<nat>, n: Entry)
    requires LineValues(line, was, fake, a, orig, home, snap) && Placed(nodes, line, was, fake, a, home, snap, mid, p)
    requires MovedBack(nodes, p, a, mid) && n in was
    ensures n in nodes && n in orig && n in mid && n in home && home[n] < 6
    ensures ShiftedBy(n, orig[n], 0) && Seated(n, mid[n], a, home[n])
  {
    hide OnPart, ShiftedBy, Moves, InPart, Delta, FoldBase, Len, Spread, InTurn, Seated, LineValues, Stops;
    LineFakes(line, was, fake, a, orig, home, snap);
    LineIn(line, was, fake, a, orig, home, snap, n);
    assert n in nodes;
    var m := PosOf(nodes, n);
    OldBetween(nodes, line, was, fake, home, p, n, m);
    assert Xor1(Xor1(home[n])) == home[n] && ShiftedBy(nodes[m], mid[nodes[m]], -Delta(a, Xor1(Xor1(home[n]))));
    OldSeated(n, mid[n], orig[n], snap[n], a, home[n]);
  }

  lemma RestoredNew(nodes: seq<Entry>, line: seq<Entry>, was: seq<Entry>, fake: seq<Entry>, a: seq<int>,
                    orig: map<Entry, Range>, home: map<Entry, nat>, snap: map<Entry, Range>, mid: map<Entry, Range>,
                    p: seq<nat>, n: Entry) returns (j: nat)
    requires LineValues(line, was, fake, a, orig, home, snap) && Placed(nodes, line, was, fake, a, home, snap, mid, p)
    requires MovedBack(nodes, p, a, mid) && n in nodes && n !in fake && n !in was
    ensures |a| == 12 && n in mid && j < 6 && Seated(n, mid[n], a, j)
  {
    LineOr(line, was, fake, a, orig, home, snap, n);
    hide OnPart, ShiftedBy, Delta, FoldBase, Len, Spread, InTurn, Seated, LineValues, Stops;
    var m := PosOf(nodes, n);
    var t := SomeBetween(p, nodes, fake, m);
    j := Xor1(t);
    SeatedIntro(n, mid[n], a, j);
  }

  lemma RestoredIntro(nodes: seq<Entry>, line: seq<Entry>, was: seq<Entry>, fake: seq<Entry>, a: seq<int>,
                      orig: map<Entry, Range>, home: map<Entry, nat>, snap: map<Entry, Range>, mid: map<Entry, Range>,
                      p: seq<nat>)
    requires |a| == 12 && LineValues(line, was, fake, a, orig, home, snap)
             && Placed(nodes, line, was, fake, a, home, snap, mid, p)
    requires MovedBack(nodes, p, a, mid)
    ensures Restored(nodes, was, fake, a, orig, mid)
  {
    hide ShiftedBy, Seated, LineValues, Placed, MovedBack;
    forall n | n in was ensures n in nodes && n in orig && n in mid && ShiftedBy(n, orig[n], 0)
                                && exists j :: 0 <= j < 6 && Seated(n, mid[n], a, j) {
      RestoredOld(nodes, line, was, fake, a, orig, home, snap, mid, p, n);
    }
    forall n | n in nodes && n !in fake ensures n in mid && exists j :: 0 <= j < 6 && Seated(n, mid[n], a, j) {
      if n !in was {
        var j := RestoredNew(nodes, line, was, fake, a, orig, home, snap, mid, p, n);
      }
    }
  }

  lemma SeatedIntro(n: Entry, w: Range, a: seq<int>, j: nat)
    requires |a| == 12 && j < 6 && OnPart(w, a, j) && ShiftedBy(n, w, -Delta(a, j))
    ensures Seated(n, w, a, j)
  {
  }

  lemma LineIn(line: seq<Entry>, was: seq<Entry>, fake: seq<Entry>, a: seq<int>, orig: map<Entry, Range>,
               home: map<Entry, nat>, snap: map<Entry, Range>, n: Entry)
    requires LineValues(line, was, fake, a, orig, home, snap) && n in was
    ensures n in line && n in home && home[n] < 6 && n in orig && n in snap
    ensures InPart(orig[n], a, home[n]) && Moves(snap[n], orig[n], Delta(a, home[n]))
  {
  }

  lemma LineOr(line: seq<Entry>, was: seq<Entry>, fake: seq<Entry>, a: seq<int>, orig: map<Entry, Range>,
               home: map<Entry, nat>, snap: map<Entry, Range>, n: Entry)
    requires LineValues(line, was, fake, a, orig, home, snap) && n !in fake
    ensures n in line <==> n in was
  {
  }

  /** Once the waiting libraries have been placed. */
  lemma PlacedIntro(all: set<Entry>, nodes: seq<Entry>, line: seq<Entry>, was: seq<Entry>, placed: set<Entry>,
                    fake: seq<Entry>,
                    a: seq<int>, orig: map<Entry, Range>, home: map<Entry, nat>, snap: map<Entry, Range>,
                    mid: map<Entry, Range>, c: Criteria, r: Region) returns (p: seq<nat>)
    requires LineValues(line, was, fake, a, orig, home, snap) && Distinct(nodes) && Sorted(nodes)
    requires r.start == 0 && r.fin == FoldBase(a, 4)
    requires all <= snap.Keys && all <= mid.Keys && (forall n :: n in line ==> n in snap)
    requires LaidOut(all, line, nodes, placed, snap, c, r, false) && forall n :: n in all ==> Kept(n, mid[n])
    requires forall x :: x in fake ==> x in c.fake
    requires forall x :: x in placed ==> x in snap && snap[x].base < snap[x].layend
    ensures Placed(nodes, line, was, fake, a, home, snap, mid, p)
  {
    HeadStays(all, nodes, line, was, placed, fake, a, orig, home, snap, c, r);
    p := StopsExist(nodes, line, was, fake, home);
    LaidOutParts(all, line, nodes, placed, snap, c, r, false);
    LaidOutMembers(all, line, nodes, placed, snap, c, r);
    LineFakes(line, was, fake, a, orig, home, snap);
    forall n | n in nodes ensures n in mid && (n in line ==> n in snap && mid[n] == snap[n]) {
      if n in line { assert Kept(n, snap[n]); }
    }
    forall m, t | 0 <= m < |nodes| && nodes[m] !in line && 0 <= t < 6 && Between(p, t, m)
      ensures OnPart(mid[nodes[m]], a, Xor1(t))
    {
      assert nodes[m] in nodes;
      NewOnPart(all, nodes, line, placed, fake, a, snap, mid, c, r, p, t, m);
    }
  }

  lemma LineFakes(line: seq<Entry>, was: seq<Entry>, fake: seq<Entry>, a: seq<int>, orig: map<Entry, Range>,
                  home: map<Entry, nat>, snap: map<Entry, Range>)
    requires LineValues(line, was, fake, a, orig, home, snap)
    ensures |fake| == 6 && Divided(a) && (forall x :: x in fake ==> x in line) && (forall n :: n in was ==> n in line)
    ensures forall j :: 0 <= j < 6 ==>
              fake[j] in snap && snap[fake[j]].base == FoldBase(a, j) && snap[fake[j]].layend == FoldBase(a, j)
    ensures forall n :: n in line ==> n in snap && snap[n].base <= FoldBase(a, 4) + Len(a, 4)
    ensures forall n :: n in line ==> n in was || n in fake
  {
  }

  lemma LaidOutMembers(all: set<Entry>, was: seq<Entry>, nodes: seq<Entry>, placed: set<Entry>, snap: map<Entry, Range>,
                       c: Criteria, r: Region)
    requires all <= snap.Keys && (forall n :: n in was ==> n in snap)
             && LaidOut(all, was, nodes, placed, snap, c, r, false)
    ensures forall n :: n in nodes ==> n in all && (n in was || n in placed)
    ensures forall n :: n in was ==> n in nodes && n in all && n !in placed
  {
  }

  /** What the placement needs of the line. */
  ghost predicate LineReady(l: Layout, libs: seq<Entry>, fake: seq<Entry>, c: Criteria, r: Region, all: set<Entry>,
                            snap: map<Entry, Range>)
    reads l, l.nodes, all, libs, fake
  {
    && l.Valid() && Distinct(libs) && c.Over(all) && NoFakes(libs, c)
    && all <= snap.Keys && (forall n :: n in all ==> Kept(n, snap[n]))
    && (forall n :: n in l.nodes ==> n in all && (n in libs || n in c.fake))
    && (forall n :: n in libs ==> n in all)
    && (forall n :: n in c.fake ==> n.tmp == -1)
    && (forall x :: x in libs && x.done == 0 ==> x !in l.nodes && x.next == null)
    && Sized(libs, snap, r) && (forall n :: n in l.nodes ==> Aligned(n.layend, r.page))
    && (forall x :: x in fake ==> x in c.fake)
  }

  /** On the line the libraries before position i have been laid out, and there is no room for the one there. */
  ghost predicate HaltedInLine(l: Layout, libs: seq<Entry>, i: nat, line: seq<Entry>, c: Criteria, r: Region,
                               all: set<Entry>,
                               snap: map<Entry, Range>)
    reads l, l.nodes, all
  {
    && all <= snap.Keys && (forall n :: n in libs ==> n in all) && (forall n :: n in line ==> n in all)
    && i < |libs| && l.Halted(libs, i, c, r, false, all, line, snap)
  }

  lemma HaltedInLineIntro(l: Layout, libs: seq<Entry>, i: nat, line: seq<Entry>, c: Criteria, r: Region,
                          all: set<Entry>,
                          snap: map<Entry, Range>)
    requires all <= snap.Keys && (forall n :: n in libs ==> n in all) && (forall n :: n in line ==> n in all)
    requires i < |libs| && l.Halted(libs, i, c, r, false, all, line, snap)
    ensures HaltedInLine(l, libs, i, line, c, r, all, snap)
  {
  }

  /** Place the waiting libraries on the line. */
  method PlaceOnLine(l: Layout, libs: seq<Entry>, c: Criteria, r: Region, ghost was: seq<Entry>, ghost fake: seq<Entry>,
                     ghost a: seq<int>, ghost all: set<Entry>, ghost orig: map<Entry, Range>,
                     ghost home: map<Entry, nat>,
                     ghost snap: map<Entry, Range>)
    returns (ok: bool, ghost mid: map<Entry, Range>, ghost p: seq<nat>)
    requires LineReady(l, libs, fake, c, r, all, snap) && LineValues(l.nodes, was, fake, a, orig, home, snap)
    requires r.start == 0 && |a| == 12 && r.fin == FoldBase(a, 4) && forall x :: x in libs ==> x in snap
    modifies l, all`base, all`end, all`layend, all`done, all`high, all`tmp, all`prev, all`next
    ensures ok ==> Linked(l.list, l.nodes) && (forall n :: n in l.nodes ==> n in all && n in mid && Kept(n, mid[n]))
    ensures ok ==> (forall n :: n in old(l.nodes) ==> n in snap) && all <= snap.Keys
                   && LaidOut(all, old(l.nodes), l.nodes, Undone(libs, |libs|, snap), snap, c, r, false)
    ensures ok ==> Placed(l.nodes, old(l.nodes), was, fake, a, home, snap, mid, p)
    ensures ok ==> FirstFits(libs, |libs|, old(l.nodes), snap, c, 0, mid)
    ensures ok ==> forall n :: n in l.nodes ==> n in old(l.nodes) || n in Undone(libs, |libs|, snap)
    ensures !ok ==> exists i :: 0 <= i < |libs| && HaltedInLine(l, libs, i, old(l.nodes), c, r, all, snap)
  {
    ghost var line, placed := l.nodes, Undone(libs, |libs|, snap);
    LineReadyFacts(l, libs, fake, c, r, all, snap);
    UndoneMembers(libs, |libs|, snap);
    SizedUndone(libs, snap, r);
    hide *;
    ok := l.PlaceAll(libs, c, r, false, all, snap);
    mid, p := map[], [];
    if ok {
      mid := Snapshot(all);
      SnapshotKept(all);
      ValidParts(l);
      p := PlacedIntro(all, l.nodes, line, was, placed, fake, a, orig, home, snap, mid, c, r);
      LaidOutMembers(all, line, l.nodes, placed, snap, c, r);
    } else {
      ghost var i :| 0 <= i < |libs| && l.Halted(libs, i, c, r, false, all, line, snap);
      HaltedInLineIntro(l, libs, i, line, c, r, all, snap);
    }
  }

  lemma ValidParts(l: Layout)
    requires l.Valid()
    ensures Linked(l.list, l.nodes) && Distinct(l.nodes) && Sorted(l.nodes)
  {
  }

  lemma SizedUndone(libs: seq<Entry>, snap: map<Entry, Range>, r: Region)
    requires Sized(libs, snap, r) && forall x :: x in libs ==> x in snap
    ensures forall x :: x in Undone(libs, |libs|, snap) ==>
              x in libs && x in snap && snap[x].done == 0 && snap[x].base < snap[x].layend
    ensures forall x :: x in libs && snap[x].done == 0 ==> x in Undone(libs, |libs|, snap)
  {
    UndoneMembers(libs, |libs|, snap);
  }

  lemma LineReadyFacts(l: Layout, libs: seq<Entry>, fake: seq<Entry>, c: Criteria, r: Region, all: set<Entry>,
                       snap: map<Entry, Range>)
    requires LineReady(l, libs, fake, c, r, all, snap)
    ensures l.Valid() && Distinct(libs) && c.Over(all) && NoFakes(libs, c)
    ensures all <= snap.Keys && (forall n :: n in all ==> Kept(n, snap[n]))
    ensures forall n :: n in l.nodes ==> n in all && (n in libs || n in c.fake)
    ensures (forall n :: n in libs ==> n in all) && (forall n :: n in c.fake ==> n.tmp == -1)
    ensures forall x :: x in libs && x.done == 0 ==> x !in l.nodes && x.next == null
    ensures Sized(libs, snap, r) && (forall n :: n in l.nodes ==> Aligned(n.layend, r.page))
    ensures forall x :: x in fake ==> x in c.fake
  {
  }

  method NewOpeners() returns (fake: seq<Entry>)
    ensures |fake| == 6 && Distinct(fake) && forall j :: 0 <= j < 6 ==> fresh(fake[j]) && fake[j].next == null
  {
    fake := [];
    while |fake| < 6
      invariant |fake| <= 6 && Distinct(fake) && forall j :: 0 <= j < |fake| ==> fresh(fake[j]) && fake[j].next == null
      decreases 6 - |fake|
    {
      var x := new Entry(0, 0, 0, 0);
      fake := fake + [x];
    }
  }

  /** The region the line is searched as. */
  function LineRegion(a: seq<int>, unit: Page): Region
    requires |a| == 12
  {
    Region(0, 0, FoldBase(a, 4), FoldBase(a, 4), unit)
  }

  lemma DeltaAligned(a: seq<int>, unit: Page, j: nat)
    requires |a| == 12 && AllAligned(a, unit) && j < 6
    ensures Aligned(FoldBase(a, j), unit) && Aligned(Delta(a, j), unit) && Aligned(-Delta(a, j), unit)
  {
    hide Aligned;
    assert Aligned(a[0], unit);
    AlignedDiff(a[0], a[0], unit);
    AlignedDiff(a[3], a[0], unit);
    AlignedDiff(a[7], a[4], unit);
    AlignedSum(a[3] - a[0], a[7] - a[4], unit);
    var p := if j < 2 then 0 else if j < 4 then a[3] - a[0] else a[3] - a[0] + (a[7] - a[4]);
    if j % 2 == 0 {
      AlignedDiff(a[2 * j + 3], a[2 * j + 2], unit);
      AlignedSum(p, a[2 * j + 3] - a[2 * j + 2], unit);
    }
    AlignedDiff(FoldBase(a, j), a[2 * j], unit);
    AlignedTimes(-1, Delta(a, j), unit);
  }

  lemma PartBelowEnd(a: seq<int>, j: nat)
    requires Divided(a) && j < 6
    ensures FoldBase(a, j) <= FoldBase(a, j) + Len(a, j) <= FoldBase(a, 4) + Len(a, 4)
  {
  }

  /** The listed libraries: each in one region, in whole pages (of the size unit). */
  ghost predicate Sound(l: Layout, reg0s: int, unit: Page, orig: map<Entry, Range>)
    reads l, l.nodes
  {
    && l.Valid() && InRegions(l.nodes, orig, reg0s)
    && (forall n :: n in l.nodes ==> n in orig && Kept(n, orig[n]) && Aligned(n.base, unit) && Aligned(n.layend, unit))
  }

  lemma OldValues(line: seq<Entry>, was: seq<Entry>, fake: seq<Entry>, parts: seq<seq<Entry>>, a: seq<int>,
                        orig: map<Entry, Range>, home: map<Entry, nat>, all: set<Entry>, snap: map<Entry, Range>)
    requires OnLine(line, was, fake, parts, a, orig, home, all)
    requires forall n :: n in line || n in was || n in fake ==> n in snap && Kept(n, snap[n])
    ensures |a| == 12
    ensures forall n :: n in was ==>
              n in orig && n in home && home[n] < 6 && n in snap && n !in fake
              && InPart(orig[n], a, home[n]) && Moves(snap[n], orig[n], Delta(a, home[n]))
              && snap[n].base <= FoldBase(a, 4) + Len(a, 4)
  {
    forall n | n in was ensures n in orig && n in home && home[n] < 6 && n in snap && n !in fake
                                && InPart(orig[n], a, home[n]) && Moves(snap[n], orig[n], Delta(a, home[n]))
                                && snap[n].base <= FoldBase(a, 4) + Len(a, 4) {
      PartBelowEnd(a, home[n]);
    }
  }

  lemma OpenerValues(line: seq<Entry>, was: seq<Entry>, fake: seq<Entry>, parts: seq<seq<Entry>>, a: seq<int>,
                        orig: map<Entry, Range>, home: map<Entry, nat>, all: set<Entry>, snap: map<Entry, Range>)
    requires OnLine(line, was, fake, parts, a, orig, home, all)
    requires forall n :: n in line || n in was || n in fake ==> n in snap && Kept(n, snap[n])
    ensures |a| == 12 && |fake| == 6
    ensures forall j :: 0 <= j < 6 ==>
              fake[j] in snap && snap[fake[j]].base == FoldBase(a, j)
              && snap[fake[j]].layend == FoldBase(a, j) && snap[fake[j]].base <= FoldBase(a, 4) + Len(a, 4)
              && fake[j] in line
  {
    JoinedMembers(parts, 5);
    forall j | 0 <= j < 6
      ensures fake[j] in snap && snap[fake[j]].base == FoldBase(a, j) && snap[fake[j]].layend == FoldBase(a, j)
                                  && snap[fake[j]].base <= FoldBase(a, 4) + Len(a, 4) && fake[j] in line {
      assert fake[j] in fake && Opener(fake[j], a, j);
      PartBelowEnd(a, j);
      assert Xor1(Xor1(j)) == j && fake[j] in parts[Xor1(Xor1(j))];
    }
  }

  lemma LineValuesIntro(line: seq<Entry>, was: seq<Entry>, fake: seq<Entry>, parts: seq<seq<Entry>>, a: seq<int>,
                        orig: map<Entry, Range>, home: map<Entry, nat>, all: set<Entry>, snap: map<Entry, Range>)
    requires OnLine(line, was, fake, parts, a, orig, home, all)
    requires forall n :: n in line || n in was || n in fake ==> n in snap && Kept(n, snap[n])
    ensures LineValues(line, was, fake, a, orig, home, snap)
  {
    LineInTurn(line, was, fake, parts, a, orig, home, all);
    LineMembers(line, was, fake, parts, a, orig, home, all);
    OldValues(line, was, fake, parts, a, orig, home, all, snap);
    OpenerValues(line, was, fake, parts, a, orig, home, all, snap);
    hide InTurn, InPart, Moves, FoldBase, Len, Delta, Filed, Over, Separate, Joined, Opener, ShiftedBy, Kept;
  }

  lemma LineAligned(line: seq<Entry>, was: seq<Entry>, fake: seq<Entry>, parts: seq<seq<Entry>>, a: seq<int>,
                    orig: map<Entry, Range>, home: map<Entry, nat>, all: set<Entry>, unit: Page)
    requires OnLine(line, was, fake, parts, a, orig, home, all) && AllAligned(a, unit)
    requires forall n :: n in was ==> n in orig && Aligned(orig[n].layend, unit)
    ensures forall n :: n in line ==> Aligned(n.layend, unit)
  {
    LineMembers(line, was, fake, parts, a, orig, home, all);
    forall n | n in line ensures Aligned(n.layend, unit) {
      if n in was {
        DeltaAligned(a, unit, home[n]);
        AlignedSum(orig[n].layend, Delta(a, home[n]), unit);
        assert ShiftedBy(n, orig[n], Delta(a, home[n]));
      } else {
        var j :| 0 <= j < 6 && fake[j] == n;
        DeltaAligned(a, unit, j);
        assert Opener(fake[j], a, j);
      }
    }
  }

  ghost function Among(all: set<Entry>, fake: seq<Entry>): set<Entry> {
    all + set n | n in fake
  }

  lemma AmongMembers(all: set<Entry>, fake: seq<Entry>)
    ensures forall n :: n in Among(all, fake) <==> n in all || n in fake
  {
  }

  lemma LineReadyIntro(l: Layout, libs: seq<Entry>, was: seq<Entry>, fake: seq<Entry>, b: Criteria, c: Criteria,
                       a: seq<int>,
                       unit: Page, all: set<Entry>, orig: map<Entry, Range>, snap: map<Entry, Range>)
    requires |a| == 12 && l.Valid() && Distinct(libs) && b.Over(all) && c == b.(fake := fake) && b.fake == []
    requires (forall x :: x in fake ==> x !in all && x.tmp == -1) && AllAligned(a, unit)
    requires forall n :: n in all || n in fake ==> n in snap && Kept(n, snap[n])
    requires (forall n :: n in l.nodes ==> n in was || n in fake) && (forall n :: n in was ==> n in libs)
    requires forall n :: n in libs ==> n in all && n in orig
    requires forall n :: n in was ==> orig[n].done != 0 && n.done == orig[n].done
    requires forall x :: x in libs && x !in was ==> Kept(x, orig[x])
    requires forall x :: x in libs && orig[x].done == 0 ==> x.next == null
    requires forall x :: x in libs && orig[x].done == 0 ==>
               orig[x].base < orig[x].layend && Aligned(orig[x].layend - orig[x].base, unit)
    requires forall n :: n in l.nodes ==> Aligned(n.layend, unit)
    ensures LineReady(l, libs, fake, c, LineRegion(a, unit), Among(all, fake), snap)
  {
    assert Aligned(a[0], unit);
    AlignedDiff(a[0], a[0], unit);
    forall x | x in libs && x.done == 0 ensures x !in l.nodes && x.next == null && x !in was {
    }
    hide Aligned, Linked, Sorted, Distinct, FoldBase;
    assert Sized(libs, snap, LineRegion(a, unit)) by {
      forall x | x in libs && x in snap && snap[x].done == 0
        ensures snap[x].base < snap[x].layend && Aligned(snap[x].layend - snap[x].base, unit) {
        assert Kept(x, snap[x]) && Kept(x, orig[x]);
      }
    }
  }

  /** Libraries to lay out: not listed yet, of a proper size in whole units. */
  lemma WaitingFacts(l: Layout, libs: seq<Entry>, unit: Page, r: Region, orig: map<Entry, Range>)
    requires Waiting(l, libs, r, orig) && r.page == unit
    ensures forall x :: x in libs ==> x in orig && Kept(x, orig[x])
    ensures forall x :: x in libs && orig[x].done == 0 ==> x !in l.nodes && x.next == null
    ensures forall x :: x in libs && orig[x].done == 0 ==>
              orig[x].base < orig[x].layend && Aligned(orig[x].layend - orig[x].base, unit)
  {
    forall x | x in libs && orig[x].done == 0 ensures x.done == 0 {
      assert Kept(x, orig[x]);
    }
  }

  lemma SoundFacts(l: Layout, reg0s: int, unit: Page, orig: map<Entry, Range>)
    requires Sound(l, reg0s, unit, orig)
    ensures l.Valid() && InRegions(l.nodes, orig, reg0s) && Distinct(l.nodes)
    ensures forall n :: n in l.nodes ==>
              n in orig && Kept(n, orig[n]) && Aligned(n.base, unit) && Aligned(n.layend, unit)
    ensures forall n :: n in l.nodes ==> Aligned(orig[n].layend, unit)
    ensures SortedBefore(l.nodes, orig)
  {
    forall i, j | 0 <= i < j < |l.nodes| ensures orig[l.nodes[i]].base <= orig[l.nodes[j]].base {
      assert l.nodes[i] in l.nodes && l.nodes[j] in l.nodes && Kept(l.nodes[i], orig[l.nodes[i]])
             && Kept(l.nodes[j], orig[l.nodes[j]]);
    }
  }

  ghost function Homes(nodes: seq<Entry>, a: seq<int>, orig: map<Entry, Range>): (home: map<Entry, nat>)
    requires |a| == 12 && forall n :: n in nodes ==> n in orig
  {
    map n | n in nodes :: HomeOf(orig[n].base, a)
  }

  lemma HomesHomed(nodes: seq<Entry>, a: seq<int>, orig: map<Entry, Range>, reg0s: int, start: int)
    requires |a| == 12 && (forall n :: n in nodes ==> n in orig) && reg0s <= BLOCK
             && CutUp(a, reg0s, start, nodes, orig)
    ensures Homed(nodes, orig, a, Homes(nodes, a, orig)) && Divided(a)
  {
  }

  lemma FakesSeparate(fake: seq<Entry>, nodes: seq<Entry>)
    requires |fake| == 6 && Distinct(fake) && Distinct(nodes) && forall j :: 0 <= j < 6 ==> fake[j] !in nodes
    ensures Separate(fake, nodes)
  {
  }

  /** i386_layout_libs_pre as a whole. */
  method FoldStage(l: Layout, libs: seq<Entry>, b: Criteria, reg0s: int, start: int, unit: Page, ghost all: set<Entry>,
                   ghost orig: map<Entry, Range>)
    returns (fake: seq<Entry>, a: seq<int>, c: Criteria, ghost home: map<Entry, nat>, ghost snap: map<Entry, Range>)
    requires Sound(l, reg0s, unit, orig) && Waiting(l, libs, Region(0, 0, 0, 0, unit), orig) && Distinct(libs)
    requires REG0S <= reg0s <= BLOCK && reg0s <= start <= REG2E
    requires Aligned(BLOCK, unit) && Aligned(reg0s, unit) && Aligned(start, unit)
    requires b.fake == [] && b.Over(all) && (forall n :: n in l.nodes ==> n in libs) && forall n :: n in libs ==>
               n in all
    requires all <= orig.Keys && forall n :: n in all ==> Kept(n, orig[n])
    modifies l, l.nodes`base, l.nodes`end, l.nodes`layend, l.nodes`tmp, l.nodes`prev, l.nodes`next
    ensures |a| == 12 && CutUp(a, reg0s, start, old(l.nodes), orig) && AllAligned(a, unit) && c == b.(fake := fake)
    ensures forall x :: x in fake ==> fresh(x)
    ensures LineReady(l, libs, fake, c, LineRegion(a, unit), Among(all, fake), snap)
    ensures LineValues(l.nodes, old(l.nodes), fake, a, orig, home, snap)
    ensures forall n :: n in all && n !in old(l.nodes) ==> n in snap && snap[n] == orig[n]
  {
    hide *;
    ghost var was := l.nodes;
    SoundFacts(l, reg0s, unit, orig);
    WaitingFacts(l, libs, unit, Region(0, 0, 0, 0, unit), orig);
    a := Divide(l, reg0s, start, unit, orig);
    home := Homes(was, a, orig);
    HomesHomed(was, a, orig, reg0s, start);
    fake := NewOpeners();
    FakesSeparate(fake, was);
    ghost var mine := set n | n in was || n in fake;
    assert forall j :: 0 <= j < 6 ==> fake[j] in fake && fake[j] in mine;
    var fin;
    ghost var parts;
    fin, parts := Fold(l, fake, a, orig, home, mine);
    c := b.(fake := fake);
    ghost var everything := Among(all, fake);
    AmongMembers(all, fake);
    snap := Snapshot(everything);
    SnapshotKept(everything);
    LineMembers(l.nodes, was, fake, parts, a, orig, home, mine);
    LineAligned(l.nodes, was, fake, parts, a, orig, home, mine, unit);
    LineValuesIntro(l.nodes, was, fake, parts, a, orig, home, mine, snap);
    FoldDone(was, l.nodes, fake, parts, a, orig, home, mine);
    LineReadyIntro(l, libs, was, fake, b, c, a, unit, all, orig, snap);
    SnapSame(all, was, orig, snap);
  }

  lemma SnapSame(all: set<Entry>, was: seq<Entry>, orig: map<Entry, Range>, snap: map<Entry, Range>)
    requires all <= orig.Keys && all <= snap.Keys && forall n :: n in all && n !in was ==> Kept(n, orig[n])
    requires forall n :: n in all ==> Kept(n, snap[n])
    ensures forall n :: n in all && n !in was ==> n in snap && snap[n] == orig[n]
  {
  }

  lemma FoldDone(was: seq<Entry>, now: seq<Entry>, fake: seq<Entry>, parts: seq<seq<Entry>>, a: seq<int>,
                 orig: map<Entry, Range>, home: map<Entry, nat>, all: set<Entry>)
    requires OnLine(now, was, fake, parts, a, orig, home, all)
    ensures forall n :: n in was ==> n in orig && n.done == orig[n].done
    ensures forall x :: x in fake ==> x.tmp == -1
  {
    forall x | x in fake ensures x.tmp == -1 {
      var j :| 0 <= j < 6 && fake[j] == x;
      assert Opener(fake[j], a, j);
    }
  }

  /** n lies wholly in one part of one region. */
  ghost predicate InSomePart(n: Entry, a: seq<int>)
    requires |a| == 12
    reads n`base, n`layend
  {
    exists j :: 0 <= j < 6 && a[2 * j] <= n.base < n.layend <= a[2 * j + 1]
  }

  /** A new range of the size that was asked for. */
  ghost predicate Sizes(x: Entry, w: Range)
    reads x`base, x`end, x`layend, x`done
  {
    x.end - x.base == w.end - w.base && x.layend - x.base == w.layend - w.base && x.done == 1
  }

  /** Related libraries keep clear of each other, if at least one of them has its range from now. */
  ghost predicate NewClear(nodes: seq<Entry>, was: seq<Entry>, fake: seq<Entry>, b: Criteria)
    reads nodes`base, nodes`layend
  {
    forall x, y ::
      x in nodes && y in nodes && x != y && x !in fake && y !in fake && !(x in was && y in was) && b.Related(x, y) ==>
        Clear(x, y)
  }

  /** The line unfolded: what is promised of every listed library and of every two. */
  method UnfoldStage(l: Layout, libs: seq<Entry>, b: Criteria, c: Criteria, r: Region, fake: seq<Entry>, a: seq<int>,
                     ghost line: seq<Entry>, ghost was: seq<Entry>, ghost all: set<Entry>, ghost placed: set<Entry>,
                     ghost orig: map<Entry, Range>, ghost home: map<Entry, nat>, ghost snap: map<Entry, Range>,
                     ghost mid: map<Entry, Range>, ghost p: seq<nat>)
    requires |a| == 12 && Linked(l.list, l.nodes)
             && (forall n :: n in l.nodes ==> n in all && n in mid && Kept(n, mid[n]))
    requires LineValues(line, was, fake, a, orig, home, snap) && Placed(l.nodes, line, was, fake, a, home, snap, mid, p)
    requires (forall n :: n in line ==> n in snap) && all <= snap.Keys
             && LaidOut(all, line, l.nodes, placed, snap, c, r, false)
    requires c == b.(fake := fake) && b.fake == [] && AllAligned(a, r.page)
    modifies l.nodes`base, l.nodes`end, l.nodes`layend
    ensures forall n :: n in was ==> n in l.nodes && n in orig && ShiftedBy(n, orig[n], 0)
    ensures forall n :: n in l.nodes && n !in fake ==> InSomePart(n, a)
    ensures NewClear(l.nodes, was, fake, b)
    ensures forall x :: x in placed ==>
              x in l.nodes && x in snap && Sizes(x, snap[x]) && Aligned(x.base, r.page)
    ensures Restored(l.nodes, was, fake, a, orig, mid)
  {
    ghost var nodes := l.nodes;
    PlacedApart(all, nodes, line, was, placed, snap, mid, fake, b, c, r);
    PlacedMoved(all, nodes, line, placed, snap, mid, c, r);
    PlacedStops(nodes, line, was, fake, a, home, snap, mid, p, orig);
    hide *;
    Unfold(l, fake, a, p, mid);
    RestoredIntro(nodes, line, was, fake, a, orig, home, snap, mid, p);
    RestoredClear(nodes, was, fake, a, orig, mid, b);
    NewAligned(nodes, fake, a, mid, placed, snap, r.page, was, orig);
  }

  ghost predicate NewApart(nodes: seq<Entry>, was: seq<Entry>, fake: seq<Entry>, b: Criteria, mid: map<Entry, Range>)
  {
    forall x, y ::
      x in nodes && y in nodes && x != y && x !in fake && y !in fake && !(x in was && y in was) && b.Related(x, y) ==>
        x in mid && y in mid && Apart(mid[x], mid[y])
  }

  /** Related libraries of which at least one is new are apart on the line. */
  lemma PlacedApart(all: set<Entry>, nodes: seq<Entry>, line: seq<Entry>, was: seq<Entry>, placed: set<Entry>,
                    snap: map<Entry, Range>, mid: map<Entry, Range>, fake: seq<Entry>, b: Criteria, c: Criteria,
                    r: Region)
    requires (forall n :: n in line ==> n in snap) && all <= snap.Keys
             && LaidOut(all, line, nodes, placed, snap, c, r, false)
    requires forall n :: n in nodes ==> n in all && n in mid && Kept(n, mid[n])
    requires c == b.(fake := fake) && b.fake == [] && forall n :: n in line ==> n in was || n in fake
    ensures NewApart(nodes, was, fake, b, mid)
  {
    forall x, y | x in nodes && y in nodes && x != y && x !in fake && y !in fake && !(x in was && y in was)
    && b.Related(x, y)
      ensures Apart(mid[x], mid[y])
    {
      assert c.Related(x, y);
      StillClear(all, line, nodes, placed, snap, c, r, false, x, y);
    }
  }

  predicate SizedAs(m: Range, w: Range) {
    m.end - m.base == w.end - w.base && m.layend - m.base == w.layend - w.base && m.done == 1
  }

  lemma PlacedMoved(all: set<Entry>, nodes: seq<Entry>, line: seq<Entry>, placed: set<Entry>,
                    snap: map<Entry, Range>, mid: map<Entry, Range>, c: Criteria, r: Region)
    requires (forall n :: n in line ==> n in snap) && all <= snap.Keys
             && LaidOut(all, line, nodes, placed, snap, c, r, false)
    requires forall n :: n in nodes ==> n in all && n in mid && Kept(n, mid[n])
    ensures forall x :: x in placed ==>
              x in nodes && x !in line && x in snap && x in mid && SizedAs(mid[x], snap[x])
              && Aligned(mid[x].base, r.page)
  {
    forall x | x in placed
      ensures x in nodes && x !in line && x in snap && x in mid && SizedAs(mid[x], snap[x])
              && Aligned(mid[x].base, r.page)
    {
      assert x in nodes && PlacedAs(x, line, snap, r, false);
    }
  }

  lemma StopIn(p: seq<nat>, nodes: seq<Entry>, fake: seq<Entry>, j: nat)
    requires Stops(p, nodes, fake) && j < 6
    ensures fake[j] in nodes && fake[j] in fake
  {
    assert Xor1(Xor1(j)) == j && nodes[p[Xor1(j)]] == fake[j];
  }

  lemma PlacedStops(nodes: seq<Entry>, line: seq<Entry>, was: seq<Entry>, fake: seq<Entry>, a: seq<int>,
                    home: map<Entry, nat>, snap: map<Entry, Range>, mid: map<Entry, Range>, p: seq<nat>,
                    orig: map<Entry, Range>)
    requires |a| == 12 && LineValues(line, was, fake, a, orig, home, snap)
             && Placed(nodes, line, was, fake, a, home, snap, mid, p)
    ensures Divided(a) && |fake| == 6 && |p| == 6 && Stops(p, nodes, fake)
    ensures forall j :: 0 <= j < 6 ==> fake[j] in mid && mid[fake[j]].base == FoldBase(a, j)
    ensures (forall x :: x in fake ==> x in line) && (forall n :: n in was ==> n in line)
  {
    LineFakes(line, was, fake, a, orig, home, snap);
    hide LineValues, FoldBase, Len, Spread, OnPart, Divided, Between, Stops;
    forall j | 0 <= j < 6 ensures fake[j] in mid && mid[fake[j]].base == FoldBase(a, j) {
      StopIn(p, nodes, fake, j);
    }
  }

  lemma RestoredClear(nodes: seq<Entry>, was: seq<Entry>, fake: seq<Entry>, a: seq<int>, orig: map<Entry, Range>,
                      mid: map<Entry, Range>, b: Criteria)
    requires |a| == 12 && Divided(a) && Restored(nodes, was, fake, a, orig, mid)
    requires forall n :: n in nodes ==> n in mid
    requires NewApart(nodes, was, fake, b, mid)
    ensures forall n :: n in was ==> n in nodes && n in orig && ShiftedBy(n, orig[n], 0)
    ensures forall n :: n in nodes && n !in fake ==> InSomePart(n, a)
    ensures NewClear(nodes, was, fake, b)
  {
    forall n | n in nodes && n !in fake ensures InSomePart(n, a) {
      var j :| 0 <= j < 6 && Seated(n, mid[n], a, j);
      SeatedInPart(n, mid[n], a, j);
    }
    forall x, y | x in nodes && y in nodes && x != y && x !in fake && y !in fake && !(x in was && y in was)
    && b.Related(x, y)
      ensures Clear(x, y)
    {
      var i :| 0 <= i < 6 && Seated(x, mid[x], a, i);
      var j :| 0 <= j < 6 && Seated(y, mid[y], a, j);
      SeatedClear(x, mid[x], i, y, mid[y], j, a);
    }
  }

  lemma NewAligned(nodes: seq<Entry>, fake: seq<Entry>, a: seq<int>, mid: map<Entry, Range>, placed: set<Entry>,
                   snap: map<Entry, Range>, unit: Page, was: seq<Entry>, orig: map<Entry, Range>)
    requires |a| == 12 && AllAligned(a, unit) && Restored(nodes, was, fake, a, orig, mid)
    requires forall x :: x in placed ==>
               x in nodes && x !in fake && x in snap && x in mid && SizedAs(mid[x], snap[x])
               && Aligned(mid[x].base, unit)
    ensures forall x :: x in placed ==> x in nodes && x in snap && Sizes(x, snap[x]) && Aligned(x.base, unit)
  {
    forall x | x in placed ensures Sizes(x, snap[x]) && Aligned(x.base, unit) {
      var j :| 0 <= j < 6 && Seated(x, mid[x], a, j);
      DeltaAligned(a, unit, j);
      AlignedSum(mid[x].base, -Delta(a, j), unit);
    }
  }

  /** Lay out under --exec-shield: cut the regions, fold, place, unfold. Libraries that had a range keep it; the
      others get one of the same size wholly in one part of one region, clear of whatever they must keep clear of;
      and if this fails, there was no room on the line (line, with the places snap) for the first of them that has
      none. unit is any page size that all the given addresses are multiples of. */
  method LayOutRegions(l: Layout, libs: seq<Entry>, b: Criteria, page: Page, unit: Page, start: int,
                       ghost all: set<Entry>,
                       ghost orig: map<Entry, Range>)
    returns (ok: bool, ghost fake: seq<Entry>, ghost a: seq<int>, ghost line: seq<Entry>, ghost home: map<Entry, nat>,
             ghost snap: map<Entry, Range>, ghost mid: map<Entry, Range>)
    requires page <= BLOCK && Aligned(BLOCK, page) && Aligned(BLOCK, unit) && Aligned(RoundUp(REG0S, page), unit)
             && Aligned(start, unit)
    requires RoundUp(REG0S, page) <= start <= REG2E
    requires Sound(l, RoundUp(REG0S, page), unit, orig) && Waiting(l, libs, Region(0, 0, 0, 0, unit), orig)
             && Distinct(libs)
    requires b.fake == [] && b.Over(all) && (forall n :: n in l.nodes ==> n in libs) && forall n :: n in libs ==>
               n in all
    requires all <= orig.Keys && forall n :: n in all ==> Kept(n, orig[n])
    modifies l, all`base, all`end, all`layend, all`done, all`high, all`tmp, all`prev, all`next
    ensures RoundUp(REG0S, page) <= BLOCK && |a| == 12 && CutUp(a, RoundUp(REG0S, page), start, old(l.nodes), orig)
    ensures forall x :: x in fake ==> fresh(x)
    ensures LineValues(line, old(l.nodes), fake, a, orig, home, snap)
    ensures !ok ==>
              exists i :: HaltedInLine(l, libs, i, line, b.(fake := fake), LineRegion(a, unit), Among(all, fake), snap)
    ensures forall x :: x in libs ==>
              x in snap && snap[x].done == orig[x].done && (orig[x].done == 0 ==> snap[x] == orig[x])
    ensures ok ==> forall n :: n in old(l.nodes) ==> n in l.nodes && n in orig && ShiftedBy(n, orig[n], 0)
    ensures ok ==> forall x :: x in libs && orig[x].done == 0 ==>
                     x in l.nodes && Sizes(x, orig[x]) && Aligned(x.base, unit)
    ensures ok ==> Restored(l.nodes, old(l.nodes), fake, a, orig, mid)
    ensures ok ==> (forall x :: x in libs ==> x in snap)
                   && FirstFits(libs, |libs|, line, snap, b.(fake := fake), 0, mid)
    ensures ok ==> forall n :: n in l.nodes && n !in fake ==> n in old(l.nodes) || (n in libs && orig[n].done == 0)
    ensures ok ==> forall n :: n in l.nodes && n !in fake ==> InSomePart(n, a)
    ensures ok ==> NewClear(l.nodes, old(l.nodes), fake, b)
  {
    hide *;
    ghost var was := l.nodes;
    FirstPageFits(page);
    SoundFacts(l, RoundUp(REG0S, page), unit, orig);
    WaitingFacts(l, libs, unit, Region(0, 0, 0, 0, unit), orig);
    InAllNodes(l, libs, all);
    var openers, cuts, c;
    openers, cuts, c, home, snap := FoldStage(l, libs, b, RoundUp(REG0S, page), start, unit, all, orig);
    fake, a := openers, cuts;
    line := l.nodes;
    ghost var everything := Among(all, fake);
    AmongMembers(all, fake);
    var r := LineRegion(cuts, unit);
    LineRegionFacts(cuts, unit);
    LineReadyFacts(l, libs, fake, c, r, everything, snap);
    SameDone(libs, was, fake, a, orig, home, snap, line, all);
    LineFakes(line, was, fake, a, orig, home, snap);
    ghost var p;
    ok, mid, p := PlaceOnLine(l, libs, c, r, was, openers, a, everything, orig, home, snap);
    if ok {
      UnfoldStage(l, libs, b, c, r, openers, cuts, line, was, everything, Undone(libs, |libs|, snap), orig, home, snap,
                  mid, p);
      SizedUndone(libs, snap, r);
    }
  }

  /** Folding changes the place of the listed libraries alone, which all have a range. */
  lemma SameDone(libs: seq<Entry>, was: seq<Entry>, fake: seq<Entry>, a: seq<int>, orig: map<Entry, Range>,
                 home: map<Entry, nat>, snap: map<Entry, Range>, line: seq<Entry>, all: set<Entry>)
    requires LineValues(line, was, fake, a, orig, home, snap)
    requires (forall x :: x in libs ==> x in all && x in orig) && forall x :: x in libs && orig[x].done == 0 ==>
               x !in was
    requires forall n :: n in all && n !in was ==> n in snap && n in orig && snap[n] == orig[n]
    ensures forall x :: x in libs ==>
              x in snap && snap[x].done == orig[x].done && (orig[x].done == 0 ==> snap[x] == orig[x])
  {
  }

  lemma InAllNodes(l: Layout, libs: seq<Entry>, all: set<Entry>)
    requires (forall n :: n in l.nodes ==> n in libs) && forall n :: n in libs ==> n in all
    ensures forall n :: n in l.nodes ==> n in all
  {
  }

  lemma LineRegionFacts(a: seq<int>, unit: Page)
    requires |a| == 12
    ensures LineRegion(a, unit).start == 0 && LineRegion(a, unit).fin == FoldBase(a, 4)
            && LineRegion(a, unit).page == unit
  {
  }

  /** The first region still begins below its end once its start is rounded up. */
  lemma FirstPageFits(page: Page)
    requires page <= BLOCK && Aligned(BLOCK, page)
    ensures REG0S <= RoundUp(REG0S, page) <= BLOCK
  {
    var q :| BLOCK == Pages(q, page);
    var v := (REG0S + page - 1) / page;
    assert v * page < (q + 1) * page;
    MulLess(v, q + 1, page);
    MulMono(v, q, page);
  }

  lemma MulMono(v: int, w: int, page: Page)
    requires v <= w
    ensures v * page <= w * page
  {
  }

  lemma MulLess(v: int, w: int, page: Page)
    requires v * page < w * page
    ensures v < w
  {
    if w <= v { MulMono(w, v, page); }
  }

  /** The comment above the region bounds lists six areas to fill, but the limit of the search is where the sixth
      begins: some library of whole pages gets there exactly if a listed library that it must keep clear of begins
      there with a gap below it, and nothing as long as this gap fits any earlier. */
  lemma LastPartExactly(line: seq<Entry>, m: int, a: seq<int>, unit: Page)
    requires |a| == 12 && Limits.OnPages(line, LineRegion(a, unit))
    ensures Limits.SomeFrom(line, m, LineRegion(a, unit), FoldBase(a, Xor1(5)))
            <==> Limits.OpenFrom(line, m, LineRegion(a, unit), FoldBase(a, Xor1(5)))
  {
    Limits.FromExactly(line, m, LineRegion(a, unit), FoldBase(a, 4));
  }

  /** The cuts for a search from 0xe101000 with nothing listed. */
  const EXAMPLE := [0x101000, 0x515000, 0x515000, 0xe00000, 0x2000000, 0x4400000, 0x4400000, 0x8000000,
                    0x41000000, 0x4f000000, 0x4f000000, 0x50000000]

  lemma ExampleCut()
    ensures CutUp(EXAMPLE, REG0S, 0xe101000, [], map[]) && AllAligned(EXAMPLE, 0x1000)
  {
    assert Wanted(REG0S, REG0E, 0xe000000) == 0x515000 && Wanted(REG1S, REG1E, 0xe000000) == 0x4400000
           && Wanted(REG2S, REG2E, 0xe000000) == 0x4f000000;
    forall j | 0 <= j < 12 ensures Aligned(EXAMPLE[j], 0x1000) {
      assert EXAMPLE[j] % 0x1000 == 0;
      assert EXAMPLE[j] == Pages(EXAMPLE[j] / 0x1000, 0x1000);
    }
  }

  /** With nothing but the openers listed there is no room for 64 megabytes, though the sixth part, of which 224 are
      free, is empty. */
  lemma LastPartRefused(line: seq<Entry>)
    requires |line| == 6
    requires forall t :: 0 <= t < 6 ==>
               line[t].tmp == -1 && line[t].base == line[t].layend == FoldBase(EXAMPLE, Xor1(t))
    ensures NoRoom(line, -1, 0x4000000, LineRegion(EXAMPLE, 0x1000))
    ensures Len(EXAMPLE, Xor1(5)) == 0xe000000
    ensures forall n :: n in line ==> n.layend <= FoldBase(EXAMPLE, Xor1(5))
  {
    var size, top := 0x4000000, FoldBase(EXAMPLE, 4);
    forall b | 0 <= b < top ensures Blocked(line, 6, -1, b, size) {
      var k := if b < FoldBase(EXAMPLE, 0) then 1 else if b < FoldBase(EXAMPLE, 3) then 2
               else if b < FoldBase(EXAMPLE, 2) then 3 else if b < FoldBase(EXAMPLE, 5) then 4 else 5;
      assert line[k].tmp == -1 && b < line[k].layend && line[k].base < b + size;
    }
    forall n | n in line ensures n.layend <= top {
      var k :| 0 <= k < 6 && line[k] == n;
    }
    assert AllBelow(line, -1, top);
  }
}
