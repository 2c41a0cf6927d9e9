/** Laying libraries out from a random start (src/layout.c): the listed libraries below the start are
    moved up by the size of the region, the search runs on that line, and everything moved is moved back. */
module Rotation {
  import opened Placement

  function Span(r: Region): int {
    r.end - r.base
  }

  /** v rounded up to whole pages. */
  function RoundUp(v: int, page: Page): (w: int)
    ensures w >= v && Aligned(w, page)
  {
    var w := Pages((v + page - 1) / page, page);
    w
  }

  /** n is at its original place, or one region further up if its 0x80 bit is set. */
  ghost predicate At(n: Entry, w: Range, span: int)
    reads n`base, n`end, n`layend, n`done, n`high
  {
    var d := if n.high then span else 0;
    n.base == w.base + d && n.end == w.end + d && n.layend == w.layend + d && n.done == w.done
  }

  /** A library that has its range. If a random start was asked for, it does not begin below the region. */
  predicate InReach(w: Range, r: Region) {
    w.base <= w.end <= w.layend && !w.high && (r.start != r.base ==> r.base <= w.base)
  }

  /** Of the listed libraries only the first may begin above the region. */
  ghost predicate HeadAlone(nodes: seq<Entry>, orig: map<Entry, Range>, r: Region) {
    forall k :: 1 <= k < |nodes| && nodes[k] in orig ==> orig[nodes[k]].base <= r.end
  }

  /** Entries of nodes[..pos] moved up, the others in place. */
  ghost predicate FrontMoved(nodes: seq<Entry>, pos: nat, orig: map<Entry, Range>, r: Region, start: int)
    requires pos <= |nodes| && forall n :: n in nodes ==> n in orig
    reads nodes`base, nodes`end, nodes`layend, nodes`done, nodes`high
  {
    && (forall k :: 0 <= k < |nodes| ==> At(nodes[k], orig[nodes[k]], Span(r)) && nodes[k].high == (k < pos))
    && (forall k :: 0 <= k < pos ==> orig[nodes[k]].base < start && orig[nodes[k]].layend <= start)
  }

  ghost predicate SortedBefore(nodes: seq<Entry>, orig: map<Entry, Range>) {
    && (forall n :: n in nodes ==> n in orig)
    && forall i, j :: 0 <= i < j < |nodes| ==> orig[nodes[i]].base <= orig[nodes[j]].base
  }

  /** Move one library up by the size of the region. */
  method MoveUp(e: Entry, r: Region, ghost w: Range)
    requires At(e, w, Span(r)) && !e.high
    modifies e`base, e`end, e`layend, e`high
    ensures At(e, w, Span(r)) && e.high
  {
    e.base := e.base + (r.end - r.base);
    e.end := e.end + (r.end - r.base);
    e.layend := e.layend + (r.end - r.base);
    e.high := true;
  }

  lemma FrontNext(nodes: seq<Entry>, pos: nat, orig: map<Entry, Range>, r: Region, start: int, raised: int)
    requires pos < |nodes| && forall n :: n in nodes ==> n in orig
    requires forall k :: 0 <= k < |nodes| ==> At(nodes[k], orig[nodes[k]], Span(r)) && nodes[k].high == (k < pos + 1)
    requires forall k :: 0 <= k < pos ==> orig[nodes[k]].base < start && orig[nodes[k]].layend <= start
    requires start <= raised && orig[nodes[pos]].base < start && orig[nodes[pos]].layend <= raised
    ensures FrontMoved(nodes, pos + 1, orig, r, raised)
  {
  }

  /** How many libraries are moved up, and the start that is left. */
  datatype Front = Front(moved: nat, start: int)

  /** From position k on, with the start where it is: every library that begins below the start is moved up, and one
      that the start would cut raises it to the page behind its end. */
  ghost function FrontFrom(nodes: seq<Entry>, orig: map<Entry, Range>, page: Page, k: nat, start: int): (f: Front)
    requires k <= |nodes| && forall n :: n in nodes ==> n in orig
    decreases |nodes| - k
  {
    if k == |nodes| || orig[nodes[k]].base >= start then Front(k, start)
    else FrontFrom(nodes, orig, page, k + 1, Raised(orig[nodes[k]], page, start))
  }

  function Raised(w: Range, page: Page, start: int): int {
    if w.layend > start then RoundUp(w.layend, page) else start
  }

  lemma {:induction false} FrontBounds(nodes: seq<Entry>, orig: map<Entry, Range>, page: Page, k: nat, start: int)
    requires k <= |nodes| && forall n :: n in nodes ==> n in orig
    ensures var f := FrontFrom(nodes, orig, page, k, start);
            k <= f.moved <= |nodes| && f.start >= start && (Aligned(start, page) ==> Aligned(f.start, page))
    decreases |nodes| - k
  {
    if k < |nodes| && orig[nodes[k]].base < start {
      FrontBounds(nodes, orig, page, k + 1, Raised(orig[nodes[k]], page, start));
    }
  }

  /** What the loop comes to from position pos on is what it comes to from the beginning. */
  ghost predicate FrontSame(nodes: seq<Entry>, pos: nat, orig: map<Entry, Range>, r: Region, start: int)
    requires pos <= |nodes| && forall n :: n in nodes ==> n in orig
  {
    start >= r.start && FrontFrom(nodes, orig, r.page, pos, start) == FrontFrom(nodes, orig, r.page, 0, r.start)
  }

  /** The line that is searched: from the start that is asked for or that the libraries below it leave, up to one
      region further on; or from the base of the region, if no start is left inside it. */
  ghost function LineFrom(nodes: seq<Entry>, orig: map<Entry, Range>, r: Region): (line: Region)
    requires forall n :: n in nodes ==> n in orig
  {
    var left := FrontFrom(nodes, orig, r.page, 0, r.start).start;
    var start := if r.start == r.base || nodes == [] then r.start else if left < r.end then left else r.base;
    Region(r.base, start, r.end, if start != r.base then r.end + (start - r.base) else r.fin, r.page)
  }

  /** The end of the region is marked in the list: libraries are left on both sides of it. */
  ghost predicate EndListed(nodes: seq<Entry>, orig: map<Entry, Range>, r: Region)
    requires forall n :: n in nodes ==> n in orig
  {
    var f := FrontFrom(nodes, orig, r.page, 0, r.start);
    r.start != r.base && f.start < r.end && 0 < f.moved < |nodes|
  }

  /** What the loop below knows when it looks at position pos. */
  ghost predicate FrontLoop(list: Entry?, nodes: seq<Entry>, e: Entry?, pos: nat, orig: map<Entry, Range>, r: Region,
                            start: int)
    reads nodes
  {
    && (forall n :: n in nodes ==> n in orig) && Linked(list, nodes)
    && pos <= |nodes| && (if pos == |nodes| then e == null else e == nodes[pos])
    && FrontMoved(nodes, pos, orig, r, start) && FrontSame(nodes, pos, orig, r, start)
  }

  lemma FrontFacts(list: Entry?, nodes: seq<Entry>, e: Entry, pos: nat, orig: map<Entry, Range>, r: Region, start: int)
    requires (forall n :: n in nodes ==> n in orig) && FrontLoop(list, nodes, e, pos, orig, r, start)
    ensures pos < |nodes| && e == nodes[pos] && Linked(list, nodes) && FrontSame(nodes, pos, orig, r, start)
    ensures At(e, orig[e], Span(r)) && !e.high && e.base == orig[e].base && e.layend == orig[e].layend
    ensures forall k :: 0 <= k < |nodes| && k != pos ==> nodes[k] != e
    ensures forall k :: 0 <= k < |nodes| ==> At(nodes[k], orig[nodes[k]], Span(r)) && nodes[k].high == (k < pos)
    ensures forall k :: 0 <= k < pos ==> orig[nodes[k]].base < start && orig[nodes[k]].layend <= start
    ensures if pos + 1 == |nodes| then e.next == null else e.next == nodes[pos + 1]
  {
    Others(nodes, pos);
  }

  /** One turn: move e up, raising the start if e would be cut. */
  method MoveStep(ghost list: Entry?, ghost nodes: seq<Entry>, e: Entry, ghost pos: nat, ghost orig: map<Entry, Range>,
                  r: Region, start: int) returns (raised: int, next: Entry?)
    requires (forall n :: n in nodes ==> n in orig) && FrontLoop(list, nodes, e, pos, orig, r, start) && e.base < start
    modifies e`base, e`end, e`layend, e`high
    ensures FrontLoop(list, nodes, next, pos + 1, orig, r, raised)
    ensures forall n :: n in nodes && n != e ==> n.base == old(n.base)
    ensures pos < |nodes|
  {
    hide *;
    FrontFacts(list, nodes, e, pos, orig, r, start);
    FrontRaised(nodes, pos, orig, r, start);
    raised := start;
    if e.layend > start {
      raised := RoundUp(e.layend, r.page);
    }
    MoveUp(e, r, orig[e]);
    next := e.next;
    FrontNext(nodes, pos, orig, r, start, raised);
    FrontIntro(list, nodes, next, pos + 1, orig, r, raised);
  }

  lemma FrontRaised(nodes: seq<Entry>, pos: nat, orig: map<Entry, Range>, r: Region, start: int)
    requires pos < |nodes| && (forall n :: n in nodes ==> n in orig) && FrontSame(nodes, pos, orig, r, start)
    ensures var w := orig[nodes[pos]];
            var raised := if w.layend > start then RoundUp(w.layend, r.page) else start;
            start <= raised && w.layend <= raised
            && (w.base < start ==> FrontSame(nodes, pos + 1, orig, r, raised))
  {
  }

  lemma FrontIntro(list: Entry?, nodes: seq<Entry>, e: Entry?, pos: nat, orig: map<Entry, Range>, r: Region, start: int)
    requires (forall n :: n in nodes ==> n in orig) && Linked(list, nodes)
    requires pos <= |nodes| && (if pos == |nodes| then e == null else e == nodes[pos])
    requires FrontMoved(nodes, pos, orig, r, start) && FrontSame(nodes, pos, orig, r, start)
    ensures FrontLoop(list, nodes, e, pos, orig, r, start)
  {
  }

  /** The loop that moves up every library starting below the search start, raising the start to the
      end of any library it would cut. */
  method MoveFront(l: Layout, r: Region, ghost orig: map<Entry, Range>)
    returns (start: int, e: Entry?, ghost pos: nat)
    requires Linked(l.list, l.nodes) && SortedBefore(l.nodes, orig)
    requires forall n :: n in l.nodes ==> At(n, orig[n], Span(r)) && !n.high
    modifies l.nodes`base, l.nodes`end, l.nodes`layend, l.nodes`high
    ensures FrontLoop(l.list, l.nodes, e, pos, orig, r, start)
    ensures e != null ==> e.base >= start
  {
    hide *;
    ghost var nodes := l.nodes;
    FrontStart(l, r, orig);
    start := r.start;
    e := l.list;
    pos := 0;
    while e != null && e.base < start
      invariant FrontLoop(l.list, nodes, e, pos, orig, r, start)
      invariant pos <= |nodes|
      decreases |nodes| - pos
    {
      FrontFacts(l.list, nodes, e, pos, orig, r, start);
      start, e := MoveStep(l.list, nodes, e, pos, orig, r, start);
      pos := pos + 1;
    }
  }

  lemma FrontStart(l: Layout, r: Region, orig: map<Entry, Range>)
    requires Linked(l.list, l.nodes) && SortedBefore(l.nodes, orig)
    requires forall n :: n in l.nodes ==> At(n, orig[n], Span(r)) && !n.high
    ensures (forall n :: n in l.nodes ==> n in orig) && FrontLoop(l.list, l.nodes, l.list, 0, orig, r, r.start)
  {
  }

  /** Cancelling: every library moved up goes back. */
  method MoveBack(l: Layout, r: Region, ghost orig: map<Entry, Range>)
    requires Linked(l.list, l.nodes) && forall n :: n in l.nodes ==> n in orig
    requires forall k :: 0 <= k < |l.nodes| ==> At(l.nodes[k], orig[l.nodes[k]], Span(r))
    modifies l.nodes`base, l.nodes`end, l.nodes`layend, l.nodes`high
    ensures forall k :: 0 <= k < |l.nodes| ==> At(l.nodes[k], orig[l.nodes[k]], Span(r)) && !l.nodes[k].high
  {
    var e := l.list;
    ghost var pos, nodes := 0, l.nodes;
    while e != null
      invariant pos <= |nodes| && (if pos == |nodes| then e == null else e == nodes[pos])
      invariant forall k :: 0 <= k < |nodes| ==> At(nodes[k], orig[nodes[k]], Span(r)) && (k < pos ==> !nodes[k].high)
      decreases |nodes| - pos
    {
      Others(nodes, pos);
      MoveBackOne(e, r, orig[e]);
      e := e.next;
      pos := pos + 1;
    }
  }

  method MoveBackOne(e: Entry, r: Region, ghost w: Range)
    requires At(e, w, Span(r))
    modifies e`base, e`end, e`layend, e`high
    ensures At(e, w, Span(r)) && !e.high
  {
    if e.high {
      e.high := false;
      e.base := e.base - (r.end - r.base);
      e.end := e.end - (r.end - r.base);
      e.layend := e.layend - (r.end - r.base);
    }
  }

  /** The list from position pos on, a boundary entry, and the list up to pos. */
  ghost function Turned(nodes: seq<Entry>, pos: nat, fake: Entry): (now: seq<Entry>)
    requires 0 < pos < |nodes|
    ensures |now| == |nodes| + 1
  {
    seq(|nodes| + 1, i requires 0 <= i <= |nodes| => TurnedAt(nodes, pos, fake, i))
  }

  ghost function TurnedAt(nodes: seq<Entry>, pos: nat, fake: Entry, i: nat): Entry
    requires 0 < pos < |nodes| && i <= |nodes|
  {
    if i < |nodes| - pos then nodes[pos + i] else if i == |nodes| - pos then fake else nodes[i - (|nodes| - pos) - 1]
  }

  lemma TurnedMembers(nodes: seq<Entry>, pos: nat, fake: Entry)
    requires 0 < pos < |nodes|
    ensures forall n :: n in Turned(nodes, pos, fake) <==> n == fake || n in nodes
    ensures Distinct(nodes) && fake !in nodes ==> Distinct(Turned(nodes, pos, fake))
  {
    var now := Turned(nodes, pos, fake);
    forall n | n in nodes ensures n in now {
      var k :| 0 <= k < |nodes| && nodes[k] == n;
      assert now[if k < pos then |nodes| - pos + 1 + k else k - pos] == n;
    }
    assert now[|nodes| - pos] == fake;
  }

  /** The links once the list has been turned around position pos. */
  ghost predicate TurnedLinks(was: seq<Entry>, pos: nat, fake: Entry)
    requires 0 < pos < |was|
    reads was`prev, was`next, fake`prev, fake`next
  {
    && fake.next == was[0] && fake.prev == was[|was| - 1] && was[0].prev == fake
    && was[|was| - 1].next == fake && was[pos - 1].next == null
    && (forall j {:trigger was[j].next} :: 0 <= j < |was| - 1 && j != pos - 1 ==> was[j].next == was[j + 1])
    && (forall j {:trigger was[j].prev} :: 1 <= j < |was| ==> was[j].prev == was[j - 1])
  }

  lemma TurnedLinked(list: Entry?, was: seq<Entry>, pos: nat, fake: Entry)
    requires 0 < pos < |was| && Distinct(was) && fake !in was && list == was[pos] && TurnedLinks(was, pos, fake)
    ensures Linked(list, Turned(was, pos, fake))
  {
    var now, m := Turned(was, pos, fake), |was| - pos;
    TurnedMembers(was, pos, fake);
    forall i | 0 <= i < |now| - 1 ensures now[i].next == now[i + 1] {
      if i < m - 1 { assert was[pos + i].next == was[pos + i + 1]; }
      else if i > m { assert was[i - m - 1].next == was[i - m]; }
    }
    forall i | 1 <= i < |now| ensures now[i].prev == now[i - 1] {
      if i < m { assert was[pos + i].prev == was[pos + i - 1]; }
      else if i > m + 1 { assert was[i - m - 1].prev == was[i - m - 2]; }
    }
    LinkedIntro(list, now);
  }

  /** The link updates that make e the head, behind a boundary entry put after the old tail. */
  method TurnList(l: Layout, e: Entry, ghost pos: nat, fake: Entry)
    requires Linked(l.list, l.nodes) && 0 < pos < |l.nodes| && e == l.nodes[pos] && fake !in l.nodes
    modifies l`list, l.nodes`prev, l.nodes`next, fake`prev, fake`next
    ensures Linked(l.list, Turned(l.nodes, pos, fake))
  {
    ghost var was := l.nodes;
    Others(was, 0);
    Others(was, |was| - 1);
    Others(was, pos - 1);
    assert forall j :: 0 <= j < |was| ==> was[j] != fake;
    fake.prev := l.list.prev;
    fake.next := l.list;
    l.list.prev := fake;
    fake.prev.next := fake;
    l.list := e;
    e.prev.next := null;
    assert TurnedLinks(was, pos, fake);
    hide *;
    TurnedLinked(l.list, was, pos, fake);
  }

  /** The listed libraries as seen from a start: those below it, none of which it cuts, are moved up. */
  ghost predicate SeenFrom(was: seq<Entry>, orig: map<Entry, Range>, r: Region, start: int)
    reads was`base, was`end, was`layend, was`done, was`high
  {
    (forall n :: n in was ==> n in orig) && forall k :: 0 <= k < |was| ==> SeenAt(was[k], orig[was[k]], r, start)
  }

  ghost predicate SeenAt(n: Entry, w: Range, r: Region, start: int)
    reads n`base, n`end, n`layend, n`done, n`high
  {
    && At(n, w, Span(r)) && w.base <= w.end <= w.layend && !w.high
    && if start == r.base then !n.high
       else
         r.base <= w.base && if n.high then w.layend <= start && w.base < start else start <= w.base
  }

  lemma SortedOneSide(was: seq<Entry>, orig: map<Entry, Range>, r: Region, high: bool)
    requires SortedBefore(was, orig)
    requires forall k :: 0 <= k < |was| ==> At(was[k], orig[was[k]], Span(r)) && was[k].high == high
    ensures Sorted(was)
  {
    forall i, j | 0 <= i < j < |was| ensures was[i].base <= was[j].base {
      assert orig[was[i]].base <= orig[was[j]].base;
    }
  }

  lemma SortedTurned(was: seq<Entry>, orig: map<Entry, Range>, r: Region, start: int, pos: nat, fake: Entry)
    requires SortedBefore(was, orig) && 0 < pos < |was| && SeenFrom(was, orig, r, start) && start != r.base
    requires (forall k :: 0 <= k < |was| ==> was[k].high == (k < pos)) && HeadAlone(was, orig, r)
    requires fake.base == r.end
    ensures Sorted(Turned(was, pos, fake))
  {
    var now := Turned(was, pos, fake);
    forall i, j | 0 <= i < j < |now| ensures now[i].base <= now[j].base {
      TurnedBase(was, orig, r, start, pos, fake, i);
      TurnedBase(was, orig, r, start, pos, fake, j);
    }
  }

  /** Where each entry of the turned list stands relative to the end of the region. */
  lemma TurnedBase(was: seq<Entry>, orig: map<Entry, Range>, r: Region, start: int, pos: nat, fake: Entry, i: nat)
    requires SortedBefore(was, orig) && 0 < pos < |was| && SeenFrom(was, orig, r, start) && start != r.base
    requires (forall k :: 0 <= k < |was| ==> was[k].high == (k < pos)) && HeadAlone(was, orig, r)
    requires fake.base == r.end && i <= |was|
    ensures var n := TurnedAt(was, pos, fake, i);
            if i < |was| - pos then n.base == orig[was[pos + i]].base <= r.end
            else if i == |was| - pos then n.base == r.end
            else n.base == orig[was[i - (|was| - pos) - 1]].base + Span(r) >= r.end
  {
    if i < |was| - pos { assert SeenAt(was[pos + i], orig[was[pos + i]], r, start); }
    else if i > |was| - pos {
      assert SeenAt(was[i - (|was| - pos) - 1], orig[was[i - (|was| - pos) - 1]], r, start);
    }
  }

  lemma BeforeRotate(l: Layout, orig: map<Entry, Range>, r: Region)
    requires l.Valid() && forall n :: n in l.nodes ==> n in orig && Kept(n, orig[n]) && InReach(orig[n], r)
    ensures Linked(l.list, l.nodes) && SortedBefore(l.nodes, orig)
    ensures forall n :: n in l.nodes ==> n in orig && At(n, orig[n], Span(r)) && !n.high
    ensures SeenFrom(l.nodes, orig, r, r.base)
  {
    forall i, j | 0 <= i < j < |l.nodes| ensures orig[l.nodes[i]].base <= orig[l.nodes[j]].base {
      assert l.nodes[i] in l.nodes && l.nodes[j] in l.nodes;
    }
    forall k | 0 <= k < |l.nodes| ensures SeenAt(l.nodes[k], orig[l.nodes[k]], r, r.base) {
      assert l.nodes[k] in l.nodes;
    }
  }

  lemma FrontParts(l: Layout, orig: map<Entry, Range>, r: Region, start: int, e: Entry?, pos: nat)
    requires (forall n :: n in l.nodes ==> n in orig) && FrontLoop(l.list, l.nodes, e, pos, orig, r, start)
    ensures Linked(l.list, l.nodes) && pos <= |l.nodes| && (if pos == |l.nodes| then e == null else e == l.nodes[pos])
    ensures forall k :: 0 <= k < |l.nodes| ==> At(l.nodes[k], orig[l.nodes[k]], Span(r)) && l.nodes[k].high == (k < pos)
    ensures (e == l.list && l.list != null) ==> pos == 0
    ensures start >= r.start
    ensures (e != null ==> e.base >= start) ==> FrontFrom(l.nodes, orig, r.page, 0, r.start) == Front(pos, start)
  {
    FrontBounds(l.nodes, orig, r.page, 0, r.start);
    FrontBounds(l.nodes, orig, r.page, pos, start);
    if e != null { assert At(e, orig[e], Span(r)) && !e.high; }
  }

  lemma FrontSeen(l: Layout, orig: map<Entry, Range>, r: Region, start: int, e: Entry?, pos: nat)
    requires SortedBefore(l.nodes, orig) && FrontLoop(l.list, l.nodes, e, pos, orig, r, start)
    requires (forall n :: n in l.nodes ==> InReach(orig[n], r)) && r.base < r.start
    requires e != null ==> e.base >= start
    ensures SeenFrom(l.nodes, orig, r, start)
  {
    if pos < |l.nodes| { assert At(l.nodes[pos], orig[l.nodes[pos]], Span(r)); }
    forall k | 0 <= k < |l.nodes| ensures SeenAt(l.nodes[k], orig[l.nodes[k]], r, start) {
      assert l.nodes[k] in l.nodes;
      if k >= pos { assert orig[l.nodes[pos]].base <= orig[l.nodes[k]].base; }
    }
  }

  /** Turn the list once the front has been moved up. */
  method TurnRotated(l: Layout, e: Entry, ghost pos: nat, fake: Entry, ghost orig: map<Entry, Range>, r: Region,
                     ghost start: int)
    requires Linked(l.list, l.nodes) && 0 < pos < |l.nodes| && e == l.nodes[pos] && fake !in l.nodes
    requires (forall n :: n in l.nodes ==> n in orig) && SeenFrom(l.nodes, orig, r, start)
    requires Sorted(Turned(l.nodes, pos, fake))
    modifies l, l.nodes`prev, l.nodes`next, fake`prev, fake`next
    ensures l.Valid() && l.nodes == Turned(old(l.nodes), pos, fake)
    ensures SeenFrom(old(l.nodes), orig, r, start)
  {
    hide Turned, SeenFrom, Linked, Sorted;
    ghost var now := Turned(l.nodes, pos, fake);
    TurnList(l, e, pos, fake);
    SortedKept(now);
    l.nodes := now;
  }

  /** What moving the front does to the list: nothing but a turn around the boundary entry, which is
      there whenever libraries are left on both sides of the end of the region. */
  ghost predicate Rearranged(was: seq<Entry>, now: seq<Entry>, fake: Entry, faked: bool)
    reads was`high
  {
    if faked then exists pos :: 0 < pos < |was| && now == Turned(was, pos, fake)
    else now == was && ((forall n :: n in was ==> n.high) || (forall n :: n in was ==> !n.high))
  }

  lemma RearrangedMembers(was: seq<Entry>, now: seq<Entry>, fake: Entry, faked: bool)
    requires Rearranged(was, now, fake, faked)
    ensures forall n :: n in now ==> n in was || (n == fake && faked)
    ensures forall n :: n in was ==> n in now
    ensures fake !in was ==> (faked <==> fake in now)
  {
    if faked {
      var pos :| 0 < pos < |was| && now == Turned(was, pos, fake);
      TurnedMembers(was, pos, fake);
    }
  }

  /** The front has been moved up: turn the list around unless it is all on one side. */
  method TurnOrKeep(l: Layout, e: Entry?, ghost pos: nat, fake: Entry, ghost orig: map<Entry, Range>, r: Region,
                    ghost start: int) returns (faked: bool)
    requires Linked(l.list, l.nodes) && l.list != null && SortedBefore(l.nodes, orig)
    requires pos <= |l.nodes| && (if pos == |l.nodes| then e == null else e == l.nodes[pos])
    requires fake !in l.nodes && fake.base == r.end && SeenFrom(l.nodes, orig, r, start) && start != r.base
    requires (forall k :: 0 <= k < |l.nodes| ==> l.nodes[k].high == (k < pos)) && HeadAlone(l.nodes, orig, r)
    modifies l, l.nodes`prev, l.nodes`next, fake`prev, fake`next
    ensures l.Valid() && SeenFrom(old(l.nodes), orig, r, start) && Rearranged(old(l.nodes), l.nodes, fake, faked)
    ensures faked <==> 0 < pos < |old(l.nodes)|
  {
    if e != null && e != l.list {
      SortedTurned(l.nodes, orig, r, start, pos, fake);
      TurnRotated(l, e, pos, fake, orig, r, start);
      faked := true;
    } else {
      SortedOneSide(l.nodes, orig, r, e == null);
      faked := false;
    }
  }

  /** Move the libraries below the start up by one region and put them last, behind a boundary entry.
      If the start must be raised past the end of the region, put everything back and start at its base. */
  method RotateList(l: Layout, r: Region, fake: Entry, ghost orig: map<Entry, Range>) returns (start: int, faked: bool)
    requires l.Valid() && l.list != null && fake !in l.nodes && fake.base == r.end && r.base < r.start
    requires (forall n :: n in l.nodes ==> n in orig && Kept(n, orig[n]) && InReach(orig[n], r))
             && HeadAlone(l.nodes, orig, r)
    modifies l, l.nodes`base, l.nodes`end, l.nodes`layend, l.nodes`high, l.nodes`prev, l.nodes`next, fake`prev,
             fake`next
    ensures l.Valid() && SeenFrom(old(l.nodes), orig, r, start) && Rearranged(old(l.nodes), l.nodes, fake, faked)
    ensures start == LineFrom(old(l.nodes), orig, r).start && faked == EndListed(old(l.nodes), orig, r)
  {
    BeforeRotate(l, orig, r);
    hide *;
    var e;
    ghost var pos;
    start, e, pos := MoveFront(l, r, orig);
    FrontParts(l, orig, r, start, e, pos);
    LineFromList(l, orig, r, pos, start);
    start, faked := TurnOrCancel(l, r, start, e, pos, fake, orig);
  }

  /** The start and the boundary entry in terms of what the loop comes to. */
  lemma LineFromList(l: Layout, orig: map<Entry, Range>, r: Region, pos: nat, start: int)
    requires (forall n :: n in l.nodes ==> n in orig) && l.list != null && Linked(l.list, l.nodes) && r.base < r.start
    requires FrontFrom(l.nodes, orig, r.page, 0, r.start) == Front(pos, start)
    ensures LineFrom(l.nodes, orig, r).start == if start < r.end then start else r.base
    ensures EndListed(l.nodes, orig, r) <==> start < r.end && 0 < pos < |l.nodes|
  {
    hide FrontFrom;
  }

  /** With the front moved up, turn the list around, or move everything back if the start has left the region. */
  method TurnOrCancel(l: Layout, r: Region, raised: int, e: Entry?, ghost pos: nat, fake: Entry,
                      ghost orig: map<Entry, Range>)
    returns (start: int, faked: bool)
    requires Linked(l.list, l.nodes) && l.list != null && SortedBefore(l.nodes, orig) && r.base < r.start <= raised
    requires FrontLoop(l.list, l.nodes, e, pos, orig, r, raised) && (e != null ==> e.base >= raised)
    requires fake !in l.nodes && fake.base == r.end
    requires (forall n :: n in l.nodes ==> InReach(orig[n], r)) && HeadAlone(l.nodes, orig, r)
    modifies l, l.nodes`base, l.nodes`end, l.nodes`layend, l.nodes`high, l.nodes`prev, l.nodes`next, fake`prev,
             fake`next
    ensures l.Valid() && SeenFrom(old(l.nodes), orig, r, start) && Rearranged(old(l.nodes), l.nodes, fake, faked)
    ensures start == if raised < r.end then raised else r.base
    ensures faked <==> raised < r.end && 0 < pos < |old(l.nodes)|
  {
    FrontParts(l, orig, r, raised, e, pos);
    hide *;
    start, faked := raised, false;
    if raised < r.end {
      FrontSeen(l, orig, r, start, e, pos);
      faked := TurnOrKeep(l, e, pos, fake, orig, r, start);
    } else {
      start := r.base;
      CancelMove(l, r, orig, fake);
    }
  }

  method CancelMove(l: Layout, r: Region, ghost orig: map<Entry, Range>, ghost fake: Entry)
    requires Linked(l.list, l.nodes) && SortedBefore(l.nodes, orig) && forall n :: n in l.nodes ==> InReach(orig[n], r)
    requires forall k :: 0 <= k < |l.nodes| ==> At(l.nodes[k], orig[l.nodes[k]], Span(r))
    modifies l.nodes`base, l.nodes`end, l.nodes`layend, l.nodes`high
    ensures l.Valid() && SeenFrom(l.nodes, orig, r, r.base) && Rearranged(l.nodes, l.nodes, fake, false)
  {
    MoveBack(l, r, orig);
    SortedOneSide(l.nodes, orig, r, false);
    BackIntro(l, orig, r, fake);
  }

  lemma BackIntro(l: Layout, orig: map<Entry, Range>, r: Region, fake: Entry)
    requires Linked(l.list, l.nodes) && Sorted(l.nodes) && forall n :: n in l.nodes ==> n in orig && InReach(orig[n], r)
    requires forall k :: 0 <= k < |l.nodes| ==> At(l.nodes[k], orig[l.nodes[k]], Span(r)) && !l.nodes[k].high
    ensures l.Valid() && SeenFrom(l.nodes, orig, r, r.base) && Rearranged(l.nodes, l.nodes, fake, false)
  {
    forall k | 0 <= k < |l.nodes| ensures SeenAt(l.nodes[k], orig[l.nodes[k]], r, r.base) {
      assert l.nodes[k] in l.nodes;
    }
  }

  /** The search may go one region past the start. */
  predicate FinOk(r: Region) {
    r.fin == if r.start != r.base then r.end + (r.start - r.base) else r.end
  }

  /** Lines 442-494: make the search line start at r.start. */
  method Rotate(l: Layout, r: Region, fake: Entry, ghost orig: map<Entry, Range>) returns (r2: Region, faked: bool)
    requires l.Valid() && fake !in l.nodes && fake.base == r.end && r.base <= r.start <= r.end && r.fin == r.end
    requires (forall n :: n in l.nodes ==> n in orig && Kept(n, orig[n]) && InReach(orig[n], r))
    requires r.start != r.base ==> HeadAlone(l.nodes, orig, r)
    modifies l, l.nodes`base, l.nodes`end, l.nodes`layend, l.nodes`high, l.nodes`prev, l.nodes`next, fake`prev,
             fake`next
    ensures l.Valid() && Rearranged(old(l.nodes), l.nodes, fake, faked) && SeenFrom(old(l.nodes), orig, r, r2.start)
    ensures r2 == LineFrom(old(l.nodes), orig, r) && faked == EndListed(old(l.nodes), orig, r)
  {
    BeforeRotate(l, orig, r);
    BackIntro(l, orig, r, fake);
    NothingMoved(l.nodes, orig, r);
    hide FrontFrom, EndListed;
    var start := r.start;
    faked := false;
    if start != r.base && l.list != null {
      start, faked := RotateList(l, r, fake, orig);
    }
    var fin := if start != r.base then r.end + (start - r.base) else r.fin;
    r2 := Region(r.base, start, r.end, fin, r.page);
  }

  lemma NothingMoved(nodes: seq<Entry>, orig: map<Entry, Range>, r: Region)
    requires forall n :: n in nodes ==> n in orig
    ensures r.start == r.base || nodes == [] ==> LineFrom(nodes, orig, r).start == r.start && !EndListed(nodes, orig, r)
  {
  }

  /** n has been moved back: its range starts and ends where it should, though layend is not adjusted. */
  ghost predicate Back(n: Entry, w: Range, span: int)
    reads n`base, n`end, n`layend, n`done, n`high
  {
    var d := if w.high then span else 0;
    n.base == w.base - d && n.end == w.end - d && n.layend == w.layend && n.done == w.done && !n.high
  }

  /** Lines 606-614: move everything back that was moved up or placed above the region. The source
      subtracts zero from layend here. */
  method Unrotate(l: Layout, r: Region, ghost mid: map<Entry, Range>)
    requires Linked(l.list, l.nodes) && forall n :: n in l.nodes ==> n in mid && Kept(n, mid[n])
    modifies l.nodes`base, l.nodes`end, l.nodes`high
    ensures forall n :: n in l.nodes ==> Back(n, mid[n], Span(r))
  {
    var e := l.list;
    ghost var pos, nodes := 0, l.nodes;
    while e != null
      invariant pos <= |nodes| && (if pos == |nodes| then e == null else e == nodes[pos])
      invariant forall k :: 0 <= k < |nodes| ==>
                  if k < pos then Back(nodes[k], mid[nodes[k]], Span(r)) else Kept(nodes[k], mid[nodes[k]])
      decreases |nodes| - pos
    {
      Others(nodes, pos);
      UnrotateOne(e, r, mid[e]);
      e := e.next;
      pos := pos + 1;
    }
  }

  method UnrotateOne(e: Entry, r: Region, ghost w: Range)
    requires Kept(e, w)
    modifies e`base, e`end, e`high
    ensures Back(e, w, Span(r))
  {
    if e.high {
      e.high := false;
      e.base := e.base - (r.end - r.base);
      e.end := e.end - (r.end - r.base);
    }
  }

  /** Which part of the line a listed library takes: what was moved up ends by the (moved) start, the
      rest begins at the start or later. */
  predicate OnItsSide(w: Range, r: Region, start: int) {
    && w.base <= w.end <= w.layend
    && if start == r.base then !w.high
       else if w.high then r.end <= w.base && w.layend <= start + Span(r) else start <= w.base
  }

  predicate Apart(x: Range, y: Range) {
    x.layend <= y.base || y.layend <= x.base
  }

  /** x and y keep off each other, with the room that wx and wy have behind them. */
  ghost predicate KeepOff(x: Entry, wx: Range, y: Entry, wy: Range)
    reads x`base, y`base
  {
    x.base + (wx.layend - wx.base) <= y.base || y.base + (wy.layend - wy.base) <= x.base
  }

  /** Two libraries that keep clear of each other on the line have disjoint address ranges at the end, with the room
      behind them; two on different sides of the start have anyway. */
  lemma DisjointAtTheEnd(x: Entry, y: Entry, wx: Range, wy: Range, r: Region, start: int)
    requires Back(x, wx, Span(r)) && Back(y, wy, Span(r))
    requires OnItsSide(wx, r, start) && OnItsSide(wy, r, start)
    requires wx.high == wy.high ==> Apart(wx, wy)
    ensures KeepOff(x, wx, y, wy) && (x.end <= y.base || y.end <= x.base)
  {
  }

  /** A library placed on the line is on its side, too. */
  lemma PlacedOnItsSide(x: Entry, w: Range, now: Range, was: seq<Entry>, snap: map<Entry, Range>, r: Region,
                        rotated: bool)
    requires x in snap && (forall n :: n in was ==> n in snap) && w == snap[x] && Kept(x, now)
    requires PlacedAs(x, was, snap, r, rotated) && w.base <= w.end <= w.layend
    requires r.base <= r.start && rotated == (r.start != r.base) && (rotated ==> r.fin == r.start + Span(r))
    requires rotated ==> forall n :: n in was ==> snap[n].base <= r.start + Span(r)
    ensures OnItsSide(now, r, r.start)
  {
  }

  /** With a random start: no listed library begins past the limit of the search. Only the head of the list could. */
  ghost predicate HeadNear(was: seq<Entry>, orig: map<Entry, Range>, line: Region) {
    line.start != line.base ==>
      forall n :: n in was && n in orig ==> orig[n].base <= line.end + (line.start - line.base)
  }

  /** The state of the list before moving back, as values: listed libraries on their sides, old ones a whole
      region from their place or at it, new ones clear of whatever they are related to. */
  ghost predicate Line(nodes: seq<Entry>, was: seq<Entry>, placed: set<Entry>, fake: Entry, c: Criteria, r: Region,
                       orig: map<Entry, Range>, mid: map<Entry, Range>)
  {
    && (forall n :: n in nodes ==> n in mid)
    && (forall n :: n in nodes && n != fake ==> n in was || n in placed)
    && (HeadNear(was, orig, r) ==> forall n :: n in nodes && n in placed ==> OnItsSide(mid[n], r, r.start))
    && (forall x, y :: x in nodes && y in nodes && x != y && (x in placed || y in placed) && c.Related(x, y) ==>
          Apart(mid[x], mid[y]))
    && (forall n :: n in was ==>
          n in nodes && n in orig && OnItsSide(mid[n], r, r.start) && Shifted(mid[n], orig[n], Span(r)))
    && (forall x :: x in placed ==> x in nodes && x in orig && NewOnLine(mid[x], orig[x], nodes, placed, r, mid))
    && (fake in nodes ==> r.start != r.base && fake in c.fake && mid[fake].base == mid[fake].layend == r.end)
  }

  /** A new place on the line: of the right size, from the start of the search on, and ending by its limit or in
      front of an entry that was there. */
  ghost predicate NewOnLine(m: Range, w: Range, nodes: seq<Entry>, placed: set<Entry>, r: Region,
                            mid: map<Entry, Range>)
  {
    && m.end - m.base == w.end - w.base && m.layend - m.base == w.layend - w.base > 0 && m.base >= r.start
    && m.high == (r.start != r.base && m.base >= r.end) && m.done == 1 && Aligned(m.base, r.page)
    && (m.layend <= r.fin || exists n :: n in nodes && n !in placed && n in mid && m.layend <= mid[n].base)
  }

  predicate Shifted(m: Range, w: Range, span: int) {
    var d := if m.high then span else 0;
    m.base == w.base + d && m.end == w.end + d && m.layend == w.layend + d && m.done == w.done
  }

  /** The layout of the rotated line, put as values. snap holds the rotated places, mid the places now. */
  lemma LineIntro(all: set<Entry>, was: seq<Entry>, listed: seq<Entry>, nodes: seq<Entry>, placed: set<Entry>,
                  fake: Entry,
                  c: Criteria, r: Region, orig: map<Entry, Range>, snap: map<Entry, Range>, mid: map<Entry, Range>)
    requires all <= snap.Keys && all <= mid.Keys && all <= orig.Keys + {fake} && fake in all && fake !in was
             && fake !in placed
    requires (forall n :: n in listed ==> n in all) && (forall n :: n in all ==> Kept(n, mid[n]))
    requires forall n :: n in listed ==> n in was || n == fake
    requires forall n :: n in was ==> n in listed
    requires LaidOut(all, listed, nodes, placed, snap, c, r, r.start != r.base)
    requires r.base <= r.start <= r.end && (r.start != r.base ==> r.fin == r.start + Span(r))
    requires forall n :: n in was ==> n in orig && OnItsSide(snap[n], r, r.start) && Shifted(snap[n], orig[n], Span(r))
    requires snap[fake].base == snap[fake].layend == r.end && (fake in listed ==> r.start != r.base && fake in c.fake)
    requires forall x :: x in placed ==> x in orig && snap[x] == orig[x] && orig[x].base <= orig[x].end < orig[x].layend
    ensures Line(nodes, was, placed, fake, c, r, orig, mid)
  {
    forall n | n in nodes && n in placed && HeadNear(was, orig, r) ensures OnItsSide(mid[n], r, r.start) {
      NearOnLine(was, listed, fake, r, orig, snap);
      PlacedOnItsSide(n, snap[n], mid[n], listed, snap, r, r.start != r.base);
    }
    forall x, y | x in nodes && y in nodes && x != y && (x in placed || y in placed) && c.Related(x, y)
      ensures Apart(mid[x], mid[y])
    {
      StillClear(all, listed, nodes, placed, snap, c, r, r.start != r.base, x, y);
    }
    forall n | n in was ensures OnItsSide(mid[n], r, r.start) && Shifted(mid[n], orig[n], Span(r)) {
      assert Kept(n, snap[n]);
    }
    forall x | x in placed ensures NewOnLine(mid[x], orig[x], nodes, placed, r, mid) {
      NewPlaced(all, listed, nodes, placed, c, r, snap, mid, x);
    }
  }

  lemma NearOnLine(was: seq<Entry>, listed: seq<Entry>, fake: Entry, r: Region, orig: map<Entry, Range>,
                   snap: map<Entry, Range>)
    requires HeadNear(was, orig, r) && fake in snap && snap[fake].base == r.end && r.base <= r.start
    requires forall n :: n in listed ==> n in was || n == fake
    requires forall n :: n in was ==>
               n in orig && n in snap && OnItsSide(snap[n], r, r.start) && Shifted(snap[n], orig[n], Span(r))
    ensures r.start != r.base ==> forall n :: n in listed ==> snap[n].base <= r.start + Span(r)
  {
  }

  lemma NewPlaced(all: set<Entry>, listed: seq<Entry>, nodes: seq<Entry>, placed: set<Entry>, c: Criteria, r: Region,
                  snap: map<Entry, Range>, mid: map<Entry, Range>, x: Entry)
    requires all <= snap.Keys && all <= mid.Keys && (forall n :: n in listed ==> n in all)
    requires (forall n :: n in all ==> Kept(n, mid[n])) && x in placed
    requires LaidOut(all, listed, nodes, placed, snap, c, r, r.start != r.base)
    requires snap[x].base < snap[x].layend
    ensures NewOnLine(mid[x], snap[x], nodes, placed, r, mid)
  {
    assert x in nodes && x in all && PlacedAs(x, listed, snap, r, r.start != r.base);
    if x.layend > r.fin {
      var n :| n in listed && x.layend <= snap[n].base;
      assert n in nodes && n !in placed && Kept(n, snap[n]) && Kept(n, mid[n]);
    }
  }

  /** Facts about the rotated line, as values: everything on its side and a whole region from its place or at it. */
  lemma SeenValues(was: seq<Entry>, r: Region, start: int, orig: map<Entry, Range>, snap: map<Entry, Range>)
    requires forall n :: n in was ==> n in orig && n in snap && Kept(n, snap[n])
    requires SeenFrom(was, orig, r, start) && r.base <= start <= r.end
    ensures forall n :: n in was ==> OnItsSide(snap[n], r, start) && Shifted(snap[n], orig[n], Span(r))
  {
    forall n | n in was ensures SeenAt(n, orig[n], r, start) {
      var k :| 0 <= k < |was| && was[k] == n;
    }
  }

  lemma SeenAligned(was: seq<Entry>, listed: seq<Entry>, fake: Entry, r: Region, start: int, orig: map<Entry, Range>)
    requires (forall n :: n in was ==> n in orig && Aligned(orig[n].layend, r.page)) && SeenFrom(was, orig, r, start)
    requires (forall n :: n in listed ==> n in was || n == fake) && fake.layend == r.end
    requires Aligned(Span(r), r.page) && Aligned(r.end, r.page)
    ensures forall n :: n in listed ==> Aligned(n.layend, r.page)
  {
    forall n | n in listed ensures Aligned(n.layend, r.page) {
      if n in was {
        var k :| 0 <= k < |was| && was[k] == n;
        assert SeenAt(was[k], orig[n], r, start);
        if n.high { AlignedSum(orig[n].layend, Span(r), r.page); }
      }
    }
  }

  /** The libraries that have a range: where BuildList lists them from, on whole pages. */
  ghost predicate Settled(l: Layout, r: Region, orig: map<Entry, Range>)
    reads l, l.nodes
  {
    && l.Valid()
    && (forall n :: n in l.nodes ==>
      n in orig && Kept(n, orig[n]) && InReach(orig[n], r) && Aligned(orig[n].layend, r.page))
    && (r.start != r.base ==> HeadAlone(l.nodes, orig, r))
  }

  /** Libraries still to be laid out: not listed, of a proper size in whole pages. */
  ghost predicate Waiting(l: Layout, libs: seq<Entry>, r: Region, orig: map<Entry, Range>)
    reads l, libs
  {
    && (forall x :: x in libs ==> x in orig && Kept(x, orig[x]))
    && (forall x :: x in libs && x.done == 0 ==> x !in l.nodes && x.next == null)
    && (forall x :: x in libs && orig[x].done == 0 ==>
          orig[x].base <= orig[x].end < orig[x].layend && Aligned(orig[x].layend - orig[x].base, r.page))
  }

  predicate RegionOk(r: Region) {
    r.base <= r.start <= r.end && r.fin == r.end
  }

  ghost predicate RegionAligned(r: Region) {
    Aligned(r.base, r.page) && Aligned(r.start, r.page) && Aligned(r.end, r.page) && Aligned(Span(r), r.page)
  }

  /** What the placement needs of the rotated list, and what it may rely on for its values. */
  ghost predicate Ready(l: Layout, libs: seq<Entry>, was: seq<Entry>, fake: Entry, c: Criteria, r: Region,
                        all: set<Entry>, orig: map<Entry, Range>, snap: map<Entry, Range>)
    reads l, l.nodes, all, fake, libs
  {
    && l.Valid() && Distinct(libs) && c.Over(all) && NoFakes(libs, c)
    && all <= snap.Keys && (forall n :: n in all ==> Kept(n, snap[n]))
    && (forall n :: n in l.nodes ==> n in all && (n in libs || n in c.fake) && (n in was || n == fake))
    && (forall n :: n in was ==> n in l.nodes && n in orig)
    && (forall n :: n in libs ==> n in all)
    && (forall n :: n in c.fake ==> n.tmp == -1)
    && (forall x :: x in libs && x.done == 0 ==> x !in l.nodes && x.next == null)
    && Sized(libs, snap, r) && (forall n :: n in l.nodes ==> Aligned(n.layend, r.page))
  }

  ghost predicate Values(libs: seq<Entry>, was: seq<Entry>, listed: seq<Entry>, fake: Entry, c: Criteria, r: Region,
                         orig: map<Entry, Range>, snap: map<Entry, Range>)
  {
    && fake !in was && fake !in libs && fake in snap && snap[fake].base == snap[fake].layend == r.end
    && (fake in listed ==> r.start != r.base && fake in c.fake)
    && r.base <= r.start <= r.end && FinOk(r)
    && (forall n :: n in was ==>
      n in orig && n in snap && OnItsSide(snap[n], r, r.start) && Shifted(snap[n], orig[n], Span(r)))
    && (forall x :: x in libs ==> x in orig && x in snap && snap[x].done == orig[x].done)
    && (forall x :: x in libs && snap[x].done == 0 ==>
      snap[x] == orig[x] && orig[x].base <= orig[x].end < orig[x].layend)
  }

  /** The libraries to be laid out, as values. */
  ghost predicate Plan(libs: seq<Entry>, was: seq<Entry>, page: Page, orig: map<Entry, Range>) {
    && (forall x :: x in libs ==> x in orig)
    && (forall x :: x in libs && orig[x].done == 0 ==>
          x !in was && orig[x].base <= orig[x].end < orig[x].layend && Aligned(orig[x].layend - orig[x].base, page))
  }

  lemma PlanIntro(l: Layout, libs: seq<Entry>, r: Region, orig: map<Entry, Range>)
    requires Waiting(l, libs, r, orig)
    ensures Plan(libs, l.nodes, r.page, orig)
    ensures forall x :: x in libs && orig[x].done == 0 ==> x.next == null
  {
  }

  lemma SettledFacts(l: Layout, r: Region, orig: map<Entry, Range>)
    requires Settled(l, r, orig)
    ensures l.Valid()
    ensures forall n :: n in l.nodes ==>
              n in orig && Kept(n, orig[n]) && InReach(orig[n], r) && Aligned(orig[n].layend, r.page)
    ensures r.start != r.base ==> HeadAlone(l.nodes, orig, r)
  {
  }

  lemma ValuesIntro(libs: seq<Entry>, was: seq<Entry>, listed: seq<Entry>, fake: Entry, c: Criteria, r: Region,
                    orig: map<Entry, Range>, snap: map<Entry, Range>, all: set<Entry>)
    requires all + {fake} <= snap.Keys && fake !in all && (forall n :: n in all + {fake} ==> Kept(n, snap[n]))
    requires fake.base == fake.layend == r.end
    requires r.base <= r.start <= r.end && FinOk(r)
    requires (forall n :: n in was ==> n in orig && n in all) && SeenFrom(was, orig, r, r.start)
    requires (forall n :: n in listed ==> n in was || n == fake)
    requires fake in listed ==> r.start != r.base && fake in c.fake
    requires Plan(libs, was, r.page, orig) && (forall x :: x in libs ==> x in all)
    requires forall x :: x in all && x !in was ==> x in orig && Kept(x, orig[x])
    ensures Values(libs, was, listed, fake, c, r, orig, snap)
  {
    SeenValues(was, r, r.start, orig, snap);
    forall x | x in libs ensures x in orig && x in snap && snap[x].done == orig[x].done {
      if x in was { SeenDone(was, orig, r, r.start, x); }
    }
    forall x | x in libs && snap[x].done == 0
      ensures snap[x] == orig[x] && orig[x].base <= orig[x].end < orig[x].layend {
      if x in was { SeenDone(was, orig, r, r.start, x); }
    }
  }

  lemma SeenDone(was: seq<Entry>, orig: map<Entry, Range>, r: Region, start: int, x: Entry)
    requires (forall n :: n in was ==> n in orig) && SeenFrom(was, orig, r, start) && x in was
    ensures x.done == orig[x].done
  {
    var k :| 0 <= k < |was| && was[k] == x;
    assert SeenAt(was[k], orig[x], r, start);
  }

  lemma ReadyIntro(l: Layout, libs: seq<Entry>, was: seq<Entry>, fake: Entry, b: Criteria, c: Criteria, r: Region,
                   all: set<Entry>, orig: map<Entry, Range>, snap: map<Entry, Range>)
    requires l.Valid() && Distinct(libs) && b.Over(all) && fake !in all && fake.tmp == -1
    requires all + {fake} <= snap.Keys && (forall n :: n in all + {fake} ==> Kept(n, snap[n]))
    requires c == b.(fake := c.fake) && (forall n :: n in c.fake ==> n == fake)
    requires forall n :: n in l.nodes ==> n in was || (n == fake && n in c.fake)
    requires forall n :: n in was ==> n in l.nodes && n in orig && n in libs
    requires (forall x :: x in libs ==> x in all) && Plan(libs, was, r.page, orig)
    requires SeenFrom(was, orig, r, r.start) && fake.layend == r.end
    requires forall x :: x in all && x !in was ==> x in orig && Kept(x, orig[x])
    requires forall x :: x in libs && orig[x].done == 0 ==> x.next == null
    requires Aligned(r.start, r.page) && Aligned(r.end, r.page) && Aligned(Span(r), r.page)
    requires forall n :: n in was ==> Aligned(orig[n].layend, r.page)
    ensures Ready(l, libs, was, fake, c, r, all + {fake}, orig, snap)
  {
    SeenAligned(was, l.nodes, fake, r, r.start, orig);
    forall x | x in libs && x.done == 0
      ensures x !in l.nodes && x.next == null && orig[x].done == 0 && snap[x] == orig[x] {
      if x in was { SeenDone(was, orig, r, r.start, x); }
    }
  }

  function WithFake(b: Criteria, boundary: Entry, faked: bool): (c: Criteria)
    ensures c == b.(fake := c.fake) && (forall n :: n in c.fake ==> n == boundary) && (faked <==> boundary in c.fake)
  {
    b.(fake := if faked then [boundary] else [])
  }

  /** Rotate, with what it leaves alone spelled out. */
  method RotateAmong(l: Layout, r: Region, boundary: Entry, ghost all: set<Entry>, ghost orig: map<Entry, Range>)
    returns (r2: Region, faked: bool)
    requires l.Valid() && all <= orig.Keys && boundary !in all && boundary.base == r.end
    requires r.base <= r.start <= r.end && r.fin == r.end
    requires (forall n :: n in all ==> Kept(n, orig[n])) && forall n :: n in l.nodes ==> n in all && InReach(orig[n], r)
    requires r.start != r.base ==> HeadAlone(l.nodes, orig, r)
    modifies l, l.nodes`base, l.nodes`end, l.nodes`layend, l.nodes`high, l.nodes`prev, l.nodes`next, boundary`prev,
             boundary`next
    ensures l.Valid() && Rearranged(old(l.nodes), l.nodes, boundary, faked)
    ensures forall n :: n in all && n !in old(l.nodes) ==> Kept(n, orig[n]) && n.next == old(n.next)
    ensures (forall n :: n in old(l.nodes) ==> n in orig) && SeenFrom(old(l.nodes), orig, r, r2.start)
    ensures r2 == LineFrom(old(l.nodes), orig, r) && faked == EndListed(old(l.nodes), orig, r)
  {
    ghost var was := l.nodes;
    assert forall n :: n in was ==> n in orig && Kept(n, orig[n]) && InReach(orig[n], r);
    hide LineFrom, EndListed, SeenFrom, Rearranged, Linked, Sorted, InReach, Aligned, HeadAlone;
    r2, faked := Rotate(l, r, boundary, orig);
  }

  /** The region as seen from the start that is used: the one asked for or a later one, or the region's base. */
  ghost predicate LineOf(line: Region, r: Region) {
    && line.base == r.base && line.end == r.end && line.page == r.page && FinOk(line) && Span(line) == Span(r)
    && r.base <= line.start <= r.end && (line.start == r.base || r.base < r.start <= line.start)
  }

  /** Rotate the list and put its boundary entry among the entries every library must keep clear of. */
  method RotateStage(l: Layout, libs: seq<Entry>, b: Criteria, r: Region, boundary: Entry, ghost all: set<Entry>,
                     ghost orig: map<Entry, Range>) returns (r2: Region, c: Criteria, ghost snap: map<Entry, Range>)
    requires Settled(l, r, orig) && Waiting(l, libs, r, orig) && RegionOk(r) && RegionAligned(r)
    requires Distinct(libs) && b.fake == [] && b.Over(all) && forall n :: n in l.nodes ==> n in libs
    requires (forall n :: n in libs ==> n in all) && all <= orig.Keys && forall n :: n in all ==> Kept(n, orig[n])
    requires boundary !in all && boundary.base == boundary.layend == r.end && boundary.tmp == -1
    modifies l, l.nodes`base, l.nodes`end, l.nodes`layend, l.nodes`high, l.nodes`prev, l.nodes`next, boundary`prev,
             boundary`next
    ensures Ready(l, libs, old(l.nodes), boundary, c, r2, all + {boundary}, orig, snap)
    ensures Values(libs, old(l.nodes), l.nodes, boundary, c, r2, orig, snap)
    ensures (forall n :: n in old(l.nodes) ==> n in orig) && r2 == LineFrom(old(l.nodes), orig, r)
    ensures c == WithFake(b, boundary, EndListed(old(l.nodes), orig, r))
    ensures forall n :: n in l.nodes ==> n in old(l.nodes) || (n == boundary && EndListed(old(l.nodes), orig, r))
    ensures EndListed(old(l.nodes), orig, r) ==> boundary in l.nodes
    ensures forall n :: n in all && n !in old(l.nodes) ==> n in snap && snap[n] == orig[n]
    ensures forall n :: n in old(l.nodes) ==> n in l.nodes
  {
    hide *;
    ghost var was, everything := l.nodes, all + {boundary};
    PlanIntro(l, libs, r, orig);
    SettledFacts(l, r, orig);
    RegionFacts(r);
    var faked;
    r2, faked := RotateAmong(l, r, boundary, all, orig);
    RearrangedMembers(was, l.nodes, boundary, faked);
    LineFromFacts(was, r, orig);
    LineOfFacts(r2, r);
    SeenOnLine(was, r, r2, orig);
    snap := Snapshot(everything);
    c := WithFake(b, boundary, faked);
    SnapshotKept(everything);
    ValuesIntro(libs, was, l.nodes, boundary, c, r2, orig, snap, all);
    ReadyIntro(l, libs, was, boundary, b, c, r2, all, orig, snap);
    SameRange(all, was, orig, snap);
  }

  lemma SameRange(all: set<Entry>, was: seq<Entry>, orig: map<Entry, Range>, snap: map<Entry, Range>)
    requires forall n :: n in all && n !in was ==> n in orig && n in snap && Kept(n, orig[n]) && Kept(n, snap[n])
    ensures forall n :: n in all && n !in was ==> snap[n] == orig[n]
  {
  }

  lemma RegionFacts(r: Region)
    requires RegionOk(r) && RegionAligned(r)
    ensures r.base <= r.start <= r.end && r.fin == r.end
    ensures Aligned(r.base, r.page) && Aligned(r.start, r.page) && Aligned(r.end, r.page) && Aligned(Span(r), r.page)
  {
  }

  lemma LineFromFacts(was: seq<Entry>, r: Region, orig: map<Entry, Range>)
    requires (forall n :: n in was ==> n in orig) && RegionOk(r)
    requires Aligned(r.base, r.page) && Aligned(r.start, r.page)
    ensures var line := LineFrom(was, orig, r);
            && LineOf(line, r) && Aligned(line.start, line.page)
            && (EndListed(was, orig, r) ==> line.start != line.base)
  {
    FrontBounds(was, orig, r.page, 0, r.start);
    hide FrontFrom;
  }

  lemma SeenOnLine(was: seq<Entry>, r: Region, line: Region, orig: map<Entry, Range>)
    requires SeenFrom(was, orig, r, line.start) && LineOf(line, r)
    ensures SeenFrom(was, orig, line, line.start)
  {
    forall k | 0 <= k < |was| ensures SeenAt(was[k], orig[was[k]], line, line.start) {
      assert SeenAt(was[k], orig[was[k]], r, line.start);
    }
  }

  /** Only the members of the list matter. */
  lemma FirstFitsOn(libs: seq<Entry>, i: nat, was: seq<Entry>, listed: seq<Entry>, snap: map<Entry, Range>,
                    orig: map<Entry, Range>, c: Criteria, start: int, mid: map<Entry, Range>)
    requires i <= |libs| && forall x :: x in libs ==> x in snap && x in orig && snap[x].done == orig[x].done
    requires (forall n :: n in listed ==> n in was || n in c.fake) && FirstFits(libs, i, listed, snap, c, start, mid)
    ensures FirstFits(libs, i, was + c.fake, orig, c, start, mid)
  {
    forall j, b | 0 <= j < i && orig[libs[j]].done == 0 && libs[j] in mid && start <= b < mid[libs[j]].base
      ensures HinderedAt(libs[j], b, was + c.fake, Undone(libs, j, orig), c, mid)
    {
      UndoneSame(libs, j, snap, orig);
      assert HinderedAt(libs[j], b, listed, Undone(libs, j, snap), c, mid);
    }
  }

  /** The libraries before position i have been laid out, and there is no room for the one there. */
  ghost predicate HaltedOn(nodes: seq<Entry>, libs: seq<Entry>, i: nat, was: seq<Entry>, fake: Entry, c: Criteria,
                           r: Region,
                           orig: map<Entry, Range>, mid: map<Entry, Range>)
    requires i < |libs| && forall x :: x in libs ==> x in orig
    reads nodes`base, nodes`layend
  {
    && Line(nodes, was, Undone(libs, i, orig), fake, c, r, orig, mid)
    && FirstFits(libs, i, was + c.fake, orig, c, r.start, mid)
    && orig[libs[i]].done == 0 && Stuck(nodes, libs[i], c, orig[libs[i]].layend - orig[libs[i]].base, r)
  }

  lemma {:induction false} UndoneSame(libs: seq<Entry>, i: nat, snap: map<Entry, Range>, orig: map<Entry, Range>)
    requires i <= |libs| && forall x :: x in libs ==> x in snap && x in orig && snap[x].done == orig[x].done
    ensures Undone(libs, i, snap) == Undone(libs, i, orig)
  {
    if i > 0 {
      UndoneSame(libs, i - 1, snap, orig);
      assert libs[i - 1] in libs;
    }
  }

  /** Place every waiting library on the rotated line, or stop at one for which there is no room. */
  method PlaceStage(l: Layout, libs: seq<Entry>, c: Criteria, r: Region, ghost was: seq<Entry>, ghost fake: Entry,
                    ghost all: set<Entry>, ghost orig: map<Entry, Range>, ghost snap: map<Entry, Range>)
    returns (ok: bool, ghost mid: map<Entry, Range>)
    requires Ready(l, libs, was, fake, c, r, all, orig, snap) && Values(libs, was, l.nodes, fake, c, r, orig, snap)
    requires fake in all && all <= orig.Keys + {fake} && forall x :: x in libs ==> x in orig
    modifies l, all`base, all`end, all`layend, all`done, all`high, all`tmp, all`prev, all`next
    ensures Linked(l.list, l.nodes) && SortedBefore(l.nodes, mid)
    ensures fake in l.nodes ==> fake in c.fake
    ensures forall n :: n in l.nodes ==> n in all && n in mid && Kept(n, mid[n])
    ensures ok ==> Line(l.nodes, was, Undone(libs, |libs|, orig), fake, c, r, orig, mid)
    ensures ok ==> FirstFits(libs, |libs|, was + c.fake, orig, c, r.start, mid)
    ensures !ok ==> l.Valid()
    ensures !ok ==> exists i :: 0 <= i < |libs| && HaltedOn(l.nodes, libs, i, was, fake, c, r, orig, mid)
    ensures (forall n :: n in old(l.nodes) ==> n in l.nodes) && forall n :: n in all && n !in l.nodes ==>
              n in snap && Kept(n, snap[n])
  {
    ghost var listed := l.nodes;
    ReadyFacts(l, libs, was, fake, c, r, all, orig, snap);
    ValuesFacts(libs, was, l.nodes, fake, c, r, orig, snap);
    hide *;
    ok := l.PlaceAll(libs, c, r, r.start != r.base, all, snap);
    mid := Snapshot(all);
    SnapshotKept(all);
    if ok {
      LineThen(all, was, listed, l.nodes, libs, |libs|, fake, c, r, orig, snap, mid);
      FirstFitsOn(libs, |libs|, was, listed, snap, orig, c, r.start, mid);
      ValidLinked(l, mid);
    } else {
      ghost var i :| 0 <= i < |libs| && l.Halted(libs, i, c, r, r.start != r.base, all, listed, snap);
      HaltedFacts(l, libs, i, c, r, r.start != r.base, all, listed, snap);
      LineThen(all, was, listed, l.nodes, libs, i, fake, c, r, orig, snap, mid);
      FirstFitsOn(libs, i, was, listed, snap, orig, c, r.start, mid);
      ValidLinked(l, mid);
      HaltedOnIntro(l.nodes, libs, i, was, fake, c, r, orig, snap, mid);
    }
  }

  lemma HaltedFacts(l: Layout, libs: seq<Entry>, i: nat, c: Criteria, r: Region, rotated: bool, all: set<Entry>,
                    was: seq<Entry>, snap: map<Entry, Range>)
    requires all <= snap.Keys && i < |libs|
    requires (forall n :: n in libs ==> n in all) && forall n :: n in was ==> n in all
    requires l.Halted(libs, i, c, r, rotated, all, was, snap)
    ensures l.Valid() && LaidOut(all, was, l.nodes, Undone(libs, i, snap), snap, c, r, rotated)
    ensures FirstFits(libs, i, was, snap, c, r.start, Snapshot(all))
    ensures snap[libs[i]].done == 0 && Stuck(l.nodes, libs[i], c, snap[libs[i]].layend - snap[libs[i]].base, r)
  {
  }

  lemma HaltedOnIntro(nodes: seq<Entry>, libs: seq<Entry>, i: nat, was: seq<Entry>, fake: Entry, c: Criteria, r: Region,
                      orig: map<Entry, Range>, snap: map<Entry, Range>, mid: map<Entry, Range>)
    requires i < |libs| && (forall x :: x in libs ==> x in orig && x in snap && snap[x].done == orig[x].done)
    requires forall x :: x in libs && snap[x].done == 0 ==> snap[x] == orig[x]
    requires Line(nodes, was, Undone(libs, i, orig), fake, c, r, orig, mid)
    requires FirstFits(libs, i, was + c.fake, orig, c, r.start, mid)
    requires snap[libs[i]].done == 0 && Stuck(nodes, libs[i], c, snap[libs[i]].layend - snap[libs[i]].base, r)
    ensures HaltedOn(nodes, libs, i, was, fake, c, r, orig, mid)
  {
  }

  /** The line once the libraries before position i have been laid out. */
  lemma LineThen(all: set<Entry>, was: seq<Entry>, listed: seq<Entry>, nodes: seq<Entry>, libs: seq<Entry>, i: nat,
                 fake: Entry,
                 c: Criteria, r: Region, orig: map<Entry, Range>, snap: map<Entry, Range>, mid: map<Entry, Range>)
    requires all <= snap.Keys && all <= mid.Keys && all <= orig.Keys + {fake} && fake in all
    requires (forall n :: n in listed ==> n in all) && (forall n :: n in all ==> Kept(n, mid[n]))
    requires (forall n :: n in listed ==> n in was || n == fake) && forall n :: n in was ==> n in listed
    requires i <= |libs| && (forall n :: n in libs ==> n in all) && Values(libs, was, listed, fake, c, r, orig, snap)
    requires LaidOut(all, listed, nodes, Undone(libs, i, snap), snap, c, r, r.start != r.base)
    ensures forall x :: x in libs ==> x in orig && x in snap && snap[x].done == orig[x].done
    ensures Line(nodes, was, Undone(libs, i, orig), fake, c, r, orig, mid)
    ensures forall n :: n in nodes ==> n in all
    ensures fake in nodes ==> fake in c.fake
    ensures forall n :: n in listed ==> n in nodes
    ensures forall n :: n in all && n !in nodes ==> Kept(n, snap[n])
  {
    ValuesFacts(libs, was, listed, fake, c, r, orig, snap);
    UndoneMembers(libs, i, snap);
    UndoneSame(libs, i, snap, orig);
    LaidOutListed(all, listed, nodes, Undone(libs, i, snap), snap, c, r, r.start != r.base);
    var placed := Undone(libs, i, snap);
    assert fake !in placed && forall x :: x in placed ==>
             x in orig && snap[x] == orig[x] && orig[x].base <= orig[x].end < orig[x].layend;
    hide *;
    LineIntro(all, was, listed, nodes, placed, fake, c, r, orig, snap, mid);
  }

  lemma ValidLinked(l: Layout, mid: map<Entry, Range>)
    requires l.Valid() && forall n :: n in l.nodes ==> n in mid && Kept(n, mid[n])
    ensures Linked(l.list, l.nodes) && SortedBefore(l.nodes, mid)
  {
    forall i, j | 0 <= i < j < |l.nodes| ensures mid[l.nodes[i]].base <= mid[l.nodes[j]].base {
      assert l.nodes[i] in l.nodes && l.nodes[j] in l.nodes;
    }
  }

  lemma LaidOutListed(all: set<Entry>, was: seq<Entry>, nodes: seq<Entry>, placed: set<Entry>, snap: map<Entry, Range>,
                      c: Criteria, r: Region, rotated: bool)
    requires all <= snap.Keys && (forall n :: n in was ==> n in snap)
    requires LaidOut(all, was, nodes, placed, snap, c, r, rotated)
    ensures forall n :: n in nodes ==> n in all
    ensures forall n :: n in was ==> n in nodes
    ensures forall n :: n in all && n !in nodes ==> Kept(n, snap[n])
  {
  }

  lemma ReadyFacts(l: Layout, libs: seq<Entry>, was: seq<Entry>, fake: Entry, c: Criteria, r: Region,
                   all: set<Entry>, orig: map<Entry, Range>, snap: map<Entry, Range>)
    requires Ready(l, libs, was, fake, c, r, all, orig, snap)
    ensures l.Valid() && Distinct(libs) && c.Over(all) && NoFakes(libs, c)
    ensures all <= snap.Keys && (forall n :: n in all ==> Kept(n, snap[n]))
    ensures forall n :: n in l.nodes ==> n in all && (n in libs || n in c.fake) && (n in was || n == fake)
    ensures (forall n :: n in was ==> n in l.nodes && n in orig) && (forall n :: n in libs ==> n in all)
    ensures forall n :: n in c.fake ==> n.tmp == -1
    ensures forall x :: x in libs && x.done == 0 ==> x !in l.nodes && x.next == null
    ensures Sized(libs, snap, r) && (forall n :: n in l.nodes ==> Aligned(n.layend, r.page))
  {
  }

  lemma ValuesFacts(libs: seq<Entry>, was: seq<Entry>, listed: seq<Entry>, fake: Entry, c: Criteria, r: Region,
                    orig: map<Entry, Range>, snap: map<Entry, Range>)
    requires Values(libs, was, listed, fake, c, r, orig, snap)
    ensures fake !in was && fake !in libs && fake in snap && snap[fake].base == snap[fake].layend == r.end
    ensures fake in listed ==> r.start != r.base && fake in c.fake
    ensures r.base <= r.start <= r.end && (r.start != r.base ==> r.fin == r.start + Span(r))
    ensures forall n :: n in was ==>
              n in orig && n in snap && OnItsSide(snap[n], r, r.start) && Shifted(snap[n], orig[n], Span(r))
    ensures forall x :: x in libs ==> x in orig && x in snap && snap[x].done == orig[x].done
    ensures forall x :: x in libs && snap[x].done == 0 ==>
              snap[x] == orig[x] && orig[x].base <= orig[x].end < orig[x].layend
  {
  }

  /** x, of the size it had at w, lies inside the region. */
  ghost predicate Contained(x: Entry, w: Range, r: Region)
    reads x`base
  {
    r.base <= x.base && x.base + (w.layend - w.base) <= r.end
  }

  /** x lies above the region's base and ends inside the region or in front of a library that was there. */
  ghost predicate InFront(x: Entry, w: Range, was: seq<Entry>, r: Region, orig: map<Entry, Range>)
    reads x`base
  {
    && r.base <= x.base
    && (x.base + (w.layend - w.base) <= r.end || exists n :: n in was && n in orig
                                                  && x.base + (w.layend - w.base) <= orig[n].base)
  }

  /** With the boundary entry listed nothing lies across the end of the region once it has been moved back. */
  lemma BoundaryContains(x: Entry, nodes: seq<Entry>, was: seq<Entry>, placed: set<Entry>, fake: Entry, c: Criteria,
                         r: Region,
                         orig: map<Entry, Range>, mid: map<Entry, Range>)
    requires Line(nodes, was, placed, fake, c, r, orig, mid) && x in placed && fake in nodes && x != fake
    requires r.base <= r.start <= r.end && Back(x, mid[x], Span(r)) && HeadNear(was, orig, r)
    ensures Contained(x, orig[x], r)
  {
    assert c.Related(x, fake) && Apart(mid[x], mid[fake]) && NewOnLine(mid[x], orig[x], nodes, placed, r, mid);
    assert OnItsSide(mid[x], r, r.start);
  }

  /** Without rotation a new library ends inside the region or in front of an old one. */
  lemma UnrotatedInFront(x: Entry, nodes: seq<Entry>, was: seq<Entry>, placed: set<Entry>, fake: Entry, c: Criteria,
                         r: Region,
                         orig: map<Entry, Range>, mid: map<Entry, Range>)
    requires Line(nodes, was, placed, fake, c, r, orig, mid) && x in placed && x != fake && r.start == r.base
             && r.fin == r.end
    requires Back(x, mid[x], Span(r))
    ensures InFront(x, orig[x], was, r, orig)
  {
    assert NewOnLine(mid[x], orig[x], nodes, placed, r, mid) && OnItsSide(mid[x], r, r.start);
    if mid[x].layend > r.fin {
      var n :| n in nodes && n !in placed && n in mid && mid[x].layend <= mid[n].base;
      if n != fake {
        assert OnItsSide(mid[n], r, r.start) && Shifted(mid[n], orig[n], Span(r));
      }
    }
  }

  /** x, of the size it had at w, begins inside the region and ends by the limit of the search. */
  ghost predicate InBounds(x: Entry, w: Range, line: Region)
    reads x`base
  {
    line.base <= x.base < line.end && x.base + (w.layend - w.base) <= line.fin
  }

  lemma PlacedInBounds(x: Entry, nodes: seq<Entry>, was: seq<Entry>, placed: set<Entry>, fake: Entry, c: Criteria,
                       r: Region, orig: map<Entry, Range>, mid: map<Entry, Range>)
    requires Line(nodes, was, placed, fake, c, r, orig, mid) && x in placed && x != fake && FinOk(r)
    requires r.base < r.start <= r.end && Back(x, mid[x], Span(r)) && HeadNear(was, orig, r)
    ensures InBounds(x, orig[x], r)
  {
    assert NewOnLine(mid[x], orig[x], nodes, placed, r, mid);
    forall n | n in nodes && n !in placed ensures n in mid && mid[n].base <= r.fin {
      if n != fake { assert OnItsSide(mid[n], r, r.start) && Shifted(mid[n], orig[n], Span(r)); }
    }
  }

  /** Whatever was moved up goes back, but for layend: a listed library that was moved up ends with its layend one
      region too high, and no other does. */
  lemma LayendStays(n: Entry, w: Range, m: Range, span: int)
    requires Shifted(m, w, span) && Back(n, m, span) && span > 0
    ensures n.base == w.base && n.end == w.end && n.layend == w.layend + (if m.high then span else 0)
    ensures n.layend == w.layend <==> !m.high
  {
  }

  /** Move back what stands above the region. */
  method MoveBackStage(l: Layout, r: Region, ghost mid: map<Entry, Range>, ghost fake: Entry)
    requires Linked(l.list, l.nodes) && forall n :: n in l.nodes ==> n in mid && Kept(n, mid[n])
    requires r.start == r.base ==> forall n :: n in l.nodes && n != fake ==> !mid[n].high
    modifies l.nodes`base, l.nodes`end, l.nodes`high
    ensures forall n :: n in l.nodes && n != fake ==> Back(n, mid[n], Span(r))
  {
    if r.start != r.base {
      Unrotate(l, r, mid);
    }
  }

  lemma NoneHigh(nodes: seq<Entry>, was: seq<Entry>, placed: set<Entry>, fake: Entry, c: Criteria, r: Region,
                 orig: map<Entry, Range>, mid: map<Entry, Range>)
    requires Line(nodes, was, placed, fake, c, r, orig, mid)
    ensures forall n :: n in nodes ==> n in mid
    ensures r.start == r.base ==> forall n :: n in nodes && n != fake ==> !mid[n].high
  {
    forall n | n in nodes && n != fake && r.start == r.base ensures !mid[n].high {
      if n in placed { assert NewOnLine(mid[n], orig[n], nodes, placed, r, mid); }
    }
  }

  /** On the line every library takes the room it had. */
  lemma SameRoom(n: Entry, nodes: seq<Entry>, was: seq<Entry>, placed: set<Entry>, fake: Entry, c: Criteria, r: Region,
                 orig: map<Entry, Range>, mid: map<Entry, Range>)
    requires Line(nodes, was, placed, fake, c, r, orig, mid) && n in nodes && n != fake
    ensures n in mid && n in orig && mid[n].layend - mid[n].base == orig[n].layend - orig[n].base
  {
    if n in placed {
      assert NewOnLine(mid[n], orig[n], nodes, placed, r, mid);
    } else {
      assert Shifted(mid[n], orig[n], Span(r));
    }
  }

  lemma BackApart(nodes: seq<Entry>, was: seq<Entry>, placed: set<Entry>, fake: Entry, c: Criteria, r: Region,
                  orig: map<Entry, Range>, mid: map<Entry, Range>)
    requires Line(nodes, was, placed, fake, c, r, orig, mid) && fake !in was && fake !in placed
    requires forall n :: n in nodes && n != fake ==> Back(n, mid[n], Span(r))
    ensures forall n :: n in was ==>
              n in nodes && n in orig && n.base == orig[n].base && n.end == orig[n].end && n.done == orig[n].done
    ensures forall n :: n in nodes && n != fake ==> n in was || n in placed
    ensures forall x :: x in placed ==>
              x in nodes && x in orig && x.end - x.base == orig[x].end - orig[x].base && x.done == 1
    ensures HeadNear(was, orig, r) ==>
              forall x, y :: x in placed && y in nodes && x != y && y != fake
                             && (c.Related(x, y) || c.Related(y, x)) ==>
                x in orig && y in orig && KeepOff(x, orig[x], y, orig[y])
  {
    forall x, y |
      HeadNear(was, orig, r) && x in placed && y in nodes && x != y && y != fake && (c.Related(x, y) || c.Related(y, x))
      ensures x in orig && y in orig && KeepOff(x, orig[x], y, orig[y])
    {
      if c.Related(x, y) { assert Apart(mid[x], mid[y]); }
      DisjointAtTheEnd(x, y, mid[x], mid[y], r, r.start);
      SameRoom(x, nodes, was, placed, fake, c, r, orig, mid);
      SameRoom(y, nodes, was, placed, fake, c, r, orig, mid);
    }
    forall n | n in was ensures n.base == orig[n].base && n.end == orig[n].end && n.done == orig[n].done {
      assert Shifted(mid[n], orig[n], Span(r)) && Back(n, mid[n], Span(r));
    }
    forall x | x in placed ensures x.end - x.base == orig[x].end - orig[x].base && x.done == 1 {
      assert NewOnLine(mid[x], orig[x], nodes, placed, r, mid) && Back(x, mid[x], Span(r));
    }
  }

  /** Where a new library lies once it has been moved back. */
  ghost predicate Lies(x: Entry, w: Range, nodes: seq<Entry>, was: seq<Entry>, fake: Entry, line: Region,
                       orig: map<Entry, Range>)
    reads x`base
  {
    && line.base <= x.base && Aligned(x.base, line.page)
    && (line.start == line.base ==> InFront(x, w, was, line, orig))
    && (line.start != line.base && HeadNear(was, orig, line) ==> InBounds(x, w, line))
    && (fake in nodes && HeadNear(was, orig, line) ==> Contained(x, w, line))
  }

  lemma BackWhere(nodes: seq<Entry>, was: seq<Entry>, placed: set<Entry>, fake: Entry, c: Criteria, r: Region,
                  orig: map<Entry, Range>, mid: map<Entry, Range>)
    requires Line(nodes, was, placed, fake, c, r, orig, mid) && fake !in was && fake !in placed
    requires r.base <= r.start <= r.end && FinOk(r) && Aligned(Span(r), r.page)
    requires forall n :: n in nodes && n != fake ==> Back(n, mid[n], Span(r))
    ensures forall x :: x in placed ==> x in orig && Lies(x, orig[x], nodes, was, fake, r, orig)
  {
    forall x | x in placed ensures x in orig && Lies(x, orig[x], nodes, was, fake, r, orig) {
      assert NewOnLine(mid[x], orig[x], nodes, placed, r, mid) && Back(x, mid[x], Span(r));
      AlignedDiff(mid[x].base, Span(r), r.page);
      if r.start == r.base {
        UnrotatedInFront(x, nodes, was, placed, fake, c, r, orig, mid);
      } else if HeadNear(was, orig, r) {
        PlacedInBounds(x, nodes, was, placed, fake, c, r, orig, mid);
        if fake in nodes { BoundaryContains(x, nodes, was, placed, fake, c, r, orig, mid); }
      }
    }
  }

  lemma TopFacts(libs: seq<Entry>, b: Criteria, fake: Entry, faked: bool, orig: map<Entry, Range>)
    requires b.fake == [] && forall x :: x in libs ==> x in orig
    ensures forall x :: x in libs && orig[x].done == 0 <==> x in Undone(libs, |libs|, orig)
    ensures forall x, y :: b.Related(x, y) ==> WithFake(b, fake, faked).Related(x, y)
  {
    UndoneMembers(libs, |libs|, orig);
  }

  /** The state of the list once everything has been laid out and moved back; mid is the state before moving back. */
  ghost predicate Arrived(nodes: seq<Entry>, libs: seq<Entry>, was: seq<Entry>, fake: Entry, c: Criteria, line: Region,
                          orig: map<Entry, Range>, mid: map<Entry, Range>)
    requires forall x :: x in libs ==> x in orig
    reads nodes`base, nodes`end, nodes`layend, nodes`done, nodes`high
  {
    && Line(nodes, was, Undone(libs, |libs|, orig), fake, c, line, orig, mid)
    && FirstFits(libs, |libs|, was + c.fake, orig, c, line.start, mid)
    && forall n :: n in nodes && n != fake ==> Back(n, mid[n], Span(line))
  }

  /** The libraries that have or need a range, as values: the ones with a range are not empty, the others not listed. */
  ghost predicate Fixed(libs: seq<Entry>, was: seq<Entry>, nodes: seq<Entry>, fake: Entry, c: Criteria,
                        orig: map<Entry, Range>)
  {
    && Distinct(libs) && (forall x :: x in libs ==> x in orig && x != fake)
    && (forall x :: x in libs && orig[x].done == 0 ==> x !in was)
    && (forall n :: n in was ==> n in orig && orig[n].base < orig[n].layend)
    && forall n :: n in c.fake ==> n == fake && n in nodes
  }

  /** Where everything may stand on the line. */
  ghost predicate Candidate(libs: seq<Entry>, nodes: seq<Entry>, was: seq<Entry>, fake: Entry, c: Criteria,
                            line: Region, orig: map<Entry, Range>, mid: map<Entry, Range>)
  {
    && Fixed(libs, was, nodes, fake, c, orig) && FinOk(line)
    && Line(nodes, was, Undone(libs, |libs|, orig), fake, c, line, orig, mid)
    && FirstFits(libs, |libs|, was + c.fake, orig, c, line.start, mid)
  }

  /** Old libraries stand at one place on the line only. */
  lemma OldDetermined(n: Entry, w: Range, m: Range, m': Range, line: Region)
    requires OnItsSide(m, line, line.start) && Shifted(m, w, Span(line))
    requires OnItsSide(m', line, line.start) && Shifted(m', w, Span(line))
    requires w.base < w.layend && FinOk(line)
    ensures m.base == m'.base && m.layend == m'.layend
  {
  }

  /** Two places of a library on two lines agree. */
  ghost predicate Agree(n: Entry, mid: map<Entry, Range>, mid': map<Entry, Range>) {
    n in mid && n in mid' && mid[n].base == mid'[n].base && mid[n].layend == mid'[n].layend
  }

  /** So do those of the listed libraries, of the boundary entry and of the first i libraries that had no range. */
  ghost predicate AgreeOn(libs: seq<Entry>, i: nat, was: seq<Entry>, c: Criteria, orig: map<Entry, Range>,
                          mid: map<Entry, Range>, mid': map<Entry, Range>)
    requires i <= |libs| && forall x :: x in libs ==> x in orig
  {
    && (forall n :: n in was ==> Agree(n, mid, mid')) && (forall n :: n in c.fake ==> Agree(n, mid, mid'))
    && (forall n :: n in Undone(libs, i, orig) ==> Agree(n, mid, mid'))
  }

  lemma AgreeNext(libs: seq<Entry>, i: nat, was: seq<Entry>, c: Criteria, orig: map<Entry, Range>,
                  mid: map<Entry, Range>, mid': map<Entry, Range>)
    requires i < |libs| && (forall x :: x in libs ==> x in orig) && AgreeOn(libs, i, was, c, orig, mid, mid')
    requires orig[libs[i]].done == 0 ==> Agree(libs[i], mid, mid')
    ensures AgreeOn(libs, i + 1, was, c, orig, mid, mid')
  {
    UndoneStep(libs, i, orig);
    hide Undone, Agree;
  }

  lemma AgreeBoth(libs: seq<Entry>, i: nat, was: seq<Entry>, c: Criteria, orig: map<Entry, Range>,
                  mid: map<Entry, Range>, mid': map<Entry, Range>)
    requires i <= |libs| && (forall x :: x in libs ==> x in orig) && AgreeOn(libs, i, was, c, orig, mid, mid')
    ensures AgreeOn(libs, i, was, c, orig, mid', mid)
  {
    hide Undone;
    forall n | n in was || n in c.fake || n in Undone(libs, i, orig) ensures Agree(n, mid', mid) {
      assert Agree(n, mid, mid');
    }
  }

  /** A library cannot have a lower place in one layout than in another one that agrees on whatever was there
      when its turn came. */
  lemma NoLower(libs: seq<Entry>, i: nat, nodes: seq<Entry>, nodes': seq<Entry>, was: seq<Entry>, fake: Entry,
                c: Criteria, line: Region, orig: map<Entry, Range>, mid: map<Entry, Range>, mid': map<Entry, Range>)
    requires Candidate(libs, nodes, was, fake, c, line, orig, mid)
    requires Candidate(libs, nodes', was, fake, c, line, orig, mid')
    requires i < |libs| && orig[libs[i]].done == 0 && AgreeOn(libs, i, was, c, orig, mid, mid')
    ensures libs[i] in mid && libs[i] in mid' && mid'[libs[i]].base >= mid[libs[i]].base
  {
    var x, all := libs[i], Undone(libs, |libs|, orig);
    UndoneMembers(libs, |libs|, orig);
    UndoneMembers(libs, i, orig);
    assert NewOnLine(mid[x], orig[x], nodes, all, line, mid) && NewOnLine(mid'[x], orig[x], nodes', all, line, mid');
    var b := mid'[x].base;
    forall n | n in mid && (n in was || n in c.fake || n in Undone(libs, i, orig)) && c.Related(x, n)
      ensures !(b < mid[n].layend && mid[n].base < b + (mid[x].layend - mid[x].base))
    {
      assert n != x && Agree(n, mid, mid') by { Others(libs, i); }
      assert n in nodes' && Apart(mid'[x], mid'[n]);
    }
    assert !HinderedAt(x, b, was + c.fake, Undone(libs, i, orig), c, mid);
  }

  lemma OldAgree(nodes: seq<Entry>, nodes': seq<Entry>, was: seq<Entry>, placed: set<Entry>, fake: Entry, c: Criteria,
                 line: Region, orig: map<Entry, Range>, mid: map<Entry, Range>, mid': map<Entry, Range>)
    requires Line(nodes, was, placed, fake, c, line, orig, mid) && Line(nodes', was, placed, fake, c, line, orig, mid')
    requires (forall n :: n in was ==> n in orig && orig[n].base < orig[n].layend) && FinOk(line)
    requires forall n :: n in c.fake ==> n == fake && n in nodes && n in nodes'
    ensures forall n :: n in was || n in c.fake ==> Agree(n, mid, mid')
  {
    forall n | n in was ensures Agree(n, mid, mid') {
      OldDetermined(n, orig[n], mid[n], mid'[n], line);
    }
  }

  lemma NewAgree(x: Entry, nodes: seq<Entry>, nodes': seq<Entry>, was: seq<Entry>, placed: set<Entry>, fake: Entry,
                 c: Criteria, line: Region, orig: map<Entry, Range>, mid: map<Entry, Range>, mid': map<Entry, Range>)
    requires Line(nodes, was, placed, fake, c, line, orig, mid) && Line(nodes', was, placed, fake, c, line, orig, mid')
    requires x in placed && x in mid && x in mid' && mid[x].base == mid'[x].base
    ensures Agree(x, mid, mid')
  {
    assert NewOnLine(mid[x], orig[x], nodes, placed, line, mid);
    assert NewOnLine(mid'[x], orig[x], nodes', placed, line, mid');
  }

  lemma AgreeStep(libs: seq<Entry>, i: nat, nodes: seq<Entry>, nodes': seq<Entry>, was: seq<Entry>, fake: Entry,
                  c: Criteria, line: Region, orig: map<Entry, Range>, mid: map<Entry, Range>,
                  mid': map<Entry, Range>)
    requires i < |libs| && forall x :: x in libs ==> x in orig
    requires Candidate(libs, nodes, was, fake, c, line, orig, mid)
    requires Candidate(libs, nodes', was, fake, c, line, orig, mid')
    requires AgreeOn(libs, i, was, c, orig, mid, mid')
    ensures AgreeOn(libs, i + 1, was, c, orig, mid, mid')
  {
    if orig[libs[i]].done == 0 {
      AgreeBoth(libs, i, was, c, orig, mid, mid');
      UndoneMembers(libs, |libs|, orig);
      hide Line, FirstFits, Undone, Fixed, AgreeOn, Agree;
      NoLower(libs, i, nodes, nodes', was, fake, c, line, orig, mid, mid');
      NoLower(libs, i, nodes', nodes, was, fake, c, line, orig, mid', mid);
      NewAgree(libs[i], nodes, nodes', was, Undone(libs, |libs|, orig), fake, c, line, orig, mid, mid');
    }
    AgreeNext(libs, i, was, c, orig, mid, mid');
  }

  /** There is one layout only: on the same line, for the same list and in the same order, first fit gives each
      library the same place. */
  lemma {:induction false} Determined(libs: seq<Entry>, i: nat, nodes: seq<Entry>, nodes': seq<Entry>, was: seq<Entry>,
                                      fake: Entry, c: Criteria, line: Region, orig: map<Entry, Range>,
                                      mid: map<Entry, Range>, mid': map<Entry, Range>)
    requires i <= |libs| && forall x :: x in libs ==> x in orig
    requires Candidate(libs, nodes, was, fake, c, line, orig, mid)
    requires Candidate(libs, nodes', was, fake, c, line, orig, mid')
    ensures AgreeOn(libs, i, was, c, orig, mid, mid')
  {
    if i == 0 {
      OldAgree(nodes, nodes', was, Undone(libs, |libs|, orig), fake, c, line, orig, mid, mid');
      hide Line, Agree, FirstFits;
    } else {
      hide *;
      Determined(libs, i - 1, nodes, nodes', was, fake, c, line, orig, mid, mid');
      AgreeStep(libs, i - 1, nodes, nodes', was, fake, c, line, orig, mid, mid');
    }
  }

  /** Lay every waiting library out from the start of the region: rotate, place, move back. line is the line that is
      searched, c adds the boundary entry, if one is listed, to what all must keep clear of. Each library that had no
      range gets, in turn, the lowest place on the line; then libraries that had a range keep it, and the others get
      one of their size, which with its room keeps off that of whatever they must keep clear of, unless the head of the
      list begins past the limit of the search; and if this fails, there was no room on the line for the first of them
      that has none. */
  method LayOutFrom(l: Layout, libs: seq<Entry>, b: Criteria, r: Region, ghost all: set<Entry>,
                    ghost orig: map<Entry, Range>)
    returns (ok: bool, ghost fake: Entry, ghost line: Region, ghost c: Criteria, ghost mid: map<Entry, Range>)
    requires Settled(l, r, orig) && Waiting(l, libs, r, orig) && RegionOk(r) && RegionAligned(r)
    requires Distinct(libs) && b.fake == [] && b.Over(all) && forall n :: n in l.nodes ==> n in libs
    requires (forall n :: n in libs ==> n in all) && all <= orig.Keys && forall n :: n in all ==> Kept(n, orig[n])
    modifies l, all`base, all`end, all`layend, all`done, all`high, all`tmp, all`prev, all`next
    ensures (forall n :: n in old(l.nodes) ==> n in orig) && line == LineFrom(old(l.nodes), orig, r)
    ensures fresh(fake) && c == WithFake(b, fake, EndListed(old(l.nodes), orig, r))
    ensures Linked(l.list, l.nodes) && SortedBefore(l.nodes, mid)
    ensures fake in l.nodes <==> EndListed(old(l.nodes), orig, r)
    ensures !ok ==> exists i :: 0 <= i < |libs| && HaltedOn(l.nodes, libs, i, old(l.nodes), fake, c, line, orig, mid)
    ensures !ok ==> l.Valid() && forall n :: n in l.nodes ==> n in mid && Kept(n, mid[n])
    ensures ok ==> Arrived(l.nodes, libs, old(l.nodes), fake, c, line, orig, mid)
    ensures ok ==> forall n :: n in old(l.nodes) ==>
              n in l.nodes && n.base == orig[n].base && n.end == orig[n].end && n.done == orig[n].done
    ensures ok ==> forall n :: n in l.nodes && n != fake ==> n in old(l.nodes) || (n in libs && orig[n].done == 0)
    ensures ok ==> forall x :: x in libs && orig[x].done == 0 ==>
              x in l.nodes && x.end - x.base == orig[x].end - orig[x].base && x.done == 1
    ensures ok && HeadNear(old(l.nodes), orig, line) ==>
              forall x, y :: x in libs && orig[x].done == 0 && y in l.nodes && x != y && y != fake
                             && b.Related(x, y) ==>
                     y in orig && KeepOff(x, orig[x], y, orig[y])
    ensures ok ==> forall n :: n in all && n !in l.nodes ==> Kept(n, orig[n])
    ensures ok ==> forall x :: x in libs && orig[x].done == 0 ==>
              Lies(x, orig[x], l.nodes, old(l.nodes), fake, line, orig)
  {
    hide *;
    ghost var was := l.nodes;
    var boundary := new Entry(r.end, r.end, r.end, -1);
    fake := boundary;
    var r2, criteria;
    ghost var snap;
    r2, criteria, snap := RotateStage(l, libs, b, r, boundary, all, orig);
    line, c := r2, criteria;
    ValuesFacts(libs, was, l.nodes, boundary, c, r2, orig, snap);
    TopFacts(libs, b, boundary, EndListed(was, orig, r), orig);
    RegionFacts(r);
    LineFromFacts(was, r, orig);
    LineOfFacts(line, r);
    ok, mid := PlaceStage(l, libs, criteria, r2, was, boundary, all + {boundary}, orig, snap);
    if ok {
      FinishStage(l, libs, criteria, r2, was, boundary, orig, mid);
    }
  }

  /** Move back, and what comes of it. */
  method FinishStage(l: Layout, libs: seq<Entry>, ghost c: Criteria, r: Region, ghost was: seq<Entry>,
                     ghost fake: Entry, ghost orig: map<Entry, Range>, ghost mid: map<Entry, Range>)
    requires forall x :: x in libs ==> x in orig
    requires Linked(l.list, l.nodes) && forall n :: n in l.nodes ==> n in mid && Kept(n, mid[n])
    requires Line(l.nodes, was, Undone(libs, |libs|, orig), fake, c, r, orig, mid)
    requires FirstFits(libs, |libs|, was + c.fake, orig, c, r.start, mid) && fake !in was && fake !in libs
    requires r.base <= r.start <= r.end && FinOk(r) && Aligned(Span(r), r.page)
    modifies l.nodes`base, l.nodes`end, l.nodes`high
    ensures Arrived(l.nodes, libs, was, fake, c, r, orig, mid)
    ensures forall n :: n in was ==>
              n in l.nodes && n in orig && n.base == orig[n].base && n.end == orig[n].end && n.done == orig[n].done
    ensures forall n :: n in l.nodes && n != fake ==> n in was || n in Undone(libs, |libs|, orig)
    ensures forall x :: x in Undone(libs, |libs|, orig) ==>
              x in l.nodes && x in orig && x.end - x.base == orig[x].end - orig[x].base && x.done == 1
              && Lies(x, orig[x], l.nodes, was, fake, r, orig)
    ensures HeadNear(was, orig, r) ==>
              forall x, y :: x in Undone(libs, |libs|, orig) && y in l.nodes && x != y && y != fake
                             && (c.Related(x, y) || c.Related(y, x)) ==>
                x in orig && y in orig && KeepOff(x, orig[x], y, orig[y])
  {
    hide *;
    ghost var placed := Undone(libs, |libs|, orig);
    UndoneMembers(libs, |libs|, orig);
    NoneHigh(l.nodes, was, placed, fake, c, r, orig, mid);
    MoveBackStage(l, r, mid, fake);
    BackApart(l.nodes, was, placed, fake, c, r, orig, mid);
    BackWhere(l.nodes, was, placed, fake, c, r, orig, mid);
    ArrivedIntro(l.nodes, libs, was, fake, c, r, orig, mid);
  }

  lemma ArrivedIntro(nodes: seq<Entry>, libs: seq<Entry>, was: seq<Entry>, fake: Entry, c: Criteria, line: Region,
                     orig: map<Entry, Range>, mid: map<Entry, Range>)
    requires forall x :: x in libs ==> x in orig
    requires Line(nodes, was, Undone(libs, |libs|, orig), fake, c, line, orig, mid)
    requires FirstFits(libs, |libs|, was + c.fake, orig, c, line.start, mid) && forall n :: n in nodes ==> n in mid
    requires forall n :: n in nodes && n != fake ==> Back(n, mid[n], Span(line))
    ensures Arrived(nodes, libs, was, fake, c, line, orig, mid)
  {
  }

  lemma LineOfFacts(line: Region, r: Region)
    requires LineOf(line, r)
    ensures r.base <= line.start <= r.end
    ensures FinOk(line) && line.base == r.base && line.end == r.end && line.page == r.page && Span(line) == Span(r)
  {
  }
}
