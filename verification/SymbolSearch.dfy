/** Finding the virtual table an address lies in (src/cxx.c): a sorted table of the symbols that overlap no other,
    and a binary search that begins near the last hit. */
module SymbolSearch {
  /** A symbol: where it lies, whether its section is not SHN_UNDEF, and whether it has default visibility and is
      named and typed like a virtual table or type information. */
  datatype Symbol = Symbol(value: nat, size: nat, defined: bool, special: bool)

  /** struct find_cxx_sym_valsize */
  datatype Val = Val(start: nat, end: nat, idx: nat, mark: bool)

  function ValOf(s: Symbol, ndx: nat): Val {
    Val(s.value, s.value + s.size, ndx, s.special)
  }

  /** cachecmp, as an order. */
  predicate InOrder(a: Val, b: Val) {
    a.start < b.start || (a.start == b.start && a.end <= b.end)
  }

  ghost predicate Ordered(s: seq<Val>) {
    forall i, j :: 0 <= i < j < |s| ==> InOrder(s[i], s[j])
  }

  ghost predicate Proper(s: seq<Val>) {
    forall i :: 0 <= i < |s| ==> s[i].start <= s[i].end
  }

  /** s holds the defined ones among the first n symbols, each once. */
  ghost predicate Collected(s: seq<Val>, symbols: seq<Symbol>, n: nat) {
    Members(s, symbols, n) && NoneMissing(s, symbols, n) && NoneTwice(s)
  }

  lemma CollectedProper(s: seq<Val>, symbols: seq<Symbol>, n: nat)
    requires Collected(s, symbols, n)
    ensures Proper(s)
  {
  }

  /** The first loop of create_cache and the sorting; any arrangement in order will do. */
  method CollectSorted(symbols: seq<Symbol>) returns (sorted: seq<Val>)
    ensures Ordered(sorted) && Collected(sorted, symbols, |symbols|)
  {
    sorted := [];
    var ndx := 0;
    while ndx < |symbols|
      invariant ndx <= |symbols| && Ordered(sorted) && Collected(sorted, symbols, ndx)
    {
      hide Ordered, Collected, InOrder, Inserted;
      if symbols[ndx].defined {
        var at := FindPlace(sorted, ValOf(symbols[ndx], ndx));
        CollectedMore(sorted, symbols, ndx, at);
        sorted := Inserted(sorted, at, ValOf(symbols[ndx], ndx));
      } else {
        CollectedSkip(sorted, symbols, ndx);
      }
      ndx := ndx + 1;
    }
  }

  method FindPlace(s: seq<Val>, v: Val) returns (at: nat)
    requires Ordered(s)
    ensures at <= |s| && Ordered(Inserted(s, at, v))
  {
    at := 0;
    while at < |s| && InOrder(s[at], v)
      invariant at <= |s| && forall i :: 0 <= i < at ==> InOrder(s[i], v)
    {
      at := at + 1;
    }
    forall k | at <= k < |s| ensures InOrder(v, s[k]) {
      assert k == at || InOrder(s[at], s[k]);
    }
  }

  /** s with v put in at a position. */
  function Inserted(s: seq<Val>, at: nat, v: Val): (r: seq<Val>)
    requires at <= |s|
    ensures |r| == |s| + 1
    ensures forall k :: 0 <= k < |r| ==> r[k] == if k < at then s[k] else if k == at then v else s[k - 1]
  {
    s[..at] + [v] + s[at..]
  }

  ghost predicate Members(s: seq<Val>, symbols: seq<Symbol>, n: nat) {
    forall k :: 0 <= k < |s| ==> s[k].idx < n && s[k].idx < |symbols| && symbols[s[k].idx].defined
                                 && s[k] == ValOf(symbols[s[k].idx], s[k].idx)
  }

  ghost predicate NoneMissing(s: seq<Val>, symbols: seq<Symbol>, n: nat) {
    forall i :: 0 <= i < n && i < |symbols| && symbols[i].defined ==> ValOf(symbols[i], i) in s
  }

  ghost predicate NoneTwice(s: seq<Val>) {
    forall j, k :: 0 <= j < k < |s| ==> s[j].idx != s[k].idx
  }

  lemma InsertedMembers(s: seq<Val>, at: nat, v: Val)
    requires at <= |s|
    ensures forall w :: w in Inserted(s, at, v) <==> w == v || w in s
  {
    var r := Inserted(s, at, v);
    forall w | w in s ensures w in r {
      var k :| 0 <= k < |s| && s[k] == w;
      assert r[if k < at then k else k + 1] == w;
    }
    assert r[at] == v;
  }

  lemma CollectedMore(s: seq<Val>, symbols: seq<Symbol>, n: nat, at: nat)
    requires Collected(s, symbols, n) && n < |symbols| && symbols[n].defined && at <= |s|
    ensures Collected(Inserted(s, at, ValOf(symbols[n], n)), symbols, n + 1)
  {
    var r := Inserted(s, at, ValOf(symbols[n], n));
    InsertedMembers(s, at, ValOf(symbols[n], n));
    assert NoneMissing(r, symbols, n + 1);
    assert Members(r, symbols, n + 1);
    NoneTwiceMore(s, at, ValOf(symbols[n], n));
  }

  lemma NoneTwiceMore(s: seq<Val>, at: nat, v: Val)
    requires NoneTwice(s) && at <= |s| && forall k :: 0 <= k < |s| ==> s[k].idx != v.idx
    ensures NoneTwice(Inserted(s, at, v))
  {
  }

  lemma CollectedSkip(s: seq<Val>, symbols: seq<Symbol>, n: nat)
    requires Collected(s, symbols, n) && n < |symbols| && !symbols[n].defined
    ensures Collected(s, symbols, n + 1)
  {
  }

  /** Nothing before position i reaches into it, and it reaches into nothing behind it. */
  ghost predicate Alone(s: seq<Val>, i: nat)
    requires i < |s|
  {
    (forall k :: 0 <= k < i ==> s[k].end <= s[i].start) && forall k :: i < k < |s| ==> s[i].end <= s[k].start
  }

  /** The entries up to n have been looked at, and top is where the last of them ends. */
  ghost predicate Swept(now: seq<Val>, was: seq<Val>, n: nat, top: nat) {
    && |now| == |was| && n <= |was|
    && (forall k :: 0 <= k < n ==> now[k] == was[k].(mark := was[k].mark && Alone(was, k)))
    && (forall k :: n <= k < |was| ==> now[k] == was[k])
    && (forall k :: 0 <= k < n ==> was[k].end <= top)
    && (top == 0 || exists k :: 0 <= k < n && was[k].end == top)
  }

  /** Looking at the highest end so far and at the next start is enough. */
  lemma SweepTest(was: seq<Val>, n: nat, top: nat)
    requires Ordered(was) && Proper(was) && n < |was| && (forall k :: 0 <= k < n ==> was[k].end <= top)
    requires top == 0 || exists k :: 0 <= k < n && was[k].end == top
    ensures Alone(was, n) <==> !(was[n].start < top || (n < |was| - 1 && was[n].end > was[n + 1].start))
  {
    if n < |was| - 1 && was[n].end <= was[n + 1].start {
      forall k | n < k < |was| ensures was[n].end <= was[k].start {
        assert k == n + 1 || InOrder(was[n + 1], was[k]);
      }
    }
  }

  lemma SweepNext(now: seq<Val>, was: seq<Val>, n: nat, top: nat)
    requires Swept(now, was, n, top) && n < |was|
    ensures var v := was[n].(mark := was[n].mark && Alone(was, n));
            Swept(now[n := v], was, n + 1, if was[n].end > top then was[n].end else top)
  {
    hide Alone;
    assert was[n].end == was[n].end;
  }

  /** The loop that clears the mark of whatever overlaps another symbol. */
  method Sweep(vals: array<Val>)
    requires Ordered(vals[..]) && Proper(vals[..])
    modifies vals
    ensures exists top :: Swept(vals[..], old(vals[..]), vals.Length, top)
  {
    ghost var was := vals[..];
    hide *;
    SweepStart(was);
    var top, ndx := 0, 0;
    while ndx < vals.Length
      invariant ndx <= vals.Length && Swept(vals[..], was, ndx, top)
    {
      SweepFacts(vals[..], was, ndx, top);
      SweepTest(was, ndx, top);
      SweepNext(vals[..], was, ndx, top);
      ghost var now := vals[..];
      assert vals[ndx] == was[ndx] && (ndx < vals.Length - 1 ==> vals[ndx + 1] == was[ndx + 1]);
      if vals[ndx].start < top || (ndx < vals.Length - 1 && vals[ndx].end > vals[ndx + 1].start) {
        vals[ndx] := vals[ndx].(mark := false);
      }
      assert vals[..] == now[ndx := was[ndx].(mark := was[ndx].mark && Alone(was, ndx))];
      if vals[ndx].end > top {
        top := vals[ndx].end;
      }
      ndx := ndx + 1;
    }
  }

  lemma SweepStart(was: seq<Val>)
    ensures Swept(was, was, 0, 0)
  {
  }

  lemma SweepFacts(now: seq<Val>, was: seq<Val>, n: nat, top: nat)
    requires Swept(now, was, n, top)
    ensures |now| == |was| && n <= |was| && (forall k :: n <= k < |was| ==> now[k] == was[k])
    ensures (forall k :: 0 <= k < n ==> was[k].end <= top) && (top == 0 || exists k :: 0 <= k < n && was[k].end == top)
  {
    hide Alone;
  }

  /** The marked entries, in order. */
  ghost function Marked(s: seq<Val>): (r: seq<Val>) {
    if s == [] then [] else Marked(s[..|s| - 1]) + if s[|s| - 1].mark then [s[|s| - 1]] else []
  }

  /** The loop that moves them to the front. */
  method Compact(vals: array<Val>) returns (count: nat)
    modifies vals
    ensures count <= vals.Length && vals[..count] == Marked(old(vals[..]))
  {
    ghost var was := vals[..];
    count := 0;
    var ndx := 0;
    while ndx < vals.Length
      invariant count <= ndx <= vals.Length && vals[..count] == Marked(was[..ndx])
      invariant forall k :: ndx <= k < vals.Length ==> vals[k] == was[k]
    {
      assert was[..ndx + 1][..ndx] == was[..ndx];
      if vals[ndx].mark {
        vals[count] := vals[ndx];
        assert vals[..count + 1] == vals[..count] + [was[ndx]];
        count := count + 1;
      }
      ndx := ndx + 1;
    }
    assert was[..ndx] == was;
  }

  /** The intervals of the table: in order, none reaching into the next. */
  ghost predicate Separate(s: seq<Val>) {
    Proper(s) && forall i, j :: 0 <= i < j < |s| ==> s[i].end <= s[j].start
  }

  /** Each of them is a marked entry, and none is missing. */
  lemma {:induction false} MarkedFrom(s: seq<Val>, k: nat) returns (i: nat)
    requires k < |Marked(s)|
    ensures i < |s| && s[i].mark && Marked(s)[k] == s[i]
  {
    var n := |s| - 1;
    if k < |Marked(s[..n])| {
      i := MarkedFrom(s[..n], k);
    } else {
      i := n;
    }
  }

  lemma {:induction false} MarkedHas(s: seq<Val>, i: nat)
    requires i < |s| && s[i].mark
    ensures s[i] in Marked(s)
  {
    var n := |s| - 1;
    if i < n {
      MarkedHas(s[..n], i);
      assert s[..n][i] == s[i];
    }
  }

  /** If each marked entry is alone, they are separate. */
  lemma {:induction false} MarkedSeparate(s: seq<Val>)
    requires Proper(s) && forall i, k :: 0 <= k < i < |s| && s[i].mark ==> s[k].end <= s[i].start
    ensures Separate(Marked(s))
  {
    if s != [] {
      var n := |s| - 1;
      MarkedSeparate(s[..n]);
      forall k | 0 <= k < |Marked(s[..n])| && s[n].mark ensures Marked(s[..n])[k].end <= s[n].start {
        var i := MarkedFrom(s[..n], k);
        assert s[i].end <= s[n].start;
      }
    }
  }

  /** Symbol i is one to look for, and no other defined symbol overlaps it. */
  ghost predicate Wanted(symbols: seq<Symbol>, i: nat)
    requires i < |symbols|
  {
    && symbols[i].defined && symbols[i].special
    && forall j :: 0 <= j < |symbols| && j != i && symbols[j].defined ==> Clear(symbols[i], symbols[j])
  }

  predicate Clear(a: Symbol, b: Symbol) {
    a.value + a.size <= b.value || b.value + b.size <= a.value
  }

  /** The table: separate intervals, of exactly the symbols wanted. */
  ghost predicate Table(vals: seq<Val>, symbols: seq<Symbol>) {
    && Separate(vals)
    && (forall k :: 0 <= k < |vals| ==> Holds(vals[k], symbols))
    && (forall i :: 0 <= i < |symbols| && Wanted(symbols, i) ==> Listed(symbols, i) in vals)
  }

  function Listed(symbols: seq<Symbol>, i: nat): Val
    requires i < |symbols|
  {
    ValOf(symbols[i], i)
  }

  ghost predicate Holds(v: Val, symbols: seq<Symbol>) {
    v.idx < |symbols| && Wanted(symbols, v.idx) && v == Listed(symbols, v.idx)
  }

  /** In the sorted order, alone means clear of every other symbol. */
  lemma AloneIsWanted(s: seq<Val>, symbols: seq<Symbol>, k: nat)
    requires Ordered(s) && Collected(s, symbols, |symbols|) && k < |s|
    ensures s[k].idx < |symbols| && s[k] == Listed(symbols, s[k].idx)
    ensures s[k].mark && Alone(s, k) <==> Wanted(symbols, s[k].idx)
  {
    var i := s[k].idx;
    if s[k].mark && Alone(s, k) {
      forall j | 0 <= j < |symbols| && j != i && symbols[j].defined ensures Clear(symbols[i], symbols[j]) {
        assert ValOf(symbols[j], j) in s;
        var m :| 0 <= m < |s| && s[m] == ValOf(symbols[j], j);
      }
    }
    if Wanted(symbols, i) {
      forall m | 0 <= m < |s| && m != k
        ensures if m < k then s[m].end <= s[k].start else s[k].end <= s[m].start
      {
        assert Clear(symbols[i], symbols[s[m].idx]);
        assert if m < k then InOrder(s[m], s[k]) else InOrder(s[k], s[m]);
      }
    }
  }

  lemma TableIntro(sorted: seq<Val>, swept: seq<Val>, top: nat, symbols: seq<Symbol>)
    requires Ordered(sorted) && Collected(sorted, symbols, |symbols|) && Swept(swept, sorted, |sorted|, top)
    ensures Table(Marked(swept), symbols)
  {
    CollectedProper(sorted, symbols, |symbols|);
    hide InOrder;
    assert Proper(swept);
    forall i, k | 0 <= k < i < |swept| && swept[i].mark ensures swept[k].end <= swept[i].start {
      assert Alone(sorted, i);
    }
    MarkedSeparate(swept);
    forall k | 0 <= k < |Marked(swept)| ensures Holds(Marked(swept)[k], symbols) {
      var i := MarkedFrom(swept, k);
      AloneIsWanted(sorted, symbols, i);
    }
    forall i | 0 <= i < |symbols| && Wanted(symbols, i) ensures Listed(symbols, i) in Marked(swept) {
      assert ValOf(symbols[i], i) in sorted;
      var k :| 0 <= k < |sorted| && sorted[k] == ValOf(symbols[i], i);
      AloneIsWanted(sorted, symbols, k);
      assert swept[k] == sorted[k] && swept[k].mark;
      MarkedHas(swept, k);
    }
  }

  /** create_cache for all but PLT symbols. */
  method CreateCache(symbols: seq<Symbol>) returns (vals: array<Val>, count: nat)
    ensures fresh(vals) && count <= vals.Length && Table(vals[..count], symbols)
  {
    hide *;
    var sorted := CollectSorted(symbols);
    vals := new Val[|sorted|](i requires 0 <= i < |sorted| => sorted[i]);
    assert vals[..] == sorted;
    CollectedProper(sorted, symbols, |symbols|);
    Sweep(vals);
    ghost var swept := vals[..];
    ghost var top :| Swept(swept, sorted, vals.Length, top);
    count := Compact(vals);
    TableIntro(sorted, swept, top, symbols);
  }

  /** The relocation at addr lies wholly inside v. */
  predicate Inside(v: Val, addr: nat, size: nat) {
    v.start <= addr && addr + size <= v.end
  }

  /** Whatever the address lies in is at a position from lo up to hi. */
  ghost predicate Between(s: seq<Val>, lo: nat, hi: nat, addr: nat, size: nat) {
    lo <= hi <= |s| && forall k :: 0 <= k < |s| && Inside(s[k], addr, size) ==> lo <= k < hi
  }

  /** A separate interval that starts by addr without containing the relocation shows that none before it does. */
  lemma SearchAbove(s: seq<Val>, lo: nat, hi: nat, addr: nat, size: nat, m: nat)
    requires Separate(s) && Between(s, lo, hi, addr, size) && lo <= m < hi && s[m].start <= addr
             && !Inside(s[m], addr, size)
    requires size > 0
    ensures Between(s, m + 1, hi, addr, size)
  {
    forall k | 0 <= k < m ensures !Inside(s[k], addr, size) {
      assert s[k].end <= s[m].start;
    }
  }

  lemma SearchBelow(s: seq<Val>, lo: nat, hi: nat, addr: nat, size: nat, m: nat)
    requires Separate(s) && Between(s, lo, hi, addr, size) && lo <= m < hi && s[m].start > addr
    ensures Between(s, lo, m, addr, size)
  {
    forall k | m < k < |s| ensures !Inside(s[k], addr, size) {
      assert s[m].end <= s[k].start;
    }
  }

  lemma SearchFrom(s: seq<Val>, lo: nat, hi: nat, addr: nat, size: nat, m: nat)
    requires Separate(s) && Between(s, lo, hi, addr, size) && lo <= m < hi && s[m].start <= addr && size > 0
    ensures Between(s, m, hi, addr, size)
  {
    forall k | 0 <= k < m ensures !Inside(s[k], addr, size) {
      assert s[k].end <= s[m].start;
    }
  }

  /** The search, with the position of the last hit as its hint. */
  class Finder {
    const vals: array<Val>
    const count: nat
    /** lastndx */
    var last: int

    ghost predicate Valid()
      reads this, vals
    {
      count <= vals.Length && Separate(vals[..count]) && -1 <= last < count
    }

    constructor (vals: array<Val>, count: nat)
      requires count <= vals.Length && Separate(vals[..count])
      ensures Valid() && this.vals == vals && this.count == count
    {
      this.vals, this.count, last := vals, count, -1;
    }

    /** The part of find_cxx_sym that narrows the search. */
    method Narrow(addr: nat, ghost size: nat) returns (lo: nat, hi: nat)
      requires Valid() && size > 0
      ensures Between(vals[..count], lo, hi, addr, size)
    {
      hide Separate, Inside;
      ghost var s := vals[..count];
      lo, hi := 0, count;
      assert Between(s, lo, hi, addr, size);
      if last != -1 {
        if vals[last].start <= addr {
          SearchFrom(s, lo, hi, addr, size, last);
          lo := last;
          if hi - lo >= 16 {
            if vals[lo + 2].start > addr {
              SearchBelow(s, lo, hi, addr, size, lo + 2);
              hi := lo + 2;
            } else if vals[lo + 15].start > addr {
              SearchBelow(s, lo, hi, addr, size, lo + 15);
              hi := lo + 15;
            }
          }
        } else {
          SearchBelow(s, lo, hi, addr, size, last);
          hi := last;
          if hi >= 15 {
            if vals[hi - 2].start <= addr {
              SearchFrom(s, lo, hi, addr, size, hi - 2);
              lo := hi - 2;
            } else if vals[hi - 15].start <= addr {
              SearchFrom(s, lo, hi, addr, size, hi - 15);
              lo := hi - 15;
            }
          }
        }
      }
    }

    /** find_cxx_sym in one object: whatever the hint is, the search finds the interval that contains the relocation
        if there is one. */
    method Find(addr: nat, size: nat) returns (found: int)
      requires Valid() && size > 0
      modifies this
      ensures Valid()
      ensures found == -1 <==> forall k :: 0 <= k < count ==> !Inside(vals[k], addr, size)
      ensures if found == -1 then last == old(last)
              else 0 <= last < count && Inside(vals[last], addr, size) && found == vals[last].idx
    {
      ghost var s := vals[..count];
      var lo: nat, hi: nat := Narrow(addr, size);
      while lo < hi
        invariant Between(s, lo, hi, addr, size) && last == old(last)
        decreases hi - lo
      {
        hide Separate, Between;
        assert hi <= |s| by { BetweenBounds(s, lo, hi, addr, size); }
        var mid := (lo + hi) / 2;
        assert s[mid] == vals[mid];
        if vals[mid].start <= addr {
          if vals[mid].end >= addr + size {
            last := mid;
            return vals[mid].idx;
          }
          SearchAbove(s, lo, hi, addr, size, mid);
          lo := mid + 1;
        } else {
          SearchBelow(s, lo, hi, addr, size, mid);
          hi := mid;
        }
      }
      forall k | 0 <= k < count ensures !Inside(vals[k], addr, size) {
        assert s[k] == vals[k];
      }
      found := -1;
    }
  }

  lemma BetweenBounds(s: seq<Val>, lo: nat, hi: nat, addr: nat, size: nat)
    requires Between(s, lo, hi, addr, size)
    ensures lo <= hi <= |s|
  {
  }

  /** Over the table of create_cache: the symbol found is the one and only one wanted that contains the relocation. */
  lemma FoundIsTheOne(vals: seq<Val>, symbols: seq<Symbol>, addr: nat, size: nat)
    requires Table(vals, symbols) && size > 0
    ensures forall k :: 0 <= k < |vals| && Inside(vals[k], addr, size) ==>
              vals[k].idx < |symbols| && Wanted(symbols, vals[k].idx)
              && Inside(Listed(symbols, vals[k].idx), addr, size)
              && forall i :: 0 <= i < |symbols| && symbols[i].defined && Inside(Listed(symbols, i), addr, size) ==>
                i == vals[k].idx
    ensures (exists k :: 0 <= k < |vals| && Inside(vals[k], addr, size))
            <==> exists i :: 0 <= i < |symbols| && Wanted(symbols, i) && Inside(Listed(symbols, i), addr, size)
  {
    forall k | 0 <= k < |vals| && Inside(vals[k], addr, size)
      ensures vals[k].idx < |symbols| && Wanted(symbols, vals[k].idx)
              && Inside(Listed(symbols, vals[k].idx), addr, size)
      ensures forall i :: 0 <= i < |symbols| && symbols[i].defined && Inside(Listed(symbols, i), addr, size) ==>
                i == vals[k].idx
    {
      assert Holds(vals[k], symbols);
      forall i | 0 <= i < |symbols| && symbols[i].defined && i != vals[k].idx
        ensures !Inside(Listed(symbols, i), addr, size) {
        assert Clear(symbols[vals[k].idx], symbols[i]);
      }
    }
    forall i | 0 <= i < |symbols| && Wanted(symbols, i) && Inside(Listed(symbols, i), addr, size)
      ensures exists k :: 0 <= k < |vals| && Inside(vals[k], addr, size)
    {
      assert Listed(symbols, i) in vals;
    }
  }
}
