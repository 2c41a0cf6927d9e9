/** Which already placed libraries lose their range (src/layout.c): one of two libraries that overlap in some
    object's dependencies, and then whatever depends on one that lost it. */
module Eviction {
  import opened Placement

  /** [base, end) of y meets [base, end) of x, x being the one that starts first. */
  ghost predicate Overlap(x: Entry, y: Entry)
    reads x`base, x`end, y`base
  {
    x.base <= y.base < x.end
  }

  ghost predicate Disjoint(x: Entry, y: Entry)
    reads x`base, x`end, y`base, y`end
  {
    x.end <= y.base || y.end <= x.base
  }

  /** qsort with deps_cmp: any arrangement by base will do. */
  method SortByBase(deps: seq<Entry>) returns (sorted: seq<Entry>)
    requires Distinct(deps)
    ensures Sorted(sorted) && Distinct(sorted) && forall x :: x in sorted <==> x in deps
  {
    hide Sorted, Spliced;
    sorted := [];
    NothingSorted();
    var n := 0;
    while n < |deps|
      invariant n <= |deps| && Sorted(sorted) && Distinct(sorted) && forall x :: x in sorted <==> x in deps[..n]
    {
      var at := FindPlace(sorted, deps[n]);
      assert deps[..n + 1] == deps[..n] + [deps[n]];
      SortedInsert(sorted, deps[n], at);
      SplicedMembers(sorted, deps[n], at);
      DistinctSplice(sorted, deps[n], at);
      SplicedIs(sorted, deps[n], at);
      sorted := sorted[..at] + [deps[n]] + sorted[at..];
      n := n + 1;
    }
    assert deps[..n] == deps;
  }

  lemma NothingSorted()
    ensures Sorted([])
  {
  }

  lemma SplicedIs(s: seq<Entry>, x: Entry, at: nat)
    requires at <= |s|
    ensures s[..at] + [x] + s[at..] == Spliced(s, x, at)
  {
  }

  method FindPlace(s: seq<Entry>, x: Entry) returns (at: nat)
    requires Sorted(s)
    ensures at <= |s| && (forall i :: 0 <= i < at ==> s[i].base <= x.base) && forall i :: at <= i < |s| ==>
              x.base <= s[i].base
  {
    at := 0;
    while at < |s| && s[at].base <= x.base
      invariant at <= |s| && forall i :: 0 <= i < at ==> s[i].base <= x.base
    {
      at := at + 1;
    }
  }

  /** What decides between two libraries: their ranges and how many objects use them. */
  datatype Claim = Claim(base: int, end: int, refs: nat)

  ghost function ClaimOf(x: Entry): (c: Claim)
    reads x`base, x`end, x`refs
    ensures c.base == x.base && c.end == x.end && c.refs == x.refs
  {
    Claim(x.base, x.end, x.refs)
  }

  /** The ranges of x and y meet and x is the one to give way: it is used less, or as much and starts later. */
  predicate Yields(x: Claim, y: Claim) {
    || (x.refs < y.refs && (x.base <= y.base < x.end || y.base <= x.base < y.end))
    || (x.refs == y.refs && y.base <= x.base < y.end)
  }

  /** x gives way to a library of deps that is not among those gone. */
  ghost predicate Outdone(x: Entry, deps: seq<Entry>, gone: seq<Entry>)
    reads x`base, x`end, x`refs, deps`base, deps`end, deps`refs
  {
    exists y :: y in deps && y !in gone && Yields(ClaimOf(x), ClaimOf(y))
  }

  /** The libraries of an object that lose their range, in the order they lose it: each loses it to one that
      still has its own. */
  ghost predicate Order(out: seq<Entry>, deps: seq<Entry>)
    reads out`base, out`end, out`refs, deps`base, deps`end, deps`refs
  {
    forall t :: 0 <= t < |out| ==> out[t] in deps && out[t] !in out[..t] && Outdone(out[t], deps, out[..t + 1])
  }

  /** The entries before position j do not overlap. */
  ghost predicate ClearUpTo(deps: seq<Entry>, j: nat)
    reads deps`base, deps`end
  {
    forall t :: 1 <= t < j && t < |deps| ==> deps[t - 1].end <= deps[t].base
  }

  /** Of all the dependencies, out have lost their range and deps have not. */
  ghost predicate Evicted(deps: seq<Entry>, out: seq<Entry>, all: seq<Entry>)
    reads all`done
  {
    && (forall x :: x in deps ==> x in all)
    && (forall x :: x in out ==> x in all)
    && (forall x :: x in all ==> if x in out then x !in deps && x.done == 0 else x in deps && x.done != 0)
  }

  function Without<T>(s: seq<T>, i: nat): (r: seq<T>)
    requires i < |s|
    ensures |r| == |s| - 1
    ensures forall k :: 0 <= k < |r| ==> r[k] == if k < i then s[k] else s[k + 1]
  {
    s[..i] + s[i + 1..]
  }

  lemma WithoutMembers(s: seq<Entry>, i: nat)
    requires i < |s| && Distinct(s)
    ensures forall x :: x in Without(s, i) <==> x in s && x != s[i]
  {
    var r := Without(s, i);
    forall x | x in s && x != s[i] ensures x in r {
      var k :| 0 <= k < |s| && s[k] == x;
      assert r[if k < i then k else k - 1] == x;
    }
  }

  lemma WithoutSorted(s: seq<Entry>, i: nat)
    requires i < |s| && Distinct(s) && Sorted(s)
    ensures Distinct(Without(s, i)) && Sorted(Without(s, i))
  {
  }

  /** Taking one of two overlapping entries out leaves the entries before the next position clear. */
  lemma WithoutClear(s: seq<Entry>, j: nat, i: nat)
    requires 1 <= j < |s| && ClearUpTo(s, j) && (i == j || i == j - 1)
    ensures ClearUpTo(Without(s, i), if i > 0 then i else 1)
  {
  }

  /** The one entry that goes loses its range to the other one, which stays. */
  lemma OrderNext(deps: seq<Entry>, j: nat, out: seq<Entry>, all: seq<Entry>, i: nat)
    requires 1 <= j < |deps| && Distinct(deps) && Overlap(deps[j - 1], deps[j]) && (i == j || i == j - 1)
    requires if i == j then deps[j].refs <= deps[j - 1].refs else deps[j - 1].refs < deps[j].refs
    requires Order(out, all) && forall x :: x in deps ==> x in all && x !in out
    ensures Order(out + [deps[i]], all)
  {
    var y, more := deps[if i == j then j - 1 else j], out + [deps[i]];
    assert y in deps && deps[i] in deps && y != deps[i];
    forall t | 0 <= t < |more| ensures more[t] in all && more[t] !in more[..t] && Outdone(more[t], all, more[..t + 1]) {
      if t < |out| {
        assert more[..t] == out[..t] && more[..t + 1] == out[..t + 1];
      } else {
        assert more[..t] == out && more[..t + 1] == more && y !in more;
      }
    }
  }

  lemma EvictedNext(deps: seq<Entry>, out: seq<Entry>, all: seq<Entry>, i: nat)
    requires i < |deps| && Distinct(deps) && (forall x :: x in deps ==> x in all && x !in out)
    requires (forall x :: x in out ==> x in all) && deps[i].done == 0
    requires forall x :: x in all && x != deps[i] ==>
               if x in out then x !in deps && x.done == 0 else x in deps && x.done != 0
    ensures Evicted(Without(deps, i), out + [deps[i]], all)
  {
    WithoutMembers(deps, i);
    assert deps[i] in deps;
  }

  lemma EvictedFacts(deps: seq<Entry>, out: seq<Entry>, all: seq<Entry>)
    requires Evicted(deps, out, all)
    ensures forall x :: x in deps ==> x in all && x !in out && x.done != 0
    ensures forall x :: x in out ==> x in all
    ensures forall x :: x in all ==> if x in out then x !in deps && x.done == 0 else x in deps && x.done != 0
  {
  }

  /** The loop over one object's sorted dependencies. Its index moves back as well as forward. */
  method EvictFrom(sorted: seq<Entry>, ghost all: seq<Entry>) returns (ghost out: seq<Entry>)
    requires Sorted(sorted) && Distinct(sorted) && (forall x :: x in sorted <==> x in all)
    requires forall x :: x in all ==> x.done != 0 && x.dynamic
    modifies all`done
    ensures Order(out, all) && forall x :: x in all ==> x.done == if x in out then 0 else old(x.done)
    ensures forall x, y :: x in all && y in all && x != y && x !in out && y !in out ==> Disjoint(x, y)
  {
    EvictedStart(sorted, all);
    hide *;
    var deps := sorted;
    out := [];
    var j := 1;
    while j < |deps|
      invariant j >= 1 && Sorted(deps) && Distinct(deps) && ClearUpTo(deps, j) && Evicted(deps, out, all)
                && Order(out, all)
      invariant forall x :: x in deps ==> x.done == old(x.done)
      decreases 2 * |deps| - j
    {
      EvictedFacts(deps, out, all);
      assert deps[j] in deps && deps[j] in all;
      DynamicEither(deps[j], deps[j - 1]);
      if deps[j].base < deps[j - 1].end && EitherDynamic(deps[j], deps[j - 1]) {
        deps, j, out := EvictOne(deps, j, out, all);
      } else {
        ClearNext(deps, j);
      }
      j := j + 1;
    }
    EvictedFacts(deps, out, all);
    AllDisjoint(deps, j);
  }

  /** Take one of the overlapping entries j - 1 and j out. */
  method EvictOne(deps: seq<Entry>, j: nat, ghost out: seq<Entry>, ghost all: seq<Entry>)
    returns (left: seq<Entry>, back: nat, ghost more: seq<Entry>)
    requires 1 <= j < |deps| && Sorted(deps) && Distinct(deps) && ClearUpTo(deps, j)
    requires Evicted(deps, out, all) && Order(out, all)
    requires deps[j].base < deps[j - 1].end && forall x :: x in deps ==> x in all
    modifies all`done
    ensures |left| == |deps| - 1 && back < j && 2 * |left| - (back + 1) < 2 * |deps| - j
    ensures Sorted(left) && Distinct(left) && ClearUpTo(left, back + 1)
    ensures Evicted(left, more, all) && Order(more, all)
    ensures forall x :: x in left ==> x in deps && x.done == old(x.done)
  {
    EvictedFacts(deps, out, all);
    OverlapIntro(deps, j);
    hide *;
    var i := j;
    if deps[j - 1].refs < deps[j].refs {
      i := i - 1;
    }
    assert deps[i] in deps;
    WithoutSorted(deps, i);
    WithoutClear(deps, j, i);
    WithoutMembers(deps, i);
    OrderNext(deps, j, out, all, i);
    deps[i].done := 0;
    EvictedNext(deps, out, all, i);
    left, more := Without(deps, i), out + [deps[i]];
    back := i;
    if back > 0 {
      back := back - 1;
    }
  }

  lemma OverlapIntro(deps: seq<Entry>, j: nat)
    requires 1 <= j < |deps| && Sorted(deps) && deps[j].base < deps[j - 1].end
    ensures Overlap(deps[j - 1], deps[j])
  {
  }

  /** x->type == ET_DYN || y->type == ET_DYN */
  predicate EitherDynamic(x: Entry, y: Entry)
    reads x`dynamic, y`dynamic
  {
    x.dynamic || y.dynamic
  }

  lemma DynamicEither(x: Entry, y: Entry)
    requires x.dynamic
    ensures EitherDynamic(x, y)
  {
  }

  lemma EvictedStart(sorted: seq<Entry>, all: seq<Entry>)
    requires (forall x :: x in sorted <==> x in all) && forall x :: x in all ==> x.done != 0
    ensures Evicted(sorted, [], all) && ClearUpTo(sorted, 1) && Order([], all)
  {
  }

  lemma ClearNext(deps: seq<Entry>, j: nat)
    requires 1 <= j < |deps| && ClearUpTo(deps, j)
    ensures deps[j - 1].end <= deps[j].base ==> ClearUpTo(deps, j + 1)
  {
  }

  lemma AllDisjoint(deps: seq<Entry>, j: nat)
    requires Sorted(deps) && ClearUpTo(deps, j) && j >= |deps|
    ensures forall x, y :: x in deps && y in deps && x != y ==> Disjoint(x, y)
  {
    forall x, y | x in deps && y in deps && x != y ensures Disjoint(x, y) {
      var i :| 0 <= i < |deps| && deps[i] == x;
      var k :| 0 <= k < |deps| && deps[k] == y;
      if i < k { assert deps[i + 1].base <= deps[k].base; } else { assert deps[k + 1].base <= deps[i].base; }
    }
  }

  /** The dependencies of an object that have a range. */
  method Collect(depends: seq<Entry>) returns (deps: seq<Entry>)
    requires Distinct(depends)
    ensures Distinct(deps) && forall x :: x in deps <==> x in depends && x.dynamic && x.done != 0
  {
    deps := [];
    var j := 0;
    while j < |depends|
      invariant j <= |depends| && Distinct(deps) && forall x :: x in deps <==>
                  x in depends[..j] && x.dynamic && x.done != 0
    {
      assert depends[..j + 1] == depends[..j] + [depends[j]];
      if depends[j].dynamic && depends[j].done != 0 {
        deps := deps + [depends[j]];
      }
      j := j + 1;
    }
    assert depends[..j] == depends;
  }

  /** Libraries of one object that keep their range do not overlap. */
  ghost predicate Settled(depends: seq<Entry>)
    reads depends`base, depends`end, depends`dynamic, depends`done
  {
    forall x, y :: x in depends && y in depends && x != y && x.dynamic && y.dynamic && x.done != 0 && y.done != 0 ==>
      Disjoint(x, y)
  }

  /** One object's turn: deps are its dependencies with a range, out those that lose it. */
  method EvictObject(depends: seq<Entry>, ghost everything: set<Entry>)
    returns (ghost out: seq<Entry>, ghost deps: seq<Entry>)
    requires Distinct(depends) && forall x :: x in depends ==> x in everything
    modifies everything`done
    ensures Settled(depends) && Order(out, deps)
    ensures forall x :: x in deps <==> x in depends && x.dynamic && old(x.done) != 0
    ensures forall x :: x in everything ==> x.done == if x in out then 0 else old(x.done)
  {
    hide Sorted, Outdone;
    var having := Collect(depends);
    deps, out := having, [];
    if having != [] {
      var sorted := SortByBase(having);
      out := EvictFrom(sorted, having);
    }
  }

  /** The libraries that lose their range while all objects are gone through, in the order they lose it: for each
      one some object needs it together with a library that it gives way to, that had a range in the first place
      and has not lost it yet. */
  ghost predicate Sequence(order: seq<Entry>, binlibs: seq<seq<Entry>>, claims: map<Entry, Claim>, ranged: set<Entry>) {
    forall t :: 0 <= t < |order| ==> Loses(order[t], order[..t], binlibs, claims, ranged)
  }

  /** x is the next to lose its range when those gone have lost theirs. */
  ghost predicate Loses(x: Entry, gone: seq<Entry>, binlibs: seq<seq<Entry>>, claims: map<Entry, Claim>,
                        ranged: set<Entry>)
  {
    x in ranged && x !in gone && exists b :: b in binlibs && x in b && Rival(x, b, gone + [x], claims, ranged)
  }

  /** As Outdone, by a library that had a range in the first place. */
  ghost predicate Rival(x: Entry, deps: seq<Entry>, gone: seq<Entry>, claims: map<Entry, Claim>, ranged: set<Entry>) {
    exists y :: y in deps && y in ranged && y !in gone && x in claims && y in claims && Yields(claims[x], claims[y])
  }

  ghost predicate Claimed(everything: set<Entry>, claims: map<Entry, Claim>)
    reads everything`base, everything`end, everything`refs
  {
    forall x :: x in everything ==> x in claims && claims[x] == ClaimOf(x)
  }

  /** All objects in turn: afterwards no two libraries that keep their range and that one object needs
      together overlap, and the libraries that lost it are those of an order in which each one loses it to a
      library that still has its own. */
  method EvictAll(binlibs: seq<seq<Entry>>, ghost everything: set<Entry>, ghost ranged: set<Entry>,
                  ghost claims: map<Entry, Claim>)
    returns (ghost order: seq<Entry>)
    requires forall b :: b in binlibs ==> Distinct(b) && forall x :: x in b ==> x in everything
    requires forall x :: x in everything ==> (x in ranged <==> x.dynamic && x.done != 0)
    requires Claimed(everything, claims)
    modifies everything`done
    ensures forall b :: b in binlibs ==> Settled(b)
    ensures Sequence(order, binlibs, claims, ranged)
    ensures forall x :: x in everything ==> x.done == if x in order then 0 else old(x.done)
  {
    hide Outdone, Distinct, Sequence, Order;
    order := [];
    SequenceStart(binlibs, claims, ranged);
    var i := 0;
    while i < |binlibs|
      invariant i <= |binlibs| && Sequence(order, binlibs, claims, ranged)
      invariant forall b :: b in binlibs[..i] ==> Settled(b)
      invariant forall x :: x in everything ==> x.done == if x in order then 0 else old(x.done)
    {
      var b := binlibs[i];
      assert b in binlibs;
      ghost var out, deps := EvictObject(b, everything);
      SequenceNext(order, out, deps, b, binlibs, everything, claims, ranged);
      order := order + out;
      assert binlibs[..i + 1] == binlibs[..i] + [b];
      i := i + 1;
    }
    assert binlibs[..i] == binlibs;
  }

  lemma SequenceStart(binlibs: seq<seq<Entry>>, claims: map<Entry, Claim>, ranged: set<Entry>)
    ensures Sequence([], binlibs, claims, ranged)
  {
  }

  /** A rival that still has its range is not among those that lost it for earlier objects. */
  lemma RivalStill(x: Entry, deps: seq<Entry>, gone: seq<Entry>, b: seq<Entry>, order: seq<Entry>,
                   everything: set<Entry>, claims: map<Entry, Claim>, ranged: set<Entry>)
    requires Outdone(x, deps, gone) && forall y :: y in deps ==> y in b && y in ranged && y !in order
    requires Claimed(everything, claims) && x in everything && forall y :: y in b ==> y in everything
    ensures Rival(x, b, order + gone, claims, ranged)
  {
    var y :| y in deps && y !in gone && Yields(ClaimOf(x), ClaimOf(y));
    hide Yields;
    assert y in b && y in ranged && y !in order + gone;
  }

  lemma OrderFacts(out: seq<Entry>, deps: seq<Entry>, t: nat)
    requires Order(out, deps) && t < |out|
    ensures out[t] in deps && out[t] !in out[..t] && Outdone(out[t], deps, out[..t + 1])
  {
    hide Outdone;
  }

  lemma LosesIntro(x: Entry, gone: seq<Entry>, b: seq<Entry>, binlibs: seq<seq<Entry>>, claims: map<Entry, Claim>,
                   ranged: set<Entry>)
    requires x in ranged && x !in gone && b in binlibs && x in b && Rival(x, b, gone + [x], claims, ranged)
    ensures Loses(x, gone, binlibs, claims, ranged)
  {
    hide Rival;
  }

  lemma SequenceNext(order: seq<Entry>, out: seq<Entry>, deps: seq<Entry>, b: seq<Entry>, binlibs: seq<seq<Entry>>,
                     everything: set<Entry>, claims: map<Entry, Claim>, ranged: set<Entry>)
    requires Sequence(order, binlibs, claims, ranged) && Order(out, deps) && b in binlibs
    requires forall x :: x in deps ==> x in b && x in ranged && x !in order
    requires Claimed(everything, claims) && forall y :: y in b ==> y in everything
    ensures Sequence(order + out, binlibs, claims, ranged)
  {
    hide Loses, Order, Claimed;
    var more := order + out;
    forall t | 0 <= t < |more| ensures Loses(more[t], more[..t], binlibs, claims, ranged) {
      if t < |order| {
        assert more[..t] == order[..t];
      } else {
        var k := t - |order|;
        assert more[..t] == order + out[..k] && out[..k + 1] == out[..k] + [out[k]];
        assert more[..t] + [out[k]] == order + out[..k + 1];
        OrderFacts(out, deps, k);
        RivalStill(out[k], deps, out[..k + 1], b, order, everything, claims, ranged);
        LosesIntro(out[k], more[..t], b, binlibs, claims, ranged);
      }
    }
  }

  /** Some object needs both, and x gives way to y. */
  ghost predicate GivesWay(x: Entry, y: Entry, binlibs: seq<seq<Entry>>, claims: map<Entry, Claim>) {
    (exists b :: b in binlibs && x in b && y in b) && x in claims && y in claims && Yields(claims[x], claims[y])
  }

  ghost predicate Path(path: seq<Entry>, binlibs: seq<seq<Entry>>, claims: map<Entry, Claim>) {
    forall k :: 0 < k < |path| ==> GivesWay(path[k - 1], path[k], binlibs, claims)
  }

  lemma PathLonger(x: Entry, path: seq<Entry>, binlibs: seq<seq<Entry>>, claims: map<Entry, Claim>)
    requires |path| >= 1 && Path(path, binlibs, claims) && GivesWay(x, path[0], binlibs, claims)
    ensures Path([x] + path, binlibs, claims)
  {
    hide GivesWay;
  }

  lemma RivalOf(order: seq<Entry>, t: nat, binlibs: seq<seq<Entry>>, claims: map<Entry, Claim>, ranged: set<Entry>)
    returns (y: Entry)
    requires Sequence(order, binlibs, claims, ranged) && t < |order|
    ensures y in ranged && y !in order[..t + 1] && GivesWay(order[t], y, binlibs, claims)
  {
    hide Yields;
    var b :| b in binlibs && order[t] in b && Rival(order[t], b, order[..t] + [order[t]], claims, ranged);
    assert order[..t + 1] == order[..t] + [order[t]];
    y :| y in b && y in ranged && y !in order[..t + 1] && order[t] in claims && y in claims
         && Yields(claims[order[t]], claims[y]);
  }

  lemma Later(order: seq<Entry>, u: nat, t: nat)
    requires u < |order| && t < |order| && order[u] !in order[..t + 1]
    ensures u > t
  {
    forall v | 0 <= v <= t ensures order[v] in order[..t + 1] {
      assert order[..t + 1][v] == order[v];
    }
  }

  lemma PathAlone(y: Entry, binlibs: seq<seq<Entry>>, claims: map<Entry, Claim>)
    ensures Path([y], binlibs, claims)
  {
  }

  /** Whatever lost its range is linked by such a path to a library that kept its own: the range was given up for
      something at least as much used that is still there. */
  lemma {:induction false} Survivor(order: seq<Entry>, t: nat, binlibs: seq<seq<Entry>>, claims: map<Entry, Claim>,
                                    ranged: set<Entry>)
    returns (path: seq<Entry>)
    requires Sequence(order, binlibs, claims, ranged) && t < |order|
    ensures |path| >= 2 && path[0] == order[t] && Path(path, binlibs, claims)
    ensures path[|path| - 1] in ranged && path[|path| - 1] !in order
    decreases |order| - t
  {
    hide *;
    var y := RivalOf(order, t, binlibs, claims, ranged);
    var rest := [y];
    if y in order {
      var u :| 0 <= u < |order| && order[u] == y;
      Later(order, u, t);
      rest := Survivor(order, u, binlibs, claims, ranged);
    } else {
      PathAlone(y, binlibs, claims);
    }
    PathLonger(order[t], rest, binlibs, claims);
    path := [order[t]] + rest;
  }

  // Dependents of libraries that lost their range

  /** A library needs one of the given ones. */
  ghost predicate Needs(x: Entry, lost: set<Entry>)
    reads x`depends
  {
    exists y :: y in x.depends && y in lost
  }

  /** Every dependency of a dependency is a dependency. */
  ghost predicate Closed(libs: seq<Entry>)
    reads libs`depends
  {
    forall x, y :: x in libs && y in x.depends && y in libs ==> forall z :: z in y.depends ==> z in x.depends
  }

  lemma NeedsThrough(libs: seq<Entry>, x: Entry, y: Entry, lost: set<Entry>)
    requires Closed(libs) && x in libs && y in libs && y in x.depends && Needs(y, lost)
    ensures Needs(x, lost)
  {
  }

  /** Some dependency has no range now. */
  method NeedsUndone(x: Entry) returns (found: bool)
    ensures found <==> exists y :: y in x.depends && y.done == 0
  {
    var j := 0;
    while j < |x.depends|
      invariant j <= |x.depends| && forall k :: 0 <= k < j ==> x.depends[k].done != 0
    {
      if x.depends[j].done == 0 {
        return true;
      }
      j := j + 1;
    }
    found := false;
  }

  /** Libraries that depend on one without a range lose theirs. One pass is enough, in whatever order the
      libraries come, because the lists of dependencies are closed: afterwards no library with a range
      depends on one without. */
  method Propagate(libs: seq<Entry>, ghost everything: set<Entry>, ghost lost: set<Entry>)
    requires Distinct(libs) && Closed(libs)
    requires forall x :: x in libs ==> x in everything && forall y :: y in x.depends ==> y in everything
    requires forall x :: x in everything ==> (x in lost <==> x.done == 0)
    modifies libs`done
    ensures forall x :: x in libs ==> x.done == if Needs(x, lost) then 0 else old(x.done)
    ensures forall x, y :: x in libs && x.done != 0 && y in x.depends ==> y.done != 0
  {
    hide Closed, Distinct;
    ghost var was := map x | x in everything :: x.done;
    var i := 0;
    while i < |libs|
      invariant i <= |libs|
      invariant forall x :: x in everything ==> x.done == if x in libs[..i] && Needs(x, lost) then 0 else was[x]
    {
      var x := libs[i];
      assert x in libs && libs[..i + 1] == libs[..i] + [x];
      NotBefore(libs, i);
      VisitIsExact(libs, i, everything, lost, was);
      Visit(x);
      i := i + 1;
    }
    assert libs[..i] == libs;
    forall x, y | x in libs && x.done != 0 && y in x.depends ensures y.done != 0 {
      if y in libs && Needs(y, lost) { NeedsThrough(libs, x, y, lost); }
    }
  }

  lemma NotBefore(libs: seq<Entry>, i: nat)
    requires Distinct(libs) && i < |libs|
    ensures libs[i] !in libs[..i]
  {
  }

  /** Looking at the flags as they are now tells whether a library without a range was needed from the start. */
  lemma VisitIsExact(libs: seq<Entry>, i: nat, everything: set<Entry>, lost: set<Entry>, was: map<Entry, nat>)
    requires Closed(libs) && i < |libs| && everything <= was.Keys
    requires forall x :: x in libs ==> x in everything && forall y :: y in x.depends ==> y in everything
    requires forall x :: x in everything ==> (x in lost <==> was[x] == 0)
    requires forall x :: x in everything ==> x.done == if x in libs[..i] && Needs(x, lost) then 0 else was[x]
    ensures (exists y :: y in libs[i].depends && y.done == 0) <==> Needs(libs[i], lost)
  {
    var x := libs[i];
    assert x in libs;
    forall y | y in x.depends && y.done == 0 ensures Needs(x, lost) {
      if was[y] != 0 {
        assert y in libs;
        NeedsThrough(libs, x, y, lost);
      }
    }
  }

  /** One library's turn. */
  method Visit(x: Entry)
    modifies x`done
    ensures x.done == if exists y :: y in x.depends && old(y.done) == 0 then 0 else old(x.done)
  {
    if x.done != 0 {
      var found := NeedsUndone(x);
      if found {
        x.done := 0;
      }
    }
  }

  /** Without closed lists order matters: a library that is passed before its dependency keeps a range it
      should not have. */
  method OrderMatters() returns (a: Entry, b: Entry)
    ensures b in a.depends && a.done != 0 && b.done == 0
  {
    var c := new Entry(0, 1, 1, 0);
    b := new Entry(2, 3, 3, 0);
    a := new Entry(4, 5, 5, 0);
    b.done, b.depends := 1, [c];
    a.done, a.depends := 1, [b];
    assert c in b.depends;
    Visit(a);
    Visit(b);
  }
}
