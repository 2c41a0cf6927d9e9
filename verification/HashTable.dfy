/** The hash table (src/hashtab.c): double hashing in a table of prime size, with tombstones for deleted
    entries and counters that are only set straight when the table grows. */
module HashTable {
  import opened Wrappers

  ghost predicate IsPrime(p: int) {
    p > 1 && forall d :: 1 < d < p ==> p % d != 0
  }

  /** EMPTY_ENTRY, DELETED_ENTRY, or an element with its key. */
  datatype Slot<K, V> = Empty | Deleted | Live(k: K, v: V)

  // The probe sequence

  /** hash2 */
  function Step(h: nat, n: nat): (s: nat)
    requires n > 2
    ensures 1 <= s <= n - 2
  {
    1 + h % (n - 2)
  }

  /** The j-th slot looked at. */
  function Path(h: nat, n: nat, j: nat): (i: nat)
    requires n > 2
    ensures i < n
  {
    (h % n + j * (1 + h % (n - 2))) % n
  }

  lemma PathIs(h: nat, n: nat, j: nat)
    requires n > 2
    ensures Path(h, n, j) == (h % n + j * Step(h, n)) % n
  {
  }

  lemma ModOf(v: int, n: int, q: int, r: int)
    requires n > 0 && v == q * n + r && 0 <= r < n
    ensures v % n == r && v / n == q
  {
    var d := v / n - q;
    assert d * n == r - v % n;
    if d >= 1 { Multiple(d, n); } else if d <= -1 { Multiple(-d, n); }
  }

  lemma Multiple(d: int, n: int)
    requires d >= 1 && n > 0
    ensures d * n >= n && (-d) * n == -(d * n)
  {
  }

  lemma ModBack(v: int, n: int)
    requires n > 0
    ensures v == (v / n) * n + v % n && 0 <= v % n < n
  {
  }

  /** The index update of the probe loops. */
  lemma PathNext(h: nat, n: nat, j: nat)
    requires n > 2
    ensures var next := Path(h, n, j) + Step(h, n); Path(h, n, j + 1) == if next >= n then next - n else next
  {
    PathIs(h, n, j);
    PathIs(h, n, j + 1);
    hide Path, Step;
    var s, b := Step(h, n), h % n;
    var v := b + j * s;
    ModBack(v, n);
    assert b + (j + 1) * s == v + s by { assert (j + 1) * s == j * s + s; }
    var next := v % n + s;
    if next >= n {
      assert v + s == (v / n + 1) * n + (next - n) by { assert (v / n + 1) * n == (v / n) * n + n; }
      ModOf(v + s, n, v / n + 1, next - n);
    } else {
      ModOf(v + s, n, v / n, next);
    }
  }

  lemma MulAssoc(a: int, b: int, c: int)
    ensures a * (b * c) == b * (a * c)
  {
  }

  /** The remainder of p by s is a smaller step with the same property. */
  lemma Remainder(p: int, j: int, s: int, q: int, t: int, r: int)
    requires p == t * s + r && j * s == q * p
    ensures j * r == (j - t * q) * p
  {
    assert j * p == j * (t * s) + j * r;
    MulAssoc(j, t, s);
    MulAssoc(t, q, p);
    assert (t * q) * p == t * (q * p);
    assert (j - t * q) * p == j * p - (t * q) * p;
  }

  /** A prime does not divide a product of two numbers below it. */
  lemma {:induction false} PrimeDivides(p: int, j: int, s: int, q: int)
    requires IsPrime(p) && 0 < j < p && 0 < s < p
    ensures j * s != q * p
    decreases s
  {
    if s == 1 {
      if q >= 1 { Multiple(q, p); } else if q <= -1 { Multiple(-q, p); }
    } else {
      var t, r := p / s, p % s;
      ModBack(p, s);
      PrimeDivides(p, j, r, j - t * q);
      if j * s == q * p { Remainder(p, j, s, q, t, r); }
    }
  }

  /** No slot is looked at twice within one round. */
  lemma PathDistinct(h: nat, n: nat, i: nat, j: nat)
    requires IsPrime(n) && n > 2 && i < j < n
    ensures Path(h, n, i) != Path(h, n, j)
  {
    PathIs(h, n, i);
    PathIs(h, n, j);
    hide Path, Step;
    var s, b := Step(h, n), h % n;
    var u, v := b + i * s, b + j * s;
    Distribute(j, i, s);
    RemainderGap(u, v, n);
    PrimeDivides(n, j - i, s, v / n - u / n);
  }

  lemma Distribute(a: int, b: int, c: int)
    ensures (a - b) * c == a * c - b * c
  {
  }

  /** Equal remainders differ by a multiple. */
  lemma RemainderGap(u: int, v: int, n: int)
    requires n > 0
    ensures u % n == v % n ==> v - u == (v / n - u / n) * n
  {
    ModBack(u, n);
    ModBack(v, n);
    Distribute(v / n, u / n, n);
  }

  ghost function Visited(h: nat, n: nat, j: nat): set<int>
    requires n > 2
  {
    if j == 0 then {} else Visited(h, n, j - 1) + {Path(h, n, j - 1) as int}
  }

  lemma {:induction false} VisitedSize(h: nat, n: nat, j: nat)
    requires IsPrime(n) && n > 2 && j <= n
    ensures |Visited(h, n, j)| == j
    ensures forall i :: i in Visited(h, n, j) ==> 0 <= i < n && exists t :: 0 <= t < j && Path(h, n, t) == i
  {
    if j > 0 {
      VisitedSize(h, n, j - 1);
      if Path(h, n, j - 1) in Visited(h, n, j - 1) {
        var t :| 0 <= t < j - 1 && Path(h, n, t) == Path(h, n, j - 1);
        PathDistinct(h, n, t, j - 1);
      }
    }
  }

  ghost function Below(n: nat): (s: set<int>)
    ensures |s| == n && forall i :: i in s <==> 0 <= i < n
  {
    if n == 0 then {} else Below(n - 1) + {n - 1}
  }

  lemma SubsetSize(a: set<int>, b: set<int>)
    requires a <= b && |a| == |b|
    ensures a == b
  {
    assert b == a + (b - a);
    assert |b| == |a| + |b - a|;
  }

  /** One round looks at every slot. */
  lemma PathVisits(h: nat, n: nat, i: nat)
    requires IsPrime(n) && n > 2 && i < n
    ensures exists j :: 0 <= j < n && Path(h, n, j) == i
  {
    VisitedSize(h, n, n);
    SubsetSize(Visited(h, n, n), Below(n));
    assert (i as int) in Visited(h, n, n);
  }

  // Tables as sequences of slots

  /** How many slots hold an element (live), or are not empty. */
  ghost function Count<K, V>(s: seq<Slot<K, V>>, live: bool): (c: nat)
    ensures c <= |s|
  {
    if s == [] then 0 else Count(s[..|s| - 1], live) + One(s[|s| - 1], live)
  }

  ghost function One<K, V>(x: Slot<K, V>, live: bool): nat {
    if x.Live? || (!live && x.Deleted?) then 1 else 0
  }

  lemma {:induction false} CountUpdate<K, V>(s: seq<Slot<K, V>>, i: nat, x: Slot<K, V>, live: bool)
    requires i < |s|
    ensures Count(s[i := x], live) == Count(s, live) - One(s[i], live) + One(x, live)
  {
    var n := |s| - 1;
    if i < n {
      CountUpdate(s[..n], i, x, live);
      assert s[i := x][..n] == s[..n][i := x];
    } else {
      assert s[i := x][..n] == s[..n];
    }
  }

  lemma {:induction false} CountFull<K, V>(s: seq<Slot<K, V>>)
    requires Count(s, false) < |s|
    ensures exists i :: 0 <= i < |s| && s[i].Empty?
  {
    var n := |s| - 1;
    if s[n].Empty? { } else {
      CountFull(s[..n]);
      var i :| 0 <= i < n && s[..n][i].Empty?;
      assert s[i].Empty?;
    }
  }

  lemma {:induction false} CountAllEmpty<K, V>(s: seq<Slot<K, V>>, live: bool)
    requires forall i :: 0 <= i < |s| ==> s[i].Empty?
    ensures Count(s, live) == 0
  {
    if s != [] { CountAllEmpty(s[..|s| - 1], live); }
  }

  /** The first j slots looked at for h are in use (slot open counts as in use). */
  ghost predicate Busy<K, V>(s: seq<Slot<K, V>>, h: nat, j: nat, open: int)
    requires |s| > 2
  {
    forall t :: 0 <= t < j ==> !s[Path(h, |s|, t)].Empty? || Path(h, |s|, t) == open
  }

  /** A search for h gets as far as slot i. */
  ghost predicate Reached<K, V>(s: seq<Slot<K, V>>, h: nat, i: nat, open: int)
    requires |s| > 2
  {
    exists j :: 0 <= j < |s| && Path(h, |s|, j) == i && Busy(s, h, j, open)
  }

  /** Every element can be found by its hash, and no key is there twice. */
  ghost predicate Searchable<K(!new), V>(s: seq<Slot<K, V>>, hash: K -> nat, open: int)
    requires |s| > 2
  {
    && (forall i :: 0 <= i < |s| && s[i].Live? ==> Reached(s, hash(s[i].k), i, open))
    && (forall i, j :: 0 <= i < j < |s| && s[i].Live? && s[j].Live? ==> s[i].k != s[j].k)
  }

  /** The elements of the table. */
  ghost predicate Holds<K, V>(s: seq<Slot<K, V>>, m: map<K, V>) {
    && (forall i :: 0 <= i < |s| && s[i].Live? ==> s[i].k in m && m[s[i].k] == s[i].v)
    && (forall k :: k in m ==> exists i :: 0 <= i < |s| && s[i] == Live(k, m[k]))
  }

  lemma BusyMore<K, V>(s: seq<Slot<K, V>>, i: nat, x: Slot<K, V>, h: nat, j: nat, open: int, open': int)
    requires |s| > 2 && i < |s| && Busy(s, h, j, open) && (x.Empty? ==> open' == i)
             && (open == open' || open == i || open == -1)
    ensures Busy(s[i := x], h, j, open')
  {
  }

  /** Filling or freeing one slot keeps every other element within reach, as long as no hole is left. */
  lemma SearchableUpdate<K(!new), V>(s: seq<Slot<K, V>>, hash: K -> nat, i: nat, x: Slot<K, V>, open: int, open': int)
    requires |s| > 2 && i < |s| && Searchable(s, hash, open)
    requires (x.Empty? ==> open' == i) && (open == open' || open == i || open == -1)
    requires x.Live? ==> Reached(s, hash(x.k), i, open) && forall t :: 0 <= t < |s| && t != i && s[t].Live? ==>
               s[t].k != x.k
    ensures Searchable(s[i := x], hash, open')
  {
    var now := s[i := x];
    forall t | 0 <= t < |now| && now[t].Live? ensures Reached(now, hash(now[t].k), t, open') {
      assert Reached(s, hash(now[t].k), t, open);
      var j :| 0 <= j < |s| && Path(hash(now[t].k), |s|, j) == t && Busy(s, hash(now[t].k), j, open);
      BusyMore(s, i, x, hash(now[t].k), j, open, open');
    }
  }

  /** A search that meets an empty slot without meeting the key shows the key is not there. */
  lemma NotThere<K(!new), V>(s: seq<Slot<K, V>>, hash: K -> nat, m: map<K, V>, k: K, j: nat)
    requires |s| > 2 && Searchable(s, hash, -1) && Holds(s, m)
    requires Missed(s, hash(k), k, j)
    requires s[Path(hash(k), |s|, j)].Empty?
    ensures k !in m && forall t :: 0 <= t < |s| && s[t].Live? ==> s[t].k != k
  {
    forall t | 0 <= t < |s| && s[t].Live? ensures s[t].k != k {
      assert Reached(s, hash(s[t].k), t, -1);
      var q :| 0 <= q < |s| && Path(hash(s[t].k), |s|, q) == t && Busy(s, hash(s[t].k), q, -1);
      assert s[t].k == k ==> q <= j;
    }
  }

  /** The first j slots looked at for h hold something other than key k. */
  ghost predicate Missed<K, V>(s: seq<Slot<K, V>>, h: nat, k: K, j: nat)
    requires |s| > 2
  {
    forall t :: 0 <= t < j ==> MissedAt(s, Path(h, |s|, t), k)
  }

  ghost predicate MissedAt<K, V>(s: seq<Slot<K, V>>, i: nat, k: K)
    requires i < |s|
  {
    !s[i].Empty? && !(s[i].Live? && s[i].k == k)
  }

  lemma MissedNext<K, V>(s: seq<Slot<K, V>>, h: nat, k: K, j: nat)
    requires |s| > 2 && Missed(s, h, k, j)
    requires !s[Path(h, |s|, j)].Empty? && !(s[Path(h, |s|, j)].Live? && s[Path(h, |s|, j)].k == k)
    ensures Missed(s, h, k, j + 1)
  {
  }

  /** The search has not gone past an empty slot. */
  lemma MissedEmpty<K, V>(s: seq<Slot<K, V>>, h: nat, k: K, j: nat, last: nat)
    requires |s| > 2 && j <= last && s[Path(h, |s|, last)].Empty?
    requires !s[Path(h, |s|, j)].Empty?
    ensures j < last
  {
  }

  lemma MissedStart<K, V>(s: seq<Slot<K, V>>, h: nat, k: K)
    requires |s| > 2
    ensures Missed(s, h, k, 0)
  {
  }

  /** A slot found after slots in use is reached. */
  lemma ReachedIntro<K, V>(s: seq<Slot<K, V>>, h: nat, j: nat, last: nat, open: int)
    requires |s| > 2 && j <= last < |s| && Busy(s, h, j, open)
    ensures Reached(s, h, Path(h, |s|, j), open)
  {
  }

  lemma MissedBusy<K, V>(s: seq<Slot<K, V>>, h: nat, k: K, j: nat, open: int)
    requires |s| > 2 && Missed(s, h, k, j)
    ensures forall t :: 0 <= t <= j ==> Busy(s, h, t, open)
  {
    forall u | 0 <= u < j ensures !s[Path(h, |s|, u)].Empty? {
      assert MissedAt(s, Path(h, |s|, u), k);
    }
  }

  lemma PathStart(h: nat, n: nat)
    requires n > 2
    ensures h % n == Path(h, n, 0)
  {
    ModBack(h, n);
    ModOf(h % n, n, 0, h % n);
  }

  lemma HoldsAt<K, V>(s: seq<Slot<K, V>>, m: map<K, V>, i: nat)
    requires Holds(s, m) && i < |s| && s[i].Live?
    ensures s[i].k in m && m[s[i].k] == s[i].v
  {
  }

  lemma HoldsAdd<K, V>(s: seq<Slot<K, V>>, m: map<K, V>, i: nat, k: K, v: V)
    requires i < |s| && !s[i].Live? && Holds(s, m) && k !in m
    ensures Holds(s[i := Live(k, v)], m[k := v])
  {
    var now, with := s[i := Live(k, v)], m[k := v];
    forall q | q in with ensures exists t :: 0 <= t < |now| && now[t] == Live(q, with[q]) {
      if q == k { assert now[i] == Live(k, v); } else {
        var t :| 0 <= t < |s| && s[t] == Live(q, m[q]);
        assert now[t] == Live(q, m[q]);
      }
    }
  }

  lemma HoldsDrop<K(!new), V>(s: seq<Slot<K, V>>, hash: K -> nat, m: map<K, V>, i: nat, open: int)
    requires |s| > 2 && i < |s| && s[i].Live? && Holds(s, m) && Searchable(s, hash, open)
    ensures Holds(s[i := Deleted], m - {s[i].k}) && s[i].k in m
  {
    var now := s[i := Deleted];
    forall q | q in m - {s[i].k} ensures exists t :: 0 <= t < |now| && now[t] == Live(q, (m - {s[i].k})[q]) {
      var t :| 0 <= t < |s| && s[t] == Live(q, m[q]);
      assert now[t] == Live(q, m[q]);
    }
  }

  lemma HoldsIdle<K, V>(s: seq<Slot<K, V>>, m: map<K, V>, i: nat)
    requires i < |s| && !s[i].Live? && Holds(s, m)
    ensures Holds(s[i := Empty], m)
  {
    var now := s[i := Empty];
    forall q | q in m ensures exists t :: 0 <= t < |now| && now[t] == Live(q, m[q]) {
      var t :| 0 <= t < |s| && s[t] == Live(q, m[q]);
      assert now[t] == Live(q, m[q]);
    }
  }

  /** The prime table: primes in ascending order without 3, all small enough for 32-bit probe arithmetic. */
  ghost predicate PrimeTable(primes: seq<nat>) {
    && |primes| > 0 && (forall i, j :: 0 <= i < j < |primes| ==> primes[i] < primes[j])
    && (forall i :: 0 <= i < |primes| ==>
      IsPrime(primes[i]) && (primes[i] == 2 || primes[i] > 4) && primes[i] <= 0x8000_0000)
  }

  /** higher_prime_number: where the first prime that is not below n stands; past the end if there is none. */
  method HigherPrime(primes: seq<nat>, n: nat) returns (low: nat)
    requires PrimeTable(primes)
    ensures low <= |primes| && (forall i :: 0 <= i < low ==> primes[i] < n) && (low < |primes| ==> n <= primes[low])
  {
    low := 0;
    var high := |primes|;
    while low != high
      invariant low <= high <= |primes|
      invariant forall i :: 0 <= i < low ==> primes[i] < n
      invariant high < |primes| ==> n <= primes[high]
      decreases high - low
    {
      var mid := low + (high - low) / 2;
      if n > primes[mid] {
        low := mid + 1;
      } else {
        high := mid;
      }
    }
  }

  /** Despite the comment above it, higher_prime_number returns its argument when that is in the table. */
  lemma HigherPrimeOfPrime(primes: seq<nat>, n: nat, low: nat)
    requires PrimeTable(primes) && n in primes
    requires low <= |primes| && (forall i :: 0 <= i < low ==> primes[i] < n) && (low < |primes| ==> n <= primes[low])
    ensures low < |primes| && primes[low] == n
  {
    var i :| 0 <= i < |primes| && primes[i] == n;
  }

  /** find_empty_slot_for_expand: the first empty slot on the path of h. */
  method FindEmpty<K, V>(entries: array<Slot<K, V>>, h: nat) returns (index: nat)
    requires SizeOk(entries.Length) && IsPrime(entries.Length) && Count(entries[..], false) < entries.Length
    requires forall i :: 0 <= i < entries.Length ==> !entries[i].Deleted?
    ensures index < entries.Length && entries[index].Empty? && Reached(entries[..], h, index, -1)
  {
    var n := entries.Length;
    assert n > 4;
    ghost var s := entries[..];
    CountFull(s);
    ghost var at :| 0 <= at < n && s[at].Empty?;
    PathVisits(h, n, at);
    ghost var last :| 0 <= last < n && Path(h, n, last) == at;
    hide *;
    var hash2 := Step(h, n);
    index := h % n;
    PathStart(h, n);
    BusyStart(s, h);
    ghost var j := 0;
    while !entries[index].Empty?
      invariant j <= last && index < n && index == Path(h, n, j)
      invariant Busy(s, h, j, -1)
      decreases last - j
    {
      PathNext(h, n, j);
      index := index + hash2;
      if index >= n {
        index := index - n;
      }
      BusyNext(s, h, j, last);
      j := j + 1;
    }
    ReachedIntro(s, h, j, last, -1);
  }

  lemma BusyStart<K, V>(s: seq<Slot<K, V>>, h: nat)
    requires |s| > 2
    ensures Busy(s, h, 0, -1)
  {
  }

  lemma BusyNext<K, V>(s: seq<Slot<K, V>>, h: nat, j: nat, last: nat)
    requires |s| > 2 && Busy(s, h, j, -1) && !s[Path(h, |s|, j)].Empty? && j <= last && s[Path(h, |s|, last)].Empty?
    ensures Busy(s, h, j + 1, -1) && j < last
  {
  }

  /** What the expansion has carried over from the first p slots of the old table. */
  ghost predicate Carried<K(!new), V>(old_: seq<Slot<K, V>>, p: nat, now: seq<Slot<K, V>>, hash: K -> nat, m: map<K, V>)
  {
    && p <= |old_| && |now| > 2 && Searchable(now, hash, -1) && Holds(now, m) && Holds(old_[..p], m)
    && Count(now, true) == Count(old_[..p], true) && Count(now, false) == Count(old_[..p], true)
    && forall i :: 0 <= i < |now| ==> !now[i].Deleted?
  }

  lemma CarriedStart<K(!new), V>(was: seq<Slot<K, V>>, now: seq<Slot<K, V>>, hash: K -> nat)
    requires |now| > 2 && forall i :: 0 <= i < |now| ==> now[i].Empty?
    ensures Carried(was, 0, now, hash, map[])
  {
    CountAllEmpty(now, true);
    CountAllEmpty(now, false);
  }

  lemma CarriedSkip<K(!new), V>(was: seq<Slot<K, V>>, p: nat, now: seq<Slot<K, V>>, hash: K -> nat, m: map<K, V>)
    requires Carried(was, p, now, hash, m) && p < |was| && !was[p].Live?
    ensures Carried(was, p + 1, now, hash, m)
  {
    assert was[..p + 1][..p] == was[..p];
    HoldsGrow(was, p, m, m);
  }

  lemma HoldsGrow<K, V>(was: seq<Slot<K, V>>, p: nat, m: map<K, V>, m': map<K, V>)
    requires p < |was| && Holds(was[..p], m)
    requires if was[p].Live? then was[p].k !in m && m' == m[was[p].k := was[p].v] else m' == m
    ensures Holds(was[..p + 1], m')
  {
    var now := was[..p + 1];
    forall q | q in m' ensures exists t :: 0 <= t < |now| && now[t] == Live(q, m'[q]) {
      if q in m {
        var t :| 0 <= t < p && was[..p][t] == Live(q, m[q]);
        assert now[t] == Live(q, m[q]);
      } else {
        assert now[p] == Live(q, m'[q]);
      }
    }
    forall i | 0 <= i < |now| && now[i].Live? ensures now[i].k in m' && m'[now[i].k] == now[i].v {
      if i < p { assert was[..p][i] == now[i]; }
    }
  }

  /** The key of a slot not carried over yet is new. */
  lemma NewKey<K(!new), V>(was: seq<Slot<K, V>>, p: nat, hash: K -> nat, m: map<K, V>, open: int)
    requires |was| > 2 && Searchable(was, hash, open) && p < |was| && was[p].Live? && Holds(was[..p], m)
    ensures was[p].k !in m
  {
    forall t | 0 <= t < p && was[..p][t].Live? ensures was[..p][t].k != was[p].k {
      assert was[..p][t] == was[t];
    }
  }

  lemma CarriedAdd<K(!new), V>(was: seq<Slot<K, V>>, p: nat, now: seq<Slot<K, V>>, hash: K -> nat, m: map<K, V>, i: nat,
                               open: int)
    requires |was| > 2 && Searchable(was, hash, open) && p < |was| && was[p].Live?
    requires Carried(was, p, now, hash, m) && i < |now| && now[i].Empty? && Reached(now, hash(was[p].k), i, -1)
    ensures Carried(was, p + 1, now[i := was[p]], hash, m[was[p].k := was[p].v])
  {
    var k := was[p].k;
    NewKey(was, p, hash, m, open);
    HoldsKeys(now, m, k);
    HoldsAdd(now, m, i, k, was[p].v);
    HoldsGrow(was, p, m, m[k := was[p].v]);
    CountUpdate(now, i, was[p], true);
    CountUpdate(now, i, was[p], false);
    SearchableUpdate(now, hash, i, was[p], -1, -1);
    assert was[..p + 1][..p] == was[..p];
  }

  lemma HoldsKeys<K, V>(s: seq<Slot<K, V>>, m: map<K, V>, k: K)
    requires Holds(s, m) && k !in m
    ensures forall t :: 0 <= t < |s| && s[t].Live? ==> s[t].k != k
  {
  }

  /** A table holds one map only. */
  lemma HoldsOne<K, V>(s: seq<Slot<K, V>>, m: map<K, V>, m': map<K, V>)
    requires Holds(s, m) && Holds(s, m')
    ensures m == m'
  {
    forall q | q in m ensures q in m' && m'[q] == m[q] {
      var t :| 0 <= t < |s| && s[t] == Live(q, m[q]);
    }
    forall q | q in m' ensures q in m {
      var t :| 0 <= t < |s| && s[t] == Live(q, m'[q]);
    }
  }

  lemma CarriedFacts<K(!new), V>(was: seq<Slot<K, V>>, p: nat, now: seq<Slot<K, V>>, hash: K -> nat, m: map<K, V>)
    requires Carried(was, p, now, hash, m)
    ensures Count(now, false) <= p && forall i :: 0 <= i < |now| ==> !now[i].Deleted?
  {
  }

  lemma CarriedAll<K(!new), V>(was: seq<Slot<K, V>>, now: seq<Slot<K, V>>, hash: K -> nat, m: map<K, V>,
                               model: map<K, V>)
    requires Carried(was, |was|, now, hash, m) && Holds(was, model)
    ensures m == model && Searchable(now, hash, -1) && Holds(now, model)
    ensures Count(now, true) == Count(was, true) && Count(now, false) == Count(was, true)
  {
    assert was[..|was|] == was;
    HoldsOne(was, m, model);
  }

  lemma OneFacts<K, V>(x: Slot<K, V>)
    ensures x.Live? ==> One(x, true) == 1 == One(x, false)
    ensures One<K, V>(Deleted, true) == 0 && One<K, V>(Deleted, false) == 1
            && One<K, V>(Empty, true) == 0 == One<K, V>(Empty, false)
    ensures x.Deleted? ==> One(x, true) == 0 && One(x, false) == 1
    ensures x.Empty? ==> One(x, true) == 0 && One(x, false) == 0
  {
  }

  lemma CardDrop<K, V>(m: map<K, V>, k: K)
    requires k in m
    ensures |m - {k}| == |m| - 1
  {
    assert (m - {k}).Keys == m.Keys - {k};
    assert |m - {k}| == |(m - {k}).Keys| && |m| == |m.Keys|;
  }

  lemma CardNone<K, V>(m: map<K, V>)
    ensures |m| == 0 <==> m == map[]
  {
    if m != map[] {
      var k :| k in m;
    }
  }

  lemma CardAdd<K, V>(m: map<K, V>, k: K, v: V)
    requires k !in m
    ensures |m[k := v]| == |m| + 1
  {
    assert m[k := v].Keys == m.Keys + {k};
    assert |m[k := v]| == |m[k := v].Keys| && |m| == |m.Keys|;
  }

  /** The sizes a table can have. */
  predicate SizeOk(n: nat) {
    4 < n <= 0x8000_0000
  }

  /** index + hash2 does not wrap in a 32-bit unsigned int. */
  predicate SumFits(index: nat, hash2: nat) {
    index + hash2 < 0x1_0000_0000
  }

  /** The 32-bit probe arithmetic is exact for exactly the sizes up to 2^31 + 1: not for the last prime
      of the source's table, 4294967291. */
  lemma ProbeFits(n: nat)
    requires n > 2
    ensures n <= 0x8000_0001 <==> forall i: nat, s: nat :: i < n && 1 <= s <= n - 2 ==> SumFits(i, s)
  {
    assert SumFits(n - 1, n - 2) <==> n <= 0x8000_0001;
  }

  lemma SizeFacts(primes: seq<nat>, i: nat, n: nat)
    requires PrimeTable(primes) && i < |primes| && SizeOk(n) && n * 2 <= primes[i]
    ensures IsPrime(primes[i]) && SizeOk(primes[i]) && n > 4
  {
  }

  method EmptyAll<K, V>(entries: array<Slot<K, V>>)
    modifies entries
    ensures forall i :: 0 <= i < |entries[..]| ==> entries[..][i].Empty?
  {
    var i := entries.Length;
    while i > 0
      invariant 0 <= i <= entries.Length && forall k :: i <= k < entries.Length ==> entries[k].Empty?
    {
      i := i - 1;
      entries[i] := Empty;
    }
  }

  lemma NothingHeld<K(!new), V>(s: seq<Slot<K, V>>, hash: K -> nat)
    requires |s| > 2 && forall i :: 0 <= i < |s| ==> s[i].Empty?
    ensures Searchable(s, hash, -1) && Holds(s, map[])
  {
  }

  class Htab<K(==, !new), V> {
    const primes: seq<nat>
    const hash: K -> nat
    var entries: array<Slot<K, V>>
    var nElements: nat
    var nDeleted: nat
    /** What the table holds. */
    ghost var model: map<K, V>
    /** The slot handed out for an insertion and not filled yet, or -1. */
    ghost var open: int

    ghost predicate Valid()
      reads this, entries
    {
      && PrimeTable(primes) && SizeOk(entries.Length) && IsPrime(entries.Length)
      && Searchable(entries[..], hash, open) && Holds(entries[..], model)
      && Counters(Count(entries[..], true), Count(entries[..], false))
      && (open == -1 || (0 <= open < entries.Length && entries[open].Empty?))
    }

    /** n_elements - n_deleted is the number of elements; n_elements never falls below the slots in use,
        and stays near three quarters of the table. Both count a slot that waits to be filled. */
    ghost predicate Counters(live: nat, used: nat)
      reads this, entries
    {
      var waiting := if open == -1 then 0 else 1;
      && nDeleted <= nElements && live + waiting == nElements - nDeleted && live == |model|
      && used + waiting <= nElements && nElements * 4 < entries.Length * 3 + 4
    }

    lemma ValidFacts()
      requires Valid()
      ensures SizeOk(entries.Length) && 4 < entries.Length && IsPrime(entries.Length)
      ensures Searchable(entries[..], hash, open) && Holds(entries[..], model)
    {
    }

    /** A slot remains empty, so that every search comes to an end. */
    lemma EmptyLeft(h: nat) returns (j: nat)
      requires Valid()
      ensures j < entries.Length && entries[Path(h, entries.Length, j)].Empty?
    {
      CountFull(entries[..]);
      var i :| 0 <= i < entries.Length && entries[..][i].Empty?;
      PathVisits(h, entries.Length, i);
      j :| 0 <= j < entries.Length && Path(h, entries.Length, j) == i;
    }

    /** htab_try_create; a request beyond the prime table is the error exit. */
    constructor (primes: seq<nat>, hash: K -> nat, size: nat, i: nat)
      requires PrimeTable(primes) && size > 2 && i < |primes| && size <= primes[i]
      ensures Valid() && fresh(entries) && model == map[] && open == -1 && entries.Length == primes[i]
      ensures this.hash == hash && this.primes == primes && nElements == 0 && nDeleted == 0
    {
      this.primes, this.hash := primes, hash;
      entries := new Slot<K, V>[primes[i]](_ => Empty);
      nElements, nDeleted, model, open := 0, 0, map[], -1;
      new;
      CountAllEmpty(entries[..], true);
      CountAllEmpty(entries[..], false);
    }

    /** htab_find_with_hash for an element with key k: its entry, or none. */
    method Find(k: K) returns (found: Option<V>)
      requires Valid() && open == -1
      ensures found == if k in model then Some(model[k]) else None
    {
      hide *;
      ValidFacts();
      var n := entries.Length;
      var h := hash(k);
      ghost var s := entries[..];
      ghost var last := EmptyLeft(h);
      var index := h % n;
      var hash2 := Step(h, n);
      PathStart(h, n);
      MissedStart(s, h, k);
      ghost var j := 0;
      while !(entries[index].Empty? || (entries[index].Live? && entries[index].k == k))
        invariant j <= last && index < n && index == Path(h, n, j)
        invariant Missed(s, h, k, j)
        decreases last - j
      {
        PathNext(h, n, j);
        index := index + hash2;
        if index >= n {
          index := index - n;
        }
        MissedNext(s, h, k, j);
        MissedEmpty(s, h, k, j, last);
        j := j + 1;
      }
      if entries[index].Empty? {
        NotThere(s, hash, model, k, j);
        found := None;
      } else {
        HoldsAt(s, model, index);
        found := Some(entries[index].v);
      }
    }

    /** The loop of htab_expand. */
    method MoveAll(oentries: array<Slot<K, V>>, nentries: array<Slot<K, V>>) returns (ghost m: map<K, V>)
      requires Valid() && open == -1 && oentries == entries && nentries != oentries
      requires SizeOk(nentries.Length) && IsPrime(nentries.Length) && nentries.Length >= 2 * oentries.Length
      requires forall i :: 0 <= i < |nentries[..]| ==> nentries[..][i].Empty?
      modifies nentries
      ensures Carried(oentries[..], oentries.Length, nentries[..], hash, m)
    {
      hide *;
      ValidFacts();
      ghost var was := oentries[..];
      m := map[];
      CarriedStart(was, nentries[..], hash);
      var p := 0;
      while p < oentries.Length
        invariant p <= oentries.Length && oentries[..] == was && Carried(was, p, nentries[..], hash, m)
        modifies nentries
      {
        var x := oentries[p];
        if x.Live? {
          ghost var before := nentries[..];
          CarriedFacts(was, p, before, hash, m);
          var q := FindEmpty(nentries, hash(x.k));
          nentries[q] := x;
          CarriedAdd(was, p, before, hash, m, q, -1);
          m := m[x.k := x.v];
        } else {
          CarriedSkip(was, p, nentries[..], hash, m);
        }
        p := p + 1;
      }
    }

    /** htab_expand: move everything to a table of at least twice the size and start counting anew.
        False is the error exit: no prime is large enough. */
    method Expand() returns (ok: bool)
      requires Valid() && open == -1
      modifies this
      ensures ok <==> exists i :: 0 <= i < |primes| && old(entries.Length) * 2 <= primes[i]
      ensures !ok ==> Valid() && unchanged(this)
      ensures ok ==> Valid() && model == old(model) && open == -1 && fresh(entries)
      ensures ok ==> entries.Length >= 2 * old(entries.Length) && nDeleted == 0 && nElements == |model|
      ensures ok ==> entries.Length in primes && forall p :: p in primes && p >= 2 * old(entries.Length) ==>
                       p >= entries.Length
      ensures ok ==> entries.Length * 3 > nElements * 4
    {
      hide *;
      ValidFacts();
      ValidCounters();
      var i := HigherPrime(primes, entries.Length * 2);
      if i == |primes| {
        return false;
      }
      ok := true;
      var oentries := entries;
      ghost var was := entries[..];
      SizeFacts(primes, i, entries.Length);
      var nentries := new Slot<K, V>[primes[i]](_ => Empty);
      ghost var m := MoveAll(oentries, nentries);
      CarriedAll(was, nentries[..], hash, m, model);
      entries := nentries;
      nElements := nElements - nDeleted;
      nDeleted := 0;
      ValidIntro();
    }

    lemma ValidCounters()
      requires Valid() && open == -1
      ensures nDeleted <= nElements && Count(entries[..], true) == nElements - nDeleted == |model|
      ensures Count(entries[..], false) <= nElements && nElements * 4 < entries.Length * 3 + 4
      ensures PrimeTable(primes)
    {
    }

    lemma ValidIntro()
      requires PrimeTable(primes) && SizeOk(entries.Length) && IsPrime(entries.Length) && open == -1
      requires Searchable(entries[..], hash, open) && Holds(entries[..], model)
      requires nDeleted <= nElements && Count(entries[..], true) == nElements - nDeleted == |model|
      requires Count(entries[..], false) <= nElements && nElements * 4 < entries.Length * 3 + 4
      ensures Valid()
    {
    }

    /** htab_clear_slot on a slot that holds an element. */
    method ClearSlot(i: nat)
      requires Valid() && open == -1 && i < entries.Length && entries[i].Live?
      modifies this`nDeleted, this`model, entries
      ensures nDeleted == old(nDeleted) + 1 && entries[i].Deleted?
      ensures Valid() && old(entries[i].k) in old(model) && model == old(model) - {old(entries[i].k)}
    {
      hide *;
      ValidFacts();
      ValidCounters();
      ghost var was := entries[..];
      HoldsDrop(was, hash, model, i, -1);
      SearchableUpdate(was, hash, i, Deleted, -1, -1);
      CountUpdate(was, i, Deleted, true);
      CountUpdate(was, i, Deleted, false);
      OneFacts(was[i]);
      entries[i] := Deleted;
      assert entries[..] == was[i := Deleted];
      CardDrop(model, was[i].k);
      model := model - {was[i].k};
      nDeleted := nDeleted + 1;
      ValidIntro();
    }

    /** htab_remove_elt. True is where the source follows a null pointer: the comment says that it does nothing if there
        is no such element, but the slot it looks into is not there then. */
    method RemoveElt(k: K) returns (crashed: bool)
      requires Valid() && open == -1
      modifies this, entries
      ensures Valid() && open == -1 && entries == old(entries)
      ensures crashed <==> k !in old(model)
      ensures model == old(model) - {k} && (crashed ==> unchanged(this) && entries[..] == old(entries[..]))
    {
      hide *;
      var aborted, slot := FindSlot(k, false);
      crashed := slot.None?;
      if !crashed {
        ClearSlot(slot.value);
      }
    }

    /** htab_empty. The counters stay, so they are right afterwards exactly if the table held nothing. */
    method Clear()
      requires Valid() && open == -1
      modifies this`model, entries
      ensures model == map[] && Holds(entries[..], model) && Searchable(entries[..], hash, open)
      ensures forall i :: 0 <= i < |entries[..]| ==> entries[..][i].Empty?
      ensures Valid() <==> old(model) == map[]
    {
      ValidFacts();
      ValidCounters();
      hide *;
      ghost var was := model;
      EmptyAll(entries);
      CountAllEmpty(entries[..], true);
      CountAllEmpty(entries[..], false);
      NothingHeld(entries[..], hash);
      model := map[];
      CardNone(was);
      CardNone(model);
      WhenValid();
    }

    lemma WhenValid()
      requires PrimeTable(primes) && SizeOk(entries.Length) && IsPrime(entries.Length) && open == -1
      requires Searchable(entries[..], hash, open) && Holds(entries[..], model) && nDeleted <= nElements
      requires nElements * 4 < entries.Length * 3 + 4 && Count(entries[..], true) == |model|
               && Count(entries[..], false) <= nElements
      ensures Valid() <==> |model| == nElements - nDeleted
    {
    }

    /** htab_find_slot_with_hash. To insert, the caller then fills the slot it gets. */
    method FindSlot(k: K, insert: bool) returns (aborted: bool, slot: Option<nat>)
      requires Valid() && open == -1
      modifies this, entries
      ensures Valid() && model == old(model) && (entries == old(entries) || fresh(entries))
      ensures aborted <==> insert && old(entries.Length) * 3 <= old(nElements) * 4
                           && forall i :: 0 <= i < |primes| ==> primes[i] < old(entries.Length) * 2
      ensures aborted ==> slot == None && open == -1
      ensures !aborted && k in model ==> slot.Some? && slot.value < entries.Length && open == -1
                                         && entries[slot.value] == Live(k, model[k])
      ensures !aborted && k !in model && !insert ==> slot == None && open == -1
      ensures !aborted && k !in model && insert ==>
                slot.Some? && slot.value == open && entries.Length > 2 && Reserved(k)
                && FirstIdle(entries[..], hash(k), open)
      ensures !insert ==> entries == old(entries) && entries[..] == old(entries[..]) && unchanged(this)
      // three quarters full, it grows first
      ensures var due := insert && old(entries.Length) * 3 <= old(nElements) * 4;
              var taken := if insert && !aborted && k !in model then 1 else 0;
              if due && !aborted
              then fresh(entries) && entries.Length >= 2 * old(entries.Length) && nDeleted == 0
                   && nElements == |model| + taken
              else entries == old(entries) && nDeleted == old(nDeleted) && nElements == old(nElements) + taken
    {
      hide *;
      aborted := false;
      slot := None;
      if insert && entries.Length * 3 <= nElements * 4 {
        var ok := Expand();
        if !ok {
          return true, None;
        }
      }
      slot := Probe(k, insert);
    }

    /** i is the first slot on the path from h that holds no element: a tombstone, or the empty slot that ends it. */
    ghost predicate FirstIdle(s: seq<Slot<K, V>>, h: nat, i: int)
      requires |s| > 2
    {
      exists j: nat :: LivePath(s, h, j) && j < |s| && i == Path(h, |s|, j) && !s[i].Live?
    }

    ghost predicate LivePath(s: seq<Slot<K, V>>, h: nat, j: nat)
      requires |s| > 2
    {
      forall t: nat :: t < j ==> s[Path(h, |s|, t)].Live?
    }

    lemma LiveStart(s: seq<Slot<K, V>>, h: nat)
      requires |s| > 2
      ensures LivePath(s, h, 0)
    {
    }

    lemma LiveNext(s: seq<Slot<K, V>>, h: nat, j: nat)
      requires |s| > 2 && LivePath(s, h, j) && s[Path(h, |s|, j)].Live?
      ensures LivePath(s, h, j + 1)
    {
    }

    /** It stays so when the tombstone is cleared. */
    lemma IdleCleared(s: seq<Slot<K, V>>, h: nat, j: nat, index: nat)
      requires |s| > 2 && LivePath(s, h, j) && j < |s| && index == Path(h, |s|, j) && !s[index].Live?
      ensures FirstIdle(s[index := Empty], h, index)
    {
      hide Path;
      assert LivePath(s[index := Empty], h, j);
    }

    /** The slot handed out is on the path of k. */
    ghost predicate Reserved(k: K)
      requires entries.Length > 2
      reads this, entries
    {
      0 <= open < entries.Length && Reached(entries[..], hash(k), open, open)
    }

    /** The probe loop of htab_find_slot_with_hash. */
    method Probe(k: K, insert: bool) returns (slot: Option<nat>)
      requires Valid() && open == -1 && (insert ==> entries.Length * 3 > nElements * 4)
      modifies this`nElements, this`open, entries
      ensures Valid()
      ensures k in model ==>
                slot.Some? && slot.value < entries.Length && open == -1 && entries[slot.value] == Live(k, model[k])
      ensures k !in model && !insert ==> slot == None && open == -1
      ensures k !in model && insert ==> slot.Some? && slot.value == open && entries.Length > 2 && Reserved(k)
                                        && FirstIdle(entries[..], hash(k), open)
      ensures !insert ==> entries[..] == old(entries[..]) && nElements == old(nElements)
      ensures nElements == old(nElements) + if insert && k !in model then 1 else 0
    {
      hide *;
      ValidFacts();
      var n := entries.Length;
      var h := hash(k);
      ghost var s := entries[..];
      ghost var last := EmptyLeft(h);
      var hash2 := Step(h, n);
      var index := h % n;
      PathStart(h, n);
      MissedStart(s, h, k);
      LiveStart(s, h);
      var firstDeleted := None;
      ghost var j, at := 0, 0;
      while !(entries[index].Empty? || (entries[index].Live? && entries[index].k == k))
        invariant j <= last && index < n && index == Path(h, n, j)
        invariant Missed(s, h, k, j) && |s| > 2 && LivePath(s, h, if firstDeleted.Some? then at else j)
        invariant firstDeleted.Some? ==> firstDeleted.value < n && at < j && Path(h, n, at) == firstDeleted.value
                                         && entries[firstDeleted.value].Deleted?
        modifies {}
        decreases last - j
      {
        if entries[index].Deleted? && firstDeleted.None? {
          firstDeleted := Some(index);
          at := j;
        }
        if firstDeleted.None? { LiveNext(s, h, j); }
        PathNext(h, n, j);
        index := index + hash2;
        if index >= n {
          index := index - n;
        }
        MissedNext(s, h, k, j);
        MissedEmpty(s, h, k, j, last);
        j := j + 1;
      }
      if entries[index].Live? {
        HoldsAt(s, model, index);
        return Some(index);
      }
      NotThere(s, hash, model, k, j);
      if !insert {
        return None;
      }
      MissedBusy(s, h, k, j, -1);
      if firstDeleted.Some? {
        index := firstDeleted.value;
        j := at;
      }
      assert entries[..] == s && Busy(s, h, j, -1);
      IdleCleared(s, h, j, index);
      Reserve(k, index, j, last);
      slot := Some(index);
    }

    /** Hand slot index out, emptied if it held a tombstone. */
    method Reserve(k: K, index: nat, ghost j: nat, ghost last: nat)
      requires Valid() && open == -1 && entries.Length * 3 > nElements * 4 && index < entries.Length
      requires !entries[index].Live? && j <= last < entries.Length && entries.Length > 2
      requires index == Path(hash(k), entries.Length, j) && Busy(entries[..], hash(k), j, -1)
      modifies this`nElements, this`open, entries
      ensures Valid() && open == index && entries.Length > 2 && Reserved(k) && nElements == old(nElements) + 1
      ensures entries[..] == old(entries[..])[index := Empty]
    {
      hide *;
      ValidFacts();
      ValidCounters();
      ghost var s := entries[..];
      HoldsIdle(s, model, index);
      SearchableUpdate(s, hash, index, Empty, -1, index);
      CountUpdate(s, index, Empty, true);
      CountUpdate(s, index, Empty, false);
      OneFacts(s[index]);
      BusyMore(s, index, Empty, hash(k), j, -1, index);
      nElements := nElements + 1;
      entries[index] := Empty;
      open := index;
      assert entries[..] == s[index := Empty];
      ReachedIntro(entries[..], hash(k), j, last, index);
      OpenIntro();
      ReservedIntro(k);
    }

    lemma ReservedIntro(k: K)
      requires entries.Length > 2 && 0 <= open < entries.Length && Reached(entries[..], hash(k), open, open)
      ensures Reserved(k)
    {
    }

    lemma OpenIntro()
      requires PrimeTable(primes) && SizeOk(entries.Length) && IsPrime(entries.Length)
      requires 0 <= open < entries.Length && entries[open].Empty?
      requires Searchable(entries[..], hash, open) && Holds(entries[..], model)
      requires nDeleted <= nElements && Count(entries[..], true) + 1 == nElements - nDeleted
               && Count(entries[..], true) == |model|
      requires Count(entries[..], false) + 1 <= nElements && nElements * 4 < entries.Length * 3 + 4
      ensures Valid()
    {
    }

    lemma OpenFacts(k: K)
      requires Valid() && open != -1 && entries.Length > 2 && Reserved(k)
      ensures PrimeTable(primes) && SizeOk(entries.Length) && IsPrime(entries.Length)
      ensures 0 <= open < entries.Length && entries[open].Empty? && Reached(entries[..], hash(k), open, open)
      ensures Searchable(entries[..], hash, open) && Holds(entries[..], model)
      ensures nDeleted <= nElements && Count(entries[..], true) + 1 == nElements - nDeleted
              && Count(entries[..], true) == |model|
      ensures Count(entries[..], false) + 1 <= nElements && nElements * 4 < entries.Length * 3 + 4
    {
    }

    /** The caller writes its element into the slot it was handed. */
    method Fill(i: nat, k: K, v: V)
      requires Valid() && open == i && entries.Length > 2 && Reserved(k) && k !in model
      modifies this`model, this`open, entries
      ensures Valid() && open == -1 && model == old(model)[k := v] && i < entries.Length && entries[i] == Live(k, v)
    {
      hide *;
      OpenFacts(k);
      ghost var s := entries[..];
      HoldsKeys(s, model, k);
      HoldsAdd(s, model, i, k, v);
      SearchableUpdate(s, hash, i, Live(k, v), i, -1);
      CountUpdate(s, i, Live(k, v), true);
      CountUpdate(s, i, Live(k, v), false);
      OneFacts(s[i]);
      OneFacts(Live(k, v));
      CardAdd(model, k, v);
      entries[i] := Live(k, v);
      assert entries[..] == s[i := Live(k, v)];
      model := model[k := v];
      open := -1;
      ValidIntro();
    }
  }
}
