/** Renumbering sections (src/dso.c): two index arrays that map the old section numbers to the new ones and back,
    kept up while sections are added and removed, and the rewriting of the links between sections. */
module SectionMove {
  /** No section: the section has been removed, or is a new one. */
  const NONE := -1

  /** The room for new sections. */
  const SPARE := 20

  // What the two arrays say

  /** The two maps are inverse to each other, where they are defined. */
  ghost predicate Inverse(o2n: seq<int>, n2o: seq<int>) {
    && (forall i :: 0 <= i < |o2n| ==> o2n[i] == -1 || (0 <= o2n[i] < |n2o| && n2o[o2n[i]] == i))
    && (forall j :: 0 <= j < |n2o| ==> n2o[j] == -1 || (0 <= n2o[j] < |o2n| && o2n[n2o[j]] == j))
  }

  /** Sections that are left keep their order. */
  ghost predicate Monotone(o2n: seq<int>) {
    forall i, k :: 0 <= i < k < |o2n| && o2n[i] != -1 && o2n[k] != -1 ==> o2n[i] < o2n[k]
  }

  /** The invariant: besides, the null section stays where it is. */
  ghost predicate Maps(o2n: seq<int>, n2o: seq<int>) {
    && |o2n| >= 1 && |n2o| >= 1 && o2n[0] == 0 && n2o[0] == 0
    && Inverse(o2n, n2o) && Monotone(o2n)
  }

  function Identity(n: nat): (s: seq<int>)
    ensures |s| == n && forall i :: 0 <= i < n ==> s[i] == i
  {
    seq(n, i => i)
  }

  /** What adding a section does to the two maps. */
  function Opened(n2o: seq<int>, sec: nat): (r: seq<int>)
    requires sec <= |n2o|
    ensures |r| == |n2o| + 1
    ensures forall j :: 0 <= j < |r| ==> r[j] == if j < sec then n2o[j] else if j == sec then -1 else n2o[j - 1]
  {
    n2o[..sec] + [-1] + n2o[sec..]
  }

  function RaisedAt(o2n: seq<int>, sec: nat, i: nat): int
    requires i < |o2n|
  {
    if i >= 1 && o2n[i] >= sec then o2n[i] + 1 else o2n[i]
  }

  function Raised(o2n: seq<int>, sec: nat): (r: seq<int>)
    ensures |r| == |o2n| && forall i :: 0 <= i < |o2n| ==> r[i] == RaisedAt(o2n, sec, i)
  {
    seq(|o2n|, i requires 0 <= i < |o2n| => RaisedAt(o2n, sec, i))
  }

  /** What removing a section does to them. */
  function Closed(n2o: seq<int>, sec: nat): (r: seq<int>)
    requires sec < |n2o|
    ensures |r| == |n2o| - 1
    ensures forall j :: 0 <= j < |r| ==> r[j] == if j < sec then n2o[j] else n2o[j + 1]
  {
    n2o[..sec] + n2o[sec + 1..]
  }

  function LoweredAt(o2n: seq<int>, sec: nat, i: nat): int
    requires i < |o2n|
  {
    if i == 0 then o2n[i] else if o2n[i] == sec then -1 else if o2n[i] > sec then o2n[i] - 1 else o2n[i]
  }

  function Lowered(o2n: seq<int>, sec: nat): (r: seq<int>)
    ensures |r| == |o2n| && forall i :: 0 <= i < |o2n| ==> r[i] == LoweredAt(o2n, sec, i)
  {
    seq(|o2n|, i requires 0 <= i < |o2n| => LoweredAt(o2n, sec, i))
  }

  /** Adding keeps the maps exactly when it is not the null section that is moved: the loop over the old numbers
      begins at 1. */
  lemma OpenedMaps(o2n: seq<int>, n2o: seq<int>, sec: nat)
    requires Maps(o2n, n2o) && sec <= |n2o|
    ensures Maps(Raised(o2n, sec), Opened(n2o, sec)) <==> sec >= 1
  {
    var r, s := Raised(o2n, sec), Opened(n2o, sec);
    if sec >= 1 {
      forall i | 0 <= i < |r| && r[i] != -1 ensures 0 <= r[i] < |s| && s[r[i]] == i {
        assert o2n[i] != -1 && n2o[o2n[i]] == i;
      }
      forall j | 0 <= j < |s| && s[j] != -1 ensures 0 <= s[j] < |r| && r[s[j]] == j {
        var m := if j < sec then j else j - 1;
        assert s[j] == n2o[m] && o2n[n2o[m]] == m;
        assert n2o[m] == 0 ==> m == 0;
      }
    } else {
      assert s[0] == -1;
    }
  }

  /** Removing, too. */
  lemma ClosedMaps(o2n: seq<int>, n2o: seq<int>, sec: nat)
    requires Maps(o2n, n2o) && sec < |n2o|
    ensures Maps(Lowered(o2n, sec), Closed(n2o, sec)) <==> sec >= 1
  {
    var r, s := Lowered(o2n, sec), Closed(n2o, sec);
    if sec >= 1 {
      forall i | 0 <= i < |r| && r[i] != -1 ensures 0 <= r[i] < |s| && s[r[i]] == i {
        assert o2n[i] != -1 && n2o[o2n[i]] == i;
      }
      forall j | 0 <= j < |s| && s[j] != -1 ensures 0 <= s[j] < |r| && r[s[j]] == j {
        var m := if j < sec then j else j + 1;
        assert s[j] == n2o[m] && o2n[n2o[m]] == m;
        assert n2o[m] == 0 ==> m == 0;
      }
    } else if |n2o| > 1 {
      assert s[0] == n2o[1] && (n2o[1] != -1 ==> o2n[n2o[1]] == 1);
    }
  }

  /** Removing a section that has just been added gives both maps back. */
  lemma AddedRemoved(o2n: seq<int>, n2o: seq<int>, sec: nat)
    requires Maps(o2n, n2o) && sec <= |n2o|
    ensures Lowered(Raised(o2n, sec), sec) == o2n && Closed(Opened(n2o, sec), sec) == n2o
  {
    forall i | 0 <= i < |o2n| ensures LoweredAt(Raised(o2n, sec), sec, i) == o2n[i] {
    }
  }

  // Whole runs

  datatype Step = Add(sec: nat) | Remove(sec: nat)

  datatype State = State(o2n: seq<int>, n2o: seq<int>)

  /** The steps respect the assertions of the source, and leave the null section alone. */
  ghost predicate Allowed(s: State, steps: seq<Step>, room: nat)
    decreases |steps|
  {
    steps != [] ==>
      match steps[0]
      case Add(sec) => 1 <= sec <= |s.n2o| < room && Allowed(After(s, steps[0]), steps[1..], room)
      case Remove(sec) => 1 <= sec < |s.n2o| && Allowed(After(s, steps[0]), steps[1..], room)
  }

  function After(s: State, step: Step): State {
    match step
    case Add(sec) => if sec <= |s.n2o| then State(Raised(s.o2n, sec), Opened(s.n2o, sec)) else s
    case Remove(sec) => if sec < |s.n2o| then State(Lowered(s.o2n, sec), Closed(s.n2o, sec)) else s
  }

  function AfterAll(s: State, steps: seq<Step>): State
    decreases |steps|
  {
    if steps == [] then s else AfterAll(After(s, steps[0]), steps[1..])
  }

  /** Every run from the identity keeps the maps inverse to each other and the order of the sections. */
  lemma {:induction false} RunMaps(s: State, steps: seq<Step>, room: nat)
    requires Maps(s.o2n, s.n2o) && Allowed(s, steps, room)
    ensures Maps(AfterAll(s, steps).o2n, AfterAll(s, steps).n2o) && |AfterAll(s, steps).o2n| == |s.o2n|
    decreases |steps|
  {
    if steps != [] {
      match steps[0] {
        case Add(sec) => OpenedMaps(s.o2n, s.n2o, sec);
        case Remove(sec) => ClosedMaps(s.o2n, s.n2o, sec);
      }
      RunMaps(After(s, steps[0]), steps[1..], room);
    }
  }

  lemma IdentityMaps(n: nat)
    requires n >= 1
    ensures Maps(Identity(n), Identity(n))
  {
  }

  // The source's structure

  /** struct section_move: the new numbers in use are the first newShnum of newToOld. */
  class Move {
    const oldShnum: nat
    var newShnum: nat
    const oldToNew: array<int>
    const newToOld: array<int>

    ghost predicate Valid()
      reads this
    {
      && oldToNew.Length == oldShnum && newToOld.Length == oldShnum + 20 && newShnum <= newToOld.Length
      && oldToNew != newToOld
    }

    ghost function Now(): (s: State)
      requires Valid()
      reads this, oldToNew, newToOld
    {
      State(oldToNew[..], newToOld[..newShnum])
    }

    /** init_section_move */
    constructor (shnum: nat)
      ensures Valid() && oldShnum == shnum && Now() == State(Identity(shnum), Identity(shnum))
      ensures shnum >= 1 ==> Maps(oldToNew[..], newToOld[..shnum])
      ensures fresh(oldToNew) && fresh(newToOld)
    {
      oldShnum, newShnum := shnum, shnum;
      oldToNew := new int[shnum](i => i);
      newToOld := new int[shnum + SPARE](i => i);
      new;
      assert oldToNew[..] == Identity(shnum) && newToOld[..shnum] == Identity(shnum);
      if shnum >= 1 {
        IdentityMaps(shnum);
      }
    }

    /** add_section */
    method AddSection(sec: nat)
      requires Valid() && newShnum < oldShnum + 20 && sec <= newShnum
      modifies this`newShnum, oldToNew, newToOld
      ensures Valid() && Now() == After(old(Now()), Add(sec))
    {
      hide Opened, Raised;
      Open(sec);
      Raise(sec);
    }

    /** The new section gets its place in the map from new to old. */
    method Open(sec: nat)
      requires Valid() && newShnum < oldShnum + 20 && sec <= newShnum
      modifies this`newShnum, newToOld
      ensures Valid() && newToOld[..newShnum] == Opened(old(newToOld[..newShnum]), sec)
    {
      ghost var was := newToOld[..newShnum];
      forall i | sec <= i < newShnum {
        newToOld[i + 1] := newToOld[i];
      }
      newShnum := newShnum + 1;
      newToOld[sec] := NONE;
      assert newToOld[..newShnum] == Opened(was, sec);
    }

    method Raise(sec: nat)
      requires Valid()
      modifies oldToNew
      ensures oldToNew[..] == Raised(old(oldToNew[..]), sec)
    {
      ghost var was := oldToNew[..];
      var i := 1;
      while i < oldShnum
        invariant 1 <= i
        invariant forall k :: 0 <= k < oldShnum ==> oldToNew[k] == if k < i then RaisedAt(was, sec, k) else was[k]
      {
        if oldToNew[i] >= sec {
          oldToNew[i] := oldToNew[i] + 1;
        }
        i := i + 1;
      }
      assert oldToNew[..] == Raised(was, sec);
    }

    /** remove_section */
    method RemoveSection(sec: nat)
      requires Valid() && sec < newShnum
      modifies this`newShnum, oldToNew, newToOld
      ensures Valid() && Now() == After(old(Now()), Remove(sec))
    {
      hide Closed, Lowered;
      Close(sec);
      Lower(sec);
    }

    method Close(sec: nat)
      requires Valid() && sec < newShnum
      modifies this`newShnum, newToOld
      ensures Valid() && newToOld[..newShnum] == Closed(old(newToOld[..newShnum]), sec)
    {
      ghost var was := newToOld[..newShnum];
      forall i | sec <= i < newShnum - 1 {
        newToOld[i] := newToOld[i + 1];
      }
      newShnum := newShnum - 1;
      assert newToOld[..newShnum] == Closed(was, sec);
    }

    method Lower(sec: nat)
      requires Valid()
      modifies oldToNew
      ensures oldToNew[..] == Lowered(old(oldToNew[..]), sec)
    {
      ghost var was := oldToNew[..];
      var i := 1;
      while i < oldShnum
        invariant 1 <= i
        invariant forall k :: 0 <= k < oldShnum ==> oldToNew[k] == if k < i then LoweredAt(was, sec, k) else was[k]
      {
        if oldToNew[i] == sec {
          oldToNew[i] := NONE;
        } else if oldToNew[i] > sec {
          oldToNew[i] := oldToNew[i] - 1;
        }
        i := i + 1;
      }
      assert oldToNew[..] == Lowered(was, sec);
    }
  }

  // Rewriting links

  /** The fields of a section header that name other sections; infoLink says whether sh_info does. */
  datatype Header = Header(link: nat, info: nat, infoLink: bool)

  /** adddel: whether any number has changed. */
  predicate Changed(s: State) {
    || (exists i :: 1 <= i < |s.o2n| && s.o2n[i] != i)
    || (exists i :: 1 <= i < |s.n2o| && s.n2o[i] != i)
  }

  /** A number that is not zero names a section that has survived. */
  predicate Survives(o2n: seq<int>, n: nat) {
    n == 0 || (n < |o2n| && o2n[n] != -1)
  }

  predicate LinksSurvive(o2n: seq<int>, h: Header) {
    Survives(o2n, h.link) && (h.infoLink ==> Survives(o2n, h.info))
  }

  /** The new number stands for the same section as the old one. */
  ghost predicate SameSection(s: State, n: nat, m: nat) {
    if n == 0 then m == 0 else 0 < m < |s.n2o| && s.n2o[m] == n
  }

  /** Two headers say the same before and after. */
  ghost predicate SameLinks(s: State, h: Header, g: Header) {
    && g.infoLink == h.infoLink && SameSection(s, h.link, g.link)
    && (if h.infoLink then SameSection(s, h.info, g.info) else g.info == h.info)
  }

  /** One number; false is the error exit. */
  method Renumber(o2n: seq<int>, n: nat, ghost s: State) returns (ok: bool, m: nat)
    requires s.o2n == o2n && Maps(s.o2n, s.n2o)
    ensures ok == Survives(o2n, n) && (ok ==> SameSection(s, n, m))
  {
    ok, m := true, n;
    if n != 0 {
      if n >= |o2n| || o2n[n] == NONE {
        ok := false;
      } else {
        m := o2n[n];
      }
    }
  }

  /** One header. */
  method RewriteOne(o2n: seq<int>, h: Header, ghost s: State) returns (ok: bool, g: Header)
    requires s.o2n == o2n && Maps(s.o2n, s.n2o)
    ensures ok == LinksSurvive(o2n, h) && (ok ==> SameLinks(s, h, g))
  {
    hide Maps, SameSection, Survives;
    g := h;
    var link, info := h.link, h.info;
    ok, link := Renumber(o2n, h.link, s);
    if ok {
      if h.infoLink {
        ok, info := Renumber(o2n, h.info, s);
      }
      g := Header(link, info, h.infoLink);
    }
  }

  /** The headers of the sections before position n have been rewritten. */
  ghost predicate Rewritten(now: seq<Header>, was: seq<Header>, s: State, n: nat) {
    && |now| == |was| == |s.n2o|
    && (forall k :: 0 <= k < |was| ==> HeaderThen(now[k], was[k], s, k, n))
  }

  ghost predicate HeaderThen(now: Header, was: Header, s: State, k: nat, n: nat)
    requires k < |s.n2o|
  {
    if k == 0 || k >= n || s.n2o[k] == -1 then now == was else LinksSurvive(s.o2n, was) && SameLinks(s, was, now)
  }

  lemma RewrittenNext(now: seq<Header>, was: seq<Header>, s: State, n: nat, h: Header)
    requires Rewritten(now, was, s, n) && 1 <= n < |was|
    requires if s.n2o[n] == -1 then h == now[n] else LinksSurvive(s.o2n, now[n]) && SameLinks(s, now[n], h)
    ensures Rewritten(now[n := h], was, s, n + 1)
  {
    hide SameLinks, LinksSurvive;
    assert HeaderThen(now[n], was[n], s, n, n);
    forall k | 0 <= k < |was| ensures HeaderThen(now[n := h][k], was[k], s, k, n + 1) {
      assert HeaderThen(now[k], was[k], s, k, n);
    }
  }

  lemma RewrittenFacts(now: seq<Header>, was: seq<Header>, s: State, n: nat)
    requires Rewritten(now, was, s, n)
    ensures |now| == |was| == |s.n2o| && (1 <= n < |was| ==> now[n] == was[n])
    ensures forall k :: 1 <= k < n && k < |was| && s.n2o[k] != -1 ==> LinksSurvive(s.o2n, was[k])
  {
    hide SameLinks, LinksSurvive;
    if 1 <= n < |was| { assert HeaderThen(now[n], was[n], s, n, n); }
    forall k | 1 <= k < n && k < |was| && s.n2o[k] != -1 ensures LinksSurvive(s.o2n, was[k]) {
      assert HeaderThen(now[k], was[k], s, k, n);
    }
  }

  lemma RewrittenStart(was: seq<Header>, s: State)
    requires |was| == |s.n2o|
    ensures Rewritten(was, was, s, 1)
  {
  }

  /** The loop of reopen_dso over the new sections, shdr holding the headers taken over under their new numbers. It
      fails exactly when some of them names a section that is not there (any more); otherwise every header names
      the sections it named before. If no number has changed, it has nothing to do. */
  method RewriteLinks(shdr: array<Header>, move: Move, ghost s: State) returns (ok: bool)
    requires move.Valid() && s == move.Now() && Maps(s.o2n, s.n2o) && shdr.Length == move.newShnum
    modifies shdr
    ensures ok <==>
              Changed(s) ==> forall i :: 1 <= i < |s.n2o| && s.n2o[i] != -1 ==> LinksSurvive(s.o2n, old(shdr[..])[i])
    ensures ok ==> if Changed(s) then Rewritten(shdr[..], old(shdr[..]), s, |s.n2o|) else shdr[..] == old(shdr[..])
  {
    var adddel := Moved(move, s);
    ok := true;
    if adddel {
      ok := RewriteAll(shdr, move, s);
    }
  }

  method RewriteAll(shdr: array<Header>, move: Move, ghost s: State) returns (ok: bool)
    requires move.Valid() && s == move.Now() && Maps(s.o2n, s.n2o) && shdr.Length == move.newShnum
    modifies shdr
    ensures ok <==> forall i :: 1 <= i < |s.n2o| && s.n2o[i] != -1 ==> LinksSurvive(s.o2n, old(shdr[..])[i])
    ensures ok ==> Rewritten(shdr[..], old(shdr[..]), s, |s.n2o|)
  {
    ghost var was := shdr[..];
    var o2n, shnum := move.oldToNew[..], move.newShnum;
    MapsSome(s);
    RewrittenStart(was, s);
    hide Maps, Rewritten, LinksSurvive, SameLinks;
    ok := true;
    var i := 1;
    while i < shnum
      invariant 1 <= i <= shnum && Rewritten(shdr[..], was, s, i) && ok
    {
      RewrittenFacts(shdr[..], was, s, i);
      ghost var now := shdr[..];
      var h := shdr[i];
      if move.newToOld[i] != NONE {
        ok, h := RewriteOne(o2n, shdr[i], s);
        if !ok {
          return;
        }
        shdr[i] := h;
      }
      RewrittenNext(now, was, s, i, h);
      assert shdr[..] == now[i := h];
      i := i + 1;
    }
    RewrittenFacts(shdr[..], was, s, i);
  }

  lemma MapsSome(s: State)
    requires Maps(s.o2n, s.n2o)
    ensures |s.o2n| >= 1 && |s.n2o| >= 1
  {
  }

  /** The two loops that set adddel. */
  method Moved(move: Move, ghost s: State) returns (adddel: bool)
    requires move.Valid() && s == move.Now()
    ensures adddel == Changed(s)
  {
    adddel := false;
    var i := 1;
    while i < move.oldShnum
      invariant 1 <= i && forall k :: 1 <= k < i && k < move.oldShnum ==> s.o2n[k] == k
    {
      if move.oldToNew[i] != i {
        assert s.o2n[i] != i;
        return true;
      }
      i := i + 1;
    }
    i := 1;
    while i < move.newShnum
      invariant 1 <= i && forall k :: 1 <= k < i && k < move.newShnum ==> s.n2o[k] == k
    {
      if move.newToOld[i] != i {
        assert s.n2o[i] != i;
        return true;
      }
      i := i + 1;
    }
  }
}
