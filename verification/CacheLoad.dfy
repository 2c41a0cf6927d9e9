/** Reading the cache file back (src/cache.c), and what of a saved set of entries comes back. */
module CacheLoad {
  import opened Cache

  /** The characters from at up to the next zero. */
  function CString(strings: seq<char>, at: nat): string
    decreases |strings| - at
  {
    if at >= |strings| || strings[at] == '\0' then "" else [strings[at]] + CString(strings, at + 1)
  }

  lemma {:induction false} CStringIs(strings: seq<char>, at: nat, s: string)
    requires StringAt(strings, at, s) && '\0' !in s
    ensures CString(strings, at) == s
    decreases |s|
  {
    if s != "" {
      assert strings[at] == strings[at..at + |s|][0] == s[0] && s[0] in s;
      assert strings[at + 1..at + 1 + |s[1..]|] == strings[at..at + |s|][1..] == s[1..];
      CStringIs(strings, at + 1, s[1..]);
      assert s == [s[0]] + s[1..];
    }
  }

  method ReadString(strings: array<char>, at: nat) returns (s: string)
    ensures s == CString(strings[..], at)
  {
    s := "";
    var k := at;
    while k < strings.Length && strings[k] != '\0'
      invariant at <= k && s + CString(strings[..], k) == CString(strings[..], at)
      decreases strings.Length - k
    {
      assert s + CString(strings[..], k) == (s + [strings[k]]) + CString(strings[..], k + 1);
      s := s + [strings[k]];
      k := k + 1;
    }
    assert s + "" == s;
  }

  /** A record passes the sanity check: its name is among the strings, its list among the words. */
  ghost predicate Sane(f: File, r: Record) {
    var start := 64 + 40 * f.nlibs + 4 * f.ndeps;
    start <= r.filename < start + f.lenStrings && r.depends < f.ndeps
  }

  /** prelink_load_entry: the entry of a file that still exists under that name. */
  function Looked(lookup: map<string, Entry>, name: string): Entry? {
    if name in lookup then lookup[name] else null
  }

  ghost function NameOf(f: File, strings: seq<char>, r: Record): string
    requires Sane(f, r)
  {
    CString(strings, r.filename - f.StringStart())
  }

  /** The first loop of prelink_load_cache; false is the exit for a bogus file. */
  method LoadNames(f: File, lookup: map<string, Entry>) returns (ok: bool, ents: seq<Entry?>)
    requires f.Sized()
    ensures ok <==> forall i :: 0 <= i < f.nlibs ==> Sane(f, f.data[i])
    ensures ok ==> |ents| == f.nlibs
    ensures ok ==> forall i :: 0 <= i < f.nlibs ==> ents[i] == Looked(lookup, NameOf(f, f.strings[..], f.data[i]))
  {
    hide CString, Looked;
    ents := [];
    ok := true;
    var i := 0;
    while i < f.nlibs
      invariant i <= f.nlibs && |ents| == i
      invariant forall k :: 0 <= k < i ==> Sane(f, f.data[k])
      invariant forall k :: 0 <= k < i ==> ents[k] == Looked(lookup, NameOf(f, f.strings[..], f.data[k]))
    {
      if f.data[i].filename < f.StringStart() || f.data[i].filename >= f.StringStart() + f.lenStrings
         || f.data[i].depends >= f.ndeps
      {
        return false, ents;
      }
      var name := ReadString(f.strings, f.data[i].filename - f.StringStart());
      ents := ents + [Looked(lookup, name)];
      i := i + 1;
    }
  }

  /** A record can be used, the file having these times now: a quick run wants the times to be those of the record and,
      unless the record is of an unprelinkable file, different from each other; and only a quick run, or one that
      prints the cache, uses records of unprelinkable files. */
  ghost predicate Trusted(r: Record, ctime: nat, mtime: nat, quick: bool, show: bool) {
    && (quick ==> ctime == r.ctime && mtime == r.mtime && (ctime != mtime || r.flags == 0x4_0000))
    && (r.flags == 0x4_0000 ==> quick || show)
  }

  /** The type an entry gets from its record, when nothing it depends on is missing. */
  ghost function LoadedType(r: Record, ctime: nat, mtime: nat, quick: bool, show: bool): Type {
    if !Trusted(r, ctime, mtime, quick, show) then NoType
    else if r.flags == 0x4_0000 then Unprelinkable
    else if r.base == 0 && r.end == 0 then CacheExec else CacheDyn
  }

  /** Words of a dependency list that name other entries. */
  ghost predicate Clean(list: seq<nat>, own: nat, nlibs: nat) {
    forall j :: 0 <= j < |list| ==> list[j] < nlibs && list[j] != own
  }

  /** The loop that looks for the end of a dependency list; false is the exit for a bogus file. (The source
      does not stop at the end of the words.) */
  method ScanList(f: File, ents: seq<Entry?>, i: nat, at: nat, ghost list: seq<nat>)
    returns (ok: bool, past: nat, missing: bool)
    requires f.Sized() && |ents| == f.nlibs && at <= f.ndeps
    ensures ok ==> at <= past < f.deps.Length && f.deps[past] == i
    ensures ok ==> forall k :: at <= k < past ==> f.deps[k] != i && f.deps[k] < f.nlibs
    ensures ok ==> (missing <==> exists k :: at <= k < past && ents[f.deps[k]] == null)
    ensures ListAt(f.deps[..], at, list, i) && Clean(list, i, f.nlibs) ==> ok && past == at + |list|
  {
    past, missing, ok := at, false, true;
    while past < f.ndeps && f.deps[past] != i
      invariant at <= past <= f.ndeps
      invariant forall k :: at <= k < past ==> f.deps[k] != i && f.deps[k] < f.nlibs
      invariant missing <==> exists k :: at <= k < past && ents[f.deps[k]] == null
      invariant ListAt(f.deps[..], at, list, i) && Clean(list, i, f.nlibs) ==> past <= at + |list|
    {
      ListWord(f.deps[..], at, list, i, past);
      if f.deps[past] >= f.nlibs {
        return false, past, missing;
      }
      if ents[f.deps[past]] == null {
        missing := true;
      }
      past := past + 1;
    }
    ListWord(f.deps[..], at, list, i, past);
    ok := past < f.ndeps;
  }

  lemma ListWord(deps: seq<nat>, at: nat, list: seq<nat>, own: nat, k: nat)
    requires at <= k
    ensures ListAt(deps, at, list, own) && k < at + |list| ==> k < |deps| && deps[k] == list[k - at]
    ensures ListAt(deps, at, list, own) ==> at + |list| < |deps| && deps[at + |list|] == own
  {
    if ListAt(deps, at, list, own) && k < at + |list| {
      assert deps[at..at + |list|][k - at] == deps[k];
    }
  }

  /** The entries that dependency words at..past stand for. */
  method Gather(f: File, ents: seq<Entry?>, at: nat, past: nat) returns (depends: seq<Entry>)
    requires f.Sized() && |ents| == f.nlibs && at <= past <= f.ndeps
    requires forall k :: at <= k < past ==> f.deps[k] < f.nlibs && ents[f.deps[k]] != null
    ensures |depends| == past - at && forall j :: 0 <= j < |depends| ==> depends[j] == ents[f.deps[at + j]]
  {
    depends := [];
    var j := 0;
    while j < past - at
      invariant j <= past - at && |depends| == j && forall t :: 0 <= t < j ==> depends[t] == ents[f.deps[at + t]]
    {
      depends := depends + [ents[f.deps[at + j]]];
      j := j + 1;
    }
  }

  /** What a record and the list that goes with it make of an entry. */
  ghost predicate Recovered(e: Entry, ents: seq<Entry?>, r: Record, list: seq<nat>, quick: bool, show: bool)
    reads e
  {
    && e.checksum == r.checksum && e.base == r.base && e.end == r.end && e.flags == r.flags
    && e.typ == LoadedType(r, e.ctime, e.mtime, quick, show)
    && (e.typ != NoType ==> ListedAs(e.depends, ents, list))
  }

  ghost predicate ListedAs(depends: seq<Entry>, ents: seq<Entry?>, list: seq<nat>) {
    |depends| == |list| && forall j :: 0 <= j < |list| ==> list[j] < |ents| && depends[j] == ents[list[j]]
  }

  /** The fields of an entry, in the order in which they are taken from its record. */
  method FillEntry(e: Entry, r: Record, quick: bool, show: bool)
    modifies e`checksum, e`base, e`end, e`flags, e`typ
    ensures e.checksum == r.checksum && e.base == r.base && e.end == r.end && e.flags == r.flags
    ensures e.typ == LoadedType(r, e.ctime, e.mtime, quick, show)
  {
    e.checksum, e.base, e.end := r.checksum, r.base, r.end;
    e.typ := if e.base == 0 && e.end == 0 then CacheExec else CacheDyn;
    e.flags := r.flags;
    if e.flags == PCF_UNPRELINKABLE {
      e.typ := if quick || show then Unprelinkable else NoType;
    }
    if quick && ((e.ctime == e.mtime && e.typ != Unprelinkable) || e.ctime != r.ctime || e.mtime != r.mtime) {
      e.typ := NoType;
    }
  }

  /** One turn of the second loop. A list that names an entry that is gone invalidates the record. */
  method LoadOne(f: File, ents: seq<Entry?>, i: nat, quick: bool, show: bool, ghost list: seq<nat>) returns (ok: bool)
    requires f.Sized() && |ents| == f.nlibs && i < f.nlibs && f.data[i].depends <= f.ndeps
    modifies {ents[i]}
    ensures ents[i] != null ==>
              ents[i].name == old(ents[i].name) && ents[i].ctime == old(ents[i].ctime)
              && ents[i].mtime == old(ents[i].mtime)
    ensures ListAt(f.deps[..], f.data[i].depends, list, i) && Clean(list, i, f.nlibs) ==> ok
    ensures ListAt(f.deps[..], f.data[i].depends, list, i) && Clean(list, i, f.nlibs) && ents[i] != null
            && old(ents[i].typ) == NoType
            && (forall k :: 0 <= k < |ents| ==> ents[k] != null) ==>
              Recovered(ents[i], ents, f.data[i], list, quick, show)
  {
    hide LoadedType;
    ok := true;
    if ents[i] == null {
      return;
    }
    var e: Entry := ents[i];
    if e.typ != NoType {
      return;
    }
    var r := f.data[i];
    FillEntry(e, r, quick, show);
    var past, missing;
    ok, past, missing := ScanList(f, ents, i, r.depends, list);
    if !ok {
      return;
    }
    if missing {
      e.typ := NoType;
    }
    if e.typ == NoType {
      return;
    }
    e.depends := Gather(f, ents, r.depends, past);
    GatheredAs(e.depends, f.deps[..], ents, r.depends, past, list, i);
  }

  lemma GatheredAs(depends: seq<Entry>, deps: seq<nat>, ents: seq<Entry?>, at: nat, past: nat, list: seq<nat>, own: nat)
    requires at <= past <= |deps| && |depends| == past - at
    requires forall k :: at <= k < past ==> deps[k] < |ents|
    requires forall j :: 0 <= j < |depends| ==> depends[j] == ents[deps[at + j]]
    ensures ListAt(deps, at, list, own) && past == at + |list| ==> ListedAs(depends, ents, list)
  {
    if ListAt(deps, at, list, own) && past == at + |list| {
      forall j | 0 <= j < |list| ensures list[j] == deps[at + j] {
        ListWord(deps, at, list, own, at + j);
      }
    }
  }

  /** The entries found under the names are there, all different, and not loaded yet. */
  ghost predicate Resolved(lookup: map<string, Entry>, names: seq<string>)
    reads lookup.Values`typ
  {
    && (forall i :: 0 <= i < |names| ==> names[i] in lookup && lookup[names[i]].typ == NoType)
    && forall i, j :: 0 <= i < j < |names| ==> lookup[names[i]] != lookup[names[j]]
  }

  /** The entries found under the names of a saved file. */
  ghost predicate FoundAll(ents: seq<Entry?>, lookup: map<string, Entry>, names: seq<string>) {
    |ents| == |names| && forall i :: 0 <= i < |names| ==> names[i] in lookup && ents[i] == lookup[names[i]]
  }

  lemma SavedRecord(f: File, names: seq<string>, lists: seq<seq<nat>>, written: seq<Record>, offs: seq<nat>,
                    places: seq<nat>,
                    i: nat)
    requires Saved(f, names, lists, written, offs, places) && i < f.nlibs
    ensures f.data.Length == f.nlibs && i < |written| && i < |lists| && i < |names| && i + 1 < |offs|
            && i + 1 < |places|
    ensures f.data[i] == written[i].(filename := f.StringStart() + offs[i], depends := places[i])
    ensures StringAt(f.strings[..], offs[i], names[i]) && '\0' !in names[i]
    ensures ListAt(f.deps[..], places[i], lists[i], i) && Clean(lists[i], i, f.nlibs)
    ensures Sane(f, f.data[i]) && NameOf(f, f.strings[..], f.data[i]) == names[i]
  {
    assert f.data[..][i] == f.data[i];
    CStringIs(f.strings[..], offs[i], names[i]);
  }

  /** Every record of a saved file passes the check and leads to the entry of its name. */
  lemma SavedSane(f: File, names: seq<string>, lists: seq<seq<nat>>, written: seq<Record>, offs: seq<nat>,
                  places: seq<nat>)
    requires Saved(f, names, lists, written, offs, places)
    ensures f.data.Length == f.nlibs == |names|
    ensures forall i :: 0 <= i < f.nlibs ==> Sane(f, f.data[i]) && NameOf(f, f.strings[..], f.data[i]) == names[i]
  {
    forall i | 0 <= i < f.nlibs ensures Sane(f, f.data[i]) && NameOf(f, f.strings[..], f.data[i]) == names[i] {
      SavedRecord(f, names, lists, written, offs, places, i);
    }
  }

  /** The record of entry i in the file. */
  ghost function RecordOf(written: seq<Record>, offs: seq<nat>, places: seq<nat>, start: nat, i: nat): Record
    requires i < |written| && i < |offs| && i < |places|
  {
    written[i].(filename := start + offs[i], depends := places[i])
  }

  /** The first n entries have been recovered, the others are as they were found. */
  ghost predicate LoadedUpTo(f: File, ents: seq<Entry?>, names: seq<string>, lists: seq<seq<nat>>, written: seq<Record>,
                             offs: seq<nat>, places: seq<nat>, quick: bool, show: bool, n: nat)
    reads ents
  {
    && |ents| == |names| == |written| == |lists| < |offs| && |ents| < |places| && n <= |ents|
    && (forall i, j :: 0 <= i < j < |ents| ==> ents[i] != ents[j])
    && forall i :: 0 <= i < |ents| ==>
         && ents[i] != null
         && if i < n then Recovered(ents[i], ents, RecordOf(written, offs, places, f.StringStart(), i), lists[i], quick,
                                    show)
            else ents[i].typ == NoType
  }

  /** What the second loop knows if the file is a saved one. */
  ghost predicate Good(f: File, lookup: map<string, Entry>, names: seq<string>, lists: seq<seq<nat>>,
                       written: seq<Record>, offs: seq<nat>, places: seq<nat>)
    reads f.data, f.deps, f.strings, lookup.Values`typ
  {
    Saved(f, names, lists, written, offs, places) && Resolved(lookup, names)
  }

  lemma LoadStart(f: File, lookup: map<string, Entry>, names: seq<string>, lists: seq<seq<nat>>,
                  written: seq<Record>, offs: seq<nat>, places: seq<nat>, quick: bool, show: bool, ents: seq<Entry?>)
    requires Good(f, lookup, names, lists, written, offs, places) && |ents| == f.nlibs
    requires forall i :: 0 <= i < f.nlibs ==> ents[i] == Looked(lookup, names[i])
    ensures LoadedUpTo(f, ents, names, lists, written, offs, places, quick, show, 0) && FoundAll(ents, lookup, names)
  {
  }

  /** One turn, for a saved file. */
  method LoadTurn(f: File, ents: seq<Entry?>, i: nat, quick: bool, show: bool, ghost good: bool,
                  ghost names: seq<string>,
                  ghost lists: seq<seq<nat>>, ghost written: seq<Record>, ghost offs: seq<nat>, ghost places: seq<nat>)
    returns (ok: bool)
    requires f.Sized() && |ents| == f.nlibs && i < f.nlibs && Sane(f, f.data[i])
    requires good ==> Saved(f, names, lists, written, offs, places)
                      && LoadedUpTo(f, ents, names, lists, written, offs, places, quick, show, i)
    modifies {ents[i]}
    ensures good ==> ok && LoadedUpTo(f, ents, names, lists, written, offs, places, quick, show, i + 1)
    ensures ents[i] != null ==>
              ents[i].name == old(ents[i].name) && ents[i].ctime == old(ents[i].ctime)
              && ents[i].mtime == old(ents[i].mtime)
  {
    hide Saved, Recovered, LoadedType, ListAt, Clean;
    if good {
      SavedRecord(f, names, lists, written, offs, places, i);
    }
    ok := LoadOne(f, ents, i, quick, show, if good then lists[i] else []);
  }

  /** prelink_load_cache up to the pruning of a quick run. A bogus file is refused; from a saved file whose
      entries are all found again everything is recovered. */
  method Load(f: File, lookup: map<string, Entry>, quick: bool, show: bool, ghost names: seq<string>,
              ghost lists: seq<seq<nat>>, ghost written: seq<Record>, ghost offs: seq<nat>, ghost places: seq<nat>)
    returns (ok: bool, ents: seq<Entry?>)
    requires f.Sized()
    modifies lookup.Values
    ensures ok ==> forall i :: 0 <= i < f.nlibs ==> Sane(f, f.data[i])
    ensures old(Good(f, lookup, names, lists, written, offs, places)) ==>
              ok && FoundAll(ents, lookup, names)
              && LoadedUpTo(f, ents, names, lists, written, offs, places, quick, show, |ents|)
    ensures forall e :: e in lookup.Values ==>
              e.name == old(e.name) && e.ctime == old(e.ctime) && e.mtime == old(e.mtime)
  {
    hide LoadedUpTo, Saved, Resolved, FoundAll, Sane, CString, NameOf;
    ghost var good := Good(f, lookup, names, lists, written, offs, places);
    ok, ents := LoadNames(f, lookup);
    if good {
      SavedSane(f, names, lists, written, offs, places);
    }
    if !ok {
      return;
    }
    if good {
      LoadStart(f, lookup, names, lists, written, offs, places, quick, show, ents);
    }
    var i := 0;
    while i < f.nlibs
      invariant i <= f.nlibs
      invariant good ==> LoadedUpTo(f, ents, names, lists, written, offs, places, quick, show, i)
      invariant forall e :: e in lookup.Values ==>
                  e.name == old(e.name) && e.ctime == old(e.ctime) && e.mtime == old(e.mtime)
    {
      LookedIn(lookup, NameOf(f, f.strings[..], f.data[i]));
      ok := LoadTurn(f, ents, i, quick, show, good, names, lists, written, offs, places);
      if !ok {
        return;
      }
      i := i + 1;
    }
  }

  lemma LookedIn(lookup: map<string, Entry>, name: string)
    ensures Looked(lookup, name) == null || Looked(lookup, name) in lookup.Values
  {
  }

  // Round trip

  /** What comes back of a type. */
  function Restored(t: Type): Type {
    match t
    case Dyn => CacheDyn
    case CacheDyn => CacheDyn
    case Exec => CacheExec
    case CacheExec => CacheExec
    case Unprelinkable => Unprelinkable
    case NoType => NoType
  }

  /** Entry n of the next run is entry e of this one, with its dependencies in order. */
  ghost predicate Same(n: Entry, e: Entry, r: Record, lookup: map<string, Entry>, quick: bool, show: bool)
    reads n, e, e.depends`name
  {
    && n.checksum == r.checksum && n.flags == r.flags && n.base == r.base && n.end == r.end
    && n.typ == LoadedType(r, n.ctime, n.mtime, quick, show)
    && (n.typ != NoType ==>
          |n.depends| == |e.depends|
          && forall j :: 0 <= j < |e.depends| ==>
            e.depends[j].name in lookup && n.depends[j] == lookup[e.depends[j].name])
  }

  /** Save a set of entries and load the file in a run that finds all of them again: no check fires, and of
      every entry its fields and its dependencies, in order, come back. */
  method RoundTrip(ents: seq<Entry>, lookup: map<string, Entry>, quick: bool, show: bool)
    returns (ok: bool, loaded: seq<Entry?>)
    requires Saveable(ents) && 64 + Size(ents, |ents|) < WORD
    requires forall e :: e in ents ==> e.name in lookup && lookup[e.name].typ == NoType && e !in lookup.Values
    requires forall i, j :: 0 <= i < j < |ents| ==> lookup[ents[i].name] != lookup[ents[j].name]
    modifies lookup.Values
    ensures ok && forall e :: e in ents ==> e.name in lookup && Same(lookup[e.name], e, Written(e), lookup, quick, show)
    ensures |loaded| == |ents| && forall i :: 0 <= i < |ents| ==> loaded[i] == lookup[ents[i].name]
    ensures forall e :: e in lookup.Values ==> e.ctime == old(e.ctime) && e.mtime == old(e.mtime)
  {
    var f;
    ghost var names, lists, written, offs, places;
    f, names, lists, written, offs, places := Save(ents);
    ResolvedBy(ents, lookup, names);
    hide Saveable, Size, Saved, Written, Same, LoadedUpTo, ToWrite, Indexed, Named, FoundAll, Sane;
    ok, loaded := Load(f, lookup, quick, show, names, lists, written, offs, places);
    FoundAt(ents, lookup, names, loaded);
    SameAll(f, ents, lookup, names, lists, written, offs, places, quick, show, loaded);
  }

  lemma FoundAt(ents: seq<Entry>, lookup: map<string, Entry>, names: seq<string>, loaded: seq<Entry?>)
    requires Named(ents, names) && FoundAll(loaded, lookup, names)
    ensures |loaded| == |ents| && forall i :: 0 <= i < |ents| ==>
              ents[i].name in lookup && loaded[i] == lookup[ents[i].name]
  {
  }

  lemma SameAll(f: File, ents: seq<Entry>, lookup: map<string, Entry>, names: seq<string>, lists: seq<seq<nat>>,
                written: seq<Record>, offs: seq<nat>, places: seq<nat>, quick: bool, show: bool, loaded: seq<Entry?>)
    requires Named(ents, names) && Indexed(ents, lists) && ToWrite(ents, written) && FoundAll(loaded, lookup, names)
    requires LoadedUpTo(f, loaded, names, lists, written, offs, places, quick, show, |loaded|)
    ensures forall e :: e in ents ==> e.name in lookup && Same(lookup[e.name], e, Written(e), lookup, quick, show)
  {
    hide *;
    forall e | e in ents ensures e.name in lookup && Same(lookup[e.name], e, Written(e), lookup, quick, show) {
      var i :| 0 <= i < |ents| && ents[i] == e;
      SameAt(f, ents, lookup, names, lists, written, offs, places, quick, show, loaded, i);
    }
  }

  lemma ResolvedBy(ents: seq<Entry>, lookup: map<string, Entry>, names: seq<string>)
    requires Named(ents, names)
    requires forall e :: e in ents ==> e.name in lookup && lookup[e.name].typ == NoType
    requires forall i, j :: 0 <= i < j < |ents| ==> lookup[ents[i].name] != lookup[ents[j].name]
    ensures Resolved(lookup, names)
  {
    forall i | 0 <= i < |names| ensures names[i] in lookup && lookup[names[i]].typ == NoType && ents[i] in ents {
    }
  }

  lemma SameAt(f: File, ents: seq<Entry>, lookup: map<string, Entry>, names: seq<string>, lists: seq<seq<nat>>,
               written: seq<Record>, offs: seq<nat>, places: seq<nat>, quick: bool, show: bool, loaded: seq<Entry?>,
               i: nat)
    requires Named(ents, names) && Indexed(ents, lists) && ToWrite(ents, written) && FoundAll(loaded, lookup, names)
    requires LoadedUpTo(f, loaded, names, lists, written, offs, places, quick, show, |loaded|) && i < |ents|
    ensures ents[i].name in lookup && Same(lookup[ents[i].name], ents[i], Written(ents[i]), lookup, quick, show)
  {
    hide Written, LoadedType;
    var e, n := ents[i], loaded[i];
    assert Recovered(n, loaded, RecordOf(written, offs, places, f.StringStart(), i), lists[i], quick, show);
    LoadedTypeOf(written[i], RecordOf(written, offs, places, f.StringStart(), i), n.ctime, n.mtime, quick, show);
    assert IndexedAt(ents, e.depends, lists[i], i);
    if n.typ != NoType {
      forall j | 0 <= j < |e.depends| ensures e.depends[j].name in lookup && n.depends[j] == lookup[e.depends[j].name] {
        assert e.depends[j] == ents[lists[i][j]] && e.depends[j].name == names[lists[i][j]];
      }
    }
  }

  /** The type does not depend on where things are in the file. */
  lemma LoadedTypeOf(r: Record, s: Record, ctime: nat, mtime: nat, quick: bool, show: bool)
    requires s == r.(filename := s.filename, depends := s.depends)
    ensures LoadedType(s, ctime, mtime, quick, show) == LoadedType(r, ctime, mtime, quick, show)
  {
  }

  /** Exactly when the type comes back, too: an unprelinkable entry needs a run that asks for those; the
      others need flags that do not read as unprelinkable, and a library an address range that does not read
      as a program's. A quick run also wants the times of the file unchanged and, but for unprelinkable
      entries, different from each other. */
  lemma TypeComesBack(e: Entry, ctime: nat, mtime: nat, quick: bool, show: bool)
    requires e.typ != NoType
    ensures LoadedType(Written(e), ctime, mtime, quick, show) == Restored(e.typ) <==>
            (if e.typ == Unprelinkable then quick || show
             else e.flags !in {0x4_0000, 0x6_0000}
                  && (e.typ in {Dyn, CacheDyn} ==> e.base != 0 || e.end != 0))
            && (quick ==> ctime == e.ctime && mtime == e.mtime && (ctime == mtime ==> e.typ == Unprelinkable))
  {
  }

  /** A library that was saved with base and end zero comes back as a program. */
  lemma ZeroRangeExample(e: Entry, ctime: nat, mtime: nat, show: bool)
    requires e.typ == Dyn && e.base == 0 && e.end == 0 && e.flags == 0
    ensures LoadedType(Written(e), ctime, mtime, false, show) == CacheExec
  {
  }

  /** Of the fields, the checksum and flags of unprelinkable entries, the range of programs and the
      prelinked bit are what does not come back. */
  lemma FieldsComeBack(e: Entry)
    ensures var r := Written(e);
            && r.ctime == e.ctime && r.mtime == e.mtime
            && (r.checksum == e.checksum <==> e.typ != Unprelinkable || e.checksum == 0)
            && (r.flags == e.flags <==>
              if e.typ == Unprelinkable then e.flags == 0x4_0000 else e.flags / 0x2_0000 % 2 == 0)
            && (r.base == e.base && r.end == e.end <==>
                  e.typ !in {Exec, CacheExec, Unprelinkable} || (e.base == 0 && e.end == 0))
  {
  }

  // Pruning in a quick run

  /** An entry as loaded: its type and dependencies. */
  datatype State = State(typ: Type, depends: seq<Entry>)

  /** e depends on an entry that was invalid when pruning began. */
  ghost predicate Tainted(e: Entry, was: map<Entry, State>) {
    e in was && exists y :: y in was[e].depends && y in was && was[y].typ == NoType
  }

  /** Dependencies of dependencies are dependencies, and everything is known. */
  ghost predicate Closed(was: map<Entry, State>) {
    forall x, y :: x in was && was[x].typ != NoType && y in was[x].depends ==>
      y in was && (was[y].typ != NoType ==> forall z :: z in was[y].depends ==> z in was[x].depends)
  }

  ghost function Pruned(e: Entry, was: map<Entry, State>, visited: bool): State
    requires e in was
  {
    if visited && was[e].typ != NoType && Tainted(e, was) then State(NoType, []) else was[e]
  }

  /** The first n have been visited. */
  ghost predicate PrunedUpTo(ents: seq<Entry>, n: nat, was: map<Entry, State>)
    requires n <= |ents|
    reads was.Keys
  {
    forall e :: e in was.Keys ==> State(e.typ, e.depends) == Pruned(e, was, e in ents[..n])
  }

  /** Looking at the types as they are now shows whether an entry was tainted from the beginning. */
  lemma LookIsExact(ents: seq<Entry>, n: nat, was: map<Entry, State>, x: Entry)
    requires Closed(was) && n <= |ents| && PrunedUpTo(ents, n, was) && x in was && x !in ents[..n]
    ensures x.depends == was[x].depends && x.typ == was[x].typ
    ensures x.typ != NoType ==> ((exists y :: y in x.depends && y.typ == NoType) <==> Tainted(x, was))
  {
    if Tainted(x, was) {
      var y :| y in was[x].depends && y in was && was[y].typ == NoType;
      assert State(y.typ, y.depends) == Pruned(y, was, y in ents[..n]);
    }
    forall y | x.typ != NoType && y in x.depends && y.typ == NoType ensures Tainted(x, was) {
      assert State(y.typ, y.depends) == Pruned(y, was, y in ents[..n]);
      if was[y].typ != NoType {
        var z :| z in was[y].depends && z in was && was[z].typ == NoType;
        assert z in was[x].depends;
      }
    }
  }

  method DependsOnInvalid(x: Entry) returns (found: bool)
    ensures found <==> exists y :: y in x.depends && y.typ == NoType
  {
    var j := 0;
    while j < |x.depends|
      invariant j <= |x.depends| && forall k :: 0 <= k < j ==> x.depends[k].typ != NoType
    {
      if x.depends[j].typ == NoType {
        return true;
      }
      j := j + 1;
    }
    found := false;
  }

  lemma PrunedNext(ents: seq<Entry>, n: nat, was: map<Entry, State>)
    requires n < |ents| && Cache.Distinct(ents) && ents[n] in was
    ensures ents[n] !in ents[..n] && forall e :: e in ents[..n + 1] <==> e in ents[..n] || e == ents[n]
  {
    assert ents[..n + 1] == ents[..n] + [ents[n]];
  }

  /** Every dependency that is invalid, or becomes so, invalidates what depends on it. One pass is enough in
      whatever order the entries come: an entry stays valid exactly if none of its dependencies was invalid,
      and then none is. */
  method Prune(ents: seq<Entry>, ghost was: map<Entry, State>)
    requires Cache.Distinct(ents) && Closed(was) && (forall e :: e in ents ==> e in was)
    requires forall e :: e in was.Keys ==> State(e.typ, e.depends) == was[e]
    modifies ents`typ, ents`depends
    ensures forall x :: x in ents ==> (x.typ != NoType <==> was[x].typ != NoType && !Tainted(x, was))
    ensures forall x :: x in ents && x.typ != NoType ==> x.typ == was[x].typ && x.depends == was[x].depends
    ensures (forall x, y :: x in ents && y in was[x].depends ==> y in ents) ==>
              forall x, y :: x in ents && x.typ != NoType && y in x.depends ==> y.typ != NoType
  {
    PrunedStart(ents, was);
    hide *;
    var i := 0;
    while i < |ents|
      invariant i <= |ents| && PrunedUpTo(ents, i, was)
    {
      assert ents[i] in ents;
      PruneOne(ents, i, was);
      i := i + 1;
    }
    PrunedAll(ents, was);
  }

  lemma PrunedStart(ents: seq<Entry>, was: map<Entry, State>)
    requires forall e :: e in was.Keys ==> State(e.typ, e.depends) == was[e]
    ensures PrunedUpTo(ents, 0, was)
  {
  }

  /** One entry's turn. */
  method PruneOne(ents: seq<Entry>, i: nat, ghost was: map<Entry, State>)
    requires i < |ents| && Cache.Distinct(ents) && Closed(was) && (forall e :: e in ents ==> e in was)
    requires PrunedUpTo(ents, i, was)
    modifies {ents[i]}`typ, {ents[i]}`depends
    ensures PrunedUpTo(ents, i + 1, was)
  {
    hide Closed, Cache.Distinct;
    var x := ents[i];
    PrunedNext(ents, i, was);
    LookIsExact(ents, i, was, x);
    hide Tainted;
    if x.typ != NoType {
      var found := DependsOnInvalid(x);
      if found {
        x.typ := NoType;
        x.depends := [];
      }
    }
  }

  lemma TaintThrough(x: Entry, y: Entry, was: map<Entry, State>)
    requires Closed(was) && x in was && was[x].typ != NoType && y in was[x].depends && Tainted(y, was)
    requires was[y].typ != NoType
    ensures Tainted(x, was)
  {
  }

  lemma PrunedAll(ents: seq<Entry>, was: map<Entry, State>)
    requires Closed(was) && (forall e :: e in ents ==> e in was) && PrunedUpTo(ents, |ents|, was)
    ensures forall x :: x in ents ==> (x.typ != NoType <==> was[x].typ != NoType && !Tainted(x, was))
    ensures forall x :: x in ents && x.typ != NoType ==> x.typ == was[x].typ && x.depends == was[x].depends
    ensures (forall x, y :: x in ents && y in was[x].depends ==> y in ents) ==>
              forall x, y :: x in ents && x.typ != NoType && y in x.depends ==> y.typ != NoType
  {
    assert ents[..|ents|] == ents;
    forall x | x in ents
      ensures (x.typ != NoType <==> was[x].typ != NoType && !Tainted(x, was))
              && (x.typ != NoType ==> x.typ == was[x].typ && x.depends == was[x].depends)
    {
      assert State(x.typ, x.depends) == Pruned(x, was, x in ents[..|ents|]);
    }
    if forall x, y :: x in ents && y in was[x].depends ==> y in ents {
      forall x, y | x in ents && x.typ != NoType && y in x.depends ensures y.typ != NoType {
        assert y in was[x].depends && y in was;
        if was[y].typ != NoType && Tainted(y, was) { TaintThrough(x, y, was); }
      }
    }
  }

  // A quick run as a whole

  /** The entries that were found. */
  method Present(loaded: seq<Entry?>) returns (found: seq<Entry>)
    requires forall i :: 0 <= i < |loaded| ==> loaded[i] != null
    ensures |found| == |loaded| && forall i :: 0 <= i < |found| ==> found[i] == loaded[i]
  {
    found := [];
    var i := 0;
    while i < |loaded|
      invariant i <= |loaded| && |found| == i && forall k :: 0 <= k < i ==> found[k] == loaded[k]
    {
      found := found + [loaded[i]];
      i := i + 1;
    }
  }

  /** A quick run can use what was saved of e: the file has the times it had, and they differ, or it was saved as
      unprelinkable. */
  ghost predicate Usable(e: Entry, ctime: nat, mtime: nat)
    reads e
  {
    ctime == e.ctime && mtime == e.mtime && (ctime != mtime || SavedUnprelinkable(e))
  }

  /** The flags that are saved are those of an unprelinkable file. */
  ghost predicate SavedUnprelinkable(e: Entry)
    reads e
  {
    e.typ == Unprelinkable || e.flags in {0x4_0000, 0x6_0000}
  }

  /** What e is in the next run, if it is anything. */
  ghost function NextType(e: Entry): Type
    reads e
  {
    if SavedUnprelinkable(e) then Unprelinkable
    else if e.typ in {Exec, CacheExec} || (e.base == 0 && e.end == 0) then CacheExec else CacheDyn
  }

  lemma UsableType(e: Entry, ctime: nat, mtime: nat, show: bool)
    ensures LoadedType(Written(e), ctime, mtime, true, show) == if Usable(e, ctime, mtime) then NextType(e) else NoType
    ensures NextType(e) != NoType
  {
  }

  /** Everything that some dependency needs is a dependency. */
  ghost predicate Transitive(ents: seq<Entry>)
    reads ents`depends
  {
    forall e, d :: e in ents && d in e.depends && d in ents ==> forall c :: c in d.depends ==> c in e.depends
  }

  /** The entries as they are loaded: those of the names, each in the state that Same gives. */
  ghost function StatesOf(found: seq<Entry>): (was: map<Entry, State>)
    reads found`typ, found`depends
    ensures was.Keys == set n | n in found
  {
    map n | n in found :: State(n.typ, n.depends)
  }

  /** found is what lookup has for the names of ents, and each was loaded from the record that was written for it. */
  ghost predicate Reloaded(ents: seq<Entry>, lookup: map<string, Entry>, found: seq<Entry>, show: bool)
    reads ents, found
  {
    && Saveable(ents) && |found| == |ents|
    && forall i :: 0 <= i < |ents| ==>
         && ents[i] in ents && (forall j :: 0 <= j < |ents[i].depends| ==> ents[i].depends[j] in ents)
         && ents[i].name in lookup && found[i] == lookup[ents[i].name]
         && Same(found[i], ents[i], Written(ents[i]), lookup, true, show)
  }

  lemma ReloadedIntro(ents: seq<Entry>, lookup: map<string, Entry>, found: seq<Entry>, show: bool)
    requires Saveable(ents)
    requires forall e :: e in ents ==> e.name in lookup && Same(lookup[e.name], e, Written(e), lookup, true, show)
    requires |found| == |ents| && forall i :: 0 <= i < |ents| ==> found[i] == lookup[ents[i].name]
    ensures Reloaded(ents, lookup, found, show)
  {
    hide Same;
    forall i | 0 <= i < |ents| ensures ents[i] in ents && ents[i].name in lookup && found[i] == lookup[ents[i].name]
                                       && Same(found[i], ents[i], Written(ents[i]), lookup, true, show) {
      assert ents[i] in ents;
    }
  }

  /** The entry of a name that was saved. */
  lemma FoundOf(ents: seq<Entry>, lookup: map<string, Entry>, found: seq<Entry>, show: bool, e: Entry)
    requires Reloaded(ents, lookup, found, show) && e in ents
    ensures e.name in lookup && lookup[e.name] in found
    ensures Same(lookup[e.name], e, Written(e), lookup, true, show)
  {
    hide Same;
    var i :| 0 <= i < |ents| && ents[i] == e;
  }

  lemma NameOfFound(ents: seq<Entry>, lookup: map<string, Entry>, found: seq<Entry>, show: bool, n: Entry)
    returns (e: Entry)
    requires Reloaded(ents, lookup, found, show) && n in found
    ensures e in ents && e.name in lookup && n == lookup[e.name] && Same(n, e, Written(e), lookup, true, show)
  {
    hide Same;
    var i :| 0 <= i < |found| && found[i] == n;
    e := ents[i];
  }

  /** What an entry loaded from e depends on stands for what e depends on. */
  lemma DependencyOf(n: Entry, e: Entry, lookup: map<string, Entry>, show: bool, y: Entry) returns (d: Entry)
    requires Same(n, e, Written(e), lookup, true, show) && n.typ != NoType && y in n.depends
    ensures d in e.depends && d.name in lookup && y == lookup[d.name]
  {
    hide LoadedType, Written;
    var j :| 0 <= j < |n.depends| && n.depends[j] == y;
    d := e.depends[j];
  }

  lemma DependsOn(n: Entry, e: Entry, lookup: map<string, Entry>, show: bool, d: Entry)
    requires Same(n, e, Written(e), lookup, true, show) && n.typ != NoType && d in e.depends
    ensures d.name in lookup && lookup[d.name] in n.depends
  {
    hide LoadedType, Written;
    var j :| 0 <= j < |e.depends| && e.depends[j] == d;
    assert n.depends[j] in n.depends;
  }

  lemma StatesClosed(ents: seq<Entry>, lookup: map<string, Entry>, found: seq<Entry>, show: bool)
    requires Saveable(ents) && Transitive(ents) && Reloaded(ents, lookup, found, show)
    ensures Closed(StatesOf(found))
  {
    hide Same, Reloaded;
    var was := StatesOf(found);
    forall x, y | x in was && was[x].typ != NoType && y in was[x].depends
      ensures y in was && (was[y].typ != NoType ==> forall z :: z in was[y].depends ==> z in was[x].depends)
    {
      var e := NameOfFound(ents, lookup, found, show, x);
      var d := DependencyOf(x, e, lookup, show, y);
      FoundOf(ents, lookup, found, show, d);
      if was[y].typ != NoType {
        forall z | z in was[y].depends ensures z in was[x].depends {
          var c := DependencyOf(y, d, lookup, show, z);
          DependsOn(x, e, lookup, show, c);
        }
      }
    }
  }

  /** What pruning comes to for the entry of e. */
  lemma PrunedIs(e: Entry, ents: seq<Entry>, lookup: map<string, Entry>, found: seq<Entry>, show: bool)
    requires Saveable(ents) && e in ents && Reloaded(ents, lookup, found, show)
    ensures e.name in lookup && lookup[e.name] in found
    ensures var n, was := lookup[e.name], StatesOf(found);
            && (was[n].typ != NoType && !Tainted(n, was) <==> AllUsable(e, lookup))
            && (was[n].typ != NoType ==> was[n].typ == NextType(e))
  {
    FoundOf(ents, lookup, found, show, e);
    var n, was := lookup[e.name], StatesOf(found);
    forall d | d == e || d in e.depends
      ensures d.name in lookup && lookup[d.name] in found
              && (lookup[d.name].typ != NoType
                  <==> Usable(d, lookup[d.name].ctime, lookup[d.name].mtime))
    {
      FoundOf(ents, lookup, found, show, d);
      UsableType(d, lookup[d.name].ctime, lookup[d.name].mtime, show);
      hide LoadedType, Written, Usable, NextType;
    }
    UsableType(e, n.ctime, n.mtime, show);
    hide Same, Reloaded, Usable;
    if n.typ != NoType {
      if Tainted(n, was) {
        var y :| y in was[n].depends && y in was && was[y].typ == NoType;
        var d := DependencyOf(n, e, lookup, show, y);
      } else {
        forall d | d in e.depends ensures Usable(d, lookup[d.name].ctime, lookup[d.name].mtime) {
          DependsOn(n, e, lookup, show, d);
        }
      }
    }
  }

  /** A quick run can use what was saved of e and of everything e depends on. */
  ghost predicate AllUsable(e: Entry, lookup: map<string, Entry>)
    reads e, e.depends, lookup.Values`ctime, lookup.Values`mtime
  {
    UsableNow(e, lookup) && forall d :: d in e.depends ==> UsableNow(d, lookup)
  }

  ghost predicate UsableNow(d: Entry, lookup: map<string, Entry>)
    reads d, lookup.Values`ctime, lookup.Values`mtime
  {
    d.name in lookup && Usable(d, lookup[d.name].ctime, lookup[d.name].mtime)
  }

  /** What the entry of e is in the end. */
  ghost function TypeAfter(e: Entry, lookup: map<string, Entry>): Type
    reads e, e.depends, lookup.Values`ctime, lookup.Values`mtime
  {
    if AllUsable(e, lookup) then NextType(e) else NoType
  }

  /** Prune what was loaded. */
  method QuickPrune(ents: seq<Entry>, lookup: map<string, Entry>, loaded: seq<Entry?>, show: bool)
    requires Saveable(ents) && Transitive(ents) && forall e :: e in ents ==> e.name in lookup
    requires forall e :: e in ents ==> Same(lookup[e.name], e, Written(e), lookup, true, show)
    requires |loaded| == |ents| && forall i :: 0 <= i < |ents| ==> loaded[i] == lookup[ents[i].name]
    requires forall i, j :: 0 <= i < j < |ents| ==> lookup[ents[i].name] != lookup[ents[j].name]
    requires forall e :: e in ents ==> e !in lookup.Values
    modifies lookup.Values
    ensures forall e :: e in ents ==> lookup[e.name].typ == old(TypeAfter(e, lookup))
  {
    assert forall i :: 0 <= i < |ents| ==> ents[i] in ents;
    hide *;
    var found := Present(loaded);
    ReloadedIntro(ents, lookup, found, show);
    StatesClosed(ents, lookup, found, show);
    AllDifferent(ents, lookup, found);
    ghost var was := StatesOf(found);
    StatesNow(found);
    forall e | e in ents
      ensures e.name in lookup && lookup[e.name] in found
      ensures was[lookup[e.name]].typ != NoType && !Tainted(lookup[e.name], was) <==> AllUsable(e, lookup)
      ensures was[lookup[e.name]].typ != NoType ==> was[lookup[e.name]].typ == NextType(e)
    {
      PrunedIs(e, ents, lookup, found, show);
    }
    TypesAfter(ents, lookup);
    Prune(found, was);
  }

  lemma TypesAfter(ents: seq<Entry>, lookup: map<string, Entry>)
    ensures forall e :: e in ents ==>
              TypeAfter(e, lookup) == if AllUsable(e, lookup) then NextType(e) else NoType
  {
    hide AllUsable, NextType;
  }

  lemma AllDifferent(ents: seq<Entry>, lookup: map<string, Entry>, found: seq<Entry>)
    requires |found| == |ents| && forall i :: 0 <= i < |ents| ==>
               ents[i].name in lookup && found[i] == lookup[ents[i].name]
    requires forall i, j :: 0 <= i < j < |ents| ==> lookup[ents[i].name] != lookup[ents[j].name]
    ensures Distinct(found) && forall n :: n in found ==> n in lookup.Values
  {
  }

  lemma StatesNow(found: seq<Entry>)
    ensures forall n :: n in found ==> n in StatesOf(found)
    ensures forall n :: n in StatesOf(found).Keys ==> StatesOf(found)[n] == State(n.typ, n.depends)
  {
  }

  /** Save a set of entries, load the file in a quick run that finds all of them again, and prune: an entry is valid
      exactly if it and everything it depends on can be used, and then of the type that its fields say. */
  method QuickRun(ents: seq<Entry>, lookup: map<string, Entry>, show: bool) returns (ok: bool)
    requires Saveable(ents) && Transitive(ents) && 64 + Size(ents, |ents|) < WORD
    requires forall e :: e in ents ==> e.name in lookup && lookup[e.name].typ == NoType && e !in lookup.Values
    requires forall i, j :: 0 <= i < j < |ents| ==> lookup[ents[i].name] != lookup[ents[j].name]
    modifies lookup.Values
    ensures ok && forall e :: e in ents ==> lookup[e.name].typ == old(TypeAfter(e, lookup))
  {
    var loaded;
    hide Size, Same, Written, LoadedType;
    ok, loaded := RoundTrip(ents, lookup, true, show);
    forall e | e in ents ensures TypeAfter(e, lookup) == old(TypeAfter(e, lookup)) {
      forall d | d == e || d in e.depends
        ensures d in ents && (UsableNow(d, lookup) <==> old(UsableNow(d, lookup)))
      {
      }
    }
    hide *;
    QuickPrune(ents, lookup, loaded, show);
  }
}
