/** The prelink cache file: written from the entries of one run and read back by the next (src/cache.c). */
module Cache {
  datatype Type = NoType | Dyn | Exec | CacheDyn | CacheExec | Unprelinkable

  const PCF_UNPRELINKABLE := 0x40000
  const PCF_PRELINKED := 0x20000
  const WORD := 0x1_0000_0000

  /** struct prelink_entry, the fields the cache keeps. */
  class Entry {
    var name: string
    var typ: Type
    var checksum: nat
    var flags: nat
    var ctime: nat
    var mtime: nat
    var base: nat
    var end: nat
    var depends: seq<Entry>

    constructor (name: string, ctime: nat, mtime: nat)
      ensures this.name == name && this.ctime == ctime && this.mtime == mtime && typ == NoType && depends == []
    {
      this.name, this.ctime, this.mtime := name, ctime, mtime;
      typ, checksum, flags, base, end, depends := NoType, 0, 0, 0, 0, [];
    }
  }

  /** struct prelink_cache_entry */
  datatype Record = Record(filename: nat, depends: nat, checksum: nat, flags: nat, ctime: nat, mtime: nat, base: nat,
                           end: nat)

  /** The file: its header counts, records, dependency words and strings. */
  class File {
    const nlibs: nat
    const ndeps: nat
    const lenStrings: nat
    const data: array<Record>
    const deps: array<nat>
    const strings: array<char>

    constructor (nlibs: nat, ndeps: nat, lenStrings: nat)
      ensures this.nlibs == nlibs && this.ndeps == ndeps && this.lenStrings == lenStrings && Sized()
      ensures fresh(data) && fresh(deps) && fresh(strings)
    {
      this.nlibs, this.ndeps, this.lenStrings := nlibs, ndeps, lenStrings;
      data := new Record[nlibs](_ => Record(0, 0, 0, 0, 0, 0, 0, 0));
      deps := new nat[ndeps](_ => 0);
      strings := new char[lenStrings](_ => '\0');
    }

    ghost predicate Sized() {
      data.Length == nlibs && deps.Length == ndeps && strings.Length == lenStrings
    }

    /** sizeof (struct prelink_cache), nlibs records of 40 bytes, ndeps words. */
    function StringStart(): nat {
      64 + 40 * nlibs + 4 * ndeps
    }
  }

  // Items laid out one after the other

  /** offs[i] is where item i begins when item i takes sizes[i]; the last offset is the end. */
  ghost predicate Spaced(offs: seq<nat>, sizes: seq<nat>) {
    |offs| == |sizes| + 1 && offs[0] == 0 && forall i :: 0 <= i < |sizes| ==> offs[i + 1] == offs[i] + sizes[i]
  }

  lemma {:induction false} SpacedApart(offs: seq<nat>, sizes: seq<nat>, i: nat, j: nat)
    requires Spaced(offs, sizes) && i < j <= |sizes|
    ensures offs[i] + sizes[i] <= offs[j]
  {
    if i < j - 1 { SpacedApart(offs, sizes, i, j - 1); }
  }

  lemma SpacedNext(offs: seq<nat>, sizes: seq<nat>, i: nat)
    requires Spaced(offs, sizes) && i < |sizes|
    ensures |offs| == |sizes| + 1 && offs[0] == 0 && offs[i + 1] == offs[i] + sizes[i] <= offs[|sizes|]
  {
    SpacedApart(offs, sizes, i, |sizes|);
  }

  ghost predicate Distinct(ents: seq<Entry>) {
    forall i, j :: 0 <= i < j < |ents| ==> ents[i] != ents[j]
  }

  /** names[i] is the name of ents[i]; no name holds a zero. */
  ghost predicate Named(ents: seq<Entry>, names: seq<string>)
    reads ents`name
  {
    |names| == |ents| && forall i :: 0 <= i < |ents| ==> ents[i].name == names[i] && '\0' !in names[i]
  }

  /** lists[i] are the positions of the dependencies of ents[i]: the set is closed. No entry is its own. */
  ghost predicate Indexed(ents: seq<Entry>, lists: seq<seq<nat>>)
    reads ents`depends
  {
    |lists| == |ents| && forall i :: 0 <= i < |ents| ==> IndexedAt(ents, ents[i].depends, lists[i], i)
  }

  ghost predicate IndexedAt(ents: seq<Entry>, depends: seq<Entry>, list: seq<nat>, own: nat) {
    |list| == |depends| && forall j :: 0 <= j < |list| ==>
      list[j] < |ents| && ents[list[j]] == depends[j] && list[j] != own
  }

  /** How much room the names and the lists take. */
  ghost predicate Measured(names: seq<string>, lists: seq<seq<nat>>, sizes: seq<nat>, counts: seq<nat>) {
    && |sizes| == |names| && (forall i :: 0 <= i < |names| ==> sizes[i] == |names[i]| + 1)
    && |counts| == |lists| && (forall i :: 0 <= i < |lists| ==> counts[i] == |lists[i]| + 1)
  }

  /** A string and its zero. */
  ghost predicate StringAt(strings: seq<char>, at: nat, s: string) {
    at + |s| < |strings| && strings[at..at + |s|] == s && strings[at + |s|] == '\0'
  }

  /** A dependency list, ended by the number of the entry it belongs to. */
  ghost predicate ListAt(deps: seq<nat>, at: nat, list: seq<nat>, own: nat) {
    at + |list| < |deps| && deps[at..at + |list|] == list && deps[at + |list|] == own
  }

  ghost predicate StringsStored(names: seq<string>, offs: seq<nat>, n: nat, strings: seq<char>)
    requires n <= |names| < |offs|
  {
    forall i :: 0 <= i < n ==> StringAt(strings, offs[i], names[i])
  }

  ghost predicate ListsStored(lists: seq<seq<nat>>, offs: seq<nat>, n: nat, deps: seq<nat>)
    requires n <= |lists| < |offs|
  {
    forall i :: 0 <= i < n ==> ListAt(deps, offs[i], lists[i], i)
  }

  // Saving

  /** flags & ~PCF_PRELINKED */
  function WithoutPrelinked(flags: nat): nat {
    if flags / PCF_PRELINKED % 2 == 1 then flags - PCF_PRELINKED else flags
  }

  /** Bit 17 is cleared, the bits below and above it stay. */
  lemma OneBitCleared(flags: nat)
    ensures var f := WithoutPrelinked(flags);
            f % 0x2_0000 == flags % 0x2_0000 && f / 0x2_0000 % 2 == 0 && f / 0x4_0000 == flags / 0x4_0000
  {
    if flags / 0x2_0000 % 2 == 1 {
      assert flags == 0x4_0000 * (flags / 0x4_0000) + 0x2_0000 + flags % 0x2_0000;
    }
  }

  /** What is written of an entry, besides where its name and dependencies are. */
  ghost function Written(e: Entry): Record
    reads e
  {
    var flags := WithoutPrelinked(e.flags);
    match e.typ
    case Exec => Record(0, 0, e.checksum, flags, e.ctime, e.mtime, 0, 0)
    case CacheExec => Record(0, 0, e.checksum, flags, e.ctime, e.mtime, 0, 0)
    case Unprelinkable => Record(0, 0, 0, 0x4_0000, e.ctime, e.mtime, 0, 0)
    case _ => Record(0, 0, e.checksum, flags, e.ctime, e.mtime, e.base, e.end)
  }

  /** The fields of a record, in the order in which they are filled in. */
  method FillRecord(e: Entry, filename: nat) returns (data: Record)
    ensures data == Written(e).(filename := filename)
  {
    data := Record(filename, 0, e.checksum, WithoutPrelinked(e.flags), e.ctime, e.mtime, 0, 0);
    if e.typ == Exec || e.typ == CacheExec {
      data := data.(base := 0, end := 0);
    } else if e.typ == Unprelinkable {
      data := data.(base := 0, end := 0, checksum := 0, flags := PCF_UNPRELINKABLE);
    } else {
      data := data.(base := e.base, end := e.end);
    }
  }

  /** stpcpy: copy a string and its zero. */
  method StoreString(strings: array<char>, at: nat, s: string) returns (past: nat)
    requires at + |s| < strings.Length
    modifies strings
    ensures past == at + |s| + 1 && StringAt(strings[..], at, s)
    ensures forall k :: 0 <= k < strings.Length && !(at <= k < past) ==> strings[k] == old(strings[k])
  {
    forall k | 0 <= k < |s| {
      strings[at + k] := s[k];
    }
    strings[at + |s|] := '\0';
    past := at + |s| + 1;
    assert strings[..][at..at + |s|] == s;
  }

  /** A stored string stays when only later characters change. */
  lemma StringKept(was: seq<char>, now: seq<char>, at: nat, s: string, from: nat)
    requires |was| == |now| && StringAt(was, at, s) && at + |s| < from
    requires forall k :: 0 <= k < from && k < |was| ==> now[k] == was[k]
    ensures StringAt(now, at, s)
  {
    assert now[at..at + |s|] == was[at..at + |s|];
  }

  lemma ListKept(was: seq<nat>, now: seq<nat>, at: nat, list: seq<nat>, own: nat, from: nat)
    requires |was| == |now| && ListAt(was, at, list, own) && at + |list| < from
    requires forall k :: 0 <= k < from && k < |was| ==> now[k] == was[k]
    ensures ListAt(now, at, list, own)
  {
    assert now[at..at + |list|] == was[at..at + |list|];
  }

  lemma StringsNext(names: seq<string>, sizes: seq<nat>, offs: seq<nat>, i: nat, was: seq<char>, now: seq<char>)
    requires Spaced(offs, sizes) && |sizes| == |names| && (forall k :: 0 <= k < |names| ==> sizes[k] == |names[k]| + 1)
    requires i < |names| < |offs| && |was| == |now| && StringsStored(names, offs, i, was)
             && StringAt(now, offs[i], names[i])
    requires forall k :: 0 <= k < offs[i] && k < |was| ==> now[k] == was[k]
    ensures StringsStored(names, offs, i + 1, now)
  {
    hide StringAt, Spaced;
    forall j | 0 <= j < i ensures StringAt(now, offs[j], names[j]) {
      SpacedApart(offs, sizes, j, i);
      StringKept(was, now, offs[j], names[j], offs[i]);
    }
  }

  lemma ListsNext(lists: seq<seq<nat>>, counts: seq<nat>, offs: seq<nat>, i: nat, was: seq<nat>, now: seq<nat>)
    requires Spaced(offs, counts) && |counts| == |lists|
             && (forall k :: 0 <= k < |lists| ==> counts[k] == |lists[k]| + 1)
    requires i < |lists| < |offs| && |was| == |now| && ListsStored(lists, offs, i, was)
             && ListAt(now, offs[i], lists[i], i)
    requires forall k :: 0 <= k < offs[i] && k < |was| ==> now[k] == was[k]
    ensures ListsStored(lists, offs, i + 1, now)
  {
    hide ListAt, Spaced;
    forall j | 0 <= j < i ensures ListAt(now, offs[j], lists[j], j) {
      SpacedApart(offs, counts, j, i);
      ListKept(was, now, offs[j], lists[j], j, offs[i]);
    }
  }

  /** written[i] is what is to be written of ents[i]. */
  ghost predicate ToWrite(ents: seq<Entry>, written: seq<Record>)
    reads ents
  {
    |written| == |ents| && forall i :: 0 <= i < |ents| ==> written[i] == Written(ents[i])
  }

  /** The first n records have been written, but for where their lists are. */
  ghost predicate RecordsStored(data: seq<Record>, written: seq<Record>, start: nat, offs: seq<nat>, n: nat)
    requires n <= |written| < |offs|
  {
    |data| == |written| && forall k :: 0 <= k < n ==> data[k] == written[k].(filename := start + offs[k])
  }

  /** All records have been written, and the first n know where their lists are. */
  ghost predicate ListsPlaced(data: seq<Record>, written: seq<Record>, start: nat, offs: seq<nat>, places: seq<nat>,
                              n: nat)
    requires n <= |written| < |offs| && |written| < |places|
  {
    |data| == |written|
    && forall k :: 0 <= k < |data| ==>
         data[k] == if k < n then written[k].(filename := start + offs[k], depends := places[k])
         else written[k].(filename := start + offs[k])
  }

  lemma RecordsNext(was: seq<Record>, written: seq<Record>, start: nat, offs: seq<nat>, n: nat)
    requires n < |written| < |offs| && RecordsStored(was, written, start, offs, n)
    ensures RecordsStored(was[n := written[n].(filename := start + offs[n])], written, start, offs, n + 1)
  {
  }

  lemma PlacedNext(was: seq<Record>, written: seq<Record>, start: nat, offs: seq<nat>, places: seq<nat>, n: nat)
    requires n < |written| < |offs| && |written| < |places| && ListsPlaced(was, written, start, offs, places, n)
    ensures ListsPlaced(was[n := was[n].(depends := places[n])], written, start, offs, places, n + 1)
  {
  }

  lemma PlacedStart(data: seq<Record>, written: seq<Record>, start: nat, offs: seq<nat>, places: seq<nat>)
    requires |written| < |offs| && |written| < |places| && RecordsStored(data, written, start, offs, |written|)
    ensures ListsPlaced(data, written, start, offs, places, 0)
  {
  }

  lemma NoWrap(v: nat)
    requires v < WORD
    ensures v % WORD == v
  {
  }

  /** What is given to be saved: the entries, their names, their lists as numbers, what to write of them, and
      where everything goes. */
  ghost predicate Plan(f: File, ents: seq<Entry>, names: seq<string>, lists: seq<seq<nat>>, written: seq<Record>,
                       offs: seq<nat>, places: seq<nat>)
    reads ents
  {
    && f.Sized() && f.nlibs == |ents| && Distinct(ents) && Named(ents, names) && Indexed(ents, lists)
    && ToWrite(ents, written)
    && |offs| == |names| + 1 && |places| == |lists| + 1 && offs[|names|] == f.lenStrings && places[|lists|] == f.ndeps
    && Laid(names, lists, offs, places)
    && f.StringStart() + f.lenStrings < WORD
  }

  ghost predicate Laid(names: seq<string>, lists: seq<seq<nat>>, offs: seq<nat>, places: seq<nat>) {
    exists sizes, counts :: Measured(names, lists, sizes, counts) && Spaced(offs, sizes) && Spaced(places, counts)
  }

  lemma PlanFacts(f: File, ents: seq<Entry>, names: seq<string>, lists: seq<seq<nat>>, written: seq<Record>,
                  offs: seq<nat>, places: seq<nat>)
    requires Plan(f, ents, names, lists, written, offs, places)
    ensures f.data.Length == f.nlibs == |ents| == |names| == |lists| == |written| && f.deps.Length == f.ndeps
    ensures f.strings.Length == f.lenStrings && Distinct(ents) && ToWrite(ents, written)
            && f.StringStart() + f.lenStrings < WORD
    ensures |offs| == |names| + 1 && |places| == |lists| + 1 && offs[|names|] == f.lenStrings
            && places[|lists|] == f.ndeps
    ensures offs[0] == 0 && places[0] == 0 && Laid(names, lists, offs, places)
  {
  }

  /** What the plan says of entry i. */
  lemma PlanAt(f: File, ents: seq<Entry>, names: seq<string>, lists: seq<seq<nat>>, written: seq<Record>,
               offs: seq<nat>, places: seq<nat>, i: nat)
    requires Plan(f, ents, names, lists, written, offs, places) && i < |ents|
    ensures i < |names| && i < |lists| && i < |written| && i + 1 < |offs| && i + 1 < |places|
    ensures ents[i].name == names[i] && '\0' !in names[i] && written[i] == Written(ents[i])
    ensures IndexedAt(ents, ents[i].depends, lists[i], i)
    ensures offs[i + 1] == offs[i] + |names[i]| + 1 <= f.lenStrings
    ensures places[i + 1] == places[i] + |lists[i]| + 1 <= f.ndeps
  {
    var sizes, counts :| Measured(names, lists, sizes, counts) && Spaced(offs, sizes) && Spaced(places, counts);
    SpacedNext(offs, sizes, i);
    SpacedNext(places, counts, i);
  }

  lemma StringsLaid(names: seq<string>, lists: seq<seq<nat>>, offs: seq<nat>, places: seq<nat>, i: nat,
                    was: seq<char>, now: seq<char>)
    requires Laid(names, lists, offs, places) && i < |names| < |offs|
    requires |was| == |now| && StringsStored(names, offs, i, was) && StringAt(now, offs[i], names[i])
    requires forall k :: 0 <= k < offs[i] && k < |was| ==> now[k] == was[k]
    ensures StringsStored(names, offs, i + 1, now)
  {
    var sizes, counts :| Measured(names, lists, sizes, counts) && Spaced(offs, sizes) && Spaced(places, counts);
    hide *;
    MeasuredFacts(names, lists, sizes, counts);
    StringsNext(names, sizes, offs, i, was, now);
  }

  lemma ListsLaid(names: seq<string>, lists: seq<seq<nat>>, offs: seq<nat>, places: seq<nat>, i: nat,
                  was: seq<nat>, now: seq<nat>)
    requires Laid(names, lists, offs, places) && i < |lists| < |places|
    requires |was| == |now| && ListsStored(lists, places, i, was) && ListAt(now, places[i], lists[i], i)
    requires forall k :: 0 <= k < places[i] && k < |was| ==> now[k] == was[k]
    ensures ListsStored(lists, places, i + 1, now)
  {
    var sizes, counts :| Measured(names, lists, sizes, counts) && Spaced(offs, sizes) && Spaced(places, counts);
    hide *;
    MeasuredFacts(names, lists, sizes, counts);
    ListsNext(lists, counts, places, i, was, now);
  }

  lemma MeasuredFacts(names: seq<string>, lists: seq<seq<nat>>, sizes: seq<nat>, counts: seq<nat>)
    requires Measured(names, lists, sizes, counts)
    ensures |sizes| == |names| && (forall i :: 0 <= i < |names| ==> sizes[i] == |names[i]| + 1)
    ensures |counts| == |lists| && (forall i :: 0 <= i < |lists| ==> counts[i] == |lists[i]| + 1)
  {
  }

  /** One turn of the first loop of prelink_save_cache. */
  method SaveRecord(f: File, ents: seq<Entry>, i: nat, at: nat, ghost names: seq<string>, ghost lists: seq<seq<nat>>,
                    ghost written: seq<Record>, ghost offs: seq<nat>, ghost places: seq<nat>) returns (past: nat)
    requires Plan(f, ents, names, lists, written, offs, places) && i < |ents| && |ents| == |names| == |written| < |offs|
             && at == offs[i]
    requires StringsStored(names, offs, i, f.strings[..])
             && RecordsStored(f.data[..], written, f.StringStart(), offs, i)
    modifies f.data, f.strings
    ensures past == offs[i + 1] && StringsStored(names, offs, i + 1, f.strings[..])
    ensures RecordsStored(f.data[..], written, f.StringStart(), offs, i + 1)
  {
    hide *;
    PlanFacts(f, ents, names, lists, written, offs, places);
    PlanAt(f, ents, names, lists, written, offs, places, i);
    RecordsNext(f.data[..], written, f.StringStart(), offs, i);
    NoWrap(f.StringStart() + at);
    ghost var was, data := f.strings[..], f.data[..];
    f.data[i] := FillRecord(ents[i], (f.StringStart() + at) % WORD);
    assert f.data[..] == data[i := f.data[i]];
    past := StoreString(f.strings, at, ents[i].name);
    StringsLaid(names, lists, offs, places, i, was, f.strings[..]);
  }

  /** The first loop of prelink_save_cache. The last string ends where the buffer does. */
  method SaveRecords(f: File, ents: seq<Entry>, ghost names: seq<string>, ghost lists: seq<seq<nat>>,
                     ghost written: seq<Record>, ghost offs: seq<nat>, ghost places: seq<nat>) returns (past: nat)
    requires Plan(f, ents, names, lists, written, offs, places) && |ents| == |names| == |written| < |offs|
    modifies f.data, f.strings
    ensures past == f.lenStrings && StringsStored(names, offs, |names|, f.strings[..])
    ensures RecordsStored(f.data[..], written, f.StringStart(), offs, |written|)
  {
    hide *;
    PlanFacts(f, ents, names, lists, written, offs, places);
    NothingStored(f, names, lists, written, offs, places);
    past := 0;
    var i := 0;
    while i < |ents|
      invariant i <= |ents| && past == offs[i] && StringsStored(names, offs, i, f.strings[..])
      invariant RecordsStored(f.data[..], written, f.StringStart(), offs, i)
    {
      past := SaveRecord(f, ents, i, past, names, lists, written, offs, places);
      i := i + 1;
    }
  }

  lemma NothingStored(f: File, names: seq<string>, lists: seq<seq<nat>>, written: seq<Record>, offs: seq<nat>,
                      places: seq<nat>)
    requires f.data.Length == |written| < |offs| && |names| < |offs| && |lists| < |places|
    ensures StringsStored(names, offs, 0, f.strings[..]) && ListsStored(lists, places, 0, f.deps[..])
    ensures RecordsStored(f.data[..], written, f.StringStart(), offs, 0)
  {
  }

  /** Where an entry stands among those saved. */
  method IndexOf(ents: seq<Entry>, e: Entry) returns (k: nat)
    ensures k <= |ents| && (k < |ents| ==> ents[k] == e) && forall j :: 0 <= j < k ==> ents[j] != e
  {
    k := 0;
    while k < |ents| && ents[k] != e
      invariant k <= |ents| && forall j :: 0 <= j < k ==> ents[j] != e
    {
      k := k + 1;
    }
  }

  lemma OneIndex(ents: seq<Entry>, j: nat, k: nat)
    requires Distinct(ents) && j < |ents| && k < |ents| && ents[j] == ents[k]
    ensures j == k
  {
  }

  lemma DependsIndex(ents: seq<Entry>, depends: seq<Entry>, list: seq<nat>, own: nat)
    requires IndexedAt(ents, depends, list, own)
    ensures |list| == |depends| && forall j :: 0 <= j < |list| ==>
              list[j] < |ents| && ents[list[j]] == depends[j] && list[j] != own
  {
  }

  /** The dependencies of one entry, as numbers, and its own number. Not finding one is the abort that a
      closed set rules out. */
  method SaveList(f: File, ents: seq<Entry>, i: nat, at: nat, ghost list: seq<nat>) returns (past: nat)
    requires f.deps.Length == f.ndeps && Distinct(ents) && i < |ents| && IndexedAt(ents, ents[i].depends, list, i)
    requires at + |list| < f.ndeps
    modifies f.deps
    ensures past == at + |list| + 1 && ListAt(f.deps[..], at, list, i)
    ensures forall k :: 0 <= k < at && k < f.deps.Length ==> f.deps[k] == old(f.deps[k])
  {
    DependsIndex(ents, ents[i].depends, list, i);
    hide Distinct, IndexedAt;
    past := at;
    var j := 0;
    while j < |ents[i].depends|
      invariant j <= |ents[i].depends| && past == at + j
      invariant forall t :: 0 <= t < j ==> f.deps[at + t] == list[t]
      invariant forall k :: 0 <= k < at ==> f.deps[k] == old(f.deps[k])
    {
      var k := IndexOf(ents, ents[i].depends[j]);
      assert ents[list[j]] == ents[i].depends[j];
      OneIndex(ents, k, list[j]);
      f.deps[past] := k;
      past := past + 1;
      j := j + 1;
    }
    f.deps[past] := i;
    past := past + 1;
    assert f.deps[..][at..at + |list|] == list;
  }

  /** One turn of the second loop. */
  method SaveListOf(f: File, ents: seq<Entry>, i: nat, at: nat, ghost names: seq<string>, ghost lists: seq<seq<nat>>,
                    ghost written: seq<Record>, ghost offs: seq<nat>, ghost places: seq<nat>) returns (past: nat)
    requires Plan(f, ents, names, lists, written, offs, places) && i < |ents|
             && |written| == |ents| == |lists| < |places|
    requires |ents| < |offs| && at == places[i] && ListsStored(lists, places, i, f.deps[..])
    requires ListsPlaced(f.data[..], written, f.StringStart(), offs, places, i)
    modifies f.data, f.deps
    ensures past == places[i + 1] && ListsStored(lists, places, i + 1, f.deps[..])
    ensures ListsPlaced(f.data[..], written, f.StringStart(), offs, places, i + 1)
  {
    hide *;
    PlanFacts(f, ents, names, lists, written, offs, places);
    PlanAt(f, ents, names, lists, written, offs, places, i);
    PlacedNext(f.data[..], written, f.StringStart(), offs, places, i);
    ghost var deps, data := f.deps[..], f.data[..];
    f.data[i] := f.data[i].(depends := at);
    assert f.data[..] == data[i := f.data[i]];
    past := SaveList(f, ents, i, at, lists[i]);
    ListsLaid(names, lists, offs, places, i, deps, f.deps[..]);
  }

  /** The second loop of prelink_save_cache. The last list ends where the buffer does. */
  method SaveLists(f: File, ents: seq<Entry>, ghost names: seq<string>, ghost lists: seq<seq<nat>>,
                   ghost written: seq<Record>, ghost offs: seq<nat>, ghost places: seq<nat>) returns (past: nat)
    requires Plan(f, ents, names, lists, written, offs, places) && |written| == |ents| == |lists| < |places|
             && |ents| < |offs|
    requires RecordsStored(f.data[..], written, f.StringStart(), offs, |written|)
    modifies f.data, f.deps
    ensures past == f.ndeps && ListsStored(lists, places, |lists|, f.deps[..])
    ensures ListsPlaced(f.data[..], written, f.StringStart(), offs, places, |written|)
  {
    hide *;
    PlanFacts(f, ents, names, lists, written, offs, places);
    NothingStored(f, names, lists, written, offs, places);
    PlacedStart(f.data[..], written, f.StringStart(), offs, places);
    past := 0;
    var i := 0;
    while i < |ents|
      invariant i <= |ents| && past == places[i] && ListsStored(lists, places, i, f.deps[..])
      invariant ListsPlaced(f.data[..], written, f.StringStart(), offs, places, i)
    {
      past := SaveListOf(f, ents, i, past, names, lists, written, offs, places);
      i := i + 1;
    }
  }

  /** What the caller of prelink_save_cache provides: entries that are all different, with names without a
      zero, closed under dependencies, none its own dependency. */
  ghost predicate Saveable(ents: seq<Entry>)
    reads ents`name, ents`depends
  {
    && Distinct(ents)
    && (forall e :: e in ents ==> '\0' !in e.name && e !in e.depends)
    && (forall e, d :: e in ents && d in e.depends ==> d in ents)
  }

  /** Everything a saved file holds, as values. */
  ghost predicate Saved(f: File, names: seq<string>, lists: seq<seq<nat>>, written: seq<Record>, offs: seq<nat>,
                        places: seq<nat>)
    reads f.data, f.deps, f.strings
  {
    && f.Sized() && |names| == |lists| == |written| == f.nlibs && |offs| == |names| + 1 && |places| == |lists| + 1
    && StringsStored(names, offs, |names|, f.strings[..]) && ListsStored(lists, places, |lists|, f.deps[..])
    && ListsPlaced(f.data[..], written, f.StringStart(), offs, places, |written|)
    && (forall i :: 0 <= i < |names| ==> '\0' !in names[i])
    && (forall i :: 0 <= i < |lists| ==> forall j :: 0 <= j < |lists[i]| ==> lists[i][j] < f.nlibs && lists[i][j] != i)
  }

  /** What is counted in find_ents, and the plan that follows from it. */
  ghost predicate Counted(ents: seq<Entry>, n: nat, lenStrings: nat, ndeps: nat, offs: seq<nat>, places: seq<nat>)
    requires n <= |ents|
    reads ents`name, ents`depends
  {
    && |offs| == n + 1 && |places| == n + 1 && offs[0] == 0 && places[0] == 0 && offs[n] == lenStrings
    && places[n] == ndeps
    && (forall i :: 0 <= i < n ==> offs[i + 1] == offs[i] + (|ents[i].name| + 1))
    && (forall i :: 0 <= i < n ==> places[i + 1] == places[i] + (|ents[i].depends| + 1))
  }

  /** The numbers of an entry's dependencies. */
  ghost function NumbersOf(ents: seq<Entry>, depends: seq<Entry>): (list: seq<nat>)
    requires forall d :: d in depends ==> d in ents
    ensures |list| == |depends| && forall j :: 0 <= j < |list| ==> list[j] < |ents| && ents[list[j]] == depends[j]
  {
    if depends == [] then []
    else
      assert depends[0] in depends;
      var k :| 0 <= k < |ents| && ents[k] == depends[0];
      [k] + NumbersOf(ents, depends[1..])
  }

  lemma NumbersIndexed(ents: seq<Entry>, i: nat)
    requires i < |ents| && ents[i] !in ents[i].depends && forall d :: d in ents[i].depends ==> d in ents
    ensures IndexedAt(ents, ents[i].depends, NumbersOf(ents, ents[i].depends), i)
  {
    var list := NumbersOf(ents, ents[i].depends);
    forall j | 0 <= j < |list| ensures list[j] != i {
      assert ents[list[j]] == ents[i].depends[j] && ents[i].depends[j] in ents[i].depends;
    }
  }

  /** The bytes that the first n entries take in the file. */
  ghost function Size(ents: seq<Entry>, n: nat): nat
    requires n <= |ents|
    reads ents`name, ents`depends
  {
    if n == 0 then 0 else Size(ents, n - 1) + 40 + 4 * (|ents[n - 1].depends| + 1) + |ents[n - 1].name| + 1
  }

  /** find_ents: count what the file will hold. */
  method Count(ents: seq<Entry>) returns (lenStrings: nat, ndeps: nat, ghost offs: seq<nat>, ghost places: seq<nat>)
    ensures Counted(ents, |ents|, lenStrings, ndeps, offs, places)
    ensures 40 * |ents| + 4 * ndeps + lenStrings == Size(ents, |ents|)
  {
    lenStrings, ndeps, offs, places := 0, 0, [0], [0];
    var i := 0;
    while i < |ents|
      invariant i <= |ents| && Counted(ents, i, lenStrings, ndeps, offs, places)
      invariant 40 * i + 4 * ndeps + lenStrings == Size(ents, i)
    {
      ndeps := ndeps + (|ents[i].depends| + 1);
      lenStrings := lenStrings + (|ents[i].name| + 1);
      offs, places := offs + [lenStrings], places + [ndeps];
      i := i + 1;
    }
  }

  /** Names, lists and records of a set to be saved. */
  lemma Planned(ents: seq<Entry>) returns (names: seq<string>, lists: seq<seq<nat>>, written: seq<Record>)
    requires Saveable(ents)
    ensures Named(ents, names) && Indexed(ents, lists) && ToWrite(ents, written)
  {
    names, lists, written := [], [], [];
    hide NumbersOf, Written, IndexedAt;
    while |names| < |ents|
      invariant |names| == |lists| == |written| <= |ents|
      invariant forall i :: 0 <= i < |names| ==> ents[i].name == names[i] && '\0' !in names[i]
      invariant forall i :: 0 <= i < |lists| ==> IndexedAt(ents, ents[i].depends, lists[i], i)
      invariant forall i :: 0 <= i < |written| ==> written[i] == Written(ents[i])
    {
      var e := ents[|names|];
      assert e in ents;
      NumbersIndexed(ents, |names|);
      names, lists, written := names + [e.name], lists + [NumbersOf(ents, e.depends)], written + [Written(e)];
    }
  }

  lemma CountedLaid(ents: seq<Entry>, names: seq<string>, lists: seq<seq<nat>>, lenStrings: nat, ndeps: nat,
                    offs: seq<nat>, places: seq<nat>)
    requires Counted(ents, |ents|, lenStrings, ndeps, offs, places) && Named(ents, names) && Indexed(ents, lists)
    ensures Laid(names, lists, offs, places)
  {
    var sizes := seq(|names|, i requires 0 <= i < |names| => |names[i]| + 1);
    var counts := seq(|lists|, i requires 0 <= i < |lists| => |lists[i]| + 1);
    forall i | 0 <= i < |ents| ensures |lists[i]| == |ents[i].depends| {
      assert IndexedAt(ents, ents[i].depends, lists[i], i);
    }
    assert Measured(names, lists, sizes, counts) && Spaced(offs, sizes) && Spaced(places, counts);
  }

  lemma PlanIntro(f: File, ents: seq<Entry>, names: seq<string>, lists: seq<seq<nat>>, written: seq<Record>,
                  offs: seq<nat>, places: seq<nat>)
    requires f.Sized() && f.nlibs == |ents| && Saveable(ents)
             && Counted(ents, |ents|, f.lenStrings, f.ndeps, offs, places)
    requires Named(ents, names) && Indexed(ents, lists) && ToWrite(ents, written) && Laid(names, lists, offs, places)
    requires f.StringStart() + f.lenStrings < WORD
    ensures Plan(f, ents, names, lists, written, offs, places)
  {
    hide Laid, IndexedAt, Written;
  }

  lemma SavedIntro(f: File, ents: seq<Entry>, names: seq<string>, lists: seq<seq<nat>>, written: seq<Record>,
                   offs: seq<nat>, places: seq<nat>)
    requires Plan(f, ents, names, lists, written, offs, places) && |names| == |lists| == |written| == |ents|
    requires |offs| == |names| + 1 && |places| == |lists| + 1
    requires StringsStored(names, offs, |names|, f.strings[..]) && ListsStored(lists, places, |lists|, f.deps[..])
    requires ListsPlaced(f.data[..], written, f.StringStart(), offs, places, |written|)
    ensures Saved(f, names, lists, written, offs, places)
  {
    forall i | 0 <= i < |lists|
      ensures '\0' !in names[i] && forall j :: 0 <= j < |lists[i]| ==> lists[i][j] < f.nlibs && lists[i][j] != i
    {
      PlanAt(f, ents, names, lists, written, offs, places, i);
    }
    hide Plan, StringsStored, ListsStored, ListsPlaced, Written, Named, Indexed;
  }

  /** prelink_save_cache, up to writing the file out: both loops end exactly where their part of the buffer
      does. The whole file has to stay below 2^32 bytes, the range of its offsets. */
  method Save(ents: seq<Entry>) returns (f: File, ghost names: seq<string>, ghost lists: seq<seq<nat>>,
                                                           ghost written: seq<Record>, ghost offs: seq<nat>,
                                                           ghost places: seq<nat>)
    requires Saveable(ents)
    requires 64 + Size(ents, |ents|) < WORD
    ensures fresh(f) && fresh(f.data) && fresh(f.deps) && fresh(f.strings) && f.nlibs == |ents|
    ensures Saved(f, names, lists, written, offs, places)
    ensures Named(ents, names) && Indexed(ents, lists) && ToWrite(ents, written)
  {
    var lenStrings, ndeps;
    hide Saveable, Counted, Indexed, Named, ToWrite, Laid, Plan, Saved, Size;
    lenStrings, ndeps, offs, places := Count(ents);
    names, lists, written := Planned(ents);
    CountedLaid(ents, names, lists, lenStrings, ndeps, offs, places);
    f := new File(|ents|, ndeps, lenStrings);
    PlanIntro(f, ents, names, lists, written, offs, places);
    hide *;
    PlanFacts(f, ents, names, lists, written, offs, places);
    var at := SaveRecords(f, ents, names, lists, written, offs, places);
    assert at == f.lenStrings;
    at := SaveLists(f, ents, names, lists, written, offs, places);
    assert at == f.ndeps;
    SavedIntro(f, ents, names, lists, written, offs, places);
  }
}
