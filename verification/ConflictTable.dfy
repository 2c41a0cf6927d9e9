/** Conflicts recorded for one object of the search scope (src/get.c, src/conflict.c).

    Up to 15 conflicts live in a single list; recording the 16th spreads them over 251 buckets. */
module ConflictTable {
  /** RTYPE_CLASS_*: what kind of reference a lookup was for. */
  datatype RelocClass = Valid | Plt | CopyOnly

  datatype Key = Key(symoff: nat, cls: RelocClass)

  /** A library and a value relative to its base. */
  datatype Binding = Binding(base: nat, value: nat)

  /** One "conflict" line: where the executable's scope binds the symbol and where the
      library was prelinked to bind it. */
  datatype Line = Line(key: Key, lookup: Binding, conflict: Binding)

  class Conflict {
    const line: Line
    var used: bool

    constructor (line: Line)
      ensures this.line == line && !used
    {
      this.line := line;
      used := false;
    }
  }

  const BUCKETS := 251
  const SWITCH := 16

  /** What a history of recorded conflicts says about a key, read as a plain list. */
  ghost function Meaning(log: seq<Conflict>): map<Key, Line> {
    if log == [] then map[]
    else Meaning(log[..|log| - 1])[log[|log| - 1].line.key := log[|log| - 1].line]
  }

  ghost predicate DistinctKeys(log: seq<Conflict>) {
    forall i, j :: 0 <= i < j < |log| ==> log[i].line.key != log[j].line.key
  }

  lemma {:induction false} MeaningMembers(log: seq<Conflict>)
    requires DistinctKeys(log)
    ensures forall c :: c in log ==> c.line.key in Meaning(log) && Meaning(log)[c.line.key] == c.line
    ensures forall k :: k in Meaning(log) ==> exists c :: c in log && c.line.key == k
  {
    if log != [] {
      var prior := log[..|log| - 1];
      MeaningMembers(prior);
      assert log == prior + [log[|log| - 1]];
      forall k | k in Meaning(log) ensures exists c :: c in log && c.line.key == k {
        if k in Meaning(prior) {
          var c :| c in prior && c.line.key == k;
          assert c in log;
        } else {
          assert log[|log| - 1] in log;
        }
      }
    }
  }

  /** Where a symbol offset is filed among n lists: there is one list, or there are 251 buckets. */
  ghost function Bucket(symoff: nat, n: nat): nat {
    if n == 1 then 0 else symoff % 251
  }

  /** Every conflict of the history is in its own bucket, and the buckets hold nothing else. */
  ghost predicate Filed(buckets: seq<seq<Conflict>>, log: seq<Conflict>) {
    && (|buckets| == 1 || |buckets| == 251)
    && (forall c :: c in log ==> c in buckets[Bucket(c.line.key.symoff, |buckets|)])
    && (forall b, c :: 0 <= b < |buckets| && c in buckets[b] ==>
          c in log && Bucket(c.line.key.symoff, |buckets|) == b)
  }

  /** Putting a conflict at the head of its bucket files it. */
  lemma FiledPrepend(buckets: seq<seq<Conflict>>, log: seq<Conflict>, c: Conflict)
    requires Filed(buckets, log)
    ensures var idx := Bucket(c.line.key.symoff, |buckets|);
            Filed(buckets[idx := [c] + buckets[idx]], log + [c])
  {
    var idx := Bucket(c.line.key.symoff, |buckets|);
    var after := buckets[idx := [c] + buckets[idx]];
    forall d | d in log + [c] ensures d in after[Bucket(d.line.key.symoff, |after|)] {
      if d == c { assert after[idx][0] == c; } else { assert d in log; }
    }
  }

  /** A key seen before is carried by a conflict of the history, so a new key keeps keys distinct. */
  lemma DistinctAppend(log: seq<Conflict>, c: Conflict)
    requires DistinctKeys(log) && c.line.key !in Meaning(log)
    ensures DistinctKeys(log + [c]) && Meaning(log + [c]) == Meaning(log)[c.line.key := c.line]
  {
    MeaningMembers(log);
    assert forall d :: d in log ==> d.line.key != c.line.key;
    assert (log + [c])[..|log|] == log;
  }

  class Table {
    var hash: array<seq<Conflict>>
    var count: nat
    ghost var log: seq<Conflict>

    ghost predicate Valid()
      reads this, hash
    {
      && count == |log|
      && hash.Length == (if |log| < 16 then 1 else 251)
      && DistinctKeys(log)
      && Filed(hash[..], log)
    }

    ghost function Contents(): map<Key, Line>
      reads this
    {
      Meaning(log)
    }

    constructor ()
      ensures Valid() && fresh(this) && fresh(hash) && log == [] && Contents() == map[]
    {
      hash := new seq<Conflict>[1](_ => []);
      count := 0;
      log := [];
    }

    method Search(key: Key) returns (found: Conflict?)
      requires Valid()
      ensures found != null ==> found in log && found.line.key == key
      ensures found == null <==> key !in Contents()
      ensures found != null ==> Contents()[key] == found.line
    {
      MeaningMembers(log);
      var idx := if hash.Length != 1 then key.symoff % BUCKETS else 0;
      var bucket := hash[idx];
      var i := 0;
      while i < |bucket|
        invariant 0 <= i <= |bucket|
        invariant forall j :: 0 <= j < i ==> bucket[j].line.key != key
      {
        if bucket[i].line.key == key {
          found := bucket[i];
          assert found in bucket;
          return;
        }
        i := i + 1;
      }
      found := null;
    }

    /** prelink_conflict: look a key up and mark the conflict found as used. */
    method Lookup(key: Key) returns (found: Conflict?)
      requires Valid()
      modifies log
      ensures Valid() && log == old(log)
      ensures found == null <==> key !in Contents()
      ensures found != null ==> found in log && found.used && Contents()[key] == found.line
      ensures forall c :: c in log && c != found ==> c.used == old(c.used)
    {
      found := Search(key);
      if found != null {
        found.used := true;
      }
    }

    /** conflict_hash_init: move every conflict of the single list into its bucket. */
    method Rehash()
      requires hash.Length == 1 && count == |log| == SWITCH && DistinctKeys(log)
      requires Filed(hash[..], log)
      modifies this`hash
      ensures Valid() && fresh(hash)
    {
      var moved := new seq<Conflict>[BUCKETS](_ => []);
      var list := hash[0];
      var i := 0;
      while i < |list|
        invariant 0 <= i <= |list|
        invariant fresh(moved) && moved.Length == BUCKETS
        invariant forall j :: 0 <= j < i ==> list[j] in moved[list[j].line.key.symoff % BUCKETS]
        invariant forall b, c :: 0 <= b < BUCKETS && c in moved[b] ==>
                    c in list && c.line.key.symoff % BUCKETS == b
      {
        var idx := list[i].line.key.symoff % BUCKETS;
        moved[idx] := [list[i]] + moved[idx];
        i := i + 1;
      }
      forall c | c in log ensures c in moved[c.line.key.symoff % BUCKETS] {
        assert c in list;
      }
      hash := moved;
    }

    /** File a conflict under a key not seen before, switching to buckets at the 16th. */
    method Add(line: Line)
      requires Valid() && line.key !in Contents()
      modifies this, hash
      ensures Valid() && (hash == old(hash) || fresh(hash))
      ensures Contents() == old(Contents())[line.key := line]
      ensures |log| == |old(log)| + 1 && log[..|log| - 1] == old(log)
      ensures fresh(log[|log| - 1]) && log[|log| - 1].line == line && !log[|log| - 1].used
    {
      var c := new Conflict(line);
      DistinctAppend(log, c);
      FiledPrepend(hash[..], log, c);
      var idx := if hash.Length != 1 then line.key.symoff % BUCKETS else 0;
      ghost var before := hash[..];
      hash[idx] := [c] + hash[idx];
      assert hash[..] == before[idx := [c] + before[idx]];
      log := log + [c];
      count := count + 1;
      if count == SWITCH {
        Rehash();
      }
    }

    /** Record one line. A second line for the same key must repeat the first. */
    method Record(line: Line) returns (ok: bool)
      requires Valid()
      modifies this, hash
      ensures Valid() && (hash == old(hash) || fresh(hash))
      ensures ok == (line.key in old(Contents()) ==> old(Contents())[line.key] == line)
      ensures Contents() == if ok then old(Contents())[line.key := line] else old(Contents())
    {
      var found := Search(line.key);
      if found != null {
        ok := found.line == line;
      } else {
        ok := true;
        Add(line);
      }
    }

    /** Record a whole trace, stopping at the first line that contradicts an earlier one. */
    method RecordAll(lines: seq<Line>) returns (ok: bool)
      requires Valid() && log == []
      modifies this, hash
      ensures Valid()
      ensures ok <==> Consistent(lines)
      ensures ok ==> Contents() == Listed(lines)
    {
      NothingRecorded();
      hide *;
      ok := true;
      var i := 0;
      assert lines[..0] == [];
      while i < |lines|
        invariant 0 <= i <= |lines|
        invariant Valid() && (hash == old(hash) || fresh(hash))
        invariant Consistent(lines[..i]) && Contents() == Listed(lines[..i])
      {
        ConsistentNext(lines, i);
        ok := Record(lines[i]);
        if !ok {
          return;
        }
        i := i + 1;
      }
      assert lines[..i] == lines;
    }

    lemma NothingRecorded()
      requires Valid() && log == []
      ensures Contents() == Listed([]) && Consistent([])
    {
    }
  }

  /** No two lines of a trace disagree about a key. */
  ghost predicate Consistent(lines: seq<Line>) {
    forall a, b :: 0 <= a < b < |lines| && lines[a].key == lines[b].key ==> lines[a] == lines[b]
  }

  /** The trace read as a plain list, later lines winning. */
  ghost function Listed(lines: seq<Line>): map<Key, Line> {
    if lines == [] then map[]
    else Listed(lines[..|lines| - 1])[lines[|lines| - 1].key := lines[|lines| - 1]]
  }

  /** For a consistent trace the table maps each key to its line, wherever that line stands. */
  lemma {:induction false} ListedHas(lines: seq<Line>, i: nat)
    requires Consistent(lines) && i < |lines|
    ensures lines[i].key in Listed(lines) && Listed(lines)[lines[i].key] == lines[i]
  {
    var n := |lines| - 1;
    if i < n {
      assert lines[..n][i] == lines[i];
      ListedHas(lines[..n], i);
    }
  }

  /** And it has no other keys. */
  lemma {:induction false} ListedFrom(lines: seq<Line>, k: Key) returns (i: nat)
    requires k in Listed(lines)
    ensures i < |lines| && lines[i].key == k && Listed(lines)[k] == lines[i]
  {
    var n := |lines| - 1;
    if k == lines[n].key {
      i := n;
    } else {
      i := ListedFrom(lines[..n], k);
      assert lines[..n][i] == lines[i];
    }
  }

  /** One more line keeps a trace consistent exactly when it repeats what is listed for its key, if anything is. */
  lemma ConsistentNext(lines: seq<Line>, i: nat)
    requires i < |lines| && Consistent(lines[..i])
    ensures var key, listed := lines[i].key, Listed(lines[..i]);
            && Listed(lines[..i + 1]) == listed[key := lines[i]]
            && (Consistent(lines[..i + 1]) <==> (key in listed ==> listed[key] == lines[i]))
            && (Consistent(lines) ==> Consistent(lines[..i + 1]))
  {
    var key, next := lines[i].key, lines[..i + 1];
    assert next[..i] == lines[..i] && next[i] == lines[i];
    forall a | 0 <= a < i && lines[a].key == key
      ensures key in Listed(lines[..i]) && Listed(lines[..i])[key] == lines[a] == next[a]
    {
      assert lines[..i][a] == lines[a];
      ListedHas(lines[..i], a);
    }
    if key in Listed(lines[..i]) {
      var a := ListedFrom(lines[..i], key);
      assert lines[..i][a] == next[a];
    }
    forall a, b | 0 <= a < b < i && next[a].key == next[b].key ensures next[a] == next[b] {
      assert lines[..i][a] == next[a] && lines[..i][b] == next[b];
    }
  }
}
