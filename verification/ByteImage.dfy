/** Bytes of a loaded object and the words relocations write into them (src/data.c). */
module ByteImage {
  type Byte = b: int | 0 <= b < 256

  function Pow256(n: nat): (p: nat)
    ensures p > 0
  {
    if n == 0 then 1 else 256 * Pow256(n - 1)
  }

  /** The n low-order bytes of v in two's complement, least significant first. */
  function LittleEndian(v: int, n: nat): (bytes: seq<Byte>)
    ensures |bytes| == n
    decreases n, v
  {
    if n == 0 then [] else [v % 256] + LittleEndian(v / 256, n - 1)
  }

  /** The n low-order bytes of v in two's complement, most significant first. */
  function BigEndian(v: int, n: nat): (bytes: seq<Byte>)
    ensures |bytes| == n
    decreases n, v
  {
    if n == 0 then [] else BigEndian(v / 256, n - 1) + [v % 256]
  }

  function FromLittleEndian(bytes: seq<Byte>): nat {
    if bytes == [] then 0 else bytes[0] + 256 * FromLittleEndian(bytes[1..])
  }

  function FromBigEndian(bytes: seq<Byte>): nat {
    if bytes == [] then 0 else bytes[|bytes| - 1] + 256 * FromBigEndian(bytes[..|bytes| - 1])
  }

  /** Byte order of the object, as recorded in e_ident[EI_DATA]. */
  datatype Order = Lsb | Msb

  function Encode(order: Order, v: int, n: nat): (bytes: seq<Byte>)
    ensures |bytes| == n
  {
    if order.Lsb? then LittleEndian(v, n) else BigEndian(v, n)
  }

  function Decode(order: Order, bytes: seq<Byte>): nat {
    if order.Lsb? then FromLittleEndian(bytes) else FromBigEndian(bytes)
  }

  lemma {:induction false} LittleEndianRoundTrip(v: int, n: nat)
    ensures FromLittleEndian(LittleEndian(v, n)) == v % Pow256(n)
    decreases n
  {
    if n > 0 {
      LittleEndianRoundTrip(v / 256, n - 1);
      assert LittleEndian(v, n)[1..] == LittleEndian(v / 256, n - 1);
      ModSplit(v, Pow256(n - 1));
    }
  }

  lemma {:induction false} BigEndianRoundTrip(v: int, n: nat)
    ensures FromBigEndian(BigEndian(v, n)) == v % Pow256(n)
    decreases n
  {
    if n > 0 {
      BigEndianRoundTrip(v / 256, n - 1);
      assert BigEndian(v, n)[..n - 1] == BigEndian(v / 256, n - 1);
      ModSplit(v, Pow256(n - 1));
    }
  }

  lemma ModSplit(v: int, p: nat)
    requires p > 0
    ensures v % (256 * p) == v % 256 + 256 * ((v / 256) % p)
  {
    var q, r := (v / 256) / p, (v / 256) % p;
    assert v == 256 * (q * p + r) + v % 256;
    ModUnique(v, 256 * p, q, v % 256 + 256 * r);
  }

  lemma ModUnique(v: int, d: nat, q: int, r: nat)
    requires d > 0 && r < d && v == q * d + r
    ensures v % d == r
  {
    var q', r' := v / d, v % d;
    assert v == q' * d + r';
    if q > q' { Multiple(q', q, d); } else if q < q' { Multiple(q, q', d); }
  }

  lemma {:induction false} Multiple(a: int, b: int, d: nat)
    requires a < b
    ensures a * d + d <= b * d
    decreases b - a
  {
    if a + 1 < b {
      Multiple(a + 1, b, d);
    }
    assert (a + 1) * d == a * d + d;
  }

  /** Truncating to a wider word first does not change the low-order bytes. */
  lemma {:induction false} TruncateFirst(v: int, n: nat, wide: nat)
    requires n <= wide
    ensures LittleEndian(v % Pow256(wide), n) == LittleEndian(v, n)
    decreases n
  {
    if n > 0 {
      var p := Pow256(wide - 1);
      ModSplit(v, p);
      assert (v % Pow256(wide)) / 256 == (v / 256) % p && (v % Pow256(wide)) % 256 == v % 256;
      TruncateFirst(v / 256, n - 1, wide - 1);
    }
  }

  lemma {:induction false} LittleEndianOfBytes(bytes: seq<Byte>)
    ensures LittleEndian(FromLittleEndian(bytes), |bytes|) == bytes
  {
    if bytes != [] {
      var rest := FromLittleEndian(bytes[1..]);
      LittleEndianOfBytes(bytes[1..]);
      assert (bytes[0] + 256 * rest) / 256 == rest && (bytes[0] + 256 * rest) % 256 == bytes[0];
      assert bytes == [bytes[0]] + bytes[1..];
    }
  }

  lemma {:induction false} BigEndianOfBytes(bytes: seq<Byte>)
    ensures BigEndian(FromBigEndian(bytes), |bytes|) == bytes
  {
    if bytes != [] {
      var rest, last := FromBigEndian(bytes[..|bytes| - 1]), bytes[|bytes| - 1];
      BigEndianOfBytes(bytes[..|bytes| - 1]);
      assert (last + 256 * rest) / 256 == rest && (last + 256 * rest) % 256 == last;
      assert bytes == bytes[..|bytes| - 1] + [bytes[|bytes| - 1]];
    }
  }

  /** Reading back an n-byte word that was written gives its n low-order bytes. */
  lemma WordRoundTrip(order: Order, v: int, n: nat)
    ensures Decode(order, Encode(order, v, n)) == v % Pow256(n)
  {
    if order.Lsb? { LittleEndianRoundTrip(v, n); } else { BigEndianRoundTrip(v, n); }
  }

  /** Writing back an n-byte word that was read changes nothing. */
  lemma BytesRoundTrip(order: Order, bytes: seq<Byte>)
    ensures Encode(order, Decode(order, bytes), |bytes|) == bytes
  {
    if order.Lsb? { LittleEndianOfBytes(bytes); } else { BigEndianOfBytes(bytes); }
  }

  /** One store: the bytes put at an address. No bytes means no store. */
  datatype Write = Write(at: nat, bytes: seq<Byte>) {
    predicate Covers(a: nat) {
      at <= a < at + |bytes|
    }
  }

  /** The image that starts at address start, after one store inside it. */
  function Stored(mem: seq<Byte>, start: nat, w: Write): (r: seq<Byte>)
    requires Inside(mem, start, w)
    ensures |r| == |mem|
  {
    seq(|mem|, k requires 0 <= k < |mem| => if w.Covers(start + k) then w.bytes[start + k - w.at] else mem[k])
  }

  lemma StoredByte(mem: seq<Byte>, start: nat, w: Write, k: nat)
    requires Inside(mem, start, w) && k < |mem|
    ensures Stored(mem, start, w)[k] == if w.Covers(start + k) then w.bytes[start + k - w.at] else mem[k]
  {
  }

  predicate Inside(mem: seq<Byte>, start: nat, w: Write) {
    w.bytes == [] || (start <= w.at && w.at + |w.bytes| <= start + |mem|)
  }

  lemma StoredNothing(mem: seq<Byte>, start: nat, a: nat)
    ensures Stored(mem, start, Write(a, [])) == mem
  {
    forall k | 0 <= k < |mem| ensures Stored(mem, start, Write(a, []))[k] == mem[k] {
      StoredByte(mem, start, Write(a, []), k);
    }
  }

  ghost predicate AllInside(mem: seq<Byte>, start: nat, ws: seq<Write>) {
    forall i :: 0 <= i < |ws| ==> Inside(mem, start, ws[i])
  }

  /** The image after the first n of a sequence of stores. */
  ghost function StoredUpTo(mem: seq<Byte>, start: nat, ws: seq<Write>, n: nat): (r: seq<Byte>)
    requires AllInside(mem, start, ws) && n <= |ws|
    ensures |r| == |mem|
  {
    if n == 0 then mem
    else Stored(StoredUpTo(mem, start, ws, n - 1), start, ws[n - 1])
  }

  /** The image after a sequence of stores, applied left to right. */
  ghost function StoredAll(mem: seq<Byte>, start: nat, ws: seq<Write>): (r: seq<Byte>)
    requires AllInside(mem, start, ws)
    ensures |r| == |mem|
  {
    StoredUpTo(mem, start, ws, |ws|)
  }

  predicate Apart(v: Write, w: Write) {
    v.bytes == [] || w.bytes == [] || v.at + |v.bytes| <= w.at || w.at + |w.bytes| <= v.at
  }

  /** No two different stores touch the same byte. */
  ghost predicate Independent(ws: seq<Write>) {
    forall i, j :: 0 <= i < j < |ws| && ws[i] != ws[j] ==> Apart(ws[i], ws[j])
  }

  /** A byte covered by one of several independent stores ends up as that store wrote it. */
  lemma {:induction false} CoveredByte(mem: seq<Byte>, start: nat, ws: seq<Write>, n: nat, i: nat, k: nat)
    requires AllInside(mem, start, ws) && Independent(ws) && i < n <= |ws|
    requires k < |mem| && ws[i].Covers(start + k)
    ensures StoredUpTo(mem, start, ws, n)[k] == ws[i].bytes[start + k - ws[i].at]
  {
    StoredByte(StoredUpTo(mem, start, ws, n - 1), start, ws[n - 1], k);
    if ws[n - 1].Covers(start + k) {
      assert ws[n - 1] == ws[i];
    } else {
      CoveredByte(mem, start, ws, n - 1, i, k);
    }
  }

  /** A byte no store covers is unchanged. */
  lemma {:induction false} UncoveredByte(mem: seq<Byte>, start: nat, ws: seq<Write>, n: nat, k: nat)
    requires AllInside(mem, start, ws) && n <= |ws| && k < |mem|
    requires forall i :: 0 <= i < n ==> !ws[i].Covers(start + k)
    ensures StoredUpTo(mem, start, ws, n)[k] == mem[k]
  {
    if n > 0 {
      UncoveredByte(mem, start, ws, n - 1, k);
      StoredByte(StoredUpTo(mem, start, ws, n - 1), start, ws[n - 1], k);
    }
  }

  /** The loaded, writable contents of one object. */
  class Image {
    const start: nat
    const order: Order
    const data: array<Byte>

    constructor (start: nat, order: Order, data: array<Byte>)
      ensures this.start == start && this.order == order && this.data == data
    {
      this.start, this.order, this.data := start, order, data;
    }

    /** Whether addr_to_sec finds a section for the address. */
    predicate HasSection(a: nat) {
      start <= a < start + data.Length
    }

    method WriteWord(a: nat, v: int, n: nat)
      requires start <= a && a + n <= start + data.Length
      modifies data
      ensures data[..] == Stored(old(data[..]), start, Write(a, Encode(order, v, n)))
    {
      var bytes := Encode(order, v, n);
      var i := 0;
      while i < n
        invariant 0 <= i <= n
        invariant forall k :: 0 <= k < data.Length ==>
                    data[k] == if a <= start + k < a + i then bytes[start + k - a] else old(data[k])
      {
        data[a - start + i] := bytes[i];
        i := i + 1;
      }
      ghost var mem := old(data[..]);
      assert Inside(mem, start, Write(a, bytes));
      forall k | 0 <= k < |mem| ensures data[k] == Stored(mem, start, Write(a, bytes))[k] {
        StoredByte(mem, start, Write(a, bytes), k);
      }
    }

    method ReadWord(a: nat, n: nat) returns (v: nat)
      requires start <= a && a + n <= start + data.Length
      ensures v == Decode(order, data[a - start..a - start + n])
    {
      v := Decode(order, data[a - start..a - start + n]);
    }
  }

  lemma Pow256Four()
    ensures Pow256(4) == 0x1_0000_0000 && Pow256(8) == 0x1_0000_0000 * 0x1_0000_0000
  {
    assert Pow256(4) == 256 * (256 * (256 * (256 * Pow256(0))));
    assert Pow256(8) == 256 * (256 * (256 * (256 * Pow256(4))));
  }
}
