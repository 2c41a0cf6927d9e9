/** The streaming interface that MD5 and SHA-1 share (src/md5.c, src/sha.c): bytes arrive in pieces of any
    size and are compressed in blocks of 64. */
module Digest {
  import opened ByteImage
  import opened Word32
  import Md5
  import Sha1

  /** The chaining value of either digest. */
  datatype State = Md5State(md5: Md5.Regs) | ShaState(sha: Sha1.Regs)

  /** Byte order of the length at the end. */
  function OrderOf(h: State): Order {
    if h.Md5State? then Lsb else Msb
  }

  /** The compression of a block, as the standards have it. */
  function CompressBytes(h: State, block: seq<Byte>): State {
    match h
    case Md5State(r) => Md5State(Md5.CompressBytes(r, block))
    case ShaState(r) => ShaState(Sha1.CompressBytes(r, block))
  }

  /** The rounds of the source compute it. */
  method CompressBlock(h: State, block: seq<Byte>) returns (next: State)
    requires |block| == 64
    ensures next == CompressBytes(h, block)
  {
    hide *;
    CompressIs(h, block);
    match h {
      case Md5State(r) =>
        var m := Md5.CompressBlock(r, block);
        next := Md5State(m);
      case ShaState(r) =>
        var m := Sha1.CompressBlock(r, block);
        next := ShaState(m);
    }
  }

  lemma CompressIs(h: State, block: seq<Byte>)
    ensures h.Md5State? ==> CompressBytes(h, block) == Md5State(Md5.CompressBytes(h.md5, block))
    ensures h.ShaState? ==> CompressBytes(h, block) == ShaState(Sha1.CompressBytes(h.sha, block))
  {
    hide Md5.CompressBytes, Sha1.CompressBytes;
  }

  /** Compress data block by block. */
  ghost function Compressed(h: State, data: seq<Byte>): State
    decreases |data|
  {
    if |data| < 64 then h else Compressed(CompressBytes(h, data[..64]), data[64..])
  }

  lemma CompressedStep(h: State, data: seq<Byte>)
    ensures Compressed(h, data)
            == if |data| < 64 then h else Compressed(CompressBytes(h, data[..64]), data[64..])
  {
    hide CompressBytes;
  }

  lemma {:induction false} CompressedConcat(h: State, a: seq<Byte>, b: seq<Byte>)
    requires |a| % 64 == 0 && |b| % 64 == 0
    ensures Compressed(h, a + b) == Compressed(Compressed(h, a), b)
    decreases |a|
  {
    hide CompressBytes;
    if a == [] {
      assert a + b == b;
    } else {
      CompressedConcat(CompressBytes(h, a[..64]), a[64..], b);
      assert (a + b)[..64] == a[..64] && (a + b)[64..] == a[64..] + b;
    }
  }

  // Padding (RFC 1321, sections 3.1 and 3.2; FIPS 180-1, section 4)

  /** From 1 to 64 bytes, up to eight short of a whole number of blocks. */
  function PadLength(n: nat): (p: nat)
    ensures 1 <= p <= 64 && (n + p) % 64 == 56
  {
    1 + (119 - n % 64) % 64
  }

  function Filler(n: nat): (fill: seq<Byte>)
    ensures |fill| == n
  {
    seq(n, i requires 0 <= i < n => if i == 0 then 0x80 else 0)
  }

  /** The message with its padding and its length in bits as 64-bit number. */
  ghost function Padded(message: seq<Byte>, order: Order): (p: seq<Byte>)
    ensures |p| % 64 == 0
  {
    message + Filler(PadLength(|message|)) + Encode(order, 8 * |message|, 8)
  }

  /** The two total words count n bytes modulo 2^64. */
  ghost predicate Counts(low: nat, high: nat, n: nat) {
    low < WORD && high < WORD && exists wraps: nat :: n == low + WORD * high + WORD * WORD * wraps
  }

  lemma CountStep(low: nat, high: nat, n: nat, len: nat)
    requires Counts(low, high, n) && len < WORD
    ensures var sum := (low + len) % WORD;
            Counts(sum, if sum < len then (high + 1) % WORD else high, n + len)
  {
    var wraps: nat :| n == low + WORD * high + WORD * WORD * wraps;
    var sum := (low + len) % WORD;
    if low + len < WORD {
      assert n + len == sum + WORD * high + WORD * WORD * wraps;
    } else if high + 1 < WORD {
      assert n + len == sum + WORD * (high + 1) + WORD * WORD * wraps;
    } else {
      assert n + len == sum + WORD * 0 + WORD * WORD * (wraps + 1);
    }
  }

  lemma {:induction false} LittleEndianSplit(v: int, n: nat, m: nat)
    ensures LittleEndian(v, n + m) == LittleEndian(v, n) + LittleEndian(v / Pow256(n), m)
    decreases n
  {
    if n > 0 {
      LittleEndianSplit(v / 256, n - 1, m);
      DivSplit(v, Pow256(n - 1));
    }
  }

  lemma {:induction false} BigEndianSplit(v: int, n: nat, m: nat)
    ensures BigEndian(v, n + m) == BigEndian(v / Pow256(n), m) + BigEndian(v, n)
    decreases n
  {
    if n > 0 {
      BigEndianSplit(v / 256, n - 1, m);
      DivSplit(v, Pow256(n - 1));
      hide Pow256;
      var x, y := BigEndian(v / Pow256(n), m), BigEndian(v / 256, n - 1);
      assert (x + y) + [v % 256] == x + (y + [v % 256]);
    }
  }

  lemma DivSplit(v: int, p: nat)
    requires p > 0
    ensures (v / 256) / p == v / (256 * p)
  {
    var q, r := (v / 256) / p, (v / 256) % p;
    assert v == 256 * (q * p + r) + v % 256;
    assert v == q * (256 * p) + (v % 256 + 256 * r);
    DivUnique(v, 256 * p, q, v % 256 + 256 * r);
  }

  lemma DivUnique(v: int, d: nat, q: int, r: nat)
    requires d > 0 && r < d && v == q * d + r
    ensures v / d == q
  {
    var q', r' := v / d, v % d;
    assert v == q' * d + r';
    if q > q' { Multiple(q', q, d); } else if q < q' { Multiple(q, q', d); }
  }

  /** Only the low-order bytes of a number count. */
  lemma {:induction false} LowBytes(v: int, w: int, n: nat, k: int)
    requires v == w + Pow256(n) * k
    ensures LittleEndian(v, n) == LittleEndian(w, n) && BigEndian(v, n) == BigEndian(w, n)
    decreases n
  {
    if n > 0 {
      assert Pow256(n) * k == 256 * (Pow256(n - 1) * k);
      LowBytes(v / 256, w / 256, n - 1, k);
    }
  }

  /** The two length words the source writes: total[0] << 3, and total[1] << 3 with the bits carried over. */
  function LowWord(low: nat): nat {
    low * 8 % WORD
  }

  function HighWord(low: nat, high: nat): nat {
    high * 8 % WORD + low / 0x2000_0000
  }

  /** Together they are the length in bits. */
  lemma LengthWords(low: nat, high: nat, n: nat)
    requires Counts(low, high, n)
    ensures forall order :: Encode(order, 8 * n, 8) == LengthBytes(order, LowWord(low), HighWord(low, high))
  {
    var wraps: nat :| n == low + WORD * high + WORD * WORD * wraps;
    var carry := low / 0x2000_0000;
    assert low * 8 == LowWord(low) + WORD * carry;
    var rest := 8 * high + carry + WORD * (8 * wraps);
    assert 8 * n == LowWord(low) + WORD * rest;
    Pow256Four();
    DivUnique(8 * n, WORD, rest, LowWord(low));
    LittleEndianSplit(8 * n, 4, 4);
    BigEndianSplit(8 * n, 4, 4);
    LowBytes(8 * n, LowWord(low), 4, rest);
    assert rest == HighWord(low, high) + WORD * (high * 8 / WORD + 8 * wraps);
    LowBytes(rest, HighWord(low, high), 4, high * 8 / WORD + 8 * wraps);
    hide LittleEndian, BigEndian, LowWord, HighWord, Pow256;
  }

  /** The two length words in the order of the digest. */
  function LengthBytes(order: Order, low: nat, high: nat): (bytes: seq<Byte>)
    ensures |bytes| == 8
  {
    if order.Lsb? then LittleEndian(low, 4) + LittleEndian(high, 4) else BigEndian(high, 4) + BigEndian(low, 4)
  }

  lemma PadIs(bytes: nat, n: nat, pad: nat)
    requires bytes <= 64 && bytes <= n && (n - bytes) % 64 == 0
             && pad == if bytes >= 56 then 64 + 56 - bytes else 56 - bytes
    ensures pad == PadLength(n) && (bytes + pad + 8) % 64 == 0 && bytes + pad + 8 <= 128
  {
  }

  /** What the buffer holds at the end is the rest of the padded message. */
  lemma PaddedIs(message: seq<Byte>, order: Order, done: seq<Byte>, waiting: seq<Byte>, rest: seq<Byte>)
    requires message == done + waiting
    requires rest == waiting + Filler(PadLength(|message|)) + Encode(order, 8 * |message|, 8)
    ensures Padded(message, order) == done + rest
  {
    hide Filler, Encode;
  }

  lemma Extended(m: seq<Byte>, data: seq<Byte>, b: nat)
    requires b <= |m|
    ensures |m + data| - (b + |data|) == |m| - b
    ensures (m + data)[..|m| - b] == m[..|m| - b] && (m + data)[|m| - b..] == m[|m| - b..] + data
  {
  }

  /** The bytes of an array that begins with x and goes on with y. */
  lemma Front(s: array<Byte>, x: seq<Byte>, y: seq<Byte>)
    requires |x| + |y| <= s.Length
    requires forall i :: 0 <= i < |x| ==> s[i] == x[i]
    requires forall i :: 0 <= i < |y| ==> s[|x| + i] == y[i]
    ensures s[..|x| + |y|] == x + y
  {
    forall i | 0 <= i < |x| + |y| ensures s[..|x| + |y|][i] == (x + y)[i] {
      if i >= |x| { assert s[|x| + (i - |x|)] == y[i - |x|]; }
    }
  }

  lemma BlockFits()
    ensures 128 < WORD
  {
  }

  lemma SplitAt(s: array<Byte>, k: nat, b: nat)
    requires k <= b <= s.Length
    ensures s[..b] == s[..k] + s[k..b]
  {
  }

  lemma Drained(m: seq<Byte>, b: nat, head: seq<Byte>, rest: seq<Byte>)
    requires |head| + |rest| == b <= |m| && m[|m| - b..] == head + rest
    requires (|m| - b) % 64 == 0 && |head| % 64 == 0
    ensures (|m| - |rest|) % 64 == 0 && |m[..|m| - b]| % 64 == 0 && |m| - b + |head| == |m| - |rest|
    ensures m[..|m| - |rest|] == m[..|m| - b] + head && rest == m[|m| - |rest|..]
  {
    assert m == m[..|m| - b] + (head + rest);
  }

  // The context

  class Context {
    const init: State
    var h: State
    var total0: nat
    var total1: nat
    var buflen: nat
    const buffer: array<Byte>
    /** Everything the context has been given. */
    ghost var message: seq<Byte>

    /** The first b bytes of the buffer are the end of m; what comes before has been compressed. */
    ghost predicate Loaded(m: seq<Byte>, b: nat)
      reads this`h, this`total0, this`total1, buffer
    {
      && buffer.Length == 128 && b <= 128 && b <= |m| && (|m| - b) % 64 == 0
      && buffer[..b] == m[|m| - b..]
      && h == Compressed(init, m[..|m| - b])
      && Counts(total0, total1, |m| - b)
    }

    /** At most one full block waits. */
    ghost predicate Valid()
      reads this, buffer
    {
      buflen <= 64 && Loaded(message, buflen)
    }

    constructor (init: State)
      ensures Valid() && message == [] && this.init == init && fresh(buffer)
    {
      this.init := init;
      h, total0, total1, buflen, message := init, 0, 0, 0, [];
      buffer := new Byte[128](_ => 0);
      new;
      assert 0 == 0 + WORD * 0 + WORD * WORD * 0;
    }

    /** md5_process_block, sha_process_block: count and compress whole blocks. */
    method ProcessBlock(data: seq<Byte>, ghost n: nat)
      requires |data| % 64 == 0 && |data| < WORD && Counts(total0, total1, n)
      modifies this`h, this`total0, this`total1
      ensures h == Compressed(old(h), data) && Counts(total0, total1, n + |data|)
    {
      hide Counts, CompressBytes;
      CountStep(total0, total1, n, |data|);
      total0 := (total0 + |data|) % WORD;
      if total0 < |data| {
        total1 := (total1 + 1) % WORD;
      }
      var words := 0;
      assert data[0..] == data;
      while words < |data|
        invariant words <= |data| && words % 64 == 0
        invariant Compressed(h, data[words..]) == Compressed(old(h), data)
        invariant Counts(total0, total1, n + |data|)
      {
        assert data[words..][..64] == data[words..words + 64] && data[words..][64..] == data[words + 64..];
        h := CompressBlock(h, data[words..words + 64]);
        words := words + 64;
      }
    }

    /** memcpy into the buffer. */
    method Store(at: nat, data: seq<Byte>)
      requires at + |data| <= buffer.Length
      modifies buffer
      ensures forall i :: 0 <= i < buffer.Length ==>
                buffer[i] == if at <= i < at + |data| then data[i - at] else old(buffer[i])
    {
      forall i | 0 <= i < |data| {
        buffer[at + i] := data[i];
      }
    }

    method StoreFront(data: seq<Byte>)
      requires |data| <= buffer.Length
      modifies buffer
      ensures buffer[..|data|] == data
    {
      Store(0, data);
    }

    /** Put data behind the b bytes in the buffer. */
    method Load(data: seq<Byte>, b: nat, ghost m: seq<Byte>)
      requires Loaded(m, b) && b + |data| <= 128
      modifies buffer
      ensures Loaded(m + data, b + |data|)
    {
      hide *;
      LoadedFacts(m, b);
      ghost var waiting := buffer[..b];
      Store(b, data);
      Front(buffer, waiting, data);
      Extended(m, data, b);
      LoadedIntro(m + data, b + |data|);
    }

    /** Compress the first k bytes of the buffer and move the others to the front. */
    method Drain(b: nat, k: nat, ghost m: seq<Byte>)
      requires Loaded(m, b) && k <= b && k % 64 == 0
      modifies this`h, this`total0, this`total1, buffer
      ensures Loaded(m, b - k)
    {
      hide *;
      LoadedFacts(m, b);
      var head, rest := buffer[..k], buffer[k..b];
      ghost var done := m[..|m| - b];
      SplitAt(buffer, k, b);
      Drained(m, b, head, rest);
      CompressedConcat(init, done, head);
      BlockFits();
      ProcessBlock(head, |m| - b);
      StoreFront(rest);
      LoadedIntro(m, |rest|);
    }

    lemma LoadedFacts(m: seq<Byte>, b: nat)
      requires Loaded(m, b)
      ensures buffer.Length == 128 && b <= 128 && b <= |m| && (|m| - b) % 64 == 0 && buffer[..b] == m[|m| - b..]
      ensures h == Compressed(init, m[..|m| - b]) && Counts(total0, total1, |m| - b)
    {
    }

    lemma LoadedIntro(m: seq<Byte>, b: nat)
      requires buffer.Length == 128 && b <= 128 && b <= |m| && (|m| - b) % 64 == 0 && buffer[..b] == m[|m| - b..]
      requires h == Compressed(init, m[..|m| - b]) && Counts(total0, total1, |m| - b)
      ensures Loaded(m, b)
    {
    }

    /** The first part of process_bytes: bytes go behind those already waiting. */
    method TopUp(input: seq<Byte>) returns (add: nat)
      requires Valid() && buflen != 0
      modifies this`h, this`total0, this`total1, this`buflen, this`message, buffer
      ensures Valid() && add <= |input| && message == old(message) + input[..add]
      ensures add < |input| ==> buflen == 0
    {
      hide Loaded;
      var leftOver := buflen;
      add := if 128 - leftOver > |input| then |input| else 128 - leftOver;
      ghost var m := message + input[..add];
      Load(input[..add], leftOver, message);
      buflen := buflen + add;
      message := m;
      if buflen > 64 {
        var whole := buflen - buflen % 64;
        Drain(buflen, whole, m);
        buflen := buflen % 64;
      }
    }

    /** Compress whole blocks straight from the input, nothing being buffered. */
    method Direct(data: seq<Byte>)
      requires Loaded(message, 0) && |data| % 64 == 0 && |data| < WORD
      modifies this`h, this`total0, this`total1, this`message
      ensures Loaded(message, 0) && message == old(message) + data
    {
      hide *;
      LoadedFacts(message, 0);
      assert message[..|message| - 0] == message;
      CompressedConcat(init, message, data);
      ProcessBlock(data, |message|);
      message := message + data;
      assert message[..|message| - 0] == message && message[|message| - 0..] == buffer[..0];
      LoadedIntro(message, 0);
    }

    /** The second part of process_bytes: complete blocks. A misaligned input is copied block by block
        and keeps its last block back. */
    method Whole(input: seq<Byte>, address: nat) returns (taken: nat)
      requires Loaded(message, 0) && 64 <= |input| < WORD
      modifies this`h, this`total0, this`total1, this`message, buffer
      ensures taken <= |input| && |input| - taken <= 64
      ensures Loaded(message, 0) && message == old(message) + input[..taken]
    {
      hide *;
      if address % 4 != 0 {
        taken := 0;
        BlockFits();
        assert input[..0] == [];
        LoadedFacts(message, 0);
        while |input| - taken > 64
          invariant taken <= |input| && buffer.Length == 128
          invariant Loaded(message, 0) && message == old(message) + input[..taken]
        {
          Copy(input[taken..taken + 64], message);
          assert input[..taken + 64] == input[..taken] + input[taken..taken + 64];
          Direct(buffer[..64]);
          taken := taken + 64;
        }
      } else {
        taken := |input| - |input| % 64;
        Direct(input[..taken]);
      }
    }

    /** Copy a block to the front of a buffer that holds nothing. */
    method Copy(data: seq<Byte>, ghost m: seq<Byte>)
      requires Loaded(m, 0) && |data| == 64
      modifies buffer
      ensures Loaded(m, 0) && buffer.Length == 128 && buffer[..64] == data
    {
      hide *;
      LoadedFacts(m, 0);
      StoreFront(data);
      assert buffer[..0] == m[|m| - 0..];
      LoadedIntro(m, 0);
    }

    /** The third part of process_bytes: the rest waits in the buffer, unless it is a full block. */
    method Keep(input: seq<Byte>)
      requires Valid() && buflen + |input| <= 128
      modifies this`h, this`total0, this`total1, this`buflen, this`message, buffer
      ensures Valid() && message == old(message) + input
    {
      hide Loaded;
      var leftOver := buflen;
      ghost var m := message + input;
      Load(input, leftOver, message);
      leftOver := leftOver + |input|;
      if leftOver >= 64 {
        Drain(leftOver, 64, m);
        leftOver := leftOver - 64;
      }
      buflen := leftOver;
      message := m;
    }

    /** md5_process_bytes, sha_process_bytes. */
    method ProcessBytes(input: seq<Byte>, address: nat)
      requires Valid() && |input| < WORD
      modifies this`h, this`total0, this`total1, this`buflen, this`message, buffer
      ensures Valid() && message == old(message) + input
    {
      hide Loaded, CompressBytes;
      var at := 0;
      if buflen != 0 {
        at := TopUp(input);
      }
      assert message == old(message) + input[..at];
      assert at < |input| ==> buflen == 0;
      if |input| - at >= 64 {
        var taken := Whole(input[at..], address + at);
        assert input[..at + taken] == input[..at] + input[at..][..taken];
        at := at + taken;
      }
      if |input| - at > 0 {
        Keep(input[at..]);
        assert input == input[..at] + input[at..];
      }
      assert at == |input| ==> input[..at] == input;
    }

    /** md5_finish_ctx, sha_finish_ctx: the chaining value after the padded message. */
    method Finish() returns (digest: State)
      requires Valid()
      modifies this`h, this`total0, this`total1, buffer
      ensures digest == Compressed(init, Padded(message, OrderOf(init)))
    {
      hide *;
      ValidFacts();
      LoadedFacts(message, buflen);
      BlockFits();
      var bytes := buflen;
      ghost var done, waiting := message[..|message| - bytes], buffer[..bytes];
      CountStep(total0, total1, |message| - bytes, bytes);
      total0 := (total0 + bytes) % WORD;
      if total0 < bytes {
        total1 := (total1 + 1) % WORD;
      }
      var pad := if bytes >= 56 then 64 + 56 - bytes else 56 - bytes;
      PadIs(bytes, |message|, pad);
      LengthWords(total0, total1, |message|);
      FillEnd(bytes, pad, LowWord(total0), HighWord(total0, total1));
      PaddedIs(message, OrderOf(init), done, waiting, buffer[..bytes + pad + 8]);
      CompressedConcat(init, done, buffer[..bytes + pad + 8]);
      ProcessBlock(buffer[..bytes + pad + 8], |message|);
      digest := h;
    }

    /** The last bytes of the message are followed by the filler and the length. */
    method FillEnd(bytes: nat, pad: nat, low: nat, high: nat)
      requires buffer.Length == 128 && bytes + pad + 8 <= 128
      modifies buffer
      ensures buffer.Length == 128
      ensures buffer[..bytes + pad + 8] == old(buffer[..bytes]) + Filler(pad) + LengthBytes(OrderOf(init), low, high)
    {
      hide *;
      ghost var waiting := buffer[..bytes];
      Store(bytes, Filler(pad));
      Front(buffer, waiting, Filler(pad));
      ghost var filled := buffer[..bytes + pad];
      StoreLength(bytes + pad, low, high);
      Front(buffer, filled, LengthBytes(OrderOf(init), low, high));
    }

    method StoreLength(at: nat, low: nat, high: nat)
      requires buffer.Length == 128 && at + 8 <= 128
      modifies buffer
      ensures forall i :: 0 <= i < at ==> buffer[i] == old(buffer[i])
      ensures forall i :: 0 <= i < 8 ==> buffer[at + i] == LengthBytes(OrderOf(init), low, high)[i]
    {
      hide LittleEndian, BigEndian;
      if OrderOf(init).Lsb? {
        Store(at, LittleEndian(low, 4));
        Store(at + 4, LittleEndian(high, 4));
      } else {
        Store(at + 4, BigEndian(low, 4));
        Store(at, BigEndian(high, 4));
      }
    }

    lemma ValidFacts()
      requires Valid()
      ensures buflen <= 64 && Loaded(message, buflen)
    {
    }
  }

  /** A piece of the message and the address it lies at. */
  datatype Piece = Piece(data: seq<Byte>, address: nat)

  ghost function Joined(pieces: seq<Piece>): seq<Byte> {
    if pieces == [] then [] else Joined(pieces[..|pieces| - 1]) + pieces[|pieces| - 1].data
  }

  /** However a message is cut into calls, and wherever the pieces lie, the digest is the chaining value
      after the blocks of the padded message, in order. */
  method DigestOf(init: State, pieces: seq<Piece>) returns (digest: State)
    requires forall p :: p in pieces ==> |p.data| < WORD
    ensures digest == Compressed(init, Padded(Joined(pieces), OrderOf(init)))
  {
    hide Compressed, CompressBytes, Padded;
    var ctx := new Context(init);
    var i := 0;
    while i < |pieces|
      invariant i <= |pieces| && ctx.Valid() && ctx.message == Joined(pieces[..i])
      invariant fresh(ctx) && fresh(ctx.buffer)
    {
      assert pieces[..i + 1][..i] == pieces[..i];
      ctx.ProcessBytes(pieces[i].data, pieces[i].address);
      i := i + 1;
    }
    assert pieces[..i] == pieces;
    digest := ctx.Finish();
  }

  /** md5_buffer, sha_buffer: one call gives the same digest as any other cut. */
  method DigestBuffer(init: State, buffer: seq<Byte>, address: nat) returns (digest: State)
    requires |buffer| < WORD
    ensures digest == Compressed(init, Padded(buffer, OrderOf(init)))
  {
    hide *;
    var ctx := new Context(init);
    assert [] + buffer == buffer;
    ctx.ProcessBytes(buffer, address);
    digest := ctx.Finish();
  }

  /** MD5 of a message that arrives in pieces: md5_init_ctx, md5_process_bytes, md5_finish_ctx. */
  method Md5Of(pieces: seq<Piece>) returns (digest: Md5.Regs)
    requires forall p :: p in pieces ==> |p.data| < WORD
    ensures Md5State(digest) == Compressed(Md5State(Md5.INIT), Padded(Joined(pieces), Lsb))
  {
    var d := DigestOf(Md5State(Md5.INIT), pieces);
    StaysSame(Md5State(Md5.INIT), Padded(Joined(pieces), Lsb));
    digest := d.md5;
  }

  /** SHA-1 of a message that arrives in pieces: sha_init_ctx, sha_process_bytes, sha_finish_ctx. */
  method Sha1Of(pieces: seq<Piece>) returns (digest: Sha1.Regs)
    requires forall p :: p in pieces ==> |p.data| < WORD
    ensures ShaState(digest) == Compressed(ShaState(Sha1.INIT), Padded(Joined(pieces), Msb))
  {
    var d := DigestOf(ShaState(Sha1.INIT), pieces);
    StaysSame(ShaState(Sha1.INIT), Padded(Joined(pieces), Msb));
    digest := d.sha;
  }

  /** A chaining value stays one of its digest. */
  lemma {:induction false} StaysSame(h: State, data: seq<Byte>)
    ensures Compressed(h, data).Md5State? == h.Md5State?
    decreases |data|
  {
    hide *;
    CompressedStep(h, data);
    if |data| >= 64 {
      CompressIs(h, data[..64]);
      StaysSame(CompressBytes(h, data[..64]), data[64..]);
    }
  }
}
