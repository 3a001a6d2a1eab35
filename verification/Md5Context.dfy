/** Streaming MD5: however a message is split into updates, the digest is that of the
    padded message. */
module Md5Contexts {
  import opened Octets
  import opened Md5

  type Compressor = (State, seq<Byte>) -> State

  /** All whole blocks of `s`, one after the other. */
  function Fold(f: Compressor, st: State, s: seq<Byte>): State
    decreases |s|
  {
    if |s| < 64 then st else Fold(f, f(st, s[..64]), s[64..])
  }

  lemma {:induction false} FoldSum(f: Compressor, st: State, a: seq<Byte>, b: seq<Byte>)
    requires |a| % 64 == 0
    ensures Fold(f, st, a + b) == Fold(f, Fold(f, st, a), b)
    decreases |a|
  {
    if a == [] {
      assert a + b == b;
    } else {
      assert |a| >= 64;
      assert (a + b)[..64] == a[..64] && (a + b)[64..] == a[64..] + b;
      FoldSum(f, f(st, a[..64]), a[64..], b);
    }
  }

  /** What is left after the whole blocks does not matter yet. */
  lemma FoldRest(f: Compressor, st: State, a: seq<Byte>, b: seq<Byte>)
    requires |a| % 64 == 0 && |b| < 64
    ensures Fold(f, st, a + b) == Fold(f, st, a)
  {
    FoldSum(f, st, a, b);
  }

  lemma FoldBlock(f: Compressor, st: State, a: seq<Byte>, block: seq<Byte>)
    requires |a| % 64 == 0 && |block| == 64
    ensures Fold(f, st, a + block) == f(Fold(f, st, a), block)
  {
    FoldSum(f, st, a, block);
    assert block[..64] == block && block[64..] == [];
  }

  // ---- sections 3.1 and 3.2 of RFC 1321 ----

  /** How many bytes of padding come before the length. */
  function PadLength(n: nat): (k: nat)
    ensures 1 <= k <= 64
  {
    (119 - n % 64) % 64 + 1
  }

  /** Eight bytes are left in the last block. */
  predicate LeavesRoom(n: nat, k: nat) {
    (n + k) % 64 == 56
  }

  lemma PadLengthByRest(r: nat)
    requires r < 64
    ensures PadLength(r) == if r < 56 then 56 - r else 120 - r
  {
  }

  lemma SameRest(q: nat, r: nat)
    requires r < 64
    ensures (64 * q + r) % 64 == r
  {
  }

  /** Up to a block of padding, one length only leaves the room. */
  lemma OneLengthLeavesRoom(n: nat, k: nat)
    requires 1 <= k <= 64
    ensures LeavesRoom(n, k) <==> k == PadLength(n)
  {
    var q, r := n / 64, n % 64;
    assert PadLength(n) == PadLength(r);
    PadLengthByRest(r);
    if r + k < 64 {
      SameRest(q, r + k);
    } else if r + k < 128 {
      SameRest(q + 1, r + k - 64);
    }
    assert n + k == 64 * q + (r + k);
  }

  /** As few as possible, but one at least, to leave room for the length in the last block. */
  lemma PadLengthIsLeast(n: nat)
    ensures LeavesRoom(n, PadLength(n))
    ensures forall k :: 1 <= k < PadLength(n) ==> !LeavesRoom(n, k)
  {
    OneLengthLeavesRoom(n, PadLength(n));
    forall k | 1 <= k < PadLength(n) ensures !LeavesRoom(n, k) {
      OneLengthLeavesRoom(n, k);
    }
  }

  function Zeros(n: nat): (s: seq<Byte>)
    ensures |s| == n
  {
    seq(n, _ => 0)
  }

  function LowByte(v: nat): Byte {
    (v % 256) as Byte
  }

  /** The low-order `n` bytes of `v`, low-order byte first. */
  function LittleEndian(v: nat, n: nat): (s: seq<Byte>)
    ensures |s| == n
  {
    if n == 0 then [] else [LowByte(v)] + LittleEndian(v / 256, n - 1)
  }

  function Padding(n: nat): (s: seq<Byte>)
    ensures |s| == PadLength(n)
  {
    [0x80] + Zeros(PadLength(n) - 1)
  }

  /** The message, padded, with its length in bits modulo 2^64. */
  function Pad(m: seq<Byte>): (s: seq<Byte>)
  {
    m + Padding(|m|) + LittleEndian(8 * |m| % TWO_64, 8)
  }

  // ---- sections 3.3 to 3.5 ----

  /** A word as four bytes, low-order byte first. */
  function Bytes4(w: Word): (s: seq<Byte>)
    ensures |s| == 4
  {
    [(w & 0xff) as Byte, ((w >> 8) & 0xff) as Byte, ((w >> 16) & 0xff) as Byte, ((w >> 24) & 0xff) as Byte]
  }

  function Output(s: State): (r: seq<Byte>)
    ensures |r| == 16
  {
    Bytes4(s.a) + Bytes4(s.b) + Bytes4(s.c) + Bytes4(s.d)
  }

  function FinalState(m: seq<Byte>): State {
    Fold(Compress, INIT, Pad(m))
  }

  function Digest(m: seq<Byte>): (r: seq<Byte>) {
    Output(FinalState(m))
  }

  /** `f` is the compression of RFC 1321; sealed. */
  ghost predicate IsCompress(f: Compressor) {
    forall t: bool :: IsCompressFor(f, t)
  }

  ghost predicate IsCompressFor(f: Compressor, t: bool) {
    f == Compress
  }

  lemma TheCompressor() returns (f: Compressor)
    ensures IsCompress(f)
  {
    f := Compress;
  }

  // ---- adding to a message ----

  lemma SameFold(f: Compressor, st: State, s: seq<Byte>)
    requires IsCompress(f)
    ensures Fold(f, st, s) == Fold(Compress, st, s)
  {
    assert IsCompressFor(f, true);
  }

  function Rest(m: seq<Byte>): (k: nat)
    ensures k <= |m| && k < 64 && (|m| - k) % 64 == 0
  {
    |m| % 64
  }

  /** The bytes that do not make up a block yet. */
  function Tail(m: seq<Byte>): (t: seq<Byte>)
    ensures |t| == Rest(m)
  {
    m[|m| - Rest(m)..]
  }

  lemma WholeAndTail(m: seq<Byte>)
    ensures m == m[..|m| - Rest(m)] + Tail(m)
  {
  }

  /** The tail is completed to a block. */
  lemma FillBlock(f: Compressor, st: State, m: seq<Byte>, head: seq<Byte>)
    requires |head| + Rest(m) == 64
    ensures Fold(f, st, m + head) == f(Fold(f, st, m), Tail(m) + head)
  {
    var whole := m[..|m| - Rest(m)];
    WholeAndTail(m);
    FoldRest(f, st, whole, Tail(m));
    assert m + head == whole + (Tail(m) + head);
    FoldBlock(f, st, whole, Tail(m) + head);
  }

  lemma NextBlock(f: Compressor, st: State, m: seq<Byte>, input: seq<Byte>, i: nat)
    requires i + 64 <= |input| && (|m| + i) % 64 == 0
    ensures Fold(f, st, m + input[..i + 64]) == f(Fold(f, st, m + input[..i]), input[i..i + 64])
  {
    var a, block := m + input[..i], input[i..i + 64];
    assert |a| % 64 == 0;
    FoldBlock(f, st, a, block);
    assert m + input[..i + 64] == a + block;
  }

  /** What is left over fits in the buffer. */
  lemma ShortInput(f: Compressor, st: State, m: seq<Byte>, input: seq<Byte>)
    requires Rest(m) + |input| < 64
    ensures Fold(f, st, m + input) == Fold(f, st, m)
  {
    var whole, tail := m[..|m| - Rest(m)], Tail(m);
    assert m + input == whole + (tail + input);
    FoldRest(f, st, whole, tail + input);
    FoldRest(f, st, whole, tail);
    WholeAndTail(m);
  }

  lemma ShortTail(m: seq<Byte>, input: seq<Byte>)
    requires Rest(m) + |input| < 64
    ensures Rest(m + input) == Rest(m) + |input| && Tail(m + input) == Tail(m) + input
  {
  }

  // ---- the context ----

  /** Adding to a length kept in two words. */
  lemma Carry(n: nat, k: nat)
    requires k < TWO_32
    ensures var t0 := Wrap32(n % TWO_32 + k);
            && t0 == (n + k) % TWO_32
            && (n + k) / TWO_32 % TWO_32 == if t0 < k then Wrap32(n / TWO_32 % TWO_32 + 1) else n / TWO_32 % TWO_32
  {
    var m := 0x1_0000_0000;
    var q, r := n / m, n % m;
    assert n == q * m + r;
    if r + k < m {
      assert (n + k) / m == q && (n + k) % m == r + k;
    } else {
      assert (n + k) / m == q + 1 && (n + k) % m == r + k - m;
    }
  }

  /** The length in bits, put together from the two words. */
  lemma BitLength(n: nat)
    ensures var t0, t1 := n % TWO_32, n / TWO_32 % TWO_32;
            && 8 * n % TWO_64 == Wrap32(8 * t0) + TWO_32 * (t0 / 0x2000_0000 + Wrap32(8 * t1))
            && t0 / 0x2000_0000 + Wrap32(8 * t1) < TWO_32
  {
    var t0, q := n % 0x1_0000_0000, n / 0x1_0000_0000;
    var t1, z := q % 0x1_0000_0000, q / 0x1_0000_0000;
    assert n == t0 + 0x1_0000_0000 * t1 + 0x1_0000_0000_0000_0000 * z;
    var lo, hi := 8 * t0 % 0x1_0000_0000, 8 * t0 / 0x1_0000_0000;
    assert hi == t0 / 0x2000_0000;
    var mid, over := 8 * t1 % 0x1_0000_0000, 8 * t1 / 0x1_0000_0000;
    assert 8 * n == (lo + 0x1_0000_0000 * (hi + mid)) + 0x1_0000_0000_0000_0000 * (over + 8 * z);
    MultiplesDrop(lo + 0x1_0000_0000 * (hi + mid), over + 8 * z);
  }

  lemma MultiplesDrop(v: nat, k: nat)
    requires v < TWO_64
    ensures (v + 0x1_0000_0000_0000_0000 * k) % TWO_64 == v
  {
  }

  class Md5Context {
    var total0: nat
    var total1: nat
    var state: State
    const buffer: array<Byte>
    ghost const compress: Compressor

    /** The context after `m` has been put in. */
    ghost predicate Holds(m: seq<Byte>)
      reads this, buffer
    {
      && IsCompress(compress) && buffer.Length == 64
      && total0 == |m| % TWO_32 && total1 == |m| / TWO_32 % TWO_32
      && state == Fold(compress, INIT, m)
      && buffer[..Rest(m)] == Tail(m)
    }

    /** `md5_starts` */
    constructor ()
      ensures Holds([]) && fresh(buffer)
    {
      total0, total1 := 0, 0;
      state := INIT;
      buffer := new Byte[64](_ => 0);
      ghost var f := TheCompressor();
      compress := f;
    }

    method ProcessBlock(block: seq<Byte>)
      requires |block| == 64 && IsCompress(compress)
      modifies this`state
      ensures state == compress(old(state), block)
    {
      assert IsCompressFor(compress, true);
      state := Process(state, block);
    }

    /** `memcpy` to the buffer. */
    method CopyIn(at: nat, bytes: seq<Byte>)
      requires at + |bytes| <= buffer.Length
      modifies buffer
      ensures buffer[..at + |bytes|] == old(buffer[..at]) + bytes
    {
      var i := 0;
      while i < |bytes|
        invariant 0 <= i <= |bytes|
        invariant buffer[..at + i] == old(buffer[..at]) + bytes[..i]
      {
        buffer[at + i] := bytes[i];
        i := i + 1;
      }
      assert bytes[..i] == bytes;
    }

    /** The count of bytes, with the carry. */
    method Count(n: nat, ghost m: seq<Byte>)
      requires n < TWO_32 && total0 == |m| % TWO_32 && total1 == |m| / TWO_32 % TWO_32
      modifies this`total0, this`total1
      ensures total0 == (|m| + n) % TWO_32 && total1 == (|m| + n) / TWO_32 % TWO_32
    {
      Carry(|m|, n);
      total0 := Wrap32(total0 + n);
      if total0 < n {
        total1 := Wrap32(total1 + 1);
      }
    }

    /** Part of the input has been put in: `i` bytes of it, and `left` bytes of the buffer
        are in use. */
    ghost predicate Taking(m: seq<Byte>, input: seq<Byte>, i: nat, left: nat)
      reads this, buffer
    {
      && IsCompress(compress) && buffer.Length == 64 && i <= |input| && left < 64
      && state == Fold(compress, INIT, m + input[..i])
      && Rest(m + input[..i]) == left
      && buffer[..left] == Tail(m + input[..i])
    }

    /** Completes the block in the buffer. */
    method FillBuffer(input: seq<Byte>, left: nat, ghost m: seq<Byte>)
      requires IsCompress(compress) && buffer.Length == 64 && left == Rest(m) && |input| >= 64 - left
      requires state == Fold(compress, INIT, m) && buffer[..left] == Tail(m)
      modifies this`state, buffer
      ensures Taking(m, input, 64 - left, 0)
    {
      var fill := 64 - left;
      FillBlock(compress, INIT, m, input[..fill]);
      CopyIn(left, input[..fill]);
      assert buffer[..] == buffer[..64];
      ProcessBlock(buffer[..]);
      assert Rest(m + input[..fill]) == 0;
      assert Tail(m + input[..fill]) == [];
    }

    method TakeBlock(input: seq<Byte>, i: nat, ghost m: seq<Byte>)
      requires Taking(m, input, i, 0) && i + 64 <= |input|
      modifies this`state
      ensures Taking(m, input, i + 64, 0)
    {
      NextBlock(compress, INIT, m, input, i);
      ProcessBlock(input[i..i + 64]);
      assert Rest(m + input[..i + 64]) == 0;
      assert Tail(m + input[..i + 64]) == [];
    }

    method TakeRest(input: seq<Byte>, i: nat, left: nat, ghost m: seq<Byte>)
      requires Taking(m, input, i, left) && left + (|input| - i) < 64
      modifies buffer
      ensures state == Fold(compress, INIT, m + input) && buffer[..Rest(m + input)] == Tail(m + input)
    {
      ghost var m' := m + input[..i];
      assert m + input == m' + input[i..];
      ShortInput(compress, INIT, m', input[i..]);
      ShortTail(m', input[i..]);
      CopyIn(left, input[i..]);
    }

    /** `md5_update` */
    method Update(input: seq<Byte>, ghost m: seq<Byte>)
      requires Holds(m) && |input| < TWO_32
      modifies this`total0, this`total1, this`state, buffer
      ensures Holds(m + input)
    {
      if |input| == 0 {
        assert m + input == m;
        return;
      }
      LeftInBuffer(|m|);
      var left: nat := total0 % 64;
      var fill := 64 - left;
      Count(|input|, m);
      var i: nat := 0;
      assert m + input[..0] == m;
      if left > 0 && |input| >= fill {
        FillBuffer(input, left, m);
        i := fill;
        left := 0;
      }
      while |input| - i >= 64
        invariant Taking(m, input, i, left) && (left > 0 ==> i == 0 && left + |input| < 64)
        invariant total0 == (|m| + |input|) % TWO_32 && total1 == (|m| + |input|) / TWO_32 % TWO_32
        decreases |input| - i
      {
        TakeBlock(input, i, m);
        i := i + 64;
      }
      TakeRest(input, i, left, m);
    }

    lemma LeftInBuffer(n: nat)
      ensures n % TWO_32 % 64 == n % 64
    {
      var q, r := n / 0x1_0000_0000, n % 0x1_0000_0000;
      assert n == 64 * (0x400_0000 * q) + r;
    }

    /** The length in bits, as eight bytes. */
    method MessageLength(ghost m: seq<Byte>) returns (msglen: seq<Byte>)
      requires Holds(m)
      ensures msglen == LittleEndian(8 * |m| % TWO_64, 8)
    {
      BitLength(|m|);
      var high := total0 / 0x2000_0000 + Wrap32(8 * total1);
      var low := Wrap32(8 * total0);
      msglen := LittleEndian(low, 4) + LittleEndian(high, 4);
      LengthBytes(low, high);
    }

    method PutPadding(ghost m: seq<Byte>)
      requires Holds(m)
      modifies this`total0, this`total1, this`state, buffer
      ensures Holds(m + Padding(|m|))
    {
      LeftInBuffer(|m|);
      var last := total0 % 64;
      var padn := if last < 56 then 56 - last else 120 - last;
      assert padn == PadLength(|m|);
      PaddingIsPrefix(|m|);
      Update(PADDING[..padn], m);
    }

    /** `md5_finish` */
    method Finish(ghost m: seq<Byte>) returns (output: seq<Byte>)
      requires Holds(m)
      modifies this`total0, this`total1, this`state, buffer
      ensures output == Digest(m) && output == Output(state) && state == FinalState(m)
    {
      var msglen := MessageLength(m);
      PutPadding(m);
      Update(msglen, m + Padding(|m|));
      Finished(m);
      output := Output(state);
    }

    lemma Finished(m: seq<Byte>)
      requires Holds(m + Padding(|m|) + LittleEndian(8 * |m| % TWO_64, 8))
      ensures state == FinalState(m)
    {
      SameFold(compress, INIT, Pad(m));
    }
  }

  const PADDING: seq<Byte> := [0x80] + Zeros(63)

  lemma PaddingIsPrefix(n: nat)
    ensures PADDING[..PadLength(n)] == Padding(n)
  {
  }

  lemma RoomFilled(n: nat)
    requires n % 64 == 56
    ensures (n + 8) % 64 == 0
  {
    assert n + 8 == 64 * (n / 64 + 1);
  }

  lemma PadWhole(m: seq<Byte>)
    ensures |Pad(m)| % 64 == 0
  {
    var n := |m| + PadLength(|m|);
    assert |Pad(m)| == n + 8;
    OneLengthLeavesRoom(|m|, PadLength(|m|));
    RoomFilled(n);
  }

  lemma {:induction false} LittleEndianSum(v: nat, n: nat, k: nat)
    ensures LittleEndian(v, n + k) == LittleEndian(v, n) + LittleEndian(Shifted(v, n), k)
  {
    if n > 0 {
      LittleEndianSum(v / 256, n - 1, k);
    }
  }

  function Shifted(v: nat, n: nat): nat {
    if n == 0 then v else Shifted(v / 256, n - 1)
  }

  lemma {:induction false} LittleEndianLow(v: nat, w: nat, n: nat)
    requires SameLow(v, w, n)
    ensures LittleEndian(v, n) == LittleEndian(w, n)
  {
    if n > 0 {
      LittleEndianLow(v / 256, w / 256, n - 1);
    }
  }

  predicate SameLow(v: nat, w: nat, n: nat) {
    n > 0 ==> v % 256 == w % 256 && SameLow(v / 256, w / 256, n - 1)
  }

  /** The two words of the length, one after the other, are its eight bytes. */
  lemma LengthBytes(low: nat, high: nat)
    requires low < TWO_32
    ensures LittleEndian(low + TWO_32 * high, 8) == LittleEndian(low, 4) + LittleEndian(high, 4)
  {
    var v := low + 0x1_0000_0000 * high;
    LittleEndianSum(v, 4, 4);
    var v1, v2, v3, v4 := v / 256, v / 256 / 256, v / 256 / 256 / 256, v / 256 / 256 / 256 / 256;
    var l1, l2, l3 := low / 256, low / 256 / 256, low / 256 / 256 / 256;
    assert v1 == l1 + 0x100_0000 * high && v % 256 == low % 256;
    assert v2 == l2 + 0x1_0000 * high && v1 % 256 == l1 % 256;
    assert v3 == l3 + 0x100 * high && v2 % 256 == l2 % 256;
    assert v4 == high && v3 % 256 == l3 % 256;
    assert Shifted(v3, 1) == v4;
    assert Shifted(v2, 2) == v4;
    assert Shifted(v1, 3) == v4;
    assert SameLow(v4, l3 / 256, 0);
    assert SameLow(v3, l3, 1);
    assert SameLow(v2, l2, 2);
    assert SameLow(v1, l1, 3);
    assert SameLow(v, low, 4);
    LittleEndianLow(v, low, 4);
  }

  // ---- the hash of a key ----

  /** `md5` */
  method Md5Sum(input: seq<Byte>) returns (output: seq<Byte>, ghost final: State)
    requires |input| < TWO_32
    ensures output == Digest(input)
    ensures final == FinalState(input) && output == Output(final)
  {
    var ctx := new Md5Context();
    ctx.Update(input, []);
    assert [] + input == input;
    output := ctx.Finish(input);
    final := ctx.state;
  }

  function Reassembled(b0: Byte, b1: Byte, b2: Byte, b3: Byte): Word {
    (((b3 & 0xff) as Word) << 24) | (((b2 & 0xff) as Word) << 16) | (((b1 & 0xff) as Word) << 8) | ((b0 & 0xff) as Word)
  }

  lemma BytesOfWord(w: Word)
    ensures var s := Bytes4(w);
            Reassembled(s[0], s[1], s[2], s[3]) == w
  {
  }

  /** `hash_md5`: word A of the final state. */
  method HashMd5(key: seq<Byte>) returns (hash: Word)
    requires |key| < TWO_32
    ensures hash == FinalState(key).a
  {
    var results, final := Md5Sum(key);
    BytesOfWord(final.a);
    hash := Reassembled(results[0], results[1], results[2], results[3]);
  }

  /** The digest of a message put in by any number of updates, each of less than 2^32
      bytes. */
  method DigestOfChunks(chunks: seq<seq<Byte>>) returns (output: seq<Byte>)
    requires forall i :: 0 <= i < |chunks| ==> |chunks[i]| < TWO_32
    ensures output == Digest(Joined(chunks))
  {
    var ctx := new Md5Context();
    for i := 0 to |chunks|
      invariant fresh(ctx) && fresh(ctx.buffer) && ctx.Holds(Joined(chunks[..i]))
    {
      JoinedOneMore(chunks, i);
      ctx.Update(chunks[i], Joined(chunks[..i]));
    }
    assert chunks[..|chunks|] == chunks;
    output := ctx.Finish(Joined(chunks));
  }

  lemma JoinedOneMore(chunks: seq<seq<Byte>>, i: nat)
    requires i < |chunks|
    ensures Joined(chunks[..i + 1]) == Joined(chunks[..i]) + chunks[i]
  {
    assert chunks[..i + 1][..i] == chunks[..i];
  }

  function Joined(chunks: seq<seq<Byte>>): seq<Byte> {
    if chunks == [] then [] else Joined(chunks[..|chunks| - 1]) + chunks[|chunks| - 1]
  }
}
