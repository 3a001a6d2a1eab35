/** The command queue of a connection: buffers that are sent in pieces of any size, and
    can be rewound to be sent again. */
module BufferWriters {
  import opened Octets
  import opened Itoa
  import opened Chunking

  /** The queue on values.  `original` is the queue as it was before the first send that
      stopped inside a buffer, and empty until then. */
  datatype Iovecs = Iovecs(iovec: seq<Bytes>, original: seq<Bytes>, readIdx: nat)

  /** The buffers as they were taken. */
  function Taken(v: Iovecs): seq<Bytes> {
    if v.original == [] then v.iovec else v.original
  }

  /** What is still to be sent. */
  function Unsent(v: Iovecs): Bytes
    requires v.readIdx <= |v.iovec|
  {
    Flatten(v.iovec[v.readIdx..])
  }

  /** Everything that was taken has been sent or is still to be sent. */
  predicate InOrder(v: Iovecs) {
    && v.readIdx <= |v.iovec| == |Taken(v)|
    && v.iovec[v.readIdx..][Next(v)..] == Taken(v)[v.readIdx..][Next(v)..]
    && (v.readIdx < |v.iovec| ==> IsSuffix(v.iovec[v.readIdx], Taken(v)[v.readIdx]))
  }

  function Next(v: Iovecs): (n: nat)
    requires v.readIdx <= |v.iovec|
    ensures n <= |v.iovec| - v.readIdx
  {
    if v.readIdx < |v.iovec| then 1 else 0
  }

  predicate IsSuffix(a: Bytes, b: Bytes) {
    |a| <= |b| && b[|b| - |a|..] == a
  }

  function All(v: Iovecs): Bytes {
    Flatten(Taken(v))
  }

  /** What has been sent. */
  function Sent(v: Iovecs): Bytes
    requires v.readIdx <= |v.iovec|
  {
    if |Unsent(v)| <= |All(v)| then All(v)[..|All(v)| - |Unsent(v)|] else []
  }

  lemma FlattenHead(a: seq<Bytes>, i: nat)
    requires i < |a|
    ensures Flatten(a[i..]) == a[i] + Flatten(a[i + 1..])
  {
    assert a[i..][1..] == a[i + 1..];
  }

  /** The unsent bytes are the last ones of those taken. */
  lemma UnsentIsSuffix(v: Iovecs)
    requires InOrder(v)
    ensures IsSuffix(Unsent(v), All(v)) && Sent(v) + Unsent(v) == All(v)
  {
    var t := Taken(v);
    assert t == t[..v.readIdx] + t[v.readIdx..];
    FlattenSum(t[..v.readIdx], t[v.readIdx..]);
    if v.readIdx < |t| {
      FlattenHead(t, v.readIdx);
      FlattenHead(v.iovec, v.readIdx);
      assert v.iovec[v.readIdx + 1..] == v.iovec[v.readIdx..][1..] == t[v.readIdx..][1..] == t[v.readIdx + 1..];
      SuffixSum(v.iovec[v.readIdx], t[v.readIdx], Flatten(t[v.readIdx + 1..]));
    }
  }

  lemma SuffixSum(a: Bytes, b: Bytes, rest: Bytes)
    requires IsSuffix(a, b)
    ensures IsSuffix(a + rest, b + rest)
  {
  }

  // ---- committing ----

  /** Dropping the first buffer once it has been sent whole. */
  lemma DropBuffer(v: Iovecs, n: nat)
    requires InOrder(v) && v.readIdx < |v.iovec| && |v.iovec[v.readIdx]| <= n <= |Unsent(v)|
    ensures var k := |v.iovec[v.readIdx]|;
            var v' := v.(readIdx := v.readIdx + 1);
            InOrder(v') && n - k <= |Unsent(v')| && Unsent(v')[n - k..] == Unsent(v)[n..]
  {
    FlattenHead(v.iovec, v.readIdx);
    var v' := v.(readIdx := v.readIdx + 1);
    var t := Taken(v);
    assert v.iovec[v'.readIdx..] == v.iovec[v.readIdx..][1..] == t[v.readIdx..][1..] == t[v'.readIdx..];
  }

  /** The part of a buffer that was sent is cut off; the buffers are saved first. */
  function CutBuffer(v: Iovecs, n: nat): Iovecs
    requires v.readIdx < |v.iovec| && n <= |v.iovec[v.readIdx]|
  {
    var first := v.iovec[v.readIdx];
    v.(original := if v.original == [] then v.iovec else v.original, iovec := v.iovec[v.readIdx := first[n..]])
  }

  lemma CutInOrder(v: Iovecs, n: nat)
    requires InOrder(v) && v.readIdx < |v.iovec| && n <= |v.iovec[v.readIdx]|
    ensures var v' := CutBuffer(v, n);
            InOrder(v') && Taken(v') == Taken(v) && n <= |Unsent(v)| && Unsent(v') == Unsent(v)[n..]
  {
    FlattenHead(v.iovec, v.readIdx);
    var v' := CutBuffer(v, n);
    FlattenHead(v'.iovec, v.readIdx);
    assert v'.iovec[v.readIdx + 1..] == v.iovec[v.readIdx + 1..];
    assert v'.iovec[v.readIdx..][1..] == v.iovec[v.readIdx..][1..];
    assert Taken(v') == Taken(v);
  }

  // ---- has anything been sent? ----

  /** What `commitRead` makes of the queue. */
  function Committed(v: Iovecs, n: nat): Iovecs
    decreases |v.iovec| - v.readIdx
  {
    if v.readIdx < |v.iovec| && n >= |v.iovec[v.readIdx]| then
      Committed(v.(readIdx := v.readIdx + 1), n - |v.iovec[v.readIdx]|)
    else if v.readIdx < |v.iovec| && n > 0 then CutBuffer(v, n)
    else v
  }

  /** The part of the buffer at the index that has been cut off. */
  function CutOff(v: Iovecs): Bytes
    requires InOrder(v)
  {
    if v.readIdx < |v.iovec| then Taken(v)[v.readIdx][..|Taken(v)[v.readIdx]| - |v.iovec[v.readIdx]|] else []
  }

  lemma FlattenSplit(t: seq<Bytes>, i: nat)
    requires i <= |t|
    ensures Flatten(t) == Flatten(t[..i]) + Flatten(t[i..])
  {
    assert t == t[..i] + t[i..];
    FlattenSum(t[..i], t[i..]);
  }

  lemma FirstPart(sent: Bytes, unsent: Bytes, before: Bytes, cut: Bytes)
    requires sent + unsent == before + (cut + unsent)
    ensures sent == before + cut
  {
    assert before + (cut + unsent) == before + cut + unsent;
    assert |sent| == |before + cut|;
    assert sent == (sent + unsent)[..|sent|] && before + cut == (before + cut + unsent)[..|sent|];
  }

  lemma CutParts(v: Iovecs)
    requires InOrder(v)
    ensures Flatten(Taken(v)[v.readIdx..]) == CutOff(v) + Unsent(v)
  {
    var t, i := Taken(v), v.readIdx;
    if i < |t| {
      FlattenHead(t, i);
      FlattenHead(v.iovec, i);
      assert v.iovec[i + 1..] == v.iovec[i..][1..] == t[i..][1..] == t[i + 1..];
      assert t[i] == CutOff(v) + v.iovec[i];
      assert CutOff(v) + (v.iovec[i] + Flatten(t[i + 1..])) == CutOff(v) + v.iovec[i] + Flatten(t[i + 1..]);
    } else {
      assert t[i..] == [] && v.iovec[i..] == [];
    }
  }

  /** What has been sent are the buffers before the index and what has been cut off. */
  lemma SentParts(v: Iovecs)
    requires InOrder(v)
    ensures Sent(v) == Flatten(Taken(v)[..v.readIdx]) + CutOff(v)
  {
    UnsentIsSuffix(v);
    FlattenSplit(Taken(v), v.readIdx);
    CutParts(v);
    FirstPart(Sent(v), Unsent(v), Flatten(Taken(v)[..v.readIdx]), CutOff(v));
  }

  /** `isRead` looks at the index alone. */
  predicate IsRead(v: Iovecs) {
    v.readIdx != 0
  }

  /** Exactly when that tells whether anything has been sent: at the first buffer, if it has
      not been cut; after it, if one of those passed was not empty or one has been cut. */
  lemma IsReadIffSent(v: Iovecs)
    requires InOrder(v)
    ensures (IsRead(v) <==> Sent(v) != []) <==>
            if v.readIdx == 0 then CutOff(v) == [] else Flatten(Taken(v)[..v.readIdx]) != [] || CutOff(v) != []
  {
    SentParts(v);
  }

  /** The loop of `commitRead` is on its way to `whole`; sealed. */
  ghost predicate Commits(v: Iovecs, n: nat, whole: Iovecs) {
    forall t: bool :: CommitsFor(v, n, whole, t)
  }

  ghost predicate CommitsFor(v: Iovecs, n: nat, whole: Iovecs, t: bool) {
    Committed(v, n) == whole
  }

  lemma SealCommits(v: Iovecs, n: nat, whole: Iovecs)
    requires Committed(v, n) == whole
    ensures Commits(v, n, whole)
  {
  }

  lemma OpenCommits(v: Iovecs, n: nat, whole: Iovecs)
    requires Commits(v, n, whole)
    ensures Committed(v, n) == whole
  {
    assert CommitsFor(v, n, whole, true);
  }

  lemma CommitsOn(v: Iovecs, n: nat, whole: Iovecs)
    requires Commits(v, n, whole) && v.readIdx < |v.iovec| && |v.iovec[v.readIdx]| <= n
    ensures Commits(v.(readIdx := v.readIdx + 1), n - |v.iovec[v.readIdx]|, whole)
  {
    OpenCommits(v, n, whole);
    SealCommits(v.(readIdx := v.readIdx + 1), n - |v.iovec[v.readIdx]|, whole);
  }

  lemma {:induction false} CommittedIndex(v: Iovecs, n: nat)
    ensures v.readIdx <= Committed(v, n).readIdx
    decreases |v.iovec| - v.readIdx
  {
    if v.readIdx < |v.iovec| && n >= |v.iovec[v.readIdx]| {
      CommittedIndex(v.(readIdx := v.readIdx + 1), n - |v.iovec[v.readIdx]|);
    }
  }

  lemma {:induction false} CommittedUnsent(v: Iovecs, n: nat)
    requires InOrder(v) && n <= |Unsent(v)|
    ensures var v' := Committed(v, n); InOrder(v') && Taken(v') == Taken(v) && Unsent(v') == Unsent(v)[n..]
    decreases |v.iovec| - v.readIdx
  {
    if v.readIdx < |v.iovec| && n >= |v.iovec[v.readIdx]| {
      var v1, k := v.(readIdx := v.readIdx + 1), |v.iovec[v.readIdx]|;
      DropBuffer(v, n);
      CommittedUnsent(v1, n - k);
      assert Committed(v, n) == Committed(v1, n - k);
    } else if v.readIdx < |v.iovec| && n > 0 {
      CutInOrder(v, n);
    } else {
      assert Unsent(v)[0..] == Unsent(v);
    }
  }

  /** Exactly which first sends `isRead` misses: those that stop inside the first buffer. */
  lemma SendMissedIff(v: Iovecs, n: nat)
    requires InOrder(v) && v.readIdx == 0 && v.iovec == Taken(v) && n <= |Unsent(v)|
    ensures var v' := Committed(v, n);
            InOrder(v') && ((!IsRead(v') && Sent(v') != []) <==> v.iovec != [] && 0 < n < |v.iovec[0]|)
  {
    var v' := Committed(v, n);
    CommittedUnsent(v, n);
    SentParts(v');
    if v.iovec != [] && n >= |v.iovec[0]| {
      CommittedIndex(v.(readIdx := 1), n - |v.iovec[0]|);
    }
  }

  /** If the connection is replaced without a rewind, the new one is sent the commands from
      their beginning exactly if nothing had been sent. */
  lemma WholeIffUnsent(v: Iovecs)
    requires InOrder(v)
    ensures Unsent(v) == All(v) <==> Sent(v) == []
  {
    UnsentIsSuffix(v);
    assert |Sent(v)| + |Unsent(v)| == |All(v)|;
    assert Sent(v) == [] ==> [] + Unsent(v) == Unsent(v);
  }

  lemma FlattenTwo(a: Bytes, b: Bytes)
    ensures Flatten([a, b]) == a + b
  {
    assert [a, b][1..] == [b] && [b][1..] == [];
    assert Flatten([b]) == b + [] == b;
  }

  lemma CutTwo(a: Bytes, b: Bytes, n: nat)
    requires 0 < n < |a|
    ensures var v := Committed(Iovecs([a, b], [], 0), n);
            InOrder(v) && v.readIdx == 0 && Sent(v) == a[..n] && Unsent(v) == a[n..] + b
  {
    var v0 := Iovecs([a, b], [], 0);
    var v := CutBuffer(v0, n);
    FlattenTwo(a, b);
    FlattenTwo(a[n..], b);
    assert [a, b][0..] == [a, b] && [a[n..], b][0..] == [a[n..], b];
    assert v.iovec == [a[n..], b];
    CutInOrder(v0, n);
    SentParts(v);
    assert Taken(v)[..0] == [] && Flatten([]) == [];
  }

  lemma SetCutInTwo()
    ensures var word: Bytes := "set "; var line: Bytes := "k 0 0 1\r\nv\r\n";
            word[..2] == "se" && word[2..] + line == "t k 0 0 1\r\nv\r\n"
  {
  }

  /** After two of the four bytes of "set " the queue still looks unsent, and the new
      connection is sent the rest of the word. */
  lemma UnnoticedSend()
    ensures var v := Committed(Iovecs(["set ", "k 0 0 1\r\nv\r\n"], [], 0), 2);
            InOrder(v) && !IsRead(v) && Sent(v) == "se" && Unsent(v) == "t k 0 0 1\r\nv\r\n"
  {
    CutTwo("set ", "k 0 0 1\r\nv\r\n", 2);
    SetCutInTwo();
  }

  class BufferWriter {
    var iovec: seq<Bytes>
    var originalIovec: seq<Bytes>
    var readIdx: nat
    var msgIovlen: nat

    function View(): Iovecs
      reads this
    {
      Iovecs(iovec, originalIovec, readIdx)
    }

    ghost predicate Valid()
      reads this
    {
      InOrder(View()) && readIdx + msgIovlen == |iovec|
    }

    constructor ()
      ensures Valid() && View() == Iovecs([], [], 0)
    {
      iovec, originalIovec, readIdx, msgIovlen := [], [], 0, 0;
    }

    method Reset()
      modifies this
      ensures Valid() && View() == Iovecs([], [], 0)
    {
      iovec, originalIovec, readIdx, msgIovlen := [], [], 0, 0;
    }

    /** Buffers must not be added after a send stopped inside one: a rewind would lose them. */
    method TakeBuffer(buf: Bytes)
      requires Valid() && originalIovec == []
      modifies this
      ensures Valid() && originalIovec == [] && readIdx == old(readIdx)
      ensures Taken(View()) == old(Taken(View())) + [buf]
      ensures Unsent(View()) == old(Unsent(View())) + buf && All(View()) == old(All(View())) + buf
    {
      ghost var before := iovec;
      FlattenSum(before, [buf]);
      FlattenSum(before[readIdx..], [buf]);
      assert (before + [buf])[readIdx..] == before[readIdx..] + [buf];
      assert Flatten([buf]) == buf + Flatten([]) == buf;
      iovec := iovec + [buf];
      msgIovlen := msgIovlen + 1;
    }

    /** The number is printed as a signed one. */
    method TakeNumber(val: int)
      requires -0x8000_0000_0000_0000 <= val < 0x8000_0000_0000_0000
      requires Valid() && originalIovec == []
      modifies this
      ensures Valid() && originalIovec == [] && readIdx == old(readIdx)
      ensures Taken(View()) == old(Taken(View())) + [SignedDecimal(val)]
      ensures Unsent(View()) == old(Unsent(View())) + SignedDecimal(val)
      ensures All(View()) == old(All(View())) + SignedDecimal(val)
    {
      var buf, len := Int64ToCharArray(val);
      TakeBuffer(buf[..len]);
    }

    /** The buffers left to send. */
    method GetReadPtr() returns (bufs: seq<Bytes>)
      requires Valid()
      ensures bufs == iovec[readIdx..] && |bufs| == msgIovlen && Flatten(bufs) == Unsent(View())
    {
      bufs := iovec[readIdx..];
    }

    /** `nSent` more bytes have been sent. */
    method CommitRead(nSent: nat)
      requires Valid() && nSent <= |Unsent(View())|
      modifies this
      ensures Valid() && View() == Committed(old(View()), nSent)
      ensures Taken(View()) == old(Taken(View())) && Unsent(View()) == old(Unsent(View()))[nSent..]
    {
      CommittedUnsent(View(), nSent);
      var left := DropWhole(nSent);
      if left > 0 {
        CutFirst(left);
      }
    }

    /** The loop of `commitRead`: the buffers that were sent whole. */
    method DropWhole(nSent: nat) returns (left: nat)
      requires Valid() && nSent <= |Unsent(View())|
      modifies this`readIdx, this`msgIovlen
      ensures Valid() && left <= |Unsent(View())| && (msgIovlen > 0 ==> left < |iovec[readIdx]|)
      ensures Committed(View(), left) == Committed(old(View()), nSent)
    {
      left := nSent;
      ghost var whole := Committed(View(), nSent);
      SealCommits(View(), left, whole);
      while msgIovlen > 0 && left >= |iovec[readIdx]|
        invariant Valid() && left <= |Unsent(View())| && Commits(View(), left, whole)
        decreases msgIovlen
      {
        left := DropFirst(left, whole);
      }
      OpenCommits(View(), left, whole);
    }

    method DropFirst(nSent: nat, ghost whole: Iovecs) returns (left: nat)
      requires Valid() && msgIovlen > 0 && |iovec[readIdx]| <= nSent <= |Unsent(View())| && Commits(View(), nSent, whole)
      modifies this`readIdx, this`msgIovlen
      ensures Valid() && msgIovlen == old(msgIovlen) - 1
      ensures left <= |Unsent(View())| && Commits(View(), left, whole)
    {
      ghost var v := View();
      DropBuffer(v, nSent);
      CommitsOn(v, nSent, whole);
      left := nSent - |iovec[readIdx]|;
      readIdx := readIdx + 1;
      msgIovlen := msgIovlen - 1;
      assert View() == v.(readIdx := v.readIdx + 1);
    }

    method CutFirst(n: nat)
      requires Valid() && 0 < n <= |Unsent(View())| && (msgIovlen > 0 ==> n < |iovec[readIdx]|)
      modifies this`iovec, this`originalIovec
      ensures Valid() && View() == Committed(old(View()), n)
    {
      CutInOrder(View(), n);
      ghost var v' := CutBuffer(View(), n);
      if originalIovec == [] {
        originalIovec := iovec;
      }
      iovec := iovec[readIdx := iovec[readIdx][n..]];
      assert View() == v';
    }

    /** Whatever was sent, all of it is to be sent again. */
    method Rewind()
      requires Valid()
      modifies this
      ensures Valid() && Taken(View()) == old(Taken(View())) && Unsent(View()) == old(All(View())) == All(View())
      ensures readIdx == 0
    {
      readIdx := 0;
      msgIovlen := |iovec|;
      if originalIovec != [] {
        iovec := originalIovec;
      }
      assert iovec[0..] == iovec;
    }
  }
}
