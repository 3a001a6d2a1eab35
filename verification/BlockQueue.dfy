/** The block list of the reader on values, and the flat byte queue it stands for. */
module BlockQueue {
  import opened Octets

  /** `DataBlockSlice`: part of a block, held by a token. */
  datatype Slice = Slice(block: nat, offset: nat, size: nat)

  type TokenData = seq<Slice>

  /** `store`: the bytes received in each block; `caps`: the block capacities; `refs`:
      the reference counts; then the read cursor and the write iterator, where
      `|store|` is `end()`; `live`: the slices of all tokens that have not been freed,
      with multiplicity. */
  datatype Queue = Queue(store: seq<Bytes>, caps: seq<nat>, refs: seq<nat>,
                         readIt: nat, readOff: nat, writeIt: nat, live: multiset<Slice>)

  const EMPTY := Queue([], [], [], 0, 0, 0, multiset{})

  /** All bytes from block `i` on. */
  function From(store: seq<Bytes>, i: nat): Bytes
    decreases |store| - i
  {
    if i >= |store| then [] else store[i] + From(store, i + 1)
  }

  predicate Position(store: seq<Bytes>, i: nat, o: nat) {
    i <= |store| && (if i == |store| then o == 0 else o <= |store[i]|)
  }

  /** All bytes from offset `o` of block `i` on. */
  function Flat(store: seq<Bytes>, i: nat, o: nat): Bytes
    requires Position(store, i, o)
  {
    if i == |store| then [] else store[i][o..] + From(store, i + 1)
  }

  /** The bytes received and not read yet. */
  function Unread(q: Queue): Bytes
    requires Position(q.store, q.readIt, q.readOff)
  {
    Flat(q.store, q.readIt, q.readOff)
  }

  /** How many of them are in block `i`. */
  function UnreadIn(q: Queue, i: nat): nat
    requires Position(q.store, q.readIt, q.readOff) && i < |q.store|
  {
    if i < q.readIt then 0 else if i == q.readIt then |q.store[i]| - q.readOff else |q.store[i]|
  }

  function Weight(s: Slice, i: nat): nat {
    if s.block == i then s.size else 0
  }

  ghost function AnyOf(m: multiset<Slice>): (s: Slice)
    requires m != multiset{}
    ensures s in m
  {
    var s :| s in m; s
  }

  /** Bytes of block `i` covered by the slices in `m`, with multiplicity. */
  ghost function CoveredIn(m: multiset<Slice>, i: nat): nat
    decreases |m|
  {
    if m == multiset{} then 0
    else var s := AnyOf(m); Weight(s, i) + CoveredIn(m - multiset{s}, i)
  }

  lemma {:induction false} CoveredAdd(m: multiset<Slice>, s: Slice, i: nat)
    ensures CoveredIn(m + multiset{s}, i) == CoveredIn(m, i) + Weight(s, i)
    decreases |m|
  {
    var m' := m + multiset{s};
    var t := AnyOf(m');
    if t == s {
      assert m' - multiset{t} == m;
    } else {
      var n := m - multiset{t};
      assert m' - multiset{t} == n + multiset{s};
      assert n + multiset{t} == m;
      CoveredAdd(n, s, i);
      CoveredAdd(n, t, i);
    }
  }

  lemma CoveredRemove(m: multiset<Slice>, s: Slice, i: nat)
    requires s in m
    ensures CoveredIn(m, i) == CoveredIn(m - multiset{s}, i) + Weight(s, i)
  {
    assert m - multiset{s} + multiset{s} == m;
    CoveredAdd(m - multiset{s}, s, i);
  }

  predicate WithinStore(store: seq<Bytes>, s: Slice) {
    s.block < |store| && s.offset + s.size <= |store[s.block]|
  }

  /** The list is in order: blocks are not overfull, only the last one may be empty,
      the write iterator is at the last block or at the end, and the cursor is at a
      byte if any byte is unread.  A block before the last need not be full. */
  predicate Shape(q: Queue) {
    && |q.caps| == |q.store| && |q.refs| == |q.store|
    && (forall i :: 0 <= i < |q.store| ==> |q.store[i]| <= q.caps[i] && 0 < q.caps[i])
    && (forall i :: 0 <= i < |q.store| - 1 ==> 0 < |q.store[i]|)
    && q.writeIt <= |q.store| <= q.writeIt + 1
    && (q.writeIt == |q.store| && |q.store| > 0 ==> 0 < |q.store[|q.store| - 1]|)
    && Position(q.store, q.readIt, q.readOff)
    && (Unread(q) != [] ==> q.readIt < |q.store| && q.readOff < |q.store[q.readIt]|)
  }

  /** Byte-reference conservation: every block counts its unread bytes plus the bytes
      covered by live slices. */
  ghost predicate Balanced(q: Queue)
    requires Shape(q)
  {
    forall i :: 0 <= i < |q.store| ==> q.refs[i] == UnreadIn(q, i) + CoveredIn(q.live, i)
  }

  ghost predicate Inv(q: Queue) {
    && Shape(q)
    && (forall s :: s in q.live ==> WithinStore(q.store, s))
    && Balanced(q)
  }

  /** `Inv`, out of sight: the quantifier keeps the solver from unfolding it until
      `Open` is called. */
  ghost predicate Sound(q: Queue) {
    forall t: bool :: InvFor(q, t)
  }

  ghost predicate InvFor(q: Queue, t: bool) {
    Inv(q)
  }

  lemma Open(q: Queue)
    requires Sound(q)
    ensures Inv(q)
  {
    assert InvFor(q, true);
  }

  lemma Close(q: Queue)
    requires Inv(q)
    ensures Sound(q)
  {
  }

  /** The unread bytes, defined for any queue. */
  function Contents(q: Queue): Bytes {
    if Position(q.store, q.readIt, q.readOff) then Unread(q) else []
  }

  function SliceBytes(store: seq<Bytes>, s: Slice): Bytes
    requires WithinStore(store, s)
  {
    store[s.block][s.offset..s.offset + s.size]
  }

  predicate TokenWithin(store: seq<Bytes>, td: TokenData) {
    forall k :: 0 <= k < |td| ==> WithinStore(store, td[k])
  }

  /** The bytes a token stands for. */
  function Denote(store: seq<Bytes>, td: TokenData): Bytes
    requires TokenWithin(store, td)
  {
    if td == [] then [] else Denote(store, td[..|td| - 1]) + SliceBytes(store, td[|td| - 1])
  }

  lemma DenoteAppend(store: seq<Bytes>, td: TokenData, s: Slice)
    requires TokenWithin(store, td) && WithinStore(store, s)
    ensures TokenWithin(store, td + [s])
    ensures Denote(store, td + [s]) == Denote(store, td) + SliceBytes(store, s)
    ensures multiset(td + [s]) == multiset(td) + multiset{s}
  {
    assert (td + [s])[..|td|] == td;
  }

  // ---- reading ----

  lemma DenoteOne(store: seq<Bytes>, td: TokenData)
    requires TokenWithin(store, td) && |td| == 1
    ensures Denote(store, td) == SliceBytes(store, td[0])
  {
    assert td[..0] == [];
  }

  /** The slices before the next one, and that one, are part of the token. */
  lemma {:induction false} DenotePrefix(store: seq<Bytes>, td: TokenData, i: nat)
    requires TokenWithin(store, td) && i < |td|
    ensures Denote(store, td[..i + 1]) == Denote(store, td[..i]) + SliceBytes(store, td[i])
    ensures |Denote(store, td[..i + 1])| <= |Denote(store, td)|
    decreases |td|
  {
    assert td[..i + 1][..i] == td[..i];
    if i + 1 < |td| {
      var init := td[..|td| - 1];
      DenotePrefix(store, init, i);
      assert init[..i + 1] == td[..i + 1];
    } else {
      assert td[..i + 1] == td;
    }
  }

  /** The cursor after `n` more bytes of its block have been passed. */
  function Pass(q: Queue, n: nat): Queue
    requires q.readIt < |q.store| && q.readOff + n <= |q.store[q.readIt]|
  {
    if q.readOff + n < |q.store[q.readIt]| then q.(readOff := q.readOff + n)
    else q.(readIt := q.readIt + 1, readOff := 0)
  }

  lemma PassShape(q: Queue, n: nat)
    requires Shape(q) && q.readIt < |q.store| && 0 < n && q.readOff + n <= |q.store[q.readIt]|
    ensures Shape(Pass(q, n))
    ensures n <= |Unread(q)| && Unread(q)[..n] == q.store[q.readIt][q.readOff..q.readOff + n]
    ensures Unread(Pass(q, n)) == Unread(q)[n..]
  {
    var b := q.store[q.readIt];
    var rest := From(q.store, q.readIt + 1);
    assert (b[q.readOff..] + rest)[n..] == b[q.readOff..][n..] + rest;
    var q' := Pass(q, n);
    if q'.readIt != q.readIt {
      PassBlock(q.store, q'.readIt);
      assert b[q.readOff..][n..] == [];
    }
  }

  /** At the start of a block the bytes left are the block and what follows. */
  lemma PassBlock(store: seq<Bytes>, i: nat)
    requires i <= |store|
    ensures Position(store, i, 0) && Flat(store, i, 0) == From(store, i)
    ensures (forall k :: i <= k < |store| - 1 ==> store[k] != []) && From(store, i) != [] && i < |store| ==> store[i] != []
  {
    if i < |store| {
      assert store[i][0..] == store[i];
      if i == |store| - 1 {
        assert From(store, i + 1) == [];
      }
    }
  }

  /** Passing bytes and releasing them. */
  function Released(q: Queue, n: nat): Queue
    requires q.readIt < |q.store| == |q.refs| && q.readOff + n <= |q.store[q.readIt]| && n <= q.refs[q.readIt]
  {
    Pass(q, n).(refs := q.refs[q.readIt := q.refs[q.readIt] - n])
  }

  lemma PassRelease(q: Queue, n: nat)
    requires Inv(q) && q.readIt < |q.store| && 0 < n && q.readOff + n <= |q.store[q.readIt]|
    ensures n <= q.refs[q.readIt] && Inv(Released(q, n))
    ensures n <= |Unread(q)| && Unread(q)[..n] == q.store[q.readIt][q.readOff..q.readOff + n]
    ensures Unread(Released(q, n)) == Unread(q)[n..]
  {
    PassShape(q, n);
    PassReleaseBalanced(q, n);
  }

  lemma PassReleaseBalanced(q: Queue, n: nat)
    requires Inv(q) && q.readIt < |q.store| && 0 < n && q.readOff + n <= |q.store[q.readIt]|
    requires Shape(Pass(q, n))
    ensures n <= q.refs[q.readIt] && Balanced(Released(q, n))
  {
  }

  /** Passing bytes and handing them to a token. */
  function Sliced(q: Queue, n: nat): Queue
    requires q.readIt < |q.store| && q.readOff + n <= |q.store[q.readIt]|
  {
    Pass(q, n).(live := q.live + multiset{Slice(q.readIt, q.readOff, n)})
  }

  lemma PassSlice(q: Queue, n: nat)
    requires Inv(q) && q.readIt < |q.store| && 0 < n && q.readOff + n <= |q.store[q.readIt]|
    ensures Inv(Sliced(q, n))
    ensures var s := Slice(q.readIt, q.readOff, n); WithinStore(q.store, s) && SliceBytes(q.store, s) == Unread(q)[..n]
    ensures n <= |Unread(q)| && Unread(Sliced(q, n)) == Unread(q)[n..]
  {
    PassShape(q, n);
    PassSliceBalanced(q, n);
  }

  lemma PassSliceBalanced(q: Queue, n: nat)
    requires Inv(q) && q.readIt < |q.store| && 0 < n && q.readOff + n <= |q.store[q.readIt]|
    requires Shape(Pass(q, n))
    ensures Balanced(Sliced(q, n))
  {
    var s := Slice(q.readIt, q.readOff, n);
    forall i | 0 <= i < |q.store| ensures CoveredIn(q.live + multiset{s}, i) == CoveredIn(q.live, i) + Weight(s, i) {
      CoveredAdd(q.live, s, i);
    }
  }

  // ---- tokens ----

  lemma FreeSlice(q: Queue, s: Slice)
    requires Inv(q) && s in q.live
    ensures WithinStore(q.store, s) && s.size <= q.refs[s.block]
    ensures Inv(q.(live := q.live - multiset{s}, refs := q.refs[s.block := q.refs[s.block] - s.size]))
  {
    forall i | 0 <= i < |q.store| ensures CoveredIn(q.live, i) == CoveredIn(q.live - multiset{s}, i) + Weight(s, i) {
      CoveredRemove(q.live, s, i);
    }
  }

  lemma CopySlice(q: Queue, s: Slice)
    requires Inv(q) && WithinStore(q.store, s)
    ensures Inv(q.(live := q.live + multiset{s}, refs := q.refs[s.block := q.refs[s.block] + s.size]))
  {
    forall i | 0 <= i < |q.store| ensures CoveredIn(q.live + multiset{s}, i) == CoveredIn(q.live, i) + Weight(s, i) {
      CoveredAdd(q.live, s, i);
    }
  }

  /** When everything has been read and every token freed, every block is reusable. */
  lemma AllReusable(q: Queue)
    requires Inv(q) && Unread(q) == [] && q.live == multiset{}
    ensures forall i :: 0 <= i < |q.store| ==> q.refs[i] == 0
  {
    forall i | 0 <= i < |q.store| ensures UnreadIn(q, i) == 0 {
      UnreadInBound(q, i);
    }
  }

  lemma {:induction false} UnreadInBound(q: Queue, i: nat)
    requires Position(q.store, q.readIt, q.readOff) && i < |q.store|
    ensures UnreadIn(q, i) <= |Unread(q)|
  {
    if q.readIt < i {
      FromBound(q.store, q.readIt + 1, i);
    }
  }

  lemma {:induction false} FromBound(store: seq<Bytes>, i: nat, k: nat)
    requires i <= k < |store|
    ensures |store[k]| <= |From(store, i)|
    decreases k - i
  {
    if i < k {
      FromBound(store, i + 1, k);
    }
  }

  // ---- writing ----

  lemma {:induction false} FromExtend(store: seq<Bytes>, i: nat, chunk: Bytes)
    requires store != [] && i < |store|
    ensures From(store[|store| - 1 := store[|store| - 1] + chunk], i) == From(store, i) + chunk
    decreases |store| - i
  {
    var w := |store| - 1;
    var store' := store[w := store[w] + chunk];
    if i == w {
      assert From(store', i + 1) == [] && From(store, i + 1) == [];
    } else {
      FromExtend(store, i + 1, chunk);
      assert store[i] + (From(store, i + 1) + chunk) == store[i] + From(store, i + 1) + chunk;
    }
  }

  lemma {:induction false} FromPush(store: seq<Bytes>, i: nat)
    requires i <= |store|
    ensures From(store + [[]], i) == From(store, i)
    decreases |store| - i
  {
    if i < |store| {
      FromPush(store, i + 1);
    } else {
      assert From(store + [[]], i + 1) == [];
    }
  }

  /** Committing a chunk to the last block appends it to the queue. */
  lemma Append(q: Queue, chunk: Bytes)
    requires Inv(q) && q.writeIt < |q.store| && |q.store[q.writeIt]| + |chunk| <= q.caps[q.writeIt]
    requires q.readIt < |q.store| && (Unread(q) == [] ==> q.readIt == q.writeIt)
    ensures var w := q.writeIt;
            var q' := q.(store := q.store[w := q.store[w] + chunk], refs := q.refs[w := q.refs[w] + |chunk|]);
            Inv(q') && Unread(q') == Unread(q) + chunk
  {
    var w := q.writeIt;
    var q' := q.(store := q.store[w := q.store[w] + chunk], refs := q.refs[w := q.refs[w] + |chunk|]);
    AppendUnread(q.store, q.readIt, q.readOff, chunk);
  }

  lemma AppendUnread(store: seq<Bytes>, i: nat, o: nat, chunk: Bytes)
    requires store != [] && i < |store| && o <= |store[i]|
    ensures var w := |store| - 1;
            Flat(store[w := store[w] + chunk], i, o) == Flat(store, i, o) + chunk
  {
    var w := |store| - 1;
    var store' := store[w := store[w] + chunk];
    if i == w {
      assert From(store', i + 1) == [] && From(store, i + 1) == [];
      assert (store[w] + chunk)[o..] == store[w][o..] + chunk;
    } else {
      FromExtend(store, i + 1, chunk);
      assert store[i][o..] + (From(store, i + 1) + chunk) == store[i][o..] + From(store, i + 1) + chunk;
    }
  }

  /** A new empty block at the end of the list. */
  lemma PushBlock(q: Queue, cap: nat)
    requires Inv(q) && q.writeIt == |q.store| && 0 < cap
    ensures var q' := q.(store := q.store + [[]], caps := q.caps + [cap], refs := q.refs + [0]);
            Inv(q') && Unread(q') == Unread(q)
  {
    var q' := q.(store := q.store + [[]], caps := q.caps + [cap], refs := q.refs + [0]);
    PushShape(q, cap);
    CoveredOutside(q.live, |q.store|);
    forall i | 0 <= i < |q.store| ensures UnreadIn(q', i) == UnreadIn(q, i) && q'.refs[i] == q.refs[i] {
    }
  }

  lemma PushShape(q: Queue, cap: nat)
    requires Shape(q) && q.writeIt == |q.store| && 0 < cap
    ensures var q' := q.(store := q.store + [[]], caps := q.caps + [cap], refs := q.refs + [0]);
            Shape(q') && Unread(q') == Unread(q)
  {
    if q.readIt < |q.store| {
      FromPush(q.store, q.readIt + 1);
    }
  }

  lemma {:induction false} CoveredOutside(m: multiset<Slice>, i: nat)
    requires forall s :: s in m ==> s.block != i
    ensures CoveredIn(m, i) == 0
    decreases |m|
  {
    if m != multiset{} {
      CoveredOutside(m - multiset{AnyOf(m)}, i);
    }
  }

  /** Moving the cursor of a queue that has been read to its end. */
  lemma MoveCursor(q: Queue)
    requires Inv(q) && Unread(q) == [] && q.writeIt < |q.store|
    ensures var q' := q.(readIt := q.writeIt, readOff := |q.store[q.writeIt]|);
            Inv(q') && Unread(q') == []
  {
    var q' := q.(readIt := q.writeIt, readOff := |q.store[q.writeIt]|);
    assert From(q.store, |q.store|) == [];
    forall i | 0 <= i < |q.store| ensures UnreadIn(q, i) == 0 == UnreadIn(q', i) {
      UnreadInBound(q, i);
    }
  }

  // ---- the same for sealed queues ----

  /** If anything is unread, the cursor is at the first unread byte. */
  lemma AtByte(q: Queue)
    requires Sound(q)
    ensures |q.refs| == |q.caps| == |q.store| && Position(q.store, q.readIt, q.readOff)
    ensures Contents(q) != [] ==>
              q.readIt < |q.store| && q.readOff < |q.store[q.readIt]| && q.store[q.readIt][q.readOff] == Contents(q)[0]
  {
    Open(q);
  }

  predicate CanPass(q: Queue, n: nat) {
    |q.refs| == |q.store| && q.readIt < |q.store| && 0 < n && q.readOff + n <= |q.store[q.readIt]|
  }

  lemma ReleaseSound(q: Queue, n: nat)
    requires Sound(q) && CanPass(q, n)
    ensures n <= q.refs[q.readIt] && Sound(Released(q, n))
    ensures n <= |Contents(q)| && Contents(q)[..n] == q.store[q.readIt][q.readOff..q.readOff + n]
    ensures Contents(Released(q, n)) == Contents(q)[n..]
  {
    Open(q);
    PassRelease(q, n);
    Close(Released(q, n));
  }

  lemma SliceSound(q: Queue, n: nat)
    requires Sound(q) && CanPass(q, n)
    ensures Sound(Sliced(q, n))
    ensures var s := Slice(q.readIt, q.readOff, n);
            n <= |Contents(q)| && WithinStore(q.store, s) && SliceBytes(q.store, s) == Contents(q)[..n]
    ensures Contents(Sliced(q, n)) == Contents(q)[n..]
  {
    Open(q);
    PassSlice(q, n);
    Close(Sliced(q, n));
  }

  // ---- walking along the list without reading ----

  lemma FlatSplit(store: seq<Bytes>, i: nat, o: nat)
    requires i < |store| && o <= |store[i]|
    ensures Position(store, i + 1, 0) && Flat(store, i, o) == store[i][o..] + Flat(store, i + 1, 0)
  {
    PassBlock(store, i + 1);
  }

  lemma FlatDrop(store: seq<Bytes>, i: nat, o: nat, n: nat)
    requires i < |store| && o + n <= |store[i]|
    ensures n <= |Flat(store, i, o)| && Flat(store, i, o + n) == Flat(store, i, o)[n..]
    ensures Flat(store, i, o)[..n] == store[i][o..o + n]
  {
    var rest := From(store, i + 1);
    assert (store[i][o..] + rest)[n..] == store[i][o..][n..] + rest;
  }

  predicate Before(i: nat, o: nat, j: nat, p: nat) {
    i < j || (i == j && o <= p)
  }

  lemma FlatOrderHere(store: seq<Bytes>, i: nat, o: nat, p: nat)
    requires i < |store| && o <= p <= |store[i]|
    ensures |Flat(store, i, o)| >= |Flat(store, i, p)|
  {
    FlatLength(store, i, o);
    FlatLength(store, i, p);
  }

  lemma FlatOrderNext(store: seq<Bytes>, i: nat, o: nat)
    requires i < |store| && o <= |store[i]|
    ensures Position(store, i + 1, 0) && |Flat(store, i, o)| >= |Flat(store, i + 1, 0)|
  {
    FlatLength(store, i, o);
  }

  lemma {:induction false} FlatOrder(store: seq<Bytes>, i: nat, o: nat, j: nat, p: nat)
    requires Position(store, i, o) && Position(store, j, p) && Before(i, o, j, p)
    ensures |Flat(store, i, o)| >= |Flat(store, j, p)|
    decreases j - i
  {
    if i < j {
      FlatOrderNext(store, i, o);
      FlatOrder(store, i + 1, 0, j, p);
    } else if i < |store| {
      FlatOrderHere(store, i, o, p);
    }
  }

  lemma FlatLength(store: seq<Bytes>, i: nat, o: nat)
    requires i < |store| && o <= |store[i]|
    ensures Position(store, i + 1, 0) && |Flat(store, i, o)| == |store[i]| - o + |Flat(store, i + 1, 0)|
  {
    FlatSplit(store, i, o);
  }

  /** Blocks that are followed by unread bytes are not empty. */
  lemma BlockStart(q: Queue, i: nat)
    requires Sound(q) && i <= |q.store| && Position(q.store, i, 0) && Flat(q.store, i, 0) != []
    ensures i < |q.store| && q.store[i] != [] && Flat(q.store, i, 0)[0] == q.store[i][0]
  {
    Open(q);
    PassBlock(q.store, i);
  }

  /** Moving past a block that is searched in vain. */
  lemma SkipBlock(store: seq<Bytes>, i: nat, o: nat, u: Bytes, before: Bytes)
    requires i < |store| && o <= |store[i]| && u == before + Flat(store, i, o)
    ensures Position(store, i + 1, 0) && u == before + store[i][o..] + Flat(store, i + 1, 0)
  {
    FlatSplit(store, i, o);
    assert before + (store[i][o..] + Flat(store, i + 1, 0)) == before + store[i][o..] + Flat(store, i + 1, 0);
  }

  /** Stopping inside a block. */
  lemma StopInBlock(store: seq<Bytes>, i: nat, o: nat, n: nat, u: Bytes, before: Bytes)
    requires i < |store| && o + n <= |store[i]| && u == before + Flat(store, i, o)
    ensures var b := before + store[i][o..o + n];
            |b| <= |u| && u[..|b|] == b && u[|b|..] == Flat(store, i, o + n)
  {
    FlatDrop(store, i, o, n);
    SplitSum(before, Flat(store, i, o), n);
  }

  lemma SplitSum(a: Bytes, f: Bytes, n: nat)
    requires n <= |f|
    ensures (a + f)[..|a + f[..n]|] == a + f[..n] && (a + f)[|a + f[..n]|..] == f[n..]
  {
  }

  // ---- sealed forms for tokens and writing ----

  lemma FreeSound(q: Queue, s: Slice)
    requires Sound(q) && s in q.live
    ensures |q.refs| == |q.store| && WithinStore(q.store, s) && s.size <= q.refs[s.block]
    ensures var q' := q.(live := q.live - multiset{s}, refs := q.refs[s.block := q.refs[s.block] - s.size]);
            Sound(q') && Contents(q') == Contents(q)
  {
    Open(q);
    FreeSlice(q, s);
    Close(q.(live := q.live - multiset{s}, refs := q.refs[s.block := q.refs[s.block] - s.size]));
  }

  lemma CopySound(q: Queue, s: Slice)
    requires Sound(q) && WithinStore(q.store, s)
    ensures |q.refs| == |q.store|
    ensures var q' := q.(live := q.live + multiset{s}, refs := q.refs[s.block := q.refs[s.block] + s.size]);
            Sound(q') && Contents(q') == Contents(q)
  {
    Open(q);
    CopySlice(q, s);
    Close(q.(live := q.live + multiset{s}, refs := q.refs[s.block := q.refs[s.block] + s.size]));
  }

  /** Ready for a commit: there is a write block, and if nothing is unread the cursor is
      at its end. */
  predicate WriteReady(q: Queue) {
    && |q.caps| == |q.store| == |q.refs|
    && q.writeIt < |q.store| && |q.store[q.writeIt]| <= q.caps[q.writeIt]
    && q.readIt < |q.store| && (Contents(q) == [] ==> q.readIt == q.writeIt)
  }

  function Appended(q: Queue, chunk: Bytes): Queue
    requires q.writeIt < |q.store| == |q.refs|
  {
    var w := q.writeIt;
    q.(store := q.store[w := q.store[w] + chunk], refs := q.refs[w := q.refs[w] + |chunk|])
  }

  lemma AppendSound(q: Queue, chunk: Bytes)
    requires Sound(q) && WriteReady(q) && |q.store[q.writeIt]| + |chunk| <= q.caps[q.writeIt]
    ensures Sound(Appended(q, chunk)) && Contents(Appended(q, chunk)) == Contents(q) + chunk
    ensures q.writeIt == |q.store| - 1
  {
    Open(q);
    Append(q, chunk);
    Close(Appended(q, chunk));
  }

  /** Closing the write block, full or not, as long as it is not empty. */
  lemma CloseBlock(q: Queue)
    requires Sound(q) && q.writeIt < |q.store| && q.store[q.writeIt] != []
    ensures Sound(q.(writeIt := q.writeIt + 1)) && q.writeIt == |q.store| - 1
  {
    Open(q);
    Close(q.(writeIt := q.writeIt + 1));
  }

  function Pushed(q: Queue, cap: nat): Queue {
    q.(store := q.store + [[]], caps := q.caps + [cap], refs := q.refs + [0])
  }

  lemma PushSound(q: Queue, cap: nat)
    requires Sound(q) && q.writeIt == |q.store| && 0 < cap
    ensures Sound(Pushed(q, cap)) && Contents(Pushed(q, cap)) == Contents(q)
  {
    Open(q);
    PushBlock(q, cap);
    Close(Pushed(q, cap));
  }

  function CursorAtWrite(q: Queue): Queue
    requires q.writeIt < |q.store|
  {
    q.(readIt := q.writeIt, readOff := |q.store[q.writeIt]|)
  }

  lemma MoveCursorSound(q: Queue)
    requires Sound(q) && Contents(q) == [] && q.writeIt < |q.store|
    ensures Sound(CursorAtWrite(q)) && Contents(CursorAtWrite(q)) == []
  {
    Open(q);
    MoveCursor(q);
    Close(CursorAtWrite(q));
  }

  lemma Geometry(q: Queue)
    requires Sound(q)
    ensures |q.refs| == |q.caps| == |q.store| && q.writeIt <= |q.store| <= q.writeIt + 1
    ensures Position(q.store, q.readIt, q.readOff)
    ensures forall i :: 0 <= i < |q.store| ==> |q.store[i]| <= q.caps[i] && 0 < q.caps[i]
    ensures Contents(q) != [] ==> q.readIt < |q.store|
  {
    Open(q);
  }

  /** After a reset only the first block is left, empty and unreferenced. */
  function Emptied(q: Queue): Queue
    requires |q.caps| == |q.store|
  {
    if q.store == [] then q.(refs := [], readIt := 0, readOff := 0, writeIt := 0)
    else q.(store := [[]], caps := q.caps[..1], refs := [0], readIt := 0, readOff := 0, writeIt := 0)
  }

  lemma EmptiedSound(q: Queue)
    requires Sound(q) && q.live == multiset{}
    ensures |q.caps| == |q.store| && Sound(Emptied(q)) && Contents(Emptied(q)) == []
  {
    Open(q);
    var q' := Emptied(q);
    if q.store != [] {
      assert From([[]], 1) == [];
      assert q.store[0] == q.store[0];
    }
    Close(q');
  }

  /** Blocks are only added or appended to. */
  predicate Extends(store: seq<Bytes>, store': seq<Bytes>) {
    |store| <= |store'| && forall i :: 0 <= i < |store| ==> store[i] <= store'[i]
  }

  lemma ExtendsThrough(a: seq<Bytes>, b: seq<Bytes>, c: seq<Bytes>)
    requires Extends(a, b) && Extends(b, c)
    ensures Extends(a, c)
  {
  }

  /** What a token stands for does not change when more bytes arrive. */
  lemma {:induction false} DenoteStable(store: seq<Bytes>, store': seq<Bytes>, td: TokenData)
    requires TokenWithin(store, td) && Extends(store, store')
    ensures TokenWithin(store', td) && Denote(store', td) == Denote(store, td)
  {
    if td != [] {
      DenoteStable(store, store', td[..|td| - 1]);
    }
  }

  /** A token that stands for the first `m` bytes of `u` takes the next `k`. */
  lemma TokenGrows(store: seq<Bytes>, td: TokenData, s: Slice, u: Bytes, m: nat, k: nat)
    requires m + k <= |u| && TokenWithin(store, td) && Denote(store, td) == u[..m]
    requires WithinStore(store, s) && SliceBytes(store, s) == u[m..][..k]
    ensures TokenWithin(store, td + [s]) && Denote(store, td + [s]) == u[..m + k]
    ensures multiset(td + [s]) == multiset(td) + multiset{s}
  {
    DenoteAppend(store, td, s);
    assert u[..m + k] == u[..m] + u[m..][..k];
  }

  /** `td` has taken the first `m` bytes of `u` and added its slices to those of `held`;
      sealed. */
  ghost predicate Taken(store: seq<Bytes>, held: multiset<Slice>, live: multiset<Slice>, td: TokenData, u: Bytes, m: nat) {
    forall t: bool :: TakenFor(store, held, live, td, u, m, t)
  }

  ghost predicate TakenFor(store: seq<Bytes>, held: multiset<Slice>, live: multiset<Slice>, td: TokenData, u: Bytes,
                           m: nat, t: bool)
  {
    m <= |u| && live == held + multiset(td) && TokenWithin(store, td) && Denote(store, td) == u[..m]
  }

  lemma TakenNothing(store: seq<Bytes>, live: multiset<Slice>, u: Bytes)
    ensures Taken(store, live, live, [], u, 0)
  {
  }

  lemma TakenMore(store: seq<Bytes>, held: multiset<Slice>, live: multiset<Slice>, td: TokenData, u: Bytes, m: nat,
                  s: Slice, k: nat)
    requires Taken(store, held, live, td, u, m) && m + k <= |u|
    requires WithinStore(store, s) && SliceBytes(store, s) == u[m..][..k]
    ensures Taken(store, held, live + multiset{s}, td + [s], u, m + k)
  {
    assert TakenFor(store, held, live, td, u, m, true);
    TokenGrows(store, td, s, u, m, k);
  }

  lemma TakenAll(store: seq<Bytes>, held: multiset<Slice>, live: multiset<Slice>, td: TokenData, u: Bytes, m: nat)
    requires Taken(store, held, live, td, u, m)
    ensures m <= |u| && live == held + multiset(td) && TokenWithin(store, td) && Denote(store, td) == u[..m]
  {
    assert TakenFor(store, held, live, td, u, m, true);
  }

  /** A search along the list has passed `before` in vain and stands at `(i, o)`. */
  predicate Searching(store: seq<Bytes>, c: octet, u: Bytes, before: Bytes, i: nat, o: nat) {
    Position(store, i, o) && u == before + Flat(store, i, o) && c !in before
  }

  lemma SearchHit(store: seq<Bytes>, c: octet, u: Bytes, before: Bytes, i: nat, o: nat, p: nat)
    requires Searching(store, c, u, before, i, o) && i < |store| && o <= p < |store[i]|
    requires store[i][p] == c && c !in store[i][o..p]
    ensures IndexOf(c, u) < |u| && Flat(store, i, p) == u[IndexOf(c, u)..]
  {
    StopInBlock(store, i, o, p - o, u, before);
    FlatHead(store, i, p);
    var b := before + store[i][o..p];
    HeadAt(u, |b|, Flat(store, i, p));
    FoundAt(c, u, b, c);
  }

  lemma FlatHead(store: seq<Bytes>, i: nat, p: nat)
    requires i < |store| && p < |store[i]|
    ensures Flat(store, i, p) != [] && Flat(store, i, p)[0] == store[i][p]
  {
    assert store[i][p..][0] == store[i][p];
  }

  lemma HeadAt(u: Bytes, n: nat, f: Bytes)
    requires n <= |u| && u[n..] == f && f != []
    ensures n < |u| && u[n] == f[0]
  {
  }

  lemma SearchOn(store: seq<Bytes>, c: octet, u: Bytes, before: Bytes, i: nat, o: nat)
    requires Searching(store, c, u, before, i, o) && i < |store| && c !in store[i][o..]
    ensures Searching(store, c, u, before + store[i][o..], i + 1, 0)
  {
    SkipBlock(store, i, o, u, before);
  }

  lemma SearchMiss(store: seq<Bytes>, c: octet, u: Bytes, before: Bytes, o: nat)
    requires Searching(store, c, u, before, |store|, o)
    ensures IndexOf(c, u) == |u|
  {
    assert u == before;
  }

  // ---- reading up to a byte that was found ----

  /** The cursor is at `u[done..]`, on its way to the byte at `(j, p)`, `u[target]`. */
  predicate Heading(q: Queue, u: Bytes, done: nat, j: nat, p: nat, target: nat) {
    && Position(q.store, q.readIt, q.readOff)
    && j < |q.store| && p < |q.store[j]| && Before(q.readIt, q.readOff, j, p)
    && done <= target < |u|
    && Flat(q.store, q.readIt, q.readOff) == u[done..] && Flat(q.store, j, p) == u[target..]
  }

  /** The next piece: up to the byte if it is in this block, else the rest of the block. */
  function PieceToward(q: Queue, j: nat, p: nat): int
    requires q.readIt < |q.store|
  {
    if q.readIt == j then p - q.readOff else |q.store[q.readIt]| - q.readOff
  }

  lemma PieceFits(q: Queue, u: Bytes, done: nat, j: nat, p: nat, target: nat)
    requires Sound(q) && Heading(q, u, done, j, p, target) && !(q.readIt == j && q.readOff == p)
    ensures q.readIt < |q.store| && CanPass(q, PieceToward(q, j, p)) && done < target
  {
    AtByte(q);
    if q.readIt == j {
      FlatDrop(q.store, j, q.readOff, p - q.readOff);
    } else {
      FlatSplit(q.store, q.readIt, q.readOff);
      FlatOrder(q.store, q.readIt + 1, 0, j, p);
    }
  }

  lemma HeadOn(q: Queue, u: Bytes, done: nat, j: nat, p: nat, target: nat, n: nat)
    requires Heading(q, u, done, j, p, target)
    requires q.readIt < |q.store| && CanPass(q, n) && n == PieceToward(q, j, p)
    ensures Heading(Pass(q, n), u, done + n, j, p, target)
  {
    if q.readIt < j {
      HeadToNextBlock(q, u, done, j, p, target, n);
    } else {
      FlatDrop(q.store, q.readIt, q.readOff, n);
    }
  }

  lemma RestOf(u: Bytes, done: nat, piece: Bytes, rest: Bytes)
    requires done <= |u| && u[done..] == piece + rest
    ensures done + |piece| <= |u| && u[done + |piece|..] == rest
  {
    assert u[done + |piece|..] == u[done..][|piece|..];
  }

  lemma HeadToNextBlock(q: Queue, u: Bytes, done: nat, j: nat, p: nat, target: nat, n: nat)
    requires Heading(q, u, done, j, p, target) && q.readIt < j
    requires CanPass(q, n) && n == |q.store[q.readIt]| - q.readOff
    ensures Heading(Pass(q, n), u, done + n, j, p, target)
  {
    FlatSplit(q.store, q.readIt, q.readOff);
    RestOf(u, done, q.store[q.readIt][q.readOff..], Flat(q.store, q.readIt + 1, 0));
    FlatOrder(q.store, q.readIt + 1, 0, j, p);
  }

  /** `Heading`, sealed. */
  ghost predicate Toward(q: Queue, u: Bytes, done: nat, j: nat, p: nat, target: nat) {
    done <= target < |u| && forall t: bool :: HeadingFor(q, u, done, j, p, target, t)
  }

  ghost predicate HeadingFor(q: Queue, u: Bytes, done: nat, j: nat, p: nat, target: nat, t: bool) {
    Heading(q, u, done, j, p, target)
  }

  lemma OpenToward(q: Queue, u: Bytes, done: nat, j: nat, p: nat, target: nat)
    requires Toward(q, u, done, j, p, target)
    ensures Heading(q, u, done, j, p, target) && Contents(q) == u[done..]
    ensures q.readIt == j && q.readOff == p ==> done == target
  {
    assert HeadingFor(q, u, done, j, p, target, true);
  }

  lemma SetOut(q: Queue, j: nat, p: nat, target: nat)
    requires Sound(q) && j < |q.store| && p < |q.store[j]| && Before(q.readIt, q.readOff, j, p)
    requires target < |Contents(q)| && Flat(q.store, j, p) == Contents(q)[target..]
    ensures Toward(q, Contents(q), 0, j, p, target)
  {
    AtByte(q);
    assert Heading(q, Contents(q), 0, j, p, target);
  }

  lemma TowardOn(q: Queue, u: Bytes, done: nat, j: nat, p: nat, target: nat, n: nat)
    requires Toward(q, u, done, j, p, target)
    requires q.readIt < |q.store| && CanPass(q, n) && n == PieceToward(q, j, p)
    ensures Toward(Pass(q, n), u, done + n, j, p, target)
  {
    OpenToward(q, u, done, j, p, target);
    HeadOn(q, u, done, j, p, target, n);
  }

  /** `Toward` does not depend on the counts or the tokens. */
  lemma TowardFrame(q: Queue, q': Queue, u: Bytes, done: nat, j: nat, p: nat, target: nat)
    requires Toward(q, u, done, j, p, target) && q'.store == q.store && q'.readIt == q.readIt && q'.readOff == q.readOff
    ensures Toward(q', u, done, j, p, target)
  {
    OpenToward(q, u, done, j, p, target);
    assert Heading(q', u, done, j, p, target);
  }

  // ---- numbers ----

  /** `before` consists of digits. */
  predicate Counting(store: seq<Bytes>, u: Bytes, before: Bytes, i: nat, o: nat) {
    Position(store, i, o) && u == before + Flat(store, i, o) && DigitCount(before) == |before|
  }

  /** `Counting`, sealed. */
  ghost predicate Counted(store: seq<Bytes>, u: Bytes, before: Bytes, i: nat, o: nat) {
    Position(store, i, o) && forall t: bool :: CountingFor(store, u, before, i, o, t)
  }

  ghost predicate CountingFor(store: seq<Bytes>, u: Bytes, before: Bytes, i: nat, o: nat, t: bool) {
    Counting(store, u, before, i, o)
  }

  lemma CountFrom(q: Queue)
    requires Sound(q)
    ensures Counted(q.store, Contents(q), [], q.readIt, q.readOff)
  {
    AtByte(q);
    assert Counting(q.store, Contents(q), [], q.readIt, q.readOff);
  }

  /** The digits from a position on, if they end in its block. */
  lemma CountHere(store: seq<Bytes>, i: nat, o: nat, n: nat)
    requires i < |store| && o + n < |store[i]| && DigitCount(store[i][o..]) == n
    ensures DigitCount(Flat(store, i, o)) == n < |Flat(store, i, o)|
    ensures Flat(store, i, o + n) == Flat(store, i, o)[n..]
  {
    FlatSplit(store, i, o);
    DigitCountPrefix(store[i][o..], Flat(store, i + 1, 0));
    FlatDrop(store, i, o, n);
  }

  lemma CountHit(store: seq<Bytes>, u: Bytes, before: Bytes, i: nat, o: nat, n: nat)
    requires Counted(store, u, before, i, o) && i < |store| && o + n < |store[i]|
    requires DigitCount(store[i][o..]) == n
    ensures DigitCount(u) < |u| && Flat(store, i, o + n) == u[DigitCount(u)..]
  {
    assert CountingFor(store, u, before, i, o, true);
    var f := Flat(store, i, o);
    CountHere(store, i, o, n);
    DigitCountSum(before, f);
    DropSum(before, f, n);
  }

  lemma DropSum(a: Bytes, f: Bytes, n: nat)
    requires n <= |f|
    ensures (a + f)[|a| + n..] == f[n..]
  {
  }

  lemma {:induction false} DigitCountPrefix(a: Bytes, b: Bytes)
    requires DigitCount(a) < |a|
    ensures DigitCount(a + b) == DigitCount(a)
  {
    assert (a + b)[1..] == a[1..] + b;
    if IsDigit(a[0]) {
      DigitCountPrefix(a[1..], b);
    }
  }

  lemma CountOn(store: seq<Bytes>, u: Bytes, before: Bytes, i: nat, o: nat)
    requires Counted(store, u, before, i, o) && i < |store|
    requires DigitCount(store[i][o..]) == |store[i]| - o
    ensures Counted(store, u, before + store[i][o..], i + 1, 0)
  {
    assert CountingFor(store, u, before, i, o, true);
    SkipBlock(store, i, o, u, before);
    DigitCountSum(before, store[i][o..]);
    assert Counting(store, u, before + store[i][o..], i + 1, 0);
  }

  lemma CountMiss(store: seq<Bytes>, u: Bytes, before: Bytes, o: nat)
    requires Counted(store, u, before, |store|, o)
    ensures DigitCount(u) == |u|
  {
    assert CountingFor(store, u, before, |store|, o, true);
    assert u == before;
  }

  /** The value accumulated so far, and the next piece of digits. */
  lemma AccumulatePiece(u: Bytes, done: nat, n: nat, piece: Bytes)
    requires done + n <= |u| && piece == u[done..][..n]
    ensures Accumulate(Wrap64(DigitsValue(u[..done])), piece) == Wrap64(DigitsValue(u[..done + n]))
  {
    assert u[..done + n] == u[..done] + piece;
    AccumulateValue(u[..done], piece);
  }

  /** A search that ends where it began found nothing to pass. */
  lemma AtCursor(q: Queue, n: nat)
    requires Sound(q) && n <= |Contents(q)| && Contents(q) != []
    requires n < |Contents(q)| ==>
               Position(q.store, q.readIt, q.readOff) && Flat(q.store, q.readIt, q.readOff) == Contents(q)[n..]
    requires n == |Contents(q)| ==> q.readIt == |q.store|
    ensures n == 0
  {
    AtByte(q);
  }

  lemma NextToFree(held: multiset<Slice>, td: TokenData, i: nat)
    requires multiset(td) <= held && i < |td|
    ensures td[i] in held - multiset(td[..i])
    ensures held - multiset(td[..i]) - multiset{td[i]} == held - multiset(td[..i + 1])
  {
    assert td[..i + 1] == td[..i] + [td[i]];
    PrefixWithin(td, i + 1);
  }

  lemma PrefixWithin(td: TokenData, n: nat)
    requires n <= |td|
    ensures multiset(td[..n]) <= multiset(td)
  {
    assert td == td[..n] + td[n..];
  }
}
