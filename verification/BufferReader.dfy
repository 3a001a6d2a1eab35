/** The receive buffer: a list of reference-counted blocks with a read cursor and a
    write iterator, proved to behave as one flat byte queue. */
module BufferReaders {
  import opened Octets
  import opened BlockQueue
  import opened DataBlocks
  import opened ReplyMachine

  class BufferReader {
    const minCapacity: nat

    var dataBlockList: seq<DataBlock>
    var readLeft: nat
    // The read cursor and the write iterator; the length of the list stands for end().
    var readIt: nat
    var readOff: nat
    var writeIt: nat
    var nextPreferedDataBlockSize: nat

    ghost var store: seq<Bytes>
    ghost var caps: seq<nat>
    ghost var refs: seq<nat>
    ghost var live: multiset<Slice>
    ghost var Repr: set<object>  // the blocks and their arrays

    /** The reader on values. */
    ghost function View(): Queue
      reads this
    {
      Queue(store, caps, refs, readIt, readOff, writeIt, live)
    }

    /** The ghost fields say what is in the blocks. */
    ghost predicate Mirror()
      reads this`dataBlockList, this`store, this`caps, this`refs, this`Repr, Repr
    {
      && this !in Repr
      && |store| == |caps| == |refs| == |dataBlockList|
      && (forall i :: 0 <= i < |dataBlockList| ==>
            var b := dataBlockList[i];
            && b in Repr && b.data in Repr
            && b.size <= b.data.Length == caps[i] && b.data[..b.size] == store[i] && b.nBytesRef == refs[i])
      && (forall i, j :: 0 <= i < j < |dataBlockList| ==>
            dataBlockList[i] != dataBlockList[j] && dataBlockList[i].data != dataBlockList[j].data)
    }

    /** `Mirror`, sealed like `Sound`. */
    ghost predicate Tied()
      reads this`dataBlockList, this`store, this`caps, this`refs, this`Repr, Repr
    {
      this !in Repr && |store| == |caps| == |refs| == |dataBlockList| && forall t: bool :: MirrorFor(t)
    }

    ghost predicate MirrorFor(t: bool)
      reads this`dataBlockList, this`store, this`caps, this`refs, this`Repr, Repr
    {
      Mirror()
    }

    lemma OpenMirror()
      requires Tied()
      ensures Mirror()
    {
      assert MirrorFor(true);
    }

    /** Everything but the value of `readLeft`, which the loops update at their own pace. */
    ghost predicate Core()
      reads this, Repr
    {
      0 < minCapacity && Tied() && Sound(View())
    }

    ghost predicate Valid()
      reads this, Repr
    {
      Core() && readLeft == |Pending()|
    }

    /** The bytes received and not read yet. */
    ghost function Pending(): Bytes
      reads this
    {
      Contents(View())
    }

    constructor (minCapacity: nat)
      requires 0 < minCapacity
      ensures Valid() && fresh(Repr) && Pending() == [] && live == multiset{}
      ensures this.minCapacity == minCapacity
    {
      this.minCapacity := minCapacity;
      dataBlockList := [];
      readLeft, readIt, readOff, writeIt, nextPreferedDataBlockSize := 0, 0, 0, 0, 0;
      store, caps, refs, live, Repr := [], [], [], multiset{}, {};
      Close(EMPTY);
    }

    // ---- operations on one block, with the ghost fields kept in step ----

    method ReleaseBlock(i: nat, n: nat)
      requires Tied() && i < |store| && n <= refs[i]
      modifies this`refs, Repr
      ensures Tied() && refs == old(refs)[i := old(refs)[i] - n]
    {
      OpenMirror();
      dataBlockList[i].Release(n);
      refs := refs[i := refs[i] - n];
      assert Mirror();
    }

    method AcquireBlock(i: nat, n: nat)
      requires Tied() && i < |store|
      modifies this`refs, Repr
      ensures Tied() && refs == old(refs)[i := old(refs)[i] + n]
    {
      OpenMirror();
      dataBlockList[i].Acquire(n);
      refs := refs[i := refs[i] + n];
      assert Mirror();
    }

    method BlockSize(i: nat) returns (n: nat)
      requires Tied() && i < |store|
      ensures n == |store[i]|
    {
      OpenMirror();
      n := dataBlockList[i].size;
    }

    method MoveHere(n: nat)
      requires Tied() && readIt < |store| && readOff + n <= |store[readIt]|
      modifies this`readIt, this`readOff
      ensures Tied() && View() == Pass(old(View()), n)
    {
      OpenMirror();
      if readOff + n < dataBlockList[readIt].size {
        readOff := readOff + n;
      } else {
        readIt := readIt + 1;
        readOff := 0;
      }
    }

    // ---- the two ways of passing bytes of the current block ----

    /** Passes `n` bytes of the current block and releases them. */
    method ReleaseHere(n: nat)
      requires Core() && CanPass(View(), n)
      modifies this`refs, this`readIt, this`readOff, Repr
      ensures Core() && View() == Pass(old(View()), n).(refs := refs)
      ensures n <= |old(Pending())| && Pending() == old(Pending())[n..]
      ensures old(Pending())[..n] == store[old(readIt)][old(readOff)..old(readOff) + n]
    {
      ghost var q := View();
      ReleaseSound(q, n);
      ReleaseBlock(readIt, n);
      MoveHere(n);
      assert View() == Released(q, n);
    }

    /** Passes `n` bytes of the current block and hands them to a token. */
    method SliceHere(n: nat) returns (s: Slice)
      requires Core() && CanPass(View(), n)
      modifies this`live, this`readIt, this`readOff
      ensures Core() && s == old(Slice(readIt, readOff, n)) && View() == old(Sliced(View(), n))
      ensures n <= |old(Pending())| && Pending() == old(Pending())[n..]
      ensures WithinStore(store, s) && SliceBytes(store, s) == old(Pending())[..n]
    {
      ghost var q := View();
      SliceSound(q, n);
      s := Slice(readIt, readOff, n);
      MoveHere(n);
      live := live + multiset{s};
      assert View() == Sliced(q, n);
    }

    /** How much of `len` bytes is in the current block. */
    method AvailableHere(len: nat) returns (k: nat)
      requires Core() && 0 < len <= |Pending()|
      ensures 0 < k <= len && CanPass(View(), k)
      ensures k == len || readOff + k == |store[readIt]|
    {
      AtByte(View());
      var n := BlockSize(readIt);
      var maxToRead := n - readOff;
      k := if len < maxToRead then len else maxToRead;
    }

    // ---- the operations ----

    method SkipBytes(n: nat) returns (err: Err)
      requires Valid()
      modifies this, Repr
      ensures Valid() && Repr == old(Repr) && store == old(store) && live == old(live)
      ensures err == if n <= |old(Pending())| then Ok else Incomplete
      ensures Pending() == if err == Ok then old(Pending())[n..] else old(Pending())
    {
      if n > readLeft {
        return Incomplete;
      }
      err := Ok;
      ghost var u := Pending();
      readLeft := readLeft - n;
      var len := n;
      while len > 0
        invariant 0 <= len <= n <= |u| && readLeft == |u| - n
        invariant Core() && Repr == old(Repr) && store == old(store) && live == old(live)
        invariant Pending() == u[n - len..]
      {
        var k := AvailableHere(len);
        ReleaseHere(k);
        len := len - k;
      }
    }

    method ReadBytes(n: nat) returns (err: Err, td: TokenData)
      requires Valid()
      modifies this, Repr
      ensures Valid() && Repr == old(Repr) && store == old(store) && live == old(live) + multiset(td)
      ensures err == if n <= |old(Pending())| then Ok else Incomplete
      ensures err != Ok ==> td == [] && Pending() == old(Pending())
      ensures err == Ok ==> TokenWithin(store, td) && Denote(store, td) == old(Pending())[..n] && Pending() == old(Pending())[n..]
    {
      td := [];
      if n == 0 {
        return Ok, td;
      }
      if n > readLeft {
        return Incomplete, td;
      }
      err := Ok;
      td := TakeBytes(n);
    }

    /** The loop of `readBytes`: a slice for each block. */
    method TakeBytes(n: nat) returns (td: TokenData)
      requires Valid() && n <= |Pending()|
      modifies this, Repr
      ensures Valid() && Repr == old(Repr) && store == old(store) && live == old(live) + multiset(td)
      ensures TokenWithin(store, td) && Denote(store, td) == old(Pending())[..n] && Pending() == old(Pending())[n..]
    {
      td := [];
      ghost var u := Pending();
      readLeft := readLeft - n;
      var len := n;
      ghost var held := live;
      TakenNothing(store, held, u);
      while len > 0
        invariant 0 <= len <= n <= |u| && readLeft == |u| - n
        invariant Core() && Repr == old(Repr) && store == old(store)
        invariant Pending() == u[n - len..] && Taken(store, held, live, td, u, n - len)
      {
        var k := AvailableHere(len);
        ghost var taken := live;
        var dbs := SliceHere(k);
        TakenMore(store, held, taken, td, u, n - len, dbs, k);
        td := td + [dbs];
        len := len - k;
      }
      TakenAll(store, held, live, td, u, n);
    }

    method Peek(offset: nat) returns (err: Err, c: octet)
      requires Valid()
      ensures err == if offset < |Pending()| then Ok else Incomplete
      ensures err == Ok ==> c == Pending()[offset]
    {
      err, c := Incomplete, '\0';
      if offset >= readLeft {
        return;
      }
      var it: nat, off: nat, left: nat := readIt, readOff, offset;
      AtByte(View());
      while left > 0
        invariant 0 <= left <= offset && it < |store| && off < |store[it]|
        invariant Position(store, it, off) && Flat(store, it, off) == Pending()[offset - left..]
      {
        var n := BlockSize(it);
        if left < n - off {
          FlatDrop(store, it, off, left);
          off, left := off + left, 0;
        } else {
          FlatSplit(store, it, off);
          Geometry(View());
          if it != writeIt {
            BlockStart(View(), it + 1);
            left := left - (n - off);
            it, off := it + 1, 0;
          } else {
            return;
          }
        }
      }
      OpenMirror();
      FlatDrop(store, it, off, 0);
      c := dataBlockList[it].data[off];
      err := Ok;
    }

    /** Looks for `c` from the cursor on, without moving it. */
    method Locate(c: octet) returns (it: nat, off: nat)
      requires Core()
      ensures Position(store, it, off) && Before(readIt, readOff, it, off)
      ensures var n := IndexOf(c, Pending());
              if n < |Pending()| then
                it < |store| && off < |store[it]| && Flat(store, it, off) == Pending()[n..]
              else it == |store|
    {
      it, off := readIt, readOff;
      ghost var before: Bytes := [];
      AtByte(View());
      while it != |dataBlockList|
        invariant it <= |store| == |dataBlockList| && Before(readIt, readOff, it, off)
        invariant Searching(store, c, Pending(), before, it, off)
      {
        var pos, found := FindInBlock(it, off, c);
        if found {
          SearchHit(store, c, Pending(), before, it, off, pos);
          off := pos;
          return;
        }
        SearchOn(store, c, Pending(), before, it, off);
        before := before + store[it][off..];
        it, off := it + 1, 0;
      }
      SearchMiss(store, c, Pending(), before, off);
    }

    method FindInBlock(i: nat, since: nat, c: octet) returns (pos: nat, found: bool)
      requires Tied() && i < |store| && since <= |store[i]|
      ensures since <= pos <= |store[i]| && found == (pos < |store[i]|)
      ensures found ==> store[i][pos] == c && c !in store[i][since..pos]
      ensures !found ==> c !in store[i][since..]
    {
      OpenMirror();
      var b := dataBlockList[i];
      pos := b.Find(c, since);
      found := pos != b.size;
      assert b.data[since..pos] == store[i][since..pos];
    }

    /** The length of the next piece on the way to `(endIt, endOff)`. */
    method PieceTo(endIt: nat, endOff: nat, ghost u: Bytes, ghost done: nat, ghost target: nat) returns (n: nat)
      requires Core() && Toward(View(), u, done, endIt, endOff, target) && !(readIt == endIt && readOff == endOff)
      ensures CanPass(View(), n) && Toward(Pass(View(), n), u, done + n, endIt, endOff, target)
    {
      OpenToward(View(), u, done, endIt, endOff, target);
      PieceFits(View(), u, done, endIt, endOff, target);
      if readIt == endIt {
        n := endOff - readOff;
      } else {
        var size := BlockSize(readIt);
        n := size - readOff;
      }
      TowardOn(View(), u, done, endIt, endOff, target, n);
    }

    method SliceToward(endIt: nat, endOff: nat, ghost u: Bytes, ghost done: nat, ghost target: nat)
      returns (dbs: Slice, n: nat)
      requires Core() && Toward(View(), u, done, endIt, endOff, target) && !(readIt == endIt && readOff == endOff)
      modifies this`live, this`readIt, this`readOff
      ensures Core() && live == old(live) + multiset{dbs}
      ensures 0 < n && done + n <= |u| && Toward(View(), u, done + n, endIt, endOff, target)
      ensures WithinStore(store, dbs) && SliceBytes(store, dbs) == u[done..][..n]
    {
      OpenToward(View(), u, done, endIt, endOff, target);
      n := PieceTo(endIt, endOff, u, done, target);
      ghost var q := Pass(View(), n);
      dbs := SliceHere(n);
      TowardFrame(q, View(), u, done + n, endIt, endOff, target);
      OpenToward(View(), u, done + n, endIt, endOff, target);
    }

    method ReleaseToward(endIt: nat, endOff: nat, ghost u: Bytes, ghost done: nat, ghost target: nat) returns (n: nat)
      requires Core() && Toward(View(), u, done, endIt, endOff, target) && !(readIt == endIt && readOff == endOff)
      modifies this`refs, this`readIt, this`readOff, Repr
      ensures Core()
      ensures 0 < n && Toward(View(), u, done + n, endIt, endOff, target)
    {
      n := PieceTo(endIt, endOff, u, done, target);
      ghost var q := Pass(View(), n);
      ReleaseHere(n);
      TowardFrame(q, View(), u, done + n, endIt, endOff, target);
    }

    method ReadUntil(c: octet) returns (err: Err, td: TokenData, nSize: nat)
      requires Valid()
      modifies this, Repr
      ensures Valid() && Repr == old(Repr) && store == old(store) && live == old(live) + multiset(td)
      ensures err == if c in old(Pending()) then Ok else Incomplete
      ensures err != Ok ==> td == [] && Pending() == old(Pending())
      ensures err == Ok ==>
                && nSize == IndexOf(c, old(Pending())) && Pending() == old(Pending())[nSize..]
                && TokenWithin(store, td) && Denote(store, td) == old(Pending())[..nSize]
    {
      ghost var target := IndexOf(c, Pending());
      var endIt, endOff := Locate(c);
      AtByte(View());
      if endIt == |dataBlockList| {
        return Incomplete, [], 0;
      }
      err := Ok;
      SetOut(View(), endIt, endOff, target);
      td, nSize := TakeTo(endIt, endOff, target);
    }

    /** The second loop of `readUntil`: a slice for each block on the way. */
    method TakeTo(endIt: nat, endOff: nat, ghost target: nat) returns (td: TokenData, nSize: nat)
      requires Valid() && Toward(View(), Pending(), 0, endIt, endOff, target)
      modifies this, Repr
      ensures Valid() && Repr == old(Repr) && store == old(store) && live == old(live) + multiset(td)
      ensures nSize == target <= |old(Pending())| && Pending() == old(Pending())[nSize..]
      ensures TokenWithin(store, td) && Denote(store, td) == old(Pending())[..nSize]
    {
      td, nSize := [], 0;
      ghost var u := Pending();
      ghost var held := live;
      TakenNothing(store, held, u);
      while readIt != endIt || readOff != endOff
        invariant Core() && Repr == old(Repr) && store == old(store)
        invariant Toward(View(), u, nSize, endIt, endOff, target) && readLeft == |u| - nSize
        invariant Taken(store, held, live, td, u, nSize)
        decreases target - nSize
      {
        ghost var taken := live;
        var dbs, n := SliceToward(endIt, endOff, u, nSize, target);
        TakenMore(store, held, taken, td, u, nSize, dbs, n);
        readLeft := readLeft - n;
        nSize := nSize + n;
        td := td + [dbs];
      }
      OpenToward(View(), u, nSize, endIt, endOff, target);
      TakenAll(store, held, live, td, u, nSize);
    }

    /** The loop of `skipUntil`. */
    method SkipTo(endIt: nat, endOff: nat, ghost target: nat) returns (nSize: nat)
      requires Valid() && Toward(View(), Pending(), 0, endIt, endOff, target)
      modifies this, Repr
      ensures Valid() && Repr == old(Repr) && store == old(store) && live == old(live)
      ensures nSize == target <= |old(Pending())| && Pending() == old(Pending())[nSize..]
    {
      nSize := 0;
      ghost var u := Pending();
      while readIt != endIt || readOff != endOff
        invariant Core() && Repr == old(Repr) && store == old(store) && live == old(live)
        invariant Toward(View(), u, nSize, endIt, endOff, target) && readLeft == |u| - nSize
        decreases target - nSize
      {
        var n := ReleaseToward(endIt, endOff, u, nSize, target);
        readLeft := readLeft - n;
        nSize := nSize + n;
      }
      OpenToward(View(), u, nSize, endIt, endOff, target);
    }

    method SkipUntil(c: octet) returns (err: Err, nSize: nat)
      requires Valid()
      modifies this, Repr
      ensures Valid() && Repr == old(Repr) && store == old(store) && live == old(live)
      ensures err == if c in old(Pending()) then Ok else Incomplete
      ensures err != Ok ==> Pending() == old(Pending())
      ensures err == Ok ==> nSize == IndexOf(c, old(Pending())) && Pending() == old(Pending())[nSize..]
    {
      ghost var target := IndexOf(c, Pending());
      var endIt, endOff := Locate(c);
      AtByte(View());
      if endIt == |dataBlockList| {
        return Incomplete, 0;
      }
      err := Ok;
      SetOut(View(), endIt, endOff, target);
      nSize := SkipTo(endIt, endOff, target);
    }

    /** Looks for the first byte from the cursor on that is not a digit. */
    method LocateNotNumeric() returns (it: nat, off: nat)
      requires Core()
      ensures Position(store, it, off) && Before(readIt, readOff, it, off)
      ensures var n := DigitCount(Pending());
              if n < |Pending()| then
                it < |store| && off < |store[it]| && Flat(store, it, off) == Pending()[n..]
              else it == |store|
    {
      it, off := readIt, readOff;
      ghost var u, before := Pending(), [];
      CountFrom(View());
      while it != |dataBlockList|
        invariant it <= |store| == |dataBlockList| && Before(readIt, readOff, it, off)
        invariant Counted(store, u, before, it, off)
      {
        var n, found := CountBlock(it, off, u, before);
        if found {
          off := off + n;
          return;
        }
        before := before + store[it][off..];
        it, off := it + 1, 0;
      }
      CountMiss(store, u, before, off);
    }

    method CountBlock(it: nat, off: nat, ghost u: Bytes, ghost before: Bytes) returns (n: nat, found: bool)
      requires Tied() && Counted(store, u, before, it, off) && it < |store|
      ensures found ==> off + n < |store[it]| && DigitCount(u) < |u| && Flat(store, it, off + n) == u[DigitCount(u)..]
      ensures !found ==> Counted(store, u, before + store[it][off..], it + 1, 0)
    {
      n, found := FindNotNumericInBlock(it, off);
      if found {
        CountHit(store, u, before, it, off, n);
      } else {
        CountOn(store, u, before, it, off);
      }
    }

    method FindNotNumericInBlock(i: nat, since: nat) returns (n: nat, found: bool)
      requires Tied() && i < |store| && since <= |store[i]|
      ensures n == DigitCount(store[i][since..]) && found == (since + n < |store[i]|)
    {
      OpenMirror();
      var b := dataBlockList[i];
      var pos := b.FindNotNumeric(since);
      found := pos != b.size;
      n := pos - since;
      ghost var s := store[i][since..];
      assert s[..n] == b.data[since..pos];
      if found {
        DigitCountIsLongest(s, n);
      } else {
        assert s[..n] == s;
        AllDigitsCounted(s);
      }
    }

    /** The inner loop of `readUnsigned`: the digits of one block. */
    method AccumulateBlock(i: nat, offset: nat, len: nat, value: nat) returns (v: nat)
      requires Tied() && i < |store| && offset + len <= |store[i]|
      ensures v == Accumulate(value, store[i][offset..offset + len])
    {
      OpenMirror();
      var b := dataBlockList[i];
      ghost var s := store[i][offset..offset + len];
      v := value;
      var j := 0;
      while j < len
        invariant 0 <= j <= len && v == Accumulate(value, s[..j])
      {
        assert s[j] == b.data[offset + j] && s[..j + 1][..j] == s[..j] && s[..j + 1][j] == s[j];
        v := Wrap64(v * 10 + DigitValue(b.data[offset + j]));
        j := j + 1;
      }
      assert s[..len] == s;
    }

    method DigitsHere(endIt: nat, endOff: nat, ghost u: Bytes, ghost done: nat, ghost target: nat, value: nat)
      returns (n: nat, v: nat)
      requires Core() && Toward(View(), u, done, endIt, endOff, target) && !(readIt == endIt && readOff == endOff)
      requires value == Wrap64(DigitsValue(u[..done]))
      ensures CanPass(View(), n) && Toward(Pass(View(), n), u, done + n, endIt, endOff, target)
      ensures v == Wrap64(DigitsValue(u[..done + n]))
    {
      n := PieceTo(endIt, endOff, u, done, target);
      OpenToward(View(), u, done, endIt, endOff, target);
      ReleaseSound(View(), n);
      AccumulatePiece(u, done, n, store[readIt][readOff..readOff + n]);
      v := AccumulateBlock(readIt, readOff, n, value);
    }

    method DigitsToward(endIt: nat, endOff: nat, ghost u: Bytes, ghost done: nat, ghost target: nat, value: nat)
      returns (n: nat, v: nat)
      requires Core() && Toward(View(), u, done, endIt, endOff, target) && !(readIt == endIt && readOff == endOff)
      requires value == Wrap64(DigitsValue(u[..done]))
      modifies this`refs, this`readIt, this`readOff, Repr
      ensures Core()
      ensures 0 < n && Toward(View(), u, done + n, endIt, endOff, target)
      ensures v == Wrap64(DigitsValue(u[..done + n]))
    {
      n, v := DigitsHere(endIt, endOff, u, done, target, value);
      ghost var q := Pass(View(), n);
      ReleaseHere(n);
      TowardFrame(q, View(), u, done + n, endIt, endOff, target);
    }

    method ReadUnsigned() returns (err: Err, value: nat, ghost length: nat)
      requires Valid()
      modifies this, Repr
      ensures Valid() && Repr == old(Repr) && store == old(store) && live == old(live)
      ensures match ReplyMachine.ReadUnsigned(old(Pending()))
              case Short => err == Incomplete && value == 0 && Pending() == old(Pending())
              case NotANumber => err == ProgrammingErr && value == 0 && Pending() == old(Pending())
              case Parsed(v, n) => err == Ok && value == v && length == n && Pending() == old(Pending())[n..]
    {
      value, length := 0, 0;
      if readLeft < 2 {
        return Incomplete, 0, 0;
      }
      ghost var target := DigitCount(Pending());
      var endIt, endOff := LocateNotNumeric();
      if readIt == endIt && readOff == endOff {
        AtCursor(View(), target);
        return ProgrammingErr, 0, 0;
      }
      AtByte(View());
      if endIt == |dataBlockList| {
        return Incomplete, 0, 0;
      }
      err := Ok;
      SetOut(View(), endIt, endOff, target);
      OpenToward(View(), Pending(), 0, endIt, endOff, target);
      PieceFits(View(), Pending(), 0, endIt, endOff, target);
      value, length := NumberTo(endIt, endOff, target);
    }

    /** The second loop of `readUnsigned`. */
    method NumberTo(endIt: nat, endOff: nat, ghost target: nat) returns (value: nat, ghost nSize: nat)
      requires Valid() && Toward(View(), Pending(), 0, endIt, endOff, target)
      modifies this, Repr
      ensures Valid() && Repr == old(Repr) && store == old(store) && live == old(live)
      ensures nSize == target <= |old(Pending())| && Pending() == old(Pending())[nSize..]
      ensures value == Wrap64(DigitsValue(old(Pending())[..target]))
    {
      value, nSize := 0, 0;
      ghost var u := Pending();
      while readIt != endIt || readOff != endOff
        invariant Core() && Repr == old(Repr) && store == old(store) && live == old(live)
        invariant Toward(View(), u, nSize, endIt, endOff, target) && readLeft == |u| - nSize
        invariant value == Wrap64(DigitsValue(u[..nSize]))
        decreases target - nSize
      {
        var n, v := DigitsToward(endIt, endOff, u, nSize, target, value);
        readLeft := readLeft - n;
        nSize, value := nSize + n, v;
      }
      OpenToward(View(), u, nSize, endIt, endOff, target);
    }

    // ---- tokens ----

    method FreeSlice(s: Slice)
      requires Core() && s in live
      modifies this`refs, this`live, Repr
      ensures Core() && live == old(live) - multiset{s} && Pending() == old(Pending())
    {
      ghost var q := View();
      FreeSound(q, s);
      ReleaseBlock(s.block, s.size);
      live := live - multiset{s};
      assert View() == q.(live := q.live - multiset{s}, refs := q.refs[s.block := q.refs[s.block] - s.size]);
    }

    /** `freeTokenData` */
    method FreeTokenData(td: TokenData)
      requires Valid() && multiset(td) <= live
      modifies this`refs, this`live, Repr
      ensures Valid() && live == old(live) - multiset(td) && Pending() == old(Pending())
    {
      ghost var held := live;
      var i := 0;
      assert held - multiset(td[..0]) == held;
      while i < |td|
        invariant 0 <= i <= |td|
        invariant Core() && live == held - multiset(td[..i]) && Pending() == old(Pending())
      {
        NextToFree(held, td, i);
        FreeSlice(td[i]);
        i := i + 1;
      }
      assert td[..i] == td;
    }

    method CopySlice(s: Slice)
      requires Core() && WithinStore(store, s)
      modifies this`refs, this`live, Repr
      ensures Core() && live == old(live) + multiset{s} && Pending() == old(Pending())
    {
      ghost var q := View();
      CopySound(q, s);
      AcquireBlock(s.block, s.size);
      live := live + multiset{s};
      assert View() == q.(live := q.live + multiset{s}, refs := q.refs[s.block := q.refs[s.block] + s.size]);
    }

    /** `copyTokenData`: the copy is counted like the original. */
    method CopyTokenData(src: TokenData) returns (dst: TokenData)
      requires Valid() && TokenWithin(store, src)
      modifies this`refs, this`live, Repr
      ensures Valid() && live == old(live) + multiset(src) && Pending() == old(Pending()) && dst == src
    {
      dst := src;
      var i := 0;
      while i < |dst|
        invariant 0 <= i <= |dst|
        invariant Valid() && live == old(live) + multiset(dst[..i]) && Pending() == old(Pending())
      {
        assert dst[..i + 1] == dst[..i] + [dst[i]];
        CopySlice(dst[i]);
        i := i + 1;
      }
      assert dst[..i] == dst;
    }

    method SliceData(s: Slice) returns (bytes: Bytes)
      requires Tied() && WithinStore(store, s)
      ensures bytes == SliceBytes(store, s)
    {
      OpenMirror();
      var b := dataBlockList[s.block];
      bytes := b.data[s.offset..s.offset + s.size];
      assert b.data[..b.size][s.offset..s.offset + s.size] == bytes;
    }

    /** `parseTokenData`: the bytes of a token, in one piece of `reserved` bytes.  A single
        slice is handed out where it is, whatever its size.  Slices that are put together
        and do not fit give nothing; what they do not fill is whatever was in memory. */
    method ParseTokenData(td: TokenData, reserved: nat) returns (ptr: Option<Bytes>)
      requires Core() && TokenWithin(store, td)
      ensures reserved == 0 ==> ptr == None
      ensures reserved > 0 && |td| == 1 ==> ptr == Some(Denote(store, td))
      ensures reserved > 0 && |td| != 1 && |Denote(store, td)| > reserved ==> ptr == None
      ensures reserved > 0 && |td| != 1 && |Denote(store, td)| <= reserved ==>
                ptr.Some? && |ptr.value| == reserved && Denote(store, td) <= ptr.value
      ensures |Denote(store, td)| == reserved > 0 ==> ptr == Some(Denote(store, td))
    {
      if reserved == 0 {
        return None;
      }
      if |td| == 1 {
        var slice := SliceData(td[0]);
        DenoteOne(store, td);
        return Some(slice);
      }
      ptr := Gather(td, reserved);
      if ptr.Some? && |Denote(store, td)| == reserved {
        WholePrefix(Denote(store, td), ptr.value);
      }
    }

    static lemma WholePrefix(a: Bytes, b: Bytes)
      requires a <= b && |a| == |b|
      ensures a == b
    {
    }

    /** The loop of `parseTokenData`. */
    method Gather(td: TokenData, reserved: nat) returns (ptr: Option<Bytes>)
      requires Core() && TokenWithin(store, td)
      ensures |Denote(store, td)| > reserved ==> ptr == None
      ensures |Denote(store, td)| <= reserved ==> ptr.Some? && |ptr.value| == reserved && Denote(store, td) <= ptr.value
    {
      var memory := new octet[reserved];
      var pos: nat := 0;
      for i := 0 to |td|
        invariant Core() && fresh(memory)
        invariant pos <= reserved && memory[..pos] == Denote(store, td[..i])
      {
        var n := AddPiece(td, i, memory, pos);
        if pos + n > reserved {
          return None;
        }
        pos := pos + n;
      }
      assert td[..|td|] == td;
      return Some(memory[..]);
    }

    /** The next slice, if it fits; its size. */
    method AddPiece(td: TokenData, i: nat, memory: array<octet>, pos: nat) returns (n: nat)
      requires Core() && TokenWithin(store, td) && i < |td| && memory !in Repr
      requires pos <= memory.Length && memory[..pos] == Denote(store, td[..i])
      modifies memory
      ensures Core() && pos + n <= |Denote(store, td)|
      ensures pos + n <= memory.Length ==> memory[..pos + n] == Denote(store, td[..i + 1])
    {
      DenotePrefix(store, td, i);
      var piece := SliceData(td[i]);
      n := |piece|;
      if pos + n <= memory.Length {
        PutPiece(memory, pos, piece);
      }
    }

    static method PutPiece(memory: array<octet>, pos: nat, piece: Bytes)
      requires pos + |piece| <= memory.Length
      modifies memory
      ensures memory[..pos + |piece|] == old(memory[..pos]) + piece
    {
      forall k | 0 <= k < |piece| {
        memory[pos + k] := piece[k];
      }
      assert memory[pos..pos + |piece|] == piece;
      assert memory[..pos + |piece|] == memory[..pos] + piece;
    }

    // ---- writing ----

    method CloseWriteBlock()
      requires Core() && writeIt < |store| && store[writeIt] != []
      modifies this`writeIt
      ensures Core() && View() == old(View()).(writeIt := old(writeIt) + 1) && Pending() == old(Pending())
      ensures writeIt == |store|
    {
      ghost var q := View();
      CloseBlock(q);
      writeIt := writeIt + 1;
      assert View() == q.(writeIt := q.writeIt + 1);
    }

    method PushNewBlock(cap: nat)
      requires Core() && writeIt == |store| && 0 < cap
      modifies this`dataBlockList, this`store, this`caps, this`refs, this`Repr
      ensures Core() && View() == Pushed(old(View()), cap) && Pending() == old(Pending())
      ensures fresh(Repr - old(Repr)) && old(Repr) <= Repr
    {
      PushSound(View(), cap);
      AddBlock(cap);
    }

    /** A new block at the end of the list. */
    method AddBlock(cap: nat)
      requires Tied()
      modifies this`dataBlockList, this`store, this`caps, this`refs, this`Repr
      ensures Tied() && View() == Pushed(old(View()), cap)
      ensures fresh(Repr - old(Repr)) && old(Repr) <= Repr
    {
      ghost var q := View();
      OpenMirror();
      var b := new DataBlock(cap);
      assert b.data[..0] == [];
      dataBlockList := dataBlockList + [b];
      store, caps, refs := store + [[]], caps + [cap], refs + [0];
      Repr := Repr + {b, b.data};
      assert Mirror();
      assert View() == Pushed(q, cap);
    }

    method WriteLeft() returns (n: nat)
      requires Core() && writeIt < |store|
      ensures |store[writeIt]| + n == caps[writeIt]
    {
      OpenMirror();
      n := dataBlockList[writeIt].GetWriteLeft();
    }

    /** Makes sure there is a block with room, and says how much of `len` fits in it. */
    method PrepareWriteBlock(len: nat) returns (n: nat)
      requires Valid()
      modifies this
      ensures Valid() && fresh(Repr - old(Repr)) && old(Repr) <= Repr
      ensures Pending() == old(Pending()) && live == old(live)
      ensures store == old(store) || store == old(store) + [[]]
      ensures WriteReady(View()) && |store[writeIt]| < caps[writeIt]
      ensures n == if len < caps[writeIt] - |store[writeIt]| then len else caps[writeIt] - |store[writeIt]|
      ensures store == old(store) ==> caps == old(caps)
      ensures store != old(store) ==> caps == old(caps) + [if len < minCapacity then minCapacity else len]
      ensures readLeft == old(readLeft) && nextPreferedDataBlockSize == old(nextPreferedDataBlockSize)
    {
      FindWriteBlock(len);
      Geometry(View());
      if readLeft == 0 {
        SetReadCursor();
      }
      Geometry(View());
      n := WriteLeft();
      n := if len < n then len else n;
    }

    /** Moves the write iterator to a block with room, adding one if there is none. */
    method FindWriteBlock(len: nat)
      requires Valid()
      modifies this`dataBlockList, this`store, this`caps, this`refs, this`Repr, this`writeIt
      ensures Valid() && fresh(Repr - old(Repr)) && old(Repr) <= Repr
      ensures Pending() == old(Pending())
      ensures store == old(store) || store == old(store) + [[]]
      ensures store == old(store) ==> caps == old(caps)
      ensures store != old(store) ==> caps == old(caps) + [if len < minCapacity then minCapacity else len]
      ensures writeIt < |store| == |caps| && |store[writeIt]| < caps[writeIt]
    {
      Geometry(View());
      if writeIt != |dataBlockList| {
        var left := WriteLeft();
        if left == 0 {
          CloseWriteBlock();
        }
      }
      if writeIt == |dataBlockList| {
        PushNewBlock(if len < minCapacity then minCapacity else len);
      }
    }

    method SetReadCursor()
      requires Core() && Pending() == [] && writeIt < |store|
      modifies this`readIt, this`readOff
      ensures Core() && View() == CursorAtWrite(old(View())) && Pending() == []
    {
      ghost var q := View();
      MoveCursorSound(q);
      var size := BlockSize(writeIt);
      readIt, readOff := writeIt, size;
      assert View() == CursorAtWrite(q);
    }

    method FillWriteBlock(bytes: Bytes)
      requires Core() && writeIt < |store| && |store[writeIt]| + |bytes| <= caps[writeIt]
      modifies Repr
      ensures Core() && Uncommitted(bytes)
    {
      OpenMirror();
      dataBlockList[writeIt].Fill(bytes);
      assert Mirror();
    }

    /** `bytes` is at the write pointer, not committed yet. */
    ghost predicate Uncommitted(bytes: Bytes)
      reads this, Repr, dataBlockList, set b | b in dataBlockList :: b.data
    {
      && writeIt < |dataBlockList|
      && var b := dataBlockList[writeIt];
      && b.size + |bytes| <= b.data.Length && b.data[b.size..b.size + |bytes|] == bytes
    }

    /** `commitWrite`: the bytes at the write pointer become unread bytes.  A block that
        would be full after as many bytes again is closed, too. */
    method CommitWrite(len: nat, ghost bytes: Bytes)
      requires Valid() && WriteReady(View()) && |bytes| == len && Uncommitted(bytes)
      requires |store[writeIt]| + len <= caps[writeIt]
      modifies this, Repr
      ensures Valid() && Repr == old(Repr) && live == old(live)
      ensures Pending() == old(Pending()) + bytes
      ensures store == old(store)[old(writeIt) := old(store)[old(writeIt)] + bytes]
      ensures caps == old(caps) && nextPreferedDataBlockSize == old(nextPreferedDataBlockSize)
      ensures var w := old(writeIt);
              w < |store| == |caps| && writeIt == if |store[w]| + len == caps[w] then w + 1 else w
    {
      OccupyWriteBlock(len, bytes);
      readLeft := readLeft + len;
      Geometry(View());
      var left := WriteLeft();
      if left == len {  // size() + len == capacity()
        CloseWriteBlock();
      }
    }

    method OccupyWriteBlock(len: nat, ghost bytes: Bytes)
      requires Core() && WriteReady(View()) && |bytes| == len && Uncommitted(bytes)
      requires |store[writeIt]| + len <= caps[writeIt]
      modifies this`store, this`refs, Repr
      ensures Core() && View() == Appended(old(View()), bytes) && Pending() == old(Pending()) + bytes
    {
      ghost var q := View();
      AppendSound(q, bytes);
      OpenMirror();
      var b := dataBlockList[writeIt];
      ghost var size := b.size;
      b.Occupy(len);
      assert b.data[..size + len] == b.data[..size] + bytes;
      store := store[writeIt := store[writeIt] + bytes];
      refs := refs[writeIt := refs[writeIt] + len];
      assert Mirror();
      assert View() == Appended(q, bytes);
    }

    /** `write`: copies bytes in, block by block. */
    method Write(bytes: Bytes)
      requires Valid()
      modifies this, Repr
      ensures Valid() && fresh(Repr - old(Repr)) && live == old(live)
      ensures Pending() == old(Pending()) + bytes
      ensures Extends(old(store), store)
    {
      var copied := 0;
      while copied < |bytes|
        invariant 0 <= copied <= |bytes|
        invariant Valid() && fresh(Repr - old(Repr)) && live == old(live)
        invariant Pending() == old(Pending()) + bytes[..copied]
        invariant Extends(old(store), store)
      {
        ghost var before := store;
        var n := WriteSome(bytes, copied);
        ExtendsThrough(old(store), before, store);
        assert bytes[..copied + n] == bytes[..copied] + bytes[copied..copied + n];
        copied := copied + n;
      }
      assert bytes[..copied] == bytes;
    }

    /** The next part of `bytes`, as much as there is room for. */
    method WriteSome(bytes: Bytes, copied: nat) returns (n: nat)
      requires Valid() && copied < |bytes|
      modifies this, Repr
      ensures Valid() && fresh(Repr - old(Repr)) && live == old(live)
      ensures 0 < n && copied + n <= |bytes|
      ensures Pending() == old(Pending()) + bytes[copied..copied + n]
      ensures Extends(old(store), store)
    {
      n := PrepareWriteBlock(|bytes| - copied);
      PutChunk(bytes[copied..copied + n]);
    }

    /** Copies a chunk that fits to the write pointer and commits it. */
    method PutChunk(chunk: Bytes)
      requires Valid() && WriteReady(View()) && |store[writeIt]| + |chunk| <= caps[writeIt]
      modifies this, Repr
      ensures Valid() && Repr == old(Repr) && live == old(live)
      ensures Pending() == old(Pending()) + chunk
      ensures store == old(store)[old(writeIt) := old(store)[old(writeIt)] + chunk]
      ensures nextPreferedDataBlockSize == old(nextPreferedDataBlockSize)
    {
      FillWriteBlock(chunk);
      CommitWrite(|chunk|, chunk);
    }

    method GetNextPreferedDataBlockSize() returns (n: nat)
      requires Valid()
      modifies this`nextPreferedDataBlockSize
      ensures Valid() && nextPreferedDataBlockSize == minCapacity
      ensures 0 < n == if old(nextPreferedDataBlockSize) == 0 then minCapacity else old(nextPreferedDataBlockSize)
    {
      n := if nextPreferedDataBlockSize == 0 then minCapacity else nextPreferedDataBlockSize;
      nextPreferedDataBlockSize := minCapacity;
    }

    method SetNextPreferedDataBlockSize(n: nat)
      requires Valid()
      modifies this`nextPreferedDataBlockSize
      ensures Valid() && nextPreferedDataBlockSize == n
    {
      nextPreferedDataBlockSize := n;
    }

    /** `reset`: forgets what was received and keeps the first block.  The tokens must
        have been freed. */
    method Reset()
      requires Valid() && live == multiset{}
      modifies this, Repr
      ensures Valid() && Repr == old(Repr) && live == multiset{} && Pending() == []
      ensures View() == Emptied(old(View()))
      ensures if old(store) == [] then store == [] else store == [[]] && caps == [old(caps)[0]] && refs == [0]
      ensures readLeft == 0 && readIt == 0 && readOff == 0 && writeIt == 0
      ensures nextPreferedDataBlockSize == old(nextPreferedDataBlockSize)
    {
      ghost var q := View();
      EmptiedSound(q);
      KeepFirstBlock();
      readLeft, writeIt, readIt, readOff := 0, 0, 0, 0;
      assert View() == Emptied(q);
    }

    method KeepFirstBlock()
      requires Tied()
      modifies this`dataBlockList, this`store, this`caps, this`refs, Repr
      ensures Tied()
      ensures old(store) == [] ==> store == [] && caps == [] && refs == []
      ensures old(store) != [] ==> store == [[]] && caps == old(caps)[..1] && refs == [0]
    {
      OpenMirror();
      if dataBlockList != [] {
        var b := dataBlockList[0];
        b.Reset();
        dataBlockList := [b];
        store, caps, refs := [[]], [caps[0]], [0];
        assert b.data[..0] == [];
      }
      assert Mirror();
    }

    /** Conservation, read off the blocks themselves: once everything has been read and
        every token freed, all blocks are reusable. */
    lemma EverythingReusable()
      requires Valid() && Pending() == [] && live == multiset{}
      ensures forall b <- dataBlockList :: b.Reusable()
    {
      OpenMirror();
      Open(View());
      AllReusable(View());
    }

    /** Conservation: each block counts its unread bytes and the bytes of live slices. */
    lemma BytesConserved(i: nat)
      requires Valid() && i < |dataBlockList|
      ensures |store| == |dataBlockList| && Position(store, readIt, readOff)
      ensures dataBlockList[i].nBytesRef == UnreadIn(View(), i) + CoveredIn(live, i)
    {
      OpenMirror();
      Open(View());
    }
  }
}
