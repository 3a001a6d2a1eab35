/** Large values in the Python client: a meta entry and up to ten pieces for one value. */
module ChunkedStores {
  import opened Octets
  import opened Chunking

  const CHUNK_SIZE := 1000000
  const MAX_SPLITS := 10
  const MAX_KEY := 200
  const CHUNKED := 4096

  datatype Entry = Entry(value: Bytes, flags: nat)

  /** What the servers hold. */
  type Store = map<Bytes, Entry>

  predicate IsChunked(flags: nat) {
    flags / CHUNKED % 2 == 1
  }

  /** `flags | _FLAG_DOUBAN_CHUNKED` */
  function WithChunked(flags: nat): (r: nat)
    ensures IsChunked(r)
  {
    if IsChunked(flags) then flags else flags + CHUNKED
  }

  /** `flags & ~_FLAG_DOUBAN_CHUNKED` */
  function WithoutChunked(flags: nat): (r: nat)
    ensures !IsChunked(r)
  {
    if IsChunked(flags) then flags - CHUNKED else flags
  }

  // ---- pieces ----

  function Splits(len: nat): nat {
    len / CHUNK_SIZE + (if len % CHUNK_SIZE == 0 then 0 else 1)
  }

  function Least(a: nat, b: nat): nat {
    if a < b then a else b
  }

  function Piece(val: Bytes, i: nat): (piece: Bytes)
    requires i < Splits(|val|)
  {
    val[i * CHUNK_SIZE..Least((i + 1) * CHUNK_SIZE, |val|)]
  }

  function Pieces(val: Bytes): (ps: seq<Bytes>)
    ensures |ps| == Splits(|val|)
  {
    seq(Splits(|val|), i requires 0 <= i < Splits(|val|) => Piece(val, i))
  }

  lemma SplitsBounds(len: nat)
    ensures Splits(len) * CHUNK_SIZE >= len
    ensures forall i :: 0 <= i < Splits(len) ==> i * CHUNK_SIZE < len
    ensures CHUNK_SIZE < len <= MAX_SPLITS * CHUNK_SIZE ==> 2 <= Splits(len) <= MAX_SPLITS
  {
  }

  /** The first `k` pieces, joined. */
  lemma {:induction false} JoinSome(val: Bytes, k: nat)
    requires k <= Splits(|val|)
    ensures Flatten(Pieces(val)[..k]) == val[..Least(k * CHUNK_SIZE, |val|)]
  {
    var ps := Pieces(val);
    if k > 0 {
      JoinSome(val, k - 1);
      assert ps[..k] == ps[..k - 1] + [ps[k - 1]];
      FlattenSum(ps[..k - 1], [ps[k - 1]]);
      FlattenOne(ps[k - 1]);
      SplitsBounds(|val|);
      var from, to := (k - 1) * CHUNK_SIZE, Least(k * CHUNK_SIZE, |val|);
      assert val[..to] == val[..from] + val[from..to];
    }
  }

  /** Splitting and joining are inverse. */
  lemma JoinPieces(val: Bytes)
    ensures Flatten(Pieces(val)) == val
  {
    JoinSome(val, Splits(|val|));
    SplitsBounds(|val|);
    assert Pieces(val)[..Splits(|val|)] == Pieces(val);
  }

  // ---- keys of pieces ----

  function PieceKey(key: Bytes, i: nat): Bytes {
    ['~'] + Decimal(|key|) + key + ['/'] + Decimal(i)
  }

  lemma {:induction false} DecimalMonotone(a: nat, b: nat)
    requires a <= b
    ensures |Decimal(a)| <= |Decimal(b)|
    decreases b
  {
    if b >= 10 && a >= 10 {
      DecimalMonotone(a / 10, b / 10);
    }
  }

  lemma OneDigit(i: nat)
    requires i < 10
    ensures Decimal(i) == [DigitChar(i)]
  {
  }

  /** The length of a piece's key tells the length of the value's key. */
  lemma PieceKeyLength(k1: Bytes, i1: nat, k2: Bytes, i2: nat)
    requires i1 < MAX_SPLITS && i2 < MAX_SPLITS && |PieceKey(k1, i1)| == |PieceKey(k2, i2)|
    ensures |k1| == |k2|
  {
    OneDigit(i1);
    OneDigit(i2);
    if |k1| < |k2| {
      DecimalMonotone(|k1|, |k2|);
    } else {
      DecimalMonotone(|k2|, |k1|);
    }
  }

  lemma PieceKeyParts(key: Bytes, i: nat)
    requires i < MAX_SPLITS
    ensures var d := 1 + |Decimal(|key|)|;
            |PieceKey(key, i)| == d + |key| + 2 && PieceKey(key, i)[d..d + |key|] == key
            && PieceKey(key, i)[d + |key| + 1] == DigitChar(i)
  {
    OneDigit(i);
  }

  /** Pieces never collide: neither with those of another value nor with each other. */
  lemma PieceKeyInjective(k1: Bytes, i1: nat, k2: Bytes, i2: nat)
    requires i1 < MAX_SPLITS && i2 < MAX_SPLITS && PieceKey(k1, i1) == PieceKey(k2, i2)
    ensures k1 == k2 && i1 == i2
  {
    PieceKeyLength(k1, i1, k2, i2);
    PieceKeyParts(k1, i1);
    PieceKeyParts(k2, i2);
    assert DigitValue(DigitChar(i1)) == i1 && DigitValue(DigitChar(i2)) == i2;
  }

  /** Keys of users do not begin like the keys of pieces. */
  predicate UserKey(key: Bytes) {
    key == [] || key[0] != '~'
  }

  lemma PieceKeyReserved(key: Bytes, i: nat)
    ensures !UserKey(PieceKey(key, i))
  {
    assert PieceKey(key, i)[0] == '~';
  }

  // ---- setting ----

  /** What becomes of an entry that is sent to a server: it is stored, or stored and lost
      again, or refused. */
  datatype Fate = Stored | Lost | Refused

  function Written(store: Store, key: Bytes, e: Entry, f: Fate): Store {
    match f
    case Stored => store[key := e]
    case Lost => store - {key}
    case Refused => store
  }

  function WithPieces(store: Store, key: Bytes, val: Bytes, flags: nat, fate: nat -> Fate, n: nat): Store
    requires n <= Splits(|val|)
  {
    if n == 0 then store
    else Written(WithPieces(store, key, val, flags, fate, n - 1), PieceKey(key, n - 1), Entry(Piece(val, n - 1), flags), fate(n - 1))
  }

  /** Too large to be stored at all. */
  predicate Rejected(key: Bytes, len: nat) {
    len > MAX_SPLITS * CHUNK_SIZE || |key| > MAX_KEY
  }

  lemma {:induction false} WithPiecesAt(store: Store, key: Bytes, val: Bytes, flags: nat, fate: nat -> Fate, n: nat, i: nat)
    requires n <= Splits(|val|) && i < n <= MAX_SPLITS
    ensures var s := WithPieces(store, key, val, flags, fate, n);
            var k := PieceKey(key, i);
            match fate(i)
            case Stored => k in s && s[k] == Entry(Piece(val, i), flags)
            case Lost => k !in s
            case Refused => (k in s <==> k in store) && (k in s ==> s[k] == store[k])
    decreases n
  {
    if i < n - 1 {
      WithPiecesAt(store, key, val, flags, fate, n - 1, i);
      if PieceKey(key, i) == PieceKey(key, n - 1) {
        PieceKeyInjective(key, i, key, n - 1);
      }
    } else {
      forall j | 0 <= j < i ensures PieceKey(key, i) != PieceKey(key, j) {
        if PieceKey(key, i) == PieceKey(key, j) {
          PieceKeyInjective(key, i, key, j);
        }
      }
      WithPiecesElsewhere(store, key, val, flags, fate, n - 1, PieceKey(key, i));
    }
  }

  /** Nothing else is touched. */
  lemma {:induction false} WithPiecesElsewhere(store: Store, key: Bytes, val: Bytes, flags: nat, fate: nat -> Fate, n: nat, k: Bytes)
    requires n <= Splits(|val|) && n <= MAX_SPLITS
    requires forall i :: 0 <= i < n ==> k != PieceKey(key, i)
    ensures var s := WithPieces(store, key, val, flags, fate, n);
            (k in s <==> k in store) && (k in s ==> s[k] == store[k])
    decreases n
  {
    if n > 0 {
      WithPiecesElsewhere(store, key, val, flags, fate, n - 1, k);
      assert k != PieceKey(key, n - 1);
    }
  }

  function Meta(val: Bytes, flags: nat): Entry {
    Entry(Decimal(Splits(|val|)), WithChunked(flags))
  }

  /** What `_set` does to the servers; `answered` says whether all pieces were replied to. */
  function AfterSet(store: Store, doSplit: bool, key: Bytes, val: Bytes, flags: nat, fate: nat -> Fate, answered: bool, meta: Fate): Store
  {
    if !doSplit || |val| <= CHUNK_SIZE then Written(store, key, Entry(val, flags), meta)
    else if Rejected(key, |val|) then store
    else
      var s := WithPieces(store, key, val, flags, fate, Splits(|val|));
      if answered then Written(s, key, Meta(val, flags), meta) else s
  }

  // ---- getting ----

  datatype Reading = Miss | Hit(value: Bytes, flags: nat) | Raised

  function AllFound(store: Store, key: Bytes, n: nat): bool {
    forall i | 0 <= i < n :: PieceKey(key, i) in store
  }

  function FoundPieces(store: Store, key: Bytes, n: nat): (ps: seq<Bytes>)
    requires AllFound(store, key, n)
  {
    seq(n, i requires 0 <= i < n => store[PieceKey(key, i)].value)
  }

  /** `_get_large_raw` */
  function GetLarge(store: Store, key: Bytes, n: nat, flags: nat): Reading {
    if n > MAX_SPLITS || |key| > MAX_KEY || !AllFound(store, key, n) then Miss
    else Hit(Flatten(FoundPieces(store, key, n)), WithoutChunked(flags))
  }

  /** The end of a C string, taken off as `strip('\0')` does. */
  function StripNul(s: Bytes): (t: Bytes)
    ensures AllDigits(s) ==> t == s
    decreases |s|
  {
    if s == [] then s
    else if s[0] == '\0' then StripNul(s[1..])
    else if s[|s| - 1] == '\0' then StripNul(s[..|s| - 1])
    else s
  }

  predicate AllNul(s: Bytes) {
    forall i :: 0 <= i < |s| ==> s[i] == '\0'
  }

  /** Zero bytes are taken off at both ends, and nothing else. */
  lemma {:induction false} NulsStripped(a: Bytes, t: Bytes, b: Bytes)
    requires AllNul(a) && AllNul(b) && t != [] && t[0] != '\0' && t[|t| - 1] != '\0'
    ensures StripNul(a + t + b) == t
    decreases |a| + |b|
  {
    var s := a + t + b;
    if a != [] {
      assert s[1..] == a[1..] + t + b;
      NulsStripped(a[1..], t, b);
    } else if b != [] {
      assert s[0] == t[0];
      assert s[..|s| - 1] == a + t + b[..|b| - 1];
      NulsStripped(a, t, b[..|b| - 1]);
    } else {
      assert s == t;
    }
  }

  /** `get_raw`; a meta entry that is not a number makes `int` raise an exception. */
  function Get(store: Store, doSplit: bool, key: Bytes): Reading {
    if key !in store then Miss
    else
      var e := store[key];
      if doSplit && IsChunked(e.flags) then
        var text := StripNul(e.value);
        if text != [] && AllDigits(text) then GetLarge(store, key, DigitsValue(text), e.flags) else Raised
      else Hit(e.value, e.flags)
  }

  // ---- no torn values ----

  /** What the caller set last. */
  datatype Last = Last(value: Bytes, flags: nat)

  /** What the servers hold for `key`, if anything, is that value: in one piece, or a meta
      entry and pieces of which some may be missing, but none is wrong. */
  predicate Matches(store: Store, doSplit: bool, key: Bytes, l: Last)
    requires key in store
  {
    if !doSplit || |l.value| <= CHUNK_SIZE then store[key] == Entry(l.value, l.flags)
    else
      && !Rejected(key, |l.value|) && store[key] == Meta(l.value, l.flags)
      && forall i :: 0 <= i < Splits(|l.value|) ==> PieceOk(store, key, l.value, i)
  }

  predicate PieceOk(store: Store, key: Bytes, val: Bytes, i: nat)
    requires i < Splits(|val|)
  {
    PieceKey(key, i) in store ==> store[PieceKey(key, i)].value == Piece(val, i)
  }

  /** Every entry under a key of a user is the value set last under it. */
  predicate Inv(store: Store, doSplit: bool, last: map<Bytes, Last>) {
    && (forall key :: key in last ==> UserKey(key) && !IsChunked(last[key].flags))
    && (forall key :: key in store && UserKey(key) ==> key in last && Matches(store, doSplit, key, last[key]))
  }

  /** The servers hold all of the value: in one piece, or the meta entry and every piece. */
  predicate Held(store: Store, doSplit: bool, key: Bytes, l: Last) {
    if !doSplit || |l.value| <= CHUNK_SIZE then key in store && store[key] == Entry(l.value, l.flags)
    else
      && !Rejected(key, |l.value|) && key in store && store[key] == Meta(l.value, l.flags)
      && forall i :: 0 <= i < Splits(|l.value|) ==> PieceHeld(store, key, l.value, i)
  }

  predicate PieceHeld(store: Store, key: Bytes, val: Bytes, i: nat)
    requires i < Splits(|val|)
  {
    PieceKey(key, i) in store && store[PieceKey(key, i)].value == Piece(val, i)
  }

  /** What is held is read. */
  lemma HeldRead(store: Store, doSplit: bool, key: Bytes, l: Last)
    requires Held(store, doSplit, key, l) && !IsChunked(l.flags)
    ensures Get(store, doSplit, key) == Hit(l.value, l.flags)
  {
    if doSplit && |l.value| > CHUNK_SIZE {
      var n := Splits(|l.value|);
      SplitsBounds(|l.value|);
      forall i | 0 <= i < n ensures PieceKey(key, i) in store {
        assert PieceHeld(store, key, l.value, i);
      }
      forall i | 0 <= i < n ensures FoundPieces(store, key, n)[i] == Pieces(l.value)[i] {
        assert PieceHeld(store, key, l.value, i);
      }
      assert FoundPieces(store, key, n) == Pieces(l.value);
      JoinPieces(l.value);
      ChunkedFlags(l.flags);
    }
  }

  /** One of the pieces of the value is not on the servers. */
  predicate PieceMissing(store: Store, key: Bytes, val: Bytes) {
    exists i :: 0 <= i < Splits(|val|) && PieceKey(key, i) !in store
  }

  lemma MissingMissed(store: Store, key: Bytes, l: Last)
    requires key in store && store[key] == Meta(l.value, l.flags) && PieceMissing(store, key, l.value)
    ensures Get(store, true, key) == Miss
  {
  }

  /** Reading gives exactly the value and flags set last, or a miss, and a miss exactly if
      the entry of the key, or a piece of a value larger than one of them, is not there. */
  lemma ReadLast(store: Store, doSplit: bool, last: map<Bytes, Last>, key: Bytes)
    requires Inv(store, doSplit, last) && UserKey(key)
    ensures var r := Get(store, doSplit, key);
            && (r == Miss || (key in last && r == Hit(last[key].value, last[key].flags)))
            && (r == Miss <==> key !in store || (doSplit && |last[key].value| > CHUNK_SIZE && PieceMissing(store, key, last[key].value)))
  {
    if key in store {
      var l := last[key];
      if doSplit && |l.value| > CHUNK_SIZE && PieceMissing(store, key, l.value) {
        MissingMissed(store, key, l);
      } else {
        if doSplit && |l.value| > CHUNK_SIZE {
          forall i | 0 <= i < Splits(|l.value|) ensures PieceHeld(store, key, l.value, i) {
            assert PieceOk(store, key, l.value, i);
          }
        }
        HeldRead(store, doSplit, key, l);
      }
    }
  }

  lemma ChunkedFlags(flags: nat)
    requires !IsChunked(flags)
    ensures WithoutChunked(WithChunked(flags)) == flags
  {
  }

  /** What the caller believes after a set that was reported successful. */
  function Succeeded(doSplit: bool, key: Bytes, val: Bytes, answered: bool): bool {
    !doSplit || |val| <= CHUNK_SIZE || (!Rejected(key, |val|) && answered)
  }

  /** After a large set, whose meta entry is stored if all pieces were replied to, the
      servers hold the value `l`. */
  predicate HoldsAfter(store: Store, key: Bytes, val: Bytes, flags: nat, fate: nat -> Fate, answered: bool, l: Last) {
    var s := AfterSet(store, true, key, val, flags, fate, answered, Stored);
    key in s && Matches(s, true, key, l)
  }

  /** Exactly when a large set that was reported successful has left no wrong piece: when
      every piece that was refused had no entry, or the right one, already. */
  lemma LargeSetMatches(store: Store, key: Bytes, val: Bytes, flags: nat, fate: nat -> Fate)
    requires UserKey(key) && |val| > CHUNK_SIZE && !Rejected(key, |val|)
    ensures HoldsAfter(store, key, val, flags, fate, true, Last(val, flags)) <==>
            forall i :: 0 <= i < Splits(|val|) && fate(i) == Refused ==> PieceOk(store, key, val, i)
  {
    var n := Splits(|val|);
    SplitsBounds(|val|);
    var s := AfterSet(store, true, key, val, flags, fate, true, Stored);
    forall i | 0 <= i < n ensures PieceOk(s, key, val, i) <==> fate(i) != Refused || PieceOk(store, key, val, i) {
      WithPiecesAt(store, key, val, flags, fate, n, i);
      PieceKeyReserved(key, i);
    }
  }

  function AllRefused(i: nat): Fate {
    Refused
  }

  /** What a caller can know beforehand: whatever the servers refuse, the new value is not
      torn, exactly when every piece of it that is on the servers already is right. */
  lemma LargeSetSafe(store: Store, key: Bytes, val: Bytes, flags: nat)
    requires UserKey(key) && |val| > CHUNK_SIZE && !Rejected(key, |val|)
    ensures (forall fate :: HoldsAfter(store, key, val, flags, fate, true, Last(val, flags))) <==>
            forall i :: 0 <= i < Splits(|val|) ==> PieceOk(store, key, val, i)
  {
    LargeSetMatches(store, key, val, flags, AllRefused);
    if forall i :: 0 <= i < Splits(|val|) ==> PieceOk(store, key, val, i) {
      forall fate ensures HoldsAfter(store, key, val, flags, fate, true, Last(val, flags)) {
        LargeSetMatches(store, key, val, flags, fate);
      }
    } else {
      assert !HoldsAfter(store, key, val, flags, AllRefused, true, Last(val, flags));
    }
  }

  /** Piece `i` of the new value takes the place of a piece of the old one, a different one. */
  predicate Clashes(val: Bytes, old': Bytes, i: nat) {
    |old'| > CHUNK_SIZE && i < Splits(|old'|) && i < Splits(|val|) && Piece(val, i) != Piece(old', i)
  }

  lemma OldPiece(store: Store, key: Bytes, val: Bytes, flags: nat, fate: nat -> Fate, old': Bytes, i: nat)
    requires UserKey(key) && |val| > CHUNK_SIZE && !Rejected(key, |val|) && i < Splits(|old'|) <= MAX_SPLITS
    requires CHUNK_SIZE < |old'| && PieceOk(store, key, old', i)
    ensures PieceOk(WithPieces(store, key, val, flags, fate, Splits(|val|)), key, old', i) <==>
            (fate(i) == Stored ==> !Clashes(val, old', i))
  {
    var n := Splits(|val|);
    SplitsBounds(|val|);
    if i < n {
      WithPiecesAt(store, key, val, flags, fate, n, i);
    } else {
      forall j | 0 <= j < n ensures PieceKey(key, i) != PieceKey(key, j) {
        if PieceKey(key, i) == PieceKey(key, j) {
          PieceKeyInjective(key, i, key, j);
        }
      }
      WithPiecesElsewhere(store, key, val, flags, fate, n, PieceKey(key, i));
    }
  }

  /** Exactly when a large set that was reported as failed has left the value that was there
      before as it was: when every piece that was stored all the same is beyond its end or
      one of its own. */
  lemma FailedSetMatches(store: Store, key: Bytes, val: Bytes, flags: nat, fate: nat -> Fate, l: Last)
    requires UserKey(key) && |val| > CHUNK_SIZE && !Rejected(key, |val|) && key in store && Matches(store, true, key, l)
    ensures HoldsAfter(store, key, val, flags, fate, false, l) <==>
            forall i: nat :: fate(i) == Stored ==> !Clashes(val, l.value, i)
  {
    var s := AfterSet(store, true, key, val, flags, fate, false, Stored);
    SplitsBounds(|val|);
    Untouched(store, key, val, flags, fate, Splits(|val|), key);
    if |l.value| > CHUNK_SIZE {
      SplitsBounds(|l.value|);
      forall i | 0 <= i < Splits(|l.value|)
        ensures PieceOk(s, key, l.value, i) <==> (fate(i) == Stored ==> !Clashes(val, l.value, i))
      {
        assert PieceOk(store, key, l.value, i);
        OldPiece(store, key, val, flags, fate, l.value, i);
      }
    }
  }

  /** What a caller can know beforehand: whatever of it is stored, a set that fails does not
      tear the old value, exactly when no piece clashes. */
  lemma FailedSetSafe(store: Store, key: Bytes, val: Bytes, flags: nat, l: Last)
    requires UserKey(key) && |val| > CHUNK_SIZE && !Rejected(key, |val|) && key in store && Matches(store, true, key, l)
    ensures (forall fate :: HoldsAfter(store, key, val, flags, fate, false, l)) <==>
            forall i: nat :: !Clashes(val, l.value, i)
  {
    FailedSetMatches(store, key, val, flags, AllStored, l);
    if forall i: nat :: !Clashes(val, l.value, i) {
      forall fate ensures HoldsAfter(store, key, val, flags, fate, false, l) {
        FailedSetMatches(store, key, val, flags, fate, l);
      }
    } else {
      assert !HoldsAfter(store, key, val, flags, AllStored, false, l);
    }
  }

  lemma OthersPresent(store: Store, doSplit: bool, key: Bytes, val: Bytes, flags: nat, fate: nat -> Fate, answered: bool,
                      meta: Fate, other: Bytes)
    requires UserKey(key) && UserKey(other) && other != key
    ensures var s := AfterSet(store, doSplit, key, val, flags, fate, answered, meta);
            (other in s <==> other in store) && (other in store ==> s[other] == store[other])
  {
    if doSplit && |val| > CHUNK_SIZE && !Rejected(key, |val|) {
      SplitsBounds(|val|);
      Untouched(store, key, val, flags, fate, Splits(|val|), other);
    }
  }

  /** Other keys are not affected by a set. */
  lemma OthersMatch(store: Store, doSplit: bool, key: Bytes, val: Bytes, flags: nat, fate: nat -> Fate, answered: bool, meta: Fate,
                    other: Bytes, l: Last)
    requires UserKey(key) && UserKey(other) && other != key && other in store && Matches(store, doSplit, other, l)
    ensures var s := AfterSet(store, doSplit, key, val, flags, fate, answered, meta);
            other in s && Matches(s, doSplit, other, l)
  {
    var s := AfterSet(store, doSplit, key, val, flags, fate, answered, meta);
    OthersPresent(store, doSplit, key, val, flags, fate, answered, meta, other);
    if doSplit && |l.value| > CHUNK_SIZE {
      SplitsBounds(|l.value|);
      forall i | 0 <= i < Splits(|l.value|) ensures PieceOk(s, other, l.value, i) {
        assert PieceOk(store, other, l.value, i);
        PieceKeyReserved(other, i);
        if |val| > CHUNK_SIZE && !Rejected(key, |val|) {
          OtherPiece(store, key, val, flags, fate, other, i);
        }
      }
    }
  }

  lemma Untouched(store: Store, key: Bytes, val: Bytes, flags: nat, fate: nat -> Fate, n: nat, other: Bytes)
    requires UserKey(other) && n <= Splits(|val|) && n <= MAX_SPLITS
    ensures var s := WithPieces(store, key, val, flags, fate, n);
            (other in s <==> other in store) && (other in s ==> s[other] == store[other])
  {
    forall i | 0 <= i < n ensures other != PieceKey(key, i) {
      PieceKeyReserved(key, i);
    }
    WithPiecesElsewhere(store, key, val, flags, fate, n, other);
  }

  lemma OtherPiece(store: Store, key: Bytes, val: Bytes, flags: nat, fate: nat -> Fate, other: Bytes, i: nat)
    requires key != other && i < MAX_SPLITS && CHUNK_SIZE < |val| && !Rejected(key, |val|)
    ensures var s := WithPieces(store, key, val, flags, fate, Splits(|val|));
            var k := PieceKey(other, i);
            (k in s <==> k in store) && (k in s ==> s[k] == store[k])
  {
    SplitsBounds(|val|);
    forall j | 0 <= j < Splits(|val|) ensures PieceKey(other, i) != PieceKey(key, j) {
      if PieceKey(other, i) == PieceKey(key, j) {
        PieceKeyInjective(other, i, key, j);
      }
    }
    WithPiecesElsewhere(store, key, val, flags, fate, Splits(|val|), PieceKey(other, i));
  }

  // ---- runs ----

  /** `Set`: a set that was reported successful; `SetFailed`: one that was reported as
      failed and did not get to the entry of the key itself; `SetRejected`: one of a value
      that is too large; `Delete`: a delete of the key; `Evict`: a server drops any one
      entry. */
  datatype Step =
    | Set(key: Bytes, val: Bytes, flags: nat, fate: nat -> Fate, meta: Fate)
    | SetFailed(key: Bytes, val: Bytes, flags: nat, fate: nat -> Fate)
    | SetRejected(key: Bytes, val: Bytes)
    | Delete(key: Bytes)
    | Evict(entry: Bytes)

  datatype World = World(store: Store, last: map<Bytes, Last>)

  predicate Possible(doSplit: bool, step: Step) {
    match step
    case Set(key, val, flags, fate, meta) =>
      UserKey(key) && !IsChunked(flags) && Succeeded(doSplit, key, val, true) && meta != Refused
    case SetFailed(key, val, flags, fate) => UserKey(key) && (doSplit && |val| > CHUNK_SIZE ==> !Rejected(key, |val|))
    case SetRejected(key, val) => doSplit && |val| > CHUNK_SIZE && Rejected(key, |val|)
    case Delete(key) => UserKey(key)
    case Evict(_) => true
  }

  /** The conditions of `LargeSetMatches` and `FailedSetMatches`: no piece of another value
      stays among those of a set that was successful, and none gets among those of the value
      last set by a set that was not. */
  ghost predicate Harmless(doSplit: bool, w: World, step: Step) {
    match step
    case Set(key, val, _, fate, _) =>
      doSplit && |val| > CHUNK_SIZE ==>
        forall i :: 0 <= i < Splits(|val|) && fate(i) == Refused ==> PieceOk(w.store, key, val, i)
    case SetFailed(key, val, _, fate) =>
      doSplit && |val| > CHUNK_SIZE && key in w.store && key in w.last ==>
        forall i: nat :: fate(i) == Stored ==> !Clashes(val, w.last[key].value, i)
    case _ => true
  }

  function Do(doSplit: bool, w: World, step: Step): World {
    match step
    case Set(key, val, flags, fate, meta) =>
      World(AfterSet(w.store, doSplit, key, val, flags, fate, true, meta), w.last[key := Last(val, flags)])
    case SetFailed(key, val, flags, fate) =>
      w.(store := AfterSet(w.store, doSplit, key, val, flags, fate, false, Refused))
    case SetRejected(key, val) => w.(store := AfterSet(w.store, doSplit, key, val, 0, _ => Stored, true, Stored))
    case Delete(key) => World(w.store - {key}, w.last - {key})
    case Evict(entry) => w.(store := w.store - {entry})
  }

  lemma SetInv(doSplit: bool, w: World, step: Step)
    requires Inv(w.store, doSplit, w.last) && Possible(doSplit, step) && Harmless(doSplit, w, step) && step.Set?
    ensures Inv(Do(doSplit, w, step).store, doSplit, Do(doSplit, w, step).last)
  {
    var key, val, flags := step.key, step.val, step.flags;
    var w' := Do(doSplit, w, step);
    forall k | k in w'.store && UserKey(k) ensures k in w'.last && Matches(w'.store, doSplit, k, w'.last[k]) {
      if k == key {
        OwnSetMatches(doSplit, w, step);
      } else {
        OthersPresent(w.store, doSplit, key, val, flags, step.fate, true, step.meta, k);
        OthersMatch(w.store, doSplit, key, val, flags, step.fate, true, step.meta, k, w.last[k]);
      }
    }
  }

  lemma OwnSetMatches(doSplit: bool, w: World, step: Step)
    requires Possible(doSplit, step) && Harmless(doSplit, w, step) && step.Set?
    ensures var s := AfterSet(w.store, doSplit, step.key, step.val, step.flags, step.fate, true, step.meta);
            step.key in s ==> Matches(s, doSplit, step.key, Last(step.val, step.flags))
  {
    if doSplit && |step.val| > CHUNK_SIZE && step.meta == Stored {
      LargeSetMatches(w.store, step.key, step.val, step.flags, step.fate);
    }
  }

  lemma FailedInv(doSplit: bool, w: World, step: Step)
    requires Inv(w.store, doSplit, w.last) && Possible(doSplit, step) && Harmless(doSplit, w, step) && step.SetFailed?
    ensures Inv(Do(doSplit, w, step).store, doSplit, w.last)
  {
    var key, val, flags := step.key, step.val, step.flags;
    var s := Do(doSplit, w, step).store;
    if doSplit && |val| > CHUNK_SIZE {
      forall k | k in s && UserKey(k) ensures k in w.last && Matches(s, doSplit, k, w.last[k]) {
        if k == key {
          SplitsBounds(|val|);
          Untouched(w.store, key, val, flags, step.fate, Splits(|val|), key);
          FailedSetMatches(w.store, key, val, flags, step.fate, w.last[key]);
        } else {
          OthersPresent(w.store, doSplit, key, val, flags, step.fate, false, Refused, k);
          OthersMatch(w.store, doSplit, key, val, flags, step.fate, false, Refused, k, w.last[k]);
        }
      }
    }
  }

  /** Losing an entry is never wrong. */
  lemma DropInv(store: Store, doSplit: bool, last: map<Bytes, Last>, entry: Bytes)
    requires Inv(store, doSplit, last)
    ensures Inv(store - {entry}, doSplit, last)
  {
    var s := store - {entry};
    forall k | k in s && UserKey(k) ensures k in last && Matches(s, doSplit, k, last[k]) {
      var l := last[k];
      assert Matches(store, doSplit, k, l);
      if doSplit && |l.value| > CHUNK_SIZE {
        forall i | 0 <= i < Splits(|l.value|) ensures PieceOk(s, k, l.value, i) {
          assert PieceOk(store, k, l.value, i);
        }
      }
    }
  }

  lemma StepInv(doSplit: bool, w: World, step: Step)
    requires Inv(w.store, doSplit, w.last) && Possible(doSplit, step) && Harmless(doSplit, w, step)
    ensures Inv(Do(doSplit, w, step).store, doSplit, Do(doSplit, w, step).last)
  {
    match step
    case Set(_, _, _, _, _) => SetInv(doSplit, w, step);
    case SetFailed(_, _, _, _) => FailedInv(doSplit, w, step);
    case SetRejected(_, _) =>
    case Delete(key) => DropInv(w.store, doSplit, w.last, key);
    case Evict(entry) => DropInv(w.store, doSplit, w.last, entry);
  }

  /** Every step is harmless when it is taken. */
  ghost predicate IsRun(doSplit: bool, w: World, steps: seq<Step>)
    decreases |steps|
  {
    steps == [] ||
    (Possible(doSplit, steps[0]) && Harmless(doSplit, w, steps[0]) && IsRun(doSplit, Do(doSplit, w, steps[0]), steps[1..]))
  }

  function Run(doSplit: bool, w: World, steps: seq<Step>): World
    decreases |steps|
  {
    if steps == [] then w else Run(doSplit, Do(doSplit, w, steps[0]), steps[1..])
  }

  lemma {:induction false} RunInv(doSplit: bool, w: World, steps: seq<Step>)
    requires Inv(w.store, doSplit, w.last) && IsRun(doSplit, w, steps)
    ensures Inv(Run(doSplit, w, steps).store, doSplit, Run(doSplit, w, steps).last)
    decreases |steps|
  {
    if steps != [] {
      StepInv(doSplit, w, steps[0]);
      RunInv(doSplit, Do(doSplit, w, steps[0]), steps[1..]);
    }
  }

  /** After any run of harmless steps, sets that failed included, reading a key gives a miss
      or exactly the value and flags last set under it successfully. */
  lemma HarmlessRuns(doSplit: bool, steps: seq<Step>, key: Bytes)
    requires IsRun(doSplit, World(map[], map[]), steps) && UserKey(key)
    ensures var w := Run(doSplit, World(map[], map[]), steps);
            Get(w.store, doSplit, key) == Miss ||
            (key in w.last && Get(w.store, doSplit, key) == Hit(w.last[key].value, w.last[key].flags))
  {
    var w0 := World(map[], map[]);
    RunInv(doSplit, w0, steps);
    var w := Run(doSplit, w0, steps);
    ReadLast(w.store, doSplit, w.last, key);
  }

  /** No set fails, and nothing of it is refused. */
  predicate Successful(doSplit: bool, step: Step) {
    Possible(doSplit, step) && !step.SetFailed?
    && (step.Set? ==> forall i :: 0 <= i < Splits(|step.val|) ==> step.fate(i) != Refused)
  }

  lemma {:induction false} SuccessfulRun(doSplit: bool, w: World, steps: seq<Step>)
    requires forall i :: 0 <= i < |steps| ==> Successful(doSplit, steps[i])
    ensures IsRun(doSplit, w, steps)
    decreases |steps|
  {
    if steps != [] {
      assert Successful(doSplit, steps[0]);
      SuccessfulRun(doSplit, Do(doSplit, w, steps[0]), steps[1..]);
    }
  }

  /** No torn values: after any run of successful sets, deletes and evictions, reading a key
      gives a miss or exactly the value and flags set last under it. */
  lemma NoTornValues(doSplit: bool, steps: seq<Step>, key: Bytes)
    requires (forall i :: 0 <= i < |steps| ==> Successful(doSplit, steps[i])) && UserKey(key)
    ensures var w := Run(doSplit, World(map[], map[]), steps);
            Get(w.store, doSplit, key) == Miss ||
            (key in w.last && Get(w.store, doSplit, key) == Hit(w.last[key].value, w.last[key].flags))
  {
    SuccessfulRun(doSplit, World(map[], map[]), steps);
    HarmlessRuns(doSplit, steps, key);
  }

  // ---- what was set is read ----

  /** `step` is about the key itself, or drops one of the entries of its value. */
  ghost predicate Touches(step: Step, key: Bytes) {
    match step
    case Set(other, _, _, _, _) => other == key
    case SetFailed(other, _, _, _) => other == key
    case SetRejected(_, _) => false
    case Delete(other) => other == key
    case Evict(entry) => entry == key || exists i :: 0 <= i < MAX_SPLITS && entry == PieceKey(key, i)
  }

  /** `k` is the key of one of the entries that a value of `key` may have. */
  ghost predicate EntryOf(k: Bytes, key: Bytes) {
    k == key || exists i :: 0 <= i < MAX_SPLITS && k == PieceKey(key, i)
  }

  predicate SameEntry(store: Store, store': Store, k: Bytes) {
    (k in store' <==> k in store) && (k in store ==> store'[k] == store[k])
  }

  lemma OtherEntry(store: Store, doSplit: bool, key: Bytes, val: Bytes, flags: nat, fate: nat -> Fate, answered: bool, meta: Fate,
                   other: Bytes, k: Bytes)
    requires UserKey(key) && UserKey(other) && other != key && EntryOf(k, other)
    ensures SameEntry(store, AfterSet(store, doSplit, key, val, flags, fate, answered, meta), k)
  {
    if k == other {
      OthersPresent(store, doSplit, key, val, flags, fate, answered, meta, other);
    } else {
      var i :| 0 <= i < MAX_SPLITS && k == PieceKey(other, i);
      PieceKeyReserved(other, i);
      if doSplit && |val| > CHUNK_SIZE && !Rejected(key, |val|) {
        OtherPiece(store, key, val, flags, fate, other, i);
      }
    }
  }

  /** A step that does not touch a key leaves its entries as they are. */
  lemma StepElsewhere(doSplit: bool, w: World, step: Step, key: Bytes, k: Bytes)
    requires Possible(doSplit, step) && UserKey(key) && !Touches(step, key) && EntryOf(k, key)
    ensures SameEntry(w.store, Do(doSplit, w, step).store, k)
  {
    match step
    case Set(other, val, flags, fate, meta) => OtherEntry(w.store, doSplit, other, val, flags, fate, true, meta, key, k);
    case SetFailed(other, val, flags, fate) => OtherEntry(w.store, doSplit, other, val, flags, fate, false, Refused, key, k);
    case SetRejected(_, _) =>
    case Delete(other) =>
      if k == other {
        var i :| 0 <= i < MAX_SPLITS && k == PieceKey(key, i);
        PieceKeyReserved(key, i);
      }
    case Evict(_) =>
  }

  lemma StepHeld(doSplit: bool, w: World, step: Step, key: Bytes, l: Last)
    requires Possible(doSplit, step) && UserKey(key) && !Touches(step, key) && Held(w.store, doSplit, key, l)
    ensures Held(Do(doSplit, w, step).store, doSplit, key, l)
  {
    var s := Do(doSplit, w, step).store;
    StepElsewhere(doSplit, w, step, key, key);
    if doSplit && |l.value| > CHUNK_SIZE {
      SplitsBounds(|l.value|);
      forall i | 0 <= i < Splits(|l.value|) ensures PieceHeld(s, key, l.value, i) {
        assert PieceHeld(w.store, key, l.value, i);
        StepElsewhere(doSplit, w, step, key, PieceKey(key, i));
      }
    }
  }

  ghost predicate NoneTouches(doSplit: bool, steps: seq<Step>, key: Bytes) {
    forall i :: 0 <= i < |steps| ==> Possible(doSplit, steps[i]) && !Touches(steps[i], key)
  }

  lemma {:induction false} RunHeld(doSplit: bool, w: World, steps: seq<Step>, key: Bytes, l: Last)
    requires UserKey(key) && Held(w.store, doSplit, key, l) && NoneTouches(doSplit, steps, key)
    ensures Held(Run(doSplit, w, steps).store, doSplit, key, l)
    decreases |steps|
  {
    if steps != [] {
      StepHeld(doSplit, w, steps[0], key, l);
      RunHeld(doSplit, Do(doSplit, w, steps[0]), steps[1..], key, l);
    }
  }

  /** A successful set of which every entry is stored. */
  predicate WhollyStored(doSplit: bool, step: Step) {
    Possible(doSplit, step) && step.Set? && step.meta == Stored && forall i :: 0 <= i < MAX_SPLITS ==> step.fate(i) == Stored
  }

  lemma SetHeld(doSplit: bool, w: World, step: Step)
    requires WhollyStored(doSplit, step)
    ensures Held(Do(doSplit, w, step).store, doSplit, step.key, Last(step.val, step.flags))
  {
    var key, val, flags := step.key, step.val, step.flags;
    if doSplit && |val| > CHUNK_SIZE {
      var n := Splits(|val|);
      SplitsBounds(|val|);
      forall i | 0 <= i < n ensures PieceHeld(Do(doSplit, w, step).store, key, val, i) {
        WithPiecesAt(w.store, key, val, flags, step.fate, n, i);
        PieceKeyReserved(key, i);
      }
    }
  }

  /** Whatever was on the servers before: after a set of which every entry is stored, and
      any steps that are not about the key and drop none of its entries, reading gives the
      value and the flags of the set. */
  lemma SetThenGet(doSplit: bool, w: World, step: Step, rest: seq<Step>)
    requires WhollyStored(doSplit, step) && NoneTouches(doSplit, rest, step.key)
    ensures Get(Run(doSplit, Do(doSplit, w, step), rest).store, doSplit, step.key) == Hit(step.val, step.flags)
  {
    SetHeld(doSplit, w, step);
    RunHeld(doSplit, Do(doSplit, w, step), rest, step.key, Last(step.val, step.flags));
    HeldRead(Run(doSplit, Do(doSplit, w, step), rest).store, doSplit, step.key, Last(step.val, step.flags));
  }

  lemma SplitsRoundsUp(len: nat)
    ensures Splits(len) == (len + 999999) / 1000000
  {
    var q, r := len / 1000000, len % 1000000;
    assert len == 1000000 * q + r;
    if r == 0 {
      assert (len + 999999) / 1000000 == q;
    } else {
      assert len + 999999 == 1000000 * (q + 1) + (r - 1);
      assert (len + 999999) / 1000000 == q + 1;
    }
  }

  lemma BelowSplits(len: nat, i: nat)
    requires i * 1000000 < len
    ensures i < Splits(len)
  {
  }

  /** How a large value is laid out: the entry of the key has the number of pieces and the
      flags with bit 12 set; piece `i` is the next 1000000 bytes, or what is left, under
      "~", the length of the key, the key, "/" and `i`. */
  lemma Layout(store: Store, key: Bytes, val: Bytes, flags: nat, i: nat)
    requires UserKey(key) && 1000000 < |val| <= 10000000 && |key| <= 200 && flags / 4096 % 2 == 0 && i * 1000000 < |val|
    ensures var s := AfterSet(store, true, key, val, flags, AllStored, true, Stored);
            var k := ['~'] + Decimal(|key|) + key + ['/'] + Decimal(i);
            && key in s && s[key] == Entry(Decimal((|val| + 999999) / 1000000), flags + 4096)
            && k in s
            && s[k] == Entry(val[i * 1000000..if (i + 1) * 1000000 < |val| then (i + 1) * 1000000 else |val|], flags)
  {
    SplitsRoundsUp(|val|);
    BelowSplits(|val|, i);
    LargeEntries(store, key, val, flags, i);
  }

  lemma LargeEntries(store: Store, key: Bytes, val: Bytes, flags: nat, i: nat)
    requires UserKey(key) && CHUNK_SIZE < |val| && !Rejected(key, |val|) && i < Splits(|val|)
    ensures var s := AfterSet(store, true, key, val, flags, AllStored, true, Stored);
            && key in s && s[key] == Meta(val, flags)
            && PieceKey(key, i) in s && s[PieceKey(key, i)] == Entry(Piece(val, i), flags)
  {
    SplitsBounds(|val|);
    WithPiecesAt(store, key, val, flags, AllStored, Splits(|val|), i);
    PieceKeyReserved(key, i);
  }

  // ---- how a value can be torn ----

  function Repeated(c: octet): (s: Bytes)
    ensures |s| == CHUNK_SIZE + 1
  {
    seq(CHUNK_SIZE + 1, _ => c)
  }

  const KEY: Bytes := ['k']

  function AllStored(i: nat): Fate {
    Stored
  }

  function FirstOnly(i: nat): Fate {
    if i == 0 then Stored else Refused
  }

  function FirstValue(): Store {
    AfterSet(map[], true, KEY, Repeated('a'), 0, AllStored, true, Stored)
  }

  /** Two values of two pieces each, the second one set while its second piece is refused. */
  function Overwritten(answered: bool): Store {
    AfterSet(FirstValue(), true, KEY, Repeated('b'), 0, FirstOnly, answered, Stored)
  }

  lemma FirstValueHeld()
    ensures var s := FirstValue();
            && KEY in s && s[KEY] == Meta(Repeated('a'), 0)
            && PieceKey(KEY, 1) in s && s[PieceKey(KEY, 1)].value == Piece(Repeated('a'), 1)
  {
    WithPiecesAt(map[], KEY, Repeated('a'), 0, AllStored, 2, 1);
    PieceKeyReserved(KEY, 1);
  }

  /** Whether the second set is reported to have failed (a piece was not replied to) or to
      have succeeded (all pieces were replied to, but the reply for one was not "STORED"),
      reading gives a mixture of both values. */
  lemma TornValue(answered: bool)
    ensures var r := Get(Overwritten(answered), true, KEY);
            r.Hit? && r.value != Repeated('a') && r.value != Repeated('b')
  {
    var a, b, first := Repeated('a'), Repeated('b'), FirstValue();
    FirstValueHeld();
    WithPiecesAt(first, KEY, b, 0, FirstOnly, 2, 0);
    WithPiecesAt(first, KEY, b, 0, FirstOnly, 2, 1);
    Untouched(first, KEY, b, 0, FirstOnly, 2, KEY);
    PieceKeyReserved(KEY, 0);
    PieceKeyReserved(KEY, 1);
    MixedReading(Overwritten(answered), a, b);
  }

  lemma MixedReading(s: Store, a: Bytes, b: Bytes)
    requires a == Repeated('a') && b == Repeated('b')
    requires KEY in s && s[KEY] == Meta(a, 0)
    requires PieceKey(KEY, 0) in s && s[PieceKey(KEY, 0)].value == Piece(b, 0)
    requires PieceKey(KEY, 1) in s && s[PieceKey(KEY, 1)].value == Piece(a, 1)
    ensures var r := Get(s, true, KEY); r.Hit? && r.value != a && r.value != b
  {
    OneDigit(2);
    assert DigitsValue(Decimal(2)) == 2;
    var ps := FoundPieces(s, KEY, 2);
    assert ps == [Piece(b, 0)] + [Piece(a, 1)];
    FlattenSum([Piece(b, 0)], [Piece(a, 1)]);
    FlattenOne(Piece(b, 0));
    FlattenOne(Piece(a, 1));
    var mixed := Piece(b, 0) + Piece(a, 1);
    assert Get(s, true, KEY) == Hit(mixed, 0);
    assert mixed[0] == 'b' && mixed[CHUNK_SIZE] == 'a';
    assert a[0] == 'a' && b[CHUNK_SIZE] == 'b';
  }

  // ---- the client ----

  class PyClient {
    const doSplit: bool
    var store: Store  // stands for the servers

    constructor (doSplit: bool)
      ensures store == map[] && this.doSplit == doSplit
    {
      this.doSplit := doSplit;
      store := map[];
    }

    /** `_store_raw` with "set" */
    method StoreRaw(key: Bytes, flags: nat, val: Bytes, fate: Fate, answered: bool) returns (rv: bool)
      modifies this
      ensures store == Written(old(store), key, Entry(val, flags), fate)
      ensures rv == (answered && fate != Refused)
    {
      match fate {
        case Stored => store := store[key := Entry(val, flags)];
        case Lost => store := store - {key};
        case Refused =>
      }
      rv := answered && fate != Refused;
    }

    /** `_store_multi_raw` with "set": all that counts is that there were as many replies. */
    method StorePieces(key: Bytes, val: Bytes, keys: seq<Bytes>, vals: seq<Bytes>, flags: nat, fate: nat -> Fate, answered: bool)
      returns (rv: bool)
      requires |keys| == |vals| == Splits(|val|) && vals == Pieces(val)
      requires forall i :: 0 <= i < |keys| ==> keys[i] == PieceKey(key, i)
      modifies this
      ensures store == WithPieces(old(store), key, val, flags, fate, Splits(|val|)) && rv == answered
    {
      for i := 0 to |keys|
        invariant store == WithPieces(old(store), key, val, flags, fate, i)
      {
        var _ := StoreRaw(keys[i], flags, vals[i], fate(i), answered);
      }
      rv := answered;
    }

    /** `_set` */
    method Set(key: Bytes, val: Bytes, flags: nat, fate: nat -> Fate, answered: bool, meta: Fate, metaAnswered: bool)
      returns (rv: bool)
      modifies this
      ensures store == AfterSet(old(store), doSplit, key, val, flags, fate, answered, meta)
      ensures rv <==> Succeeded(doSplit, key, val, answered) && metaAnswered && meta != Refused
      ensures !doSplit || |val| <= 1000000 ==> rv == (metaAnswered && meta != Refused)
      ensures doSplit && |val| > 1000000 ==>
                rv == (|val| <= 10000000 && |key| <= 200 && answered && metaAnswered && meta != Refused)
    {
      var len := |val|;
      if !doSplit || len <= CHUNK_SIZE {
        rv := StoreRaw(key, flags, val, meta, metaAnswered);
        return;
      }
      if len > MAX_SPLITS * CHUNK_SIZE || |key| > MAX_KEY {
        return false;
      }
      var a, b := len / CHUNK_SIZE, len % CHUNK_SIZE;
      var nSplits := a + (if b == 0 then 0 else 1);
      var keys := seq(nSplits, i requires 0 <= i < nSplits => PieceKey(key, i));
      rv := StorePieces(key, val, keys, Pieces(val), flags, fate, answered);
      if !rv {
        return false;
      }
      rv := StoreRaw(key, WithChunked(flags), Decimal(nSplits), meta, metaAnswered);
    }

    /** `_get_multi_raw`: the entries that were found. */
    method GetMultiRaw(keys: seq<Bytes>) returns (dct: map<Bytes, Entry>)
      ensures forall k :: k in dct <==> k in keys && k in store
      ensures forall k :: k in dct ==> dct[k] == store[k]
    {
      dct := map[];
      for i := 0 to |keys|
        invariant forall k :: k in dct <==> k in keys[..i] && k in store
        invariant forall k :: k in dct ==> dct[k] == store[k]
      {
        if keys[i] in store {
          dct := dct[keys[i] := store[keys[i]]];
        }
        assert keys[..i + 1] == keys[..i] + [keys[i]];
      }
      assert keys[..|keys|] == keys;
    }

    /** `_get_large_raw` */
    method GetLargeRaw(key: Bytes, nSplits: nat, flags: nat) returns (r: Reading)
      ensures r == GetLarge(store, key, nSplits, flags)
      ensures nSplits > 10 || |key| > 200 ==> r == Miss
    {
      if nSplits > MAX_SPLITS || |key| > MAX_KEY {
        return Miss;
      }
      var keys := seq(nSplits, i requires 0 <= i < nSplits => PieceKey(key, i));
      var dct := GetMultiRaw(keys);
      AllKeys(store, key, keys, dct);
      if |dct| != nSplits {
        return Miss;
      }
      var parts: seq<Bytes> := [];
      for i := 0 to nSplits
        invariant |parts| == i && forall j :: 0 <= j < i ==> parts[j] == store[PieceKey(key, j)].value
      {
        assert keys[i] in dct;
        parts := parts + [dct[keys[i]].value];
      }
      assert parts == FoundPieces(store, key, nSplits);
      r := Hit(Flatten(parts), WithoutChunked(flags));
    }

    /** There are as many entries as keys exactly when every piece was found: the keys are
        different. */
    static lemma AllKeys(store: Store, key: Bytes, keys: seq<Bytes>, dct: map<Bytes, Entry>)
      requires |keys| <= MAX_SPLITS && forall i :: 0 <= i < |keys| ==> keys[i] == PieceKey(key, i)
      requires forall k :: k in dct <==> k in keys && k in store
      ensures |dct| == |keys| <==> AllFound(store, key, |keys|)
    {
      var all := set k | k in keys;
      Distinct(key, keys);
      assert dct.Keys <= all;
      assert |dct| == |dct.Keys|;
      if AllFound(store, key, |keys|) {
        assert dct.Keys == all;
      } else {
        var i :| 0 <= i < |keys| && PieceKey(key, i) !in store;
        assert keys[i] in all && keys[i] !in dct.Keys;
        Subset(dct.Keys, all, keys[i]);
      }
    }

    static lemma Subset(a: set<Bytes>, b: set<Bytes>, x: Bytes)
      requires a <= b && x in b && x !in a
      ensures |a| < |b|
    {
      assert a <= b - {x};
      SubsetSize(a, b - {x});
    }

    static lemma {:induction false} SubsetSize(a: set<Bytes>, b: set<Bytes>)
      requires a <= b
      ensures |a| <= |b|
      decreases |a|
    {
      if a != {} {
        var x :| x in a;
        SubsetSize(a - {x}, b - {x});
      }
    }

    static lemma {:induction false} Distinct(key: Bytes, keys: seq<Bytes>)
      requires |keys| <= MAX_SPLITS && forall i :: 0 <= i < |keys| ==> keys[i] == PieceKey(key, i)
      ensures |set k | k in keys| == |keys|
    {
      if keys != [] {
        var n := |keys| - 1;
        var init := keys[..n];
        Distinct(key, init);
        assert keys == init + [keys[n]];
        assert (set k | k in keys) == (set k | k in init) + {keys[n]};
        forall i | 0 <= i < n ensures init[i] != keys[n] {
          if PieceKey(key, i) == PieceKey(key, n) {
            PieceKeyInjective(key, i, key, n);
          }
        }
      }
    }

    /** `get_raw` */
    method GetRaw(key: Bytes) returns (r: Reading)
      ensures r == Get(store, doSplit, key)
      ensures r == Raised <==>
              && key in store && doSplit && store[key].flags / 4096 % 2 == 1
              && (StripNul(store[key].value) == [] || !AllDigits(StripNul(store[key].value)))
    {
      if key !in store {
        return Miss;
      }
      var e := store[key];
      if doSplit && IsChunked(e.flags) {
        var text := StripNul(e.value);
        AllDigitsCounted(text);
        if text == [] || DigitCount(text) < |text| {
          return Raised;
        }
        r := GetLargeRaw(key, DigitsValue(text), e.flags);
      } else {
        r := Hit(e.value, e.flags);
      }
    }
  }
}
