/** MD5: the compression function, the streaming context around it, and the digest of
    RFC 1321 that they compute. */
module Md5 {
  type Byte = bv8
  type Word = bv32

  datatype State = State(a: Word, b: Word, c: Word, d: Word)

  const INIT := State(0x67452301, 0xEFCDAB89, 0x98BADCFE, 0x10325476)

  // ---- the operations of section 3.4 of RFC 1321 ----

  function F(x: Word, y: Word, z: Word): Word { (x & y) | (!x & z) }

  function G(x: Word, y: Word, z: Word): Word { (x & z) | (y & !z) }

  function H(x: Word, y: Word, z: Word): Word { x ^ y ^ z }

  function I(x: Word, y: Word, z: Word): Word { y ^ (x | !z) }

  function Auxiliary(round: nat, x: Word, y: Word, z: Word): Word {
    if round == 0 then F(x, y, z) else if round == 1 then G(x, y, z) else if round == 2 then H(x, y, z) else I(x, y, z)
  }

  function Sum(a: Word, b: Word): Word {
    a + b
  }

  function Sum4(a: Word, f: Word, x: Word, t: Word): Word {
    a + f + x + t
  }

  /** Circular shift to the left. */
  function Rotate(x: Word, s: nat): Word {
    if 0 < s < 32 then (x << s) | (x >> (32 - s)) else x
  }

  /** `a = b + ((a + f(b, c, d) + X[k] + T[i]) <<< s)` */
  function Operation(round: nat, a: Word, b: Word, c: Word, d: Word, x: Word, s: nat, t: Word): Word {
    Sum(b, Rotate(Sum4(a, Auxiliary(round, b, c, d), x, t), s))
  }

  /** `Rotate` rotates, by each of the amounts that are used. */
  lemma RotateRotates(x: Word)
    ensures Rotate(x, 7) == x.RotateLeft(7) && Rotate(x, 12) == x.RotateLeft(12)
    ensures Rotate(x, 17) == x.RotateLeft(17) && Rotate(x, 22) == x.RotateLeft(22)
    ensures Rotate(x, 5) == x.RotateLeft(5) && Rotate(x, 9) == x.RotateLeft(9)
    ensures Rotate(x, 14) == x.RotateLeft(14) && Rotate(x, 20) == x.RotateLeft(20)
    ensures Rotate(x, 4) == x.RotateLeft(4) && Rotate(x, 11) == x.RotateLeft(11)
    ensures Rotate(x, 16) == x.RotateLeft(16) && Rotate(x, 23) == x.RotateLeft(23)
    ensures Rotate(x, 6) == x.RotateLeft(6) && Rotate(x, 10) == x.RotateLeft(10)
    ensures Rotate(x, 15) == x.RotateLeft(15) && Rotate(x, 21) == x.RotateLeft(21)
  {
  }

  type Operator = (nat, Word, Word, Word, Word, Word, nat, Word) -> Word

  /** Which word of the block operation `i` uses. */
  function WordIndex(i: nat): (k: nat)
    ensures k < 16
  {
    if i < 16 then i else if i < 32 then (5 * i + 1) % 16 else if i < 48 then (3 * i + 5) % 16 else 7 * i % 16
  }

  function Shift(i: nat): (s: nat)
    ensures s < 32
  {
    var row := if i < 16 then [7, 12, 17, 22] else if i < 32 then [5, 9, 14, 20]
               else if i < 48 then [4, 11, 16, 23] else [6, 10, 15, 21];
    row[i % 4]
  }

  /** The table T of RFC 1321: the constants of each round, four at a time. */
  function Constants1(q: nat): (ts: seq<Word>)
    ensures |ts| == 4
  {
    if q == 0 then [0xD76AA478, 0xE8C7B756, 0x242070DB, 0xC1BDCEEE]
    else if q == 1 then [0xF57C0FAF, 0x4787C62A, 0xA8304613, 0xFD469501]
    else if q == 2 then [0x698098D8, 0x8B44F7AF, 0xFFFF5BB1, 0x895CD7BE]
    else [0x6B901122, 0xFD987193, 0xA679438E, 0x49B40821]
  }

  function Constants2(q: nat): (ts: seq<Word>)
    ensures |ts| == 4
  {
    if q == 0 then [0xF61E2562, 0xC040B340, 0x265E5A51, 0xE9B6C7AA]
    else if q == 1 then [0xD62F105D, 0x02441453, 0xD8A1E681, 0xE7D3FBC8]
    else if q == 2 then [0x21E1CDE6, 0xC33707D6, 0xF4D50D87, 0x455A14ED]
    else [0xA9E3E905, 0xFCEFA3F8, 0x676F02D9, 0x8D2A4C8A]
  }

  function Constants3(q: nat): (ts: seq<Word>)
    ensures |ts| == 4
  {
    if q == 0 then [0xFFFA3942, 0x8771F681, 0x6D9D6122, 0xFDE5380C]
    else if q == 1 then [0xA4BEEA44, 0x4BDECFA9, 0xF6BB4B60, 0xBEBFBC70]
    else if q == 2 then [0x289B7EC6, 0xEAA127FA, 0xD4EF3085, 0x04881D05]
    else [0xD9D4D039, 0xE6DB99E5, 0x1FA27CF8, 0xC4AC5665]
  }

  function Constants4(q: nat): (ts: seq<Word>)
    ensures |ts| == 4
  {
    if q == 0 then [0xF4292244, 0x432AFF97, 0xAB9423A7, 0xFC93A039]
    else if q == 1 then [0x655B59C3, 0x8F0CCC92, 0xFFEFF47D, 0x85845DD1]
    else if q == 2 then [0x6FA87E4F, 0xFE2CE6E0, 0xA3014314, 0x4E0811A1]
    else [0xF7537E82, 0xBD3AF235, 0x2AD7D2BB, 0xEB86D391]
  }

  function T(i: nat): Word
    requires i < 64
  {
    var q, k := i % 16 / 4, i % 4;
    if i < 16 then Constants1(q)[k] else if i < 32 then Constants2(q)[k]
    else if i < 48 then Constants3(q)[k] else Constants4(q)[k]
  }

  /** The registers after the first `n` operations.  The roles of the registers move on by
      one with each operation. */
  function Operations(p: Operator, n: nat, start: State, x: seq<Word>): State
    requires n <= 64 && |x| == 16
  {
    if n == 0 then start
    else
      var i := n - 1;
      var s := Operations(p, i, start, x);
      State(s.d, p(i / 16, s.a, s.b, s.c, s.d, x[WordIndex(i)], Shift(i), T(i)), s.b, s.c)
  }

  /** Four bytes as a word, low-order byte first. */
  function WordAt(block: seq<Byte>, i: nat): Word
    requires i + 4 <= |block|
  {
    (block[i] as Word) | ((block[i + 1] as Word) << 8) | ((block[i + 2] as Word) << 16) | ((block[i + 3] as Word) << 24)
  }

  function WordsOf(block: seq<Byte>): (x: seq<Word>)
    requires |block| == 64
    ensures |x| == 16
  {
    seq(16, k requires 0 <= k < 16 => WordAt(block, 4 * k))
  }

  function AddStates(s: State, t: State): State {
    State(Sum(s.a, t.a), Sum(s.b, t.b), Sum(s.c, t.c), Sum(s.d, t.d))
  }

  /** One block. */
  function Compress(start: State, block: seq<Byte>): State {
    if |block| == 64 then AddStates(start, Operations(Operation, 64, start, WordsOf(block))) else start
  }

  // ---- the forms of the original ----

  function SourceF(x: Word, y: Word, z: Word): Word { z ^ (x & (y ^ z)) }

  function SourceG(x: Word, y: Word, z: Word): Word { y ^ (z & (x ^ y)) }

  function SourceAuxiliary(round: nat, x: Word, y: Word, z: Word): Word {
    if round == 0 then SourceF(x, y, z) else if round == 1 then SourceG(x, y, z)
    else if round == 2 then H(x, y, z) else I(x, y, z)
  }

  function SourceSum(a: Word, f: Word, x: Word, t: Word): Word {
    a + (f + x + t)
  }

  /** The macro P, with the macro S in it. */
  function SourceOperation(round: nat, a: Word, b: Word, c: Word, d: Word, x: Word, s: nat, t: Word): Word {
    Sum(Rotate(SourceSum(a, SourceAuxiliary(round, b, c, d), x, t), s), b)
  }

  lemma SelectForms(x: Word, y: Word, z: Word)
    ensures z ^ (x & (y ^ z)) == (x & y) | (!x & z)
    ensures y ^ (z & (x ^ y)) == (x & z) | (y & !z)
  {
  }

  lemma SourceForms(x: Word, y: Word, z: Word)
    ensures SourceF(x, y, z) == F(x, y, z) && SourceG(x, y, z) == G(x, y, z)
  {
    SelectForms(x, y, z);
  }

  lemma SameAuxiliary(round: nat, x: Word, y: Word, z: Word)
    ensures SourceAuxiliary(round, x, y, z) == Auxiliary(round, x, y, z)
  {
    SourceForms(x, y, z);
  }

  lemma SumCommutes(x: Word, y: Word)
    ensures Sum(x, y) == Sum(y, x)
  {
  }

  lemma SameSum(a: Word, f: Word, x: Word, t: Word)
    ensures SourceSum(a, f, x, t) == Sum4(a, f, x, t)
  {
  }

  lemma SameOperation(round: nat, a: Word, b: Word, c: Word, d: Word, x: Word, s: nat, t: Word)
    ensures SourceOperation(round, a, b, c, d, x, s, t) == Operation(round, a, b, c, d, x, s, t)
  {
    SameAuxiliary(round, b, c, d);
    var f := Auxiliary(round, b, c, d);
    SameSum(a, f, x, t);
    SumCommutes(Rotate(Sum4(a, f, x, t), s), b);
  }

  // ---- md5_process ----

  /** One use of the macro P: which word, how far to rotate, and the constant. */
  datatype Line = Line(k: nat, s: nat, t: Word)

  /** Four uses in a row, in which the registers take turns. */
  datatype Four = Four(l0: Line, l1: Line, l2: Line, l3: Line)

  const QUAD0 := Four(Line(0, 7, 0xD76AA478), Line(1, 12, 0xE8C7B756), Line(2, 17, 0x242070DB), Line(3, 22, 0xC1BDCEEE))
  const QUAD1 := Four(Line(4, 7, 0xF57C0FAF), Line(5, 12, 0x4787C62A), Line(6, 17, 0xA8304613), Line(7, 22, 0xFD469501))
  const QUAD2 := Four(Line(8, 7, 0x698098D8), Line(9, 12, 0x8B44F7AF), Line(10, 17, 0xFFFF5BB1), Line(11, 22, 0x895CD7BE))
  const QUAD3 := Four(Line(12, 7, 0x6B901122), Line(13, 12, 0xFD987193), Line(14, 17, 0xA679438E), Line(15, 22, 0x49B40821))
  const QUAD4 := Four(Line(1, 5, 0xF61E2562), Line(6, 9, 0xC040B340), Line(11, 14, 0x265E5A51), Line(0, 20, 0xE9B6C7AA))
  const QUAD5 := Four(Line(5, 5, 0xD62F105D), Line(10, 9, 0x02441453), Line(15, 14, 0xD8A1E681), Line(4, 20, 0xE7D3FBC8))
  const QUAD6 := Four(Line(9, 5, 0x21E1CDE6), Line(14, 9, 0xC33707D6), Line(3, 14, 0xF4D50D87), Line(8, 20, 0x455A14ED))
  const QUAD7 := Four(Line(13, 5, 0xA9E3E905), Line(2, 9, 0xFCEFA3F8), Line(7, 14, 0x676F02D9), Line(12, 20, 0x8D2A4C8A))
  const QUAD8 := Four(Line(5, 4, 0xFFFA3942), Line(8, 11, 0x8771F681), Line(11, 16, 0x6D9D6122), Line(14, 23, 0xFDE5380C))
  const QUAD9 := Four(Line(1, 4, 0xA4BEEA44), Line(4, 11, 0x4BDECFA9), Line(7, 16, 0xF6BB4B60), Line(10, 23, 0xBEBFBC70))
  const QUAD10 := Four(Line(13, 4, 0x289B7EC6), Line(0, 11, 0xEAA127FA), Line(3, 16, 0xD4EF3085), Line(6, 23, 0x04881D05))
  const QUAD11 := Four(Line(9, 4, 0xD9D4D039), Line(12, 11, 0xE6DB99E5), Line(15, 16, 0x1FA27CF8), Line(2, 23, 0xC4AC5665))
  const QUAD12 := Four(Line(0, 6, 0xF4292244), Line(7, 10, 0x432AFF97), Line(14, 15, 0xAB9423A7), Line(5, 21, 0xFC93A039))
  const QUAD13 := Four(Line(12, 6, 0x655B59C3), Line(3, 10, 0x8F0CCC92), Line(10, 15, 0xFFEFF47D), Line(1, 21, 0x85845DD1))
  const QUAD14 := Four(Line(8, 6, 0x6FA87E4F), Line(15, 10, 0xFE2CE6E0), Line(6, 15, 0xA3014314), Line(13, 21, 0x4E0811A1))
  const QUAD15 := Four(Line(4, 6, 0xF7537E82), Line(11, 10, 0xBD3AF235), Line(2, 15, 0x2AD7D2BB), Line(9, 21, 0xEB86D391))

  /** The line is what RFC 1321 says about operation `i`. */
  predicate IsLine(l: Line, i: nat) {
    i < 64 && l.k == WordIndex(i) && l.s == Shift(i) && l.t == T(i)
  }

  /** The four lines are operations `4 * q` to `4 * q + 3`; sealed. */
  ghost predicate Agrees(f: Four, q: nat) {
    forall t: bool :: AgreesFor(f, q, t)
  }

  predicate AgreesFor(f: Four, q: nat, t: bool) {
    IsLine(f.l0, 4 * q) && IsLine(f.l1, 4 * q + 1) && IsLine(f.l2, 4 * q + 2) && IsLine(f.l3, 4 * q + 3)
  }

  lemma Quad0Agrees()
    ensures Agrees(QUAD0, 0)
  {
    assert AgreesFor(QUAD0, 0, true);
  }

  lemma Quad1Agrees()
    ensures Agrees(QUAD1, 1)
  {
    assert AgreesFor(QUAD1, 1, true);
  }

  lemma Quad2Agrees()
    ensures Agrees(QUAD2, 2)
  {
    assert AgreesFor(QUAD2, 2, true);
  }

  lemma Quad3Agrees()
    ensures Agrees(QUAD3, 3)
  {
    assert AgreesFor(QUAD3, 3, true);
  }

  lemma Quad4Agrees()
    ensures Agrees(QUAD4, 4)
  {
    assert AgreesFor(QUAD4, 4, true);
  }

  lemma Quad5Agrees()
    ensures Agrees(QUAD5, 5)
  {
    assert AgreesFor(QUAD5, 5, true);
  }

  lemma Quad6Agrees()
    ensures Agrees(QUAD6, 6)
  {
    assert AgreesFor(QUAD6, 6, true);
  }

  lemma Quad7Agrees()
    ensures Agrees(QUAD7, 7)
  {
    assert AgreesFor(QUAD7, 7, true);
  }

  lemma Quad8Agrees()
    ensures Agrees(QUAD8, 8)
  {
    assert AgreesFor(QUAD8, 8, true);
  }

  lemma Quad9Agrees()
    ensures Agrees(QUAD9, 9)
  {
    assert AgreesFor(QUAD9, 9, true);
  }

  lemma Quad10Agrees()
    ensures Agrees(QUAD10, 10)
  {
    assert AgreesFor(QUAD10, 10, true);
  }

  lemma Quad11Agrees()
    ensures Agrees(QUAD11, 11)
  {
    assert AgreesFor(QUAD11, 11, true);
  }

  lemma Quad12Agrees()
    ensures Agrees(QUAD12, 12)
  {
    assert AgreesFor(QUAD12, 12, true);
  }

  lemma Quad13Agrees()
    ensures Agrees(QUAD13, 13)
  {
    assert AgreesFor(QUAD13, 13, true);
  }

  lemma Quad14Agrees()
    ensures Agrees(QUAD14, 14)
  {
    assert AgreesFor(QUAD14, 14, true);
  }

  lemma Quad15Agrees()
    ensures Agrees(QUAD15, 15)
  {
    assert AgreesFor(QUAD15, 15, true);
  }

  /** `p` is the operation of RFC 1321; sealed, so that the solver does not unfold it. */
  ghost predicate IsOperation(p: Operator) {
    forall t: bool :: IsOperationFor(p, t)
  }

  ghost predicate IsOperationFor(p: Operator, t: bool) {
    p == Operation
  }

  lemma TheOperation() returns (p: Operator)
    ensures IsOperation(p)
  {
    p := Operation;
  }

  /** After `n` operations the registers are `cur`; sealed. */
  ghost predicate Reached(p: Operator, n: nat, start: State, x: seq<Word>, cur: State) {
    n <= 64 && |x| == 16 && forall t: bool :: ReachedFor(p, n, start, x, cur, t)
  }

  ghost predicate ReachedFor(p: Operator, n: nat, start: State, x: seq<Word>, cur: State, t: bool) {
    n <= 64 && |x| == 16 && Operations(p, n, start, x) == cur
  }

  lemma ReachNext(p: Operator, n: nat, start: State, x: seq<Word>, cur: State, l: Line, r: Word)
    requires n < 64 && Reached(p, n, start, x, cur) && IsLine(l, n)
    requires r == p(n / 16, cur.a, cur.b, cur.c, cur.d, x[l.k], l.s, l.t)
    ensures Reached(p, n + 1, start, x, State(cur.d, r, cur.b, cur.c))
  {
    assert ReachedFor(p, n, start, x, cur, true);
    assert Operations(p, n + 1, start, x) == State(cur.d, r, cur.b, cur.c);
  }

  /** One use of P: `s` is the registers in the order of its arguments, `r` the new value
      of the first of them. */
  method Operate(n: nat, s: State, x: seq<Word>, l: Line, ghost p: Operator, ghost start: State) returns (r: Word)
    requires n < 64 && IsOperation(p) && Reached(p, n, start, x, s) && IsLine(l, n)
    ensures Reached(p, n + 1, start, x, State(s.d, r, s.b, s.c))
  {
    r := SourceOperation(n / 16, s.a, s.b, s.c, s.d, x[l.k], l.s, l.t);
    Operated(n / 16, s, x[l.k], l, p);
    ReachNext(p, n, start, x, s, l, r);
  }

  lemma Operated(round: nat, s: State, x: Word, l: Line, p: Operator)
    requires IsOperation(p)
    ensures SourceOperation(round, s.a, s.b, s.c, s.d, x, l.s, l.t) == p(round, s.a, s.b, s.c, s.d, x, l.s, l.t)
  {
    assert IsOperationFor(p, true);
    SameOperation(round, s.a, s.b, s.c, s.d, x, l.s, l.t);
  }

  /** Four uses of P. */
  method Quad(q: nat, x: seq<Word>, a0: Word, b0: Word, c0: Word, d0: Word, f: Four, ghost p: Operator, ghost start: State)
    returns (a: Word, b: Word, c: Word, d: Word)
    requires q < 16 && IsOperation(p) && Reached(p, 4 * q, start, x, State(a0, b0, c0, d0)) && Agrees(f, q)
    ensures Reached(p, 4 * q + 4, start, x, State(a, b, c, d))
  {
    assert AgreesFor(f, q, true);
    a := Operate(4 * q, State(a0, b0, c0, d0), x, f.l0, p, start);
    d := Operate(4 * q + 1, State(d0, a, b0, c0), x, f.l1, p, start);
    c := Operate(4 * q + 2, State(c0, d, a, b0), x, f.l2, p, start);
    b := Operate(4 * q + 3, State(b0, c, d, a), x, f.l3, p, start);
  }

  method Round1(x: seq<Word>, s: State, ghost p: Operator, ghost start: State) returns (r: State)
    requires IsOperation(p) && Reached(p, 0, start, x, s)
    ensures Reached(p, 16, start, x, r)
  {
    var a, b, c, d := s.a, s.b, s.c, s.d;
    Quad0Agrees();
    a, b, c, d := Quad(0, x, a, b, c, d, QUAD0, p, start);
    Quad1Agrees();
    a, b, c, d := Quad(1, x, a, b, c, d, QUAD1, p, start);
    Quad2Agrees();
    a, b, c, d := Quad(2, x, a, b, c, d, QUAD2, p, start);
    Quad3Agrees();
    a, b, c, d := Quad(3, x, a, b, c, d, QUAD3, p, start);
    r := State(a, b, c, d);
  }

  method Round2(x: seq<Word>, s: State, ghost p: Operator, ghost start: State) returns (r: State)
    requires IsOperation(p) && Reached(p, 16, start, x, s)
    ensures Reached(p, 32, start, x, r)
  {
    var a, b, c, d := s.a, s.b, s.c, s.d;
    Quad4Agrees();
    a, b, c, d := Quad(4, x, a, b, c, d, QUAD4, p, start);
    Quad5Agrees();
    a, b, c, d := Quad(5, x, a, b, c, d, QUAD5, p, start);
    Quad6Agrees();
    a, b, c, d := Quad(6, x, a, b, c, d, QUAD6, p, start);
    Quad7Agrees();
    a, b, c, d := Quad(7, x, a, b, c, d, QUAD7, p, start);
    r := State(a, b, c, d);
  }

  method Round3(x: seq<Word>, s: State, ghost p: Operator, ghost start: State) returns (r: State)
    requires IsOperation(p) && Reached(p, 32, start, x, s)
    ensures Reached(p, 48, start, x, r)
  {
    var a, b, c, d := s.a, s.b, s.c, s.d;
    Quad8Agrees();
    a, b, c, d := Quad(8, x, a, b, c, d, QUAD8, p, start);
    Quad9Agrees();
    a, b, c, d := Quad(9, x, a, b, c, d, QUAD9, p, start);
    Quad10Agrees();
    a, b, c, d := Quad(10, x, a, b, c, d, QUAD10, p, start);
    Quad11Agrees();
    a, b, c, d := Quad(11, x, a, b, c, d, QUAD11, p, start);
    r := State(a, b, c, d);
  }

  method Round4(x: seq<Word>, s: State, ghost p: Operator, ghost start: State) returns (r: State)
    requires IsOperation(p) && Reached(p, 48, start, x, s)
    ensures Reached(p, 64, start, x, r)
  {
    var a, b, c, d := s.a, s.b, s.c, s.d;
    Quad12Agrees();
    a, b, c, d := Quad(12, x, a, b, c, d, QUAD12, p, start);
    Quad13Agrees();
    a, b, c, d := Quad(13, x, a, b, c, d, QUAD13, p, start);
    Quad14Agrees();
    a, b, c, d := Quad(14, x, a, b, c, d, QUAD14, p, start);
    Quad15Agrees();
    a, b, c, d := Quad(15, x, a, b, c, d, QUAD15, p, start);
    r := State(a, b, c, d);
  }

  /** `md5_process` */
  method Process(start: State, data: seq<Byte>) returns (r: State)
    requires |data| == 64
    ensures r == Compress(start, data)
  {
    var x := WordsOf(data);
    ghost var p := TheOperation();
    ReachStart(p, start, x);
    var s := Round1(x, start, p, start);
    s := Round2(x, s, p, start);
    s := Round3(x, s, p, start);
    s := Round4(x, s, p, start);
    r := AddStates(start, s);
    ReachEnd(p, start, data, s);
  }

  lemma ReachStart(p: Operator, start: State, x: seq<Word>)
    requires |x| == 16
    ensures Reached(p, 0, start, x, start)
  {
    assert Operations(p, 0, start, x) == start;
  }

  lemma ReachEnd(p: Operator, start: State, data: seq<Byte>, s: State)
    requires IsOperation(p) && |data| == 64 && Reached(p, 64, start, WordsOf(data), s)
    ensures AddStates(start, s) == Compress(start, data)
  {
    assert IsOperationFor(p, true);
    assert ReachedFor(p, 64, start, WordsOf(data), s, true);
  }
}
