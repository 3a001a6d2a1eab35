/** Bytes as the C++ code sees them, with the searches and the decimal
    arithmetic that the reader, the parser and the command writer share. */
module Octets {

  /** One `char` of the C++ source: a code below 256. */
  type octet = c: char | c as int < 256

  type Bytes = seq<octet>

  const TWO_32 := 0x1_0000_0000
  const TWO_64 := 0x1_0000_0000_0000_0000

  /** Conversion to `uint32_t`. */
  function Wrap32(v: nat): (r: nat)
    ensures r < TWO_32 && (v < TWO_32 ==> r == v)
  {
    v % 0x1_0000_0000
  }

  /** Adding one to a `uint32_t`. */
  function Inc32(n: nat): (r: nat)
    ensures r < TWO_32
  {
    Wrap32(n + 1)
  }

  /** Taking one from a `uint32_t`. */
  function Dec32(n: nat): (r: nat)
    ensures r < TWO_32
  {
    Wrap32(n + (TWO_32 - 1))
  }

  /** Arithmetic on `uint64_t`. */
  function Wrap64(v: nat): (r: nat)
    ensures r < TWO_64 && (v < TWO_64 ==> r == v)
  {
    v % 0x1_0000_0000_0000_0000
  }

  datatype Option<+T> = None | Some(value: T)

  /** Position of the first `c` in `s`, or `|s|`. */
  function IndexOf(c: octet, s: Bytes): (i: nat)
    ensures i <= |s| && c !in s[..i]
    ensures i < |s| <==> c in s
    ensures i < |s| ==> s[i] == c
  {
    if s == [] then 0 else if s[0] == c then 0 else 1 + IndexOf(c, s[1..])
  }

  /** The three properties of `IndexOf` determine it. */
  lemma {:induction false} IndexOfIsFirst(c: octet, s: Bytes, i: nat)
    requires i < |s| && s[i] == c && c !in s[..i]
    ensures IndexOf(c, s) == i
  {
    if i > 0 {
      assert s[..i][0] == s[0] && s[1..][..i - 1] == s[..i][1..];
      IndexOfIsFirst(c, s[1..], i - 1);
    }
  }

  /** The search stops at the end of `w` if what follows starts with `c`. */
  lemma FoundAt(c: octet, s: Bytes, w: Bytes, d: octet)
    requires |w| < |s| && s[..|w|] == w && c !in w && s[|w|] == d == c
    ensures IndexOf(c, s) == |w|
  {
    IndexOfIsFirst(c, s, |w|);
  }

  /** A search that succeeds is not affected by bytes that arrive later. */
  lemma IndexOfStable(c: octet, a: Bytes, b: Bytes)
    requires c in a
    ensures IndexOf(c, a + b) == IndexOf(c, a)
  {
    var i := IndexOf(c, a);
    assert (a + b)[..i] == a[..i];
    IndexOfIsFirst(c, a + b, i);
  }

  predicate IsDigit(c: octet) {
    '0' <= c <= '9'
  }

  predicate AllDigits(s: Bytes) {
    forall i :: 0 <= i < |s| ==> IsDigit(s[i])
  }

  /** Length of the longest prefix of decimal digits. */
  function DigitCount(s: Bytes): (n: nat)
    ensures n <= |s|
  {
    if s == [] || !IsDigit(s[0]) then 0 else 1 + DigitCount(s[1..])
  }

  lemma {:induction false} DigitCountSpec(s: Bytes)
    ensures var n := DigitCount(s); AllDigits(s[..n]) && (n < |s| ==> !IsDigit(s[n]))
  {
    if s != [] && IsDigit(s[0]) {
      DigitCountSpec(s[1..]);
      var n := DigitCount(s[1..]);
      assert forall i :: 0 < i <= n ==> s[i] == s[1..][..n][i - 1];
    }
  }

  lemma {:induction false} DigitCountIsLongest(s: Bytes, n: nat)
    requires n < |s| && AllDigits(s[..n]) && !IsDigit(s[n])
    ensures DigitCount(s) == n
  {
    if n > 0 {
      assert s[..n][0] == s[0] && s[1..][..n - 1] == s[..n][1..];
      DigitCountIsLongest(s[1..], n - 1);
    }
  }

  lemma AllDigitsCounted(s: Bytes)
    ensures AllDigits(s) <==> DigitCount(s) == |s|
  {
    DigitCountSpec(s);
    assert s[..|s|] == s;
  }

  /** Digits counted in pieces: all of `a`, then `b` up to its first other byte. */
  lemma {:induction false} DigitCountSum(a: Bytes, b: Bytes)
    requires DigitCount(a) == |a|
    ensures DigitCount(a + b) == |a| + DigitCount(b)
  {
    if a == [] {
      assert a + b == b;
    } else {
      assert (a + b)[1..] == a[1..] + b;
      DigitCountSum(a[1..], b);
    }
  }

  /** The value of a digit; other bytes count as zero. */
  function DigitValue(c: octet): (d: nat)
    ensures d < 10
  {
    if IsDigit(c) then c as int - '0' as int else 0
  }

  /** The number a digit string denotes, most significant digit first. */
  function DigitsValue(s: Bytes): nat {
    if s == [] then 0 else DigitsValue(s[..|s| - 1]) * 10 + DigitValue(s[|s| - 1])
  }

  function DigitChar(d: nat): (c: octet)
    requires d < 10
    ensures IsDigit(c) && DigitValue(c) == d
  {
    (d + '0' as int) as char
  }

  /** Canonical decimal form: no sign and no leading zero. */
  function Decimal(v: nat): (s: Bytes)
    ensures AllDigits(s) && |s| > 0
    ensures DigitsValue(s) == v
    ensures s[0] == '0' ==> v == 0 && |s| == 1
  {
    if v < 10 then [DigitChar(v)] else Decimal(v / 10) + [DigitChar(v % 10)]
  }

  /** Decimal form of a signed number. */
  function SignedDecimal(v: int): (s: Bytes)
    ensures |s| > 0
  {
    if v < 0 then ['-'] + Decimal(-v) else Decimal(v)
  }

  /** Reading digits one at a time in 64-bit arithmetic. */
  function Accumulate(value: nat, s: Bytes): nat {
    if s == [] then value else Wrap64(Accumulate(value, s[..|s| - 1]) * 10 + DigitValue(s[|s| - 1]))
  }

  lemma WrapStep(x: nat, d: nat)
    ensures Wrap64(Wrap64(x) * 10 + d) == Wrap64(x * 10 + d)
  {
    var m := 0x1_0000_0000_0000_0000;
    var q := x / m;
    assert x * 10 + d == (x % m) * 10 + d + m * (10 * q);
    WrapMultiple((x % m) * 10 + d, 10 * q);
  }

  lemma {:induction false} WrapMultiple(y: nat, k: nat)
    ensures Wrap64(y + 0x1_0000_0000_0000_0000 * k) == Wrap64(y)
  {
    if k > 0 {
      WrapMultiple(y, k - 1);
    }
  }

  /** It gives the number the digits denote, modulo 2^64, whatever the pieces. */
  lemma {:induction false} AccumulateValue(a: Bytes, b: Bytes)
    ensures Accumulate(Wrap64(DigitsValue(a)), b) == Wrap64(DigitsValue(a + b))
    decreases |b|
  {
    if b == [] {
      assert a + b == a;
    } else {
      var b', d := b[..|b| - 1], b[|b| - 1];
      AccumulateValue(a, b');
      assert (a + b)[..|a + b| - 1] == a + b';
      WrapStep(DigitsValue(a + b'), DigitValue(d));
    }
  }
}
