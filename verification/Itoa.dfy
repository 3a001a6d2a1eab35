/** The number printer of the command writer: it writes pairs of digits from a table
    through an advancing pointer, and what it writes is the canonical decimal form. */
module Itoa {
  import opened Octets

  const DIGITS_LUT: string :=
    "00010203040506070809" + "10111213141516171819" + "20212223242526272829" + "30313233343536373839" +
    "40414243444546474849" + "50515253545556575859" + "60616263646566676869" + "70717273747576777879" +
    "80818283848586878889" + "90919293949596979899"

  const TEN_4 := 10000
  const TEN_8 := 100000000
  const TEN_16 := TEN_8 * TEN_8

  // ---- the table ----

  /** One row of the table: the digit `r` before each digit. */
  function Row(r: octet): (row: Bytes)
    ensures |row| == 20
  {
    [r, '0', r, '1', r, '2', r, '3', r, '4', r, '5', r, '6', r, '7', r, '8', r, '9']
  }

  lemma RowEntry(r: octet, m: nat)
    requires m < 10
    ensures Row(r)[2 * m] == r && Row(r)[2 * m + 1] == DigitChar(m)
  {
    if m < 5 {
      if m == 0 {} else if m == 1 {} else if m == 2 {} else if m == 3 {} else {}
    } else {
      if m == 5 {} else if m == 6 {} else if m == 7 {} else if m == 8 {} else {}
    }
  }

  /** The first `k` rows. */
  function Rows(k: nat): (rows: Bytes)
    requires k <= 10
    ensures |rows| == 20 * k
  {
    if k == 0 then [] else Rows(k - 1) + Row(DigitChar(k - 1))
  }

  lemma TableIsRows()
    ensures DIGITS_LUT == Rows(10)
  {
    assert Rows(1) == [] + Row('0') == "00010203040506070809";
    assert Rows(2) == Rows(1) + Row('1');
    assert Rows(3) == Rows(2) + Row('2');
    assert Rows(4) == Rows(3) + Row('3');
    assert Rows(5) == Rows(4) + Row('4');
    assert Rows(6) == Rows(5) + Row('5');
    assert Rows(7) == Rows(6) + Row('6');
    assert Rows(8) == Rows(7) + Row('7');
    assert Rows(9) == Rows(8) + Row('8');
    assert Rows(10) == Rows(9) + Row('9');
  }

  lemma {:induction false} RowsEntry(k: nat, d: nat)
    requires k <= 10 && d < 10 * k
    ensures Rows(k)[2 * d] == DigitChar(d / 10) && Rows(k)[2 * d + 1] == DigitChar(d % 10)
  {
    if d < 10 * (k - 1) {
      RowsEntry(k - 1, d);
    } else {
      RowEntry(DigitChar(k - 1), d - 10 * (k - 1));
    }
  }

  /** An even entry is the tens digit of the pair, the next one its units. */
  lemma TableEntry(d: nat)
    requires d < 100
    ensures |DIGITS_LUT| == 200
    ensures DIGITS_LUT[2 * d] == DigitChar(d / 10) && DIGITS_LUT[2 * d + 1] == DigitChar(d % 10)
  {
    TableIsRows();
    RowsEntry(10, d);
  }

  // ---- digits ----

  /** Exactly `n` digits, with leading zeros. */
  function Fixed(v: nat, n: nat): (s: Bytes)
    ensures |s| == n
  {
    if n == 0 then [] else Fixed(v / 10, n - 1) + [DigitChar(v % 10)]
  }

  function Quotient(v: nat, p: nat): (q: nat)
    requires p > 0
    ensures q == v / p
  {
    v / p
  }

  function Pow10(n: nat): (p: nat)
    ensures p > 0
  {
    if n == 0 then 1 else 10 * Pow10(n - 1)
  }

  // ---- division by powers of ten ----

  lemma {:induction false} AtLeastOnce(k: nat, p: nat)
    requires k > 0
    ensures k * p >= p
  {
  }

  lemma DivUnique(v: nat, p: nat, q: nat, r: nat)
    requires v == q * p + r && r < p
    ensures v / p == q && v % p == r
  {
    var q', r' := v / p, v % p;
    assert v == q' * p + r';
    Distribute(q, q', p);
    if q' < q {
      AtLeastOnce(q - q', p);
    } else if q < q' {
      AtLeastOnce(q' - q, p);
    }
  }

  lemma Distribute(a: int, b: int, p: int)
    ensures (a - b) * p == a * p - b * p && (b - a) * p == b * p - a * p
  {
  }

  /** Cutting off the last digit first. */
  lemma DivTwice(v: nat, p: nat)
    requires p > 0
    ensures v / 10 / p == v / (10 * p)
    ensures v % (10 * p) / 10 == v / 10 % p && v % (10 * p) % 10 == v % 10
  {
    var m, d := v / 10, v % 10;
    var q, r := m / p, m % p;
    assert v == 10 * m + d && m == q * p + r;
    assert q * (10 * p) == 10 * (q * p);
    DivUnique(v, 10 * p, q, 10 * r + d);
  }

  lemma Powers()
    ensures Pow10(4) == TEN_4 && Pow10(8) == TEN_8 && Pow10(16) == TEN_16 && Pow10(20) > TWO_64
  {
    assert Pow10(2) == 100;
    assert Pow10(6) == 1000000 by { assert Pow10(4) == 10000; }
    assert Pow10(8) == 100000000;
    assert Pow10(12) == 1000000000000 by { assert Pow10(10) == 10000000000; }
    assert Pow10(16) == 10000000000000000 by { assert Pow10(14) == 100000000000000; }
    assert Pow10(20) == 100000000000000000000 by { assert Pow10(18) == 1000000000000000000; }
  }

  // ---- cutting a number into groups of digits ----

  lemma {:induction false} FixedSplit(v: nat, n: nat, m: nat)
    ensures Fixed(v, n + m) == Fixed(Quotient(v, Pow10(m)), n) + Fixed(v, m)
  {
    if m == 0 {
      assert v / 1 == v;
    } else {
      FixedSplit(v / 10, n, m - 1);
      DivTwice(v, Pow10(m - 1));
    }
  }

  lemma {:induction false} FixedMod(v: nat, m: nat)
    ensures Fixed(v % Pow10(m), m) == Fixed(v, m)
  {
    if m > 0 {
      FixedMod(v / 10, m - 1);
      DivTwice(v, Pow10(m - 1));
    }
  }

  /** Eight digits are two groups of four. */
  lemma Fixed8(v: nat)
    ensures Fixed(v, 8) == Fixed(v / TEN_4, 4) + Fixed(v % TEN_4, 4)
  {
    Powers();
    FixedSplit(v, 4, 4);
    FixedMod(v, 4);
  }

  /** A number of more than `m` digits: the number the others denote, and the last `m`. */
  lemma {:induction false} DecimalSplit(v: nat, m: nat)
    requires v >= Pow10(m)
    ensures v / Pow10(m) > 0 && Decimal(v) == Decimal(v / Pow10(m)) + Fixed(v, m)
  {
    if m == 0 {
      assert v / 1 == v;
    } else {
      DivTwice(v, Pow10(m - 1));
      assert v / 10 >= Pow10(m - 1);
      DecimalSplit(v / 10, m - 1);
    }
  }

  lemma Divisions(w: nat)
    ensures w / 10 / 10 == w / 100 && w / 100 / 10 == w / 1000 && w / 1000 / 10 == w / TEN_4
    ensures w % 100 / 10 == w / 10 % 10 && w % 100 % 10 == w % 10
    ensures w % TEN_4 / 100 == w / 100 % 100 && w % TEN_4 % 100 == w % 100
    ensures w / 100 % 100 / 10 == w / 1000 % 10 && w / 100 % 100 % 10 == w / 100 % 10
  {
    DivTwice(w, 10);
    DivTwice(w, 100);
    DivTwice(w, 1000);
    DivTwice(w / 10, 10);
    DivTwice(w / 10, 100);
    DivTwice(w / 100, 10);
    assert w % 100 == (w % 100 / 10) * 10 + w % 10;
    var q := w / TEN_4;
    var r := w % TEN_4;
    assert w == q * TEN_4 + r;
    DivUnique(w, 100, q * 100 + r / 100, r % 100);
    DivUnique(w / 100, 100, q, r / 100);
  }

  /** Four digits as two entries of the table. */
  lemma Fixed4(w: nat)
    requires w < TEN_4
    ensures var d1, d2 := w / 100, w % 100;
            Fixed(w, 4) == [DigitChar(d1 / 10), DigitChar(d1 % 10), DigitChar(d2 / 10), DigitChar(d2 % 10)]
  {
    Divisions(w);
    var a, b, c := w / 10, w / 100, w / 1000;
    assert c < 10;
    assert Fixed(c, 1) == Fixed(c / 10, 0) + [DigitChar(c % 10)] == [DigitChar(c)];
    assert Fixed(b, 2) == Fixed(c, 1) + [DigitChar(b % 10)];
    assert Fixed(a, 3) == Fixed(b, 2) + [DigitChar(a % 10)];
    assert Fixed(w, 4) == Fixed(a, 3) + [DigitChar(w % 10)];
  }

  function When(write: bool, c: octet): Bytes {
    if write then [c] else []
  }

  /** Digits without leading zeros; nothing at all for zero. */
  function Trimmed(v: nat): Bytes {
    if v == 0 then [] else Trimmed(v / 10) + [DigitChar(v % 10)]
  }

  lemma {:induction false} TrimmedDecimal(v: nat)
    requires v > 0
    ensures Trimmed(v) == Decimal(v)
  {
    if v >= 10 {
      TrimmedDecimal(v / 10);
    } else {
      assert Trimmed(v / 10) == [];
    }
  }

  lemma TrimmedStep(v: nat)
    ensures Trimmed(v) == Trimmed(v / 10) + When(v > 0, DigitChar(v % 10))
  {
  }

  /** The last four digits of `x`, each written if `x` is long enough for it. */
  function Tail4(x: nat): Bytes {
    When(x >= 1000, DigitChar(x / 1000 % 10)) + When(x >= 100, DigitChar(x / 100 % 10)) +
    When(x >= 10, DigitChar(x / 10 % 10)) + When(x >= 1, DigitChar(x % 10))
  }

  lemma TrimmedTail(x: nat)
    ensures Trimmed(x) == Trimmed(x / TEN_4) + Tail4(x)
  {
    Divisions(x);
    TrimmedStep(x);
    TrimmedStep(x / 10);
    TrimmedStep(x / 100);
    TrimmedStep(x / 1000);
    Thresholds(x);
    Chain4(Trimmed(x / TEN_4), When(x >= 1000, DigitChar(x / 1000 % 10)), When(x >= 100, DigitChar(x / 100 % 10)),
           When(x >= 10, DigitChar(x / 10 % 10)), When(x >= 1, DigitChar(x % 10)));
  }

  lemma Thresholds(x: nat)
    ensures (x / 1000 > 0 <==> x >= 1000) && (x / 100 > 0 <==> x >= 100) && (x / 10 > 0 <==> x >= 10)
  {
  }

  /** All the digits of a number below 10000. */
  lemma TailTrimmed(x: nat)
    requires x < TEN_4
    ensures Tail4(x) == Trimmed(x)
  {
    TrimmedTail(x);
    assert Trimmed(0) == [];
    assert [] + Tail4(x) == Tail4(x);
  }

  lemma TailDecimal(x: nat)
    requires 0 < x < TEN_4
    ensures Tail4(x) == Decimal(x)
  {
    TailTrimmed(x);
    TrimmedDecimal(x);
  }

  /** All the digits of a number below 10^8. */
  lemma TailsDecimal(x: nat)
    requires 0 < x < TEN_8
    ensures Tail4(x / TEN_4) + Tail4(x) == Decimal(x)
  {
    TrimmedTail(x);
    TailTrimmed(x / TEN_4);
    TrimmedDecimal(x);
  }

  lemma Chain2(a: Bytes, b: Bytes, c: Bytes)
    ensures a + b + c == a + (b + c)
  {
  }

  lemma Chain4(a: Bytes, b: Bytes, c: Bytes, d: Bytes, e: Bytes)
    ensures a + b + c + d + e == a + (b + c + d + e)
  {
  }

  /** At most 20 digits for a 64-bit number. */
  lemma {:induction false} DecimalLength(v: nat, n: nat)
    requires v < Pow10(n) && n > 0
    ensures |Decimal(v)| <= n
  {
    if v >= 10 {
      assert n > 1 by { assert Pow10(1) == 10 * Pow10(0) == 10; }
      DecimalLength(v / 10, n - 1);
    }
  }

  // ---- the printer ----

  /** `if (write) *buffer++ = c` */
  method PutIf(write: bool, c: octet, buffer: array<octet>, at: nat) returns (end: nat)
    requires at < buffer.Length
    modifies buffer
    ensures end == at + |When(write, c)| && buffer[..end] == old(buffer[..at]) + When(write, c)
  {
    end := at;
    if write {
      buffer[end] := c;
      end := end + 1;
    }
  }

  /** Two digits from the table. */
  method PutPair(d: nat, buffer: array<octet>, at: nat) returns (end: nat)
    requires d < 100 && at + 2 <= buffer.Length
    modifies buffer
    ensures end == at + 2 && buffer[..end] == old(buffer[..at]) + [DigitChar(d / 10), DigitChar(d % 10)]
  {
    TableEntry(d);
    buffer[at] := DIGITS_LUT[2 * d];
    buffer[at + 1] := DIGITS_LUT[2 * d + 1];
    end := at + 2;
  }

  method Put4(w: nat, buffer: array<octet>, at: nat) returns (end: nat)
    requires w < TEN_4 && at + 4 <= buffer.Length
    modifies buffer
    ensures end == at + 4 && buffer[..end] == old(buffer[..at]) + Fixed(w, 4)
  {
    Fixed4(w);
    end := PutPair(w / 100, buffer, at);
    end := PutPair(w % 100, buffer, end);
  }

  /** Eight digits, leading zeros included. */
  method Put8(v: nat, buffer: array<octet>, at: nat) returns (end: nat)
    requires v < TEN_8 && at + 8 <= buffer.Length
    modifies buffer
    ensures end == at + 8 && buffer[..end] == old(buffer[..at]) + Fixed(v, 8)
  {
    Fixed8(v);
    var b, c := v / TEN_4, v % TEN_4;
    end := Put4(b, buffer, at);
    end := Put4(c, buffer, end);
  }

  /** The digits of `x % 10000`, each if `x` is long enough for it.  The thresholds of the
      original are those of the whole value, `x` times a power of ten and something. */
  method PutTail4(x: nat, buffer: array<octet>, at: nat) returns (end: nat)
    requires at + 4 <= buffer.Length
    modifies buffer
    ensures at <= end <= at + 4 && buffer[..end] == old(buffer[..at]) + Tail4(x)
  {
    var w := x % TEN_4;
    var d1, d2 := w / 100, w % 100;
    Divisions(x);
    TableEntry(d1);
    TableEntry(d2);
    end := PutIf(x >= 1000, DIGITS_LUT[2 * d1], buffer, at);
    end := PutIf(x >= 100, DIGITS_LUT[2 * d1 + 1], buffer, end);
    end := PutIf(x >= 10, DIGITS_LUT[2 * d2], buffer, end);
    end := PutIf(x >= 1, DIGITS_LUT[2 * d2 + 1], buffer, end);
    Chain4(old(buffer[..at]), When(x >= 1000, DigitChar(x / 1000 % 10)), When(x >= 100, DigitChar(x / 100 % 10)),
           When(x >= 10, DigitChar(x / 10 % 10)), When(x >= 1, DigitChar(x % 10)));
  }

  /** `u64toa` */
  method U64toa(value: nat, buffer: array<octet>, at: nat) returns (end: nat)
    requires value < TWO_64 && at + 20 <= buffer.Length
    modifies buffer
    ensures at < end <= at + 20 && buffer[..end] == old(buffer[..at]) + Decimal(value)
  {
    if value < TEN_8 {
      end := PutShort(value, buffer, at);
    } else if value < TEN_16 {
      end := PutMiddle(value, buffer, at);
    } else {
      end := PutLong(value, buffer, at);
    }
  }

  /** Below 10^8.  The last digit is written even if it is a zero. */
  method PutShort(v: nat, buffer: array<octet>, at: nat) returns (end: nat)
    requires v < TEN_8 && at + 8 <= buffer.Length
    modifies buffer
    ensures at < end <= at + 8 && buffer[..end] == old(buffer[..at]) + Decimal(v)
  {
    if v < TEN_4 {
      if v == 0 {
        TableEntry(0);
        end := PutIf(true, DIGITS_LUT[1], buffer, at);
      } else {
        TailDecimal(v);
        end := PutTail4(v, buffer, at);
      }
    } else {
      var b, c := v / TEN_4, v % TEN_4;
      Powers();
      DecimalSplit(v, 4);
      FixedMod(v, 4);
      TailDecimal(b);
      end := PutTail4(b, buffer, at);
      end := Put4(c, buffer, end);
      Chain2(old(buffer[..at]), Decimal(b), Fixed(v, 4));
    }
  }

  /** From 10^8 up to 10^16. */
  method PutMiddle(value: nat, buffer: array<octet>, at: nat) returns (end: nat)
    requires TEN_8 <= value < TEN_16 && at + 16 <= buffer.Length
    modifies buffer
    ensures at < end <= at + 16 && buffer[..end] == old(buffer[..at]) + Decimal(value)
  {
    var v0, v1 := value / TEN_8, value % TEN_8;
    Powers();
    DecimalSplit(value, 8);
    FixedMod(value, 8);
    TailsDecimal(v0);
    end := PutTail4(v0 / TEN_4, buffer, at);
    end := PutTail4(v0, buffer, end);
    Chain2(old(buffer[..at]), Tail4(v0 / TEN_4), Tail4(v0));
    end := Put8(v1, buffer, end);
    Chain2(old(buffer[..at]), Decimal(v0), Fixed(value, 8));
  }

  /** The first digits of the longest numbers. */
  method PutHead(a: nat, buffer: array<octet>, at: nat) returns (end: nat)
    requires 0 < a < TEN_4 && at + 4 <= buffer.Length
    modifies buffer
    ensures at < end <= at + 4 && buffer[..end] == old(buffer[..at]) + Decimal(a)
  {
    if a < 10 {
      end := PutIf(true, DigitChar(a), buffer, at);
    } else if a < 100 {
      DecimalPair(a);
      end := PutPair(a, buffer, at);
    } else if a < 1000 {
      DecimalTriple(a);
      end := PutIf(true, DigitChar(a / 100), buffer, at);
      end := PutPair(a % 100, buffer, end);
    } else {
      DecimalQuad(a);
      end := PutPair(a / 100, buffer, at);
      end := PutPair(a % 100, buffer, end);
    }
  }

  lemma DecimalPair(a: nat)
    requires 10 <= a < 100
    ensures Decimal(a) == [DigitChar(a / 10), DigitChar(a % 10)]
  {
    assert Decimal(a) == Decimal(a / 10) + [DigitChar(a % 10)];
  }

  lemma DecimalTriple(a: nat)
    requires 100 <= a < 1000
    ensures Decimal(a) == [DigitChar(a / 100)] + [DigitChar(a % 100 / 10), DigitChar(a % 100 % 10)]
  {
    Divisions(a);
    DecimalPair(a / 10);
    assert Decimal(a) == Decimal(a / 10) + [DigitChar(a % 10)];
  }

  lemma DecimalQuad(a: nat)
    requires 1000 <= a < TEN_4
    ensures Decimal(a) ==
            [DigitChar(a / 100 / 10), DigitChar(a / 100 % 10)] + [DigitChar(a % 100 / 10), DigitChar(a % 100 % 10)]
  {
    Divisions(a);
    DecimalPair(a / 100);
    assert Decimal(a / 10) == Decimal(a / 100) + [DigitChar(a / 10 % 10)];
    assert Decimal(a) == Decimal(a / 10) + [DigitChar(a % 10)];
  }

  method Put16(v: nat, buffer: array<octet>, at: nat) returns (end: nat)
    requires v < TEN_16 && at + 16 <= buffer.Length
    modifies buffer
    ensures end == at + 16 && buffer[..end] == old(buffer[..at]) + Fixed(v, 16)
  {
    var v0, v1 := v / TEN_8, v % TEN_8;
    Powers();
    FixedSplit(v, 8, 8);
    FixedMod(v, 8);
    end := Put8(v0, buffer, at);
    end := Put8(v1, buffer, end);
    Chain2(old(buffer[..at]), Fixed(v0, 8), Fixed(v1, 8));
  }

  /** From 10^16 up. */
  lemma LongHead(value: nat)
    requires TEN_16 <= value < TWO_64
    ensures 0 < value / TEN_16 < TEN_4
  {
  }

  lemma LongDecimal(value: nat)
    requires TEN_16 <= value < TWO_64
    ensures Decimal(value) == Decimal(value / TEN_16) + Fixed(value % TEN_16, 16)
  {
    Powers();
    DecimalSplit(value, 16);
    FixedMod(value, 16);
  }

  method PutLong(value: nat, buffer: array<octet>, at: nat) returns (end: nat)
    requires TEN_16 <= value < TWO_64 && at + 20 <= buffer.Length
    modifies buffer
    ensures at < end <= at + 20 && buffer[..end] == old(buffer[..at]) + Decimal(value)
  {
    var a, rest := value / TEN_16, value % TEN_16;
    LongHead(value);
    LongDecimal(value);
    end := PutHead(a, buffer, at);
    end := Put16(rest, buffer, end);
    Chain2(old(buffer[..at]), Decimal(a), Fixed(rest, 16));
  }

  /** The bits of a signed number read as unsigned, and back: two's complement. */
  function AsUnsigned(value: int): (u: nat)
    requires -0x8000_0000_0000_0000 <= value < 0x8000_0000_0000_0000
    ensures u < TWO_64
  {
    if value < 0 then value + TWO_64 else value
  }

  /** `~u + 1` on 64 bits. */
  function Negate(u: nat): (r: nat)
    requires u < TWO_64
    ensures r < TWO_64
  {
    Wrap64(TWO_64 - 1 - u + 1)
  }

  /** `i64toa`, correct down to -2^63. */
  method I64toa(value: int, buffer: array<octet>, at: nat) returns (end: nat)
    requires -0x8000_0000_0000_0000 <= value < 0x8000_0000_0000_0000 && at + 21 <= buffer.Length
    modifies buffer
    ensures at < end <= at + 21 && buffer[..end] == old(buffer[..at]) + SignedDecimal(value)
  {
    var u := AsUnsigned(value);
    end := at;
    if value < 0 {
      end := PutIf(true, '-', buffer, end);
      u := Negate(u);
      Chain2(old(buffer[..at]), ['-'], Decimal(u));
    }
    end := U64toa(u, buffer, end);
  }

  /** `int64ToCharArray`: the number in a buffer of its own, ended by a NUL, and its length. */
  method Int64ToCharArray(val: int) returns (buf: array<octet>, len: nat)
    requires -0x8000_0000_0000_0000 <= val < 0x8000_0000_0000_0000
    ensures fresh(buf) && buf.Length == 32 && len <= 21 && buf[..len] == SignedDecimal(val) && buf[len] == '\0'
  {
    buf := new octet[32](_ => '\0');
    assert buf[..0] == [];
    len := I64toa(val, buf, 0);
    ghost var text := buf[..len];
    buf[len] := '\0';
    assert buf[..len] == text;
  }
}
