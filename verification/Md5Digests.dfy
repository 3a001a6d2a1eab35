/** What RFC 1321 publishes about the values of MD5, computed: the bytes of the initial
    registers, and the digest of a message of two blocks. */
module Md5Digests {
  import opened Octets
  import opened Md5
  import opened Md5Contexts

  /** Section 3.3 of RFC 1321 gives the initial registers byte by byte, low-order first. */
  lemma InitialBytes()
    ensures Output(INIT) == [0x01, 0x23, 0x45, 0x67, 0x89, 0xab, 0xcd, 0xef,
                             0xfe, 0xdc, 0xba, 0x98, 0x76, 0x54, 0x32, 0x10]
  {
  }

  // ---- following the operations ----

  /** One more operation. */
  lemma LineReached(p: Operator, n: nat, start: State, x: seq<Word>, s: State, l: Line, r: Word)
    requires n < 64 && IsOperation(p) && Reached(p, n, start, x, s) && IsLine(l, n)
    requires r == Operation(n / 16, s.a, s.b, s.c, s.d, x[l.k], l.s, l.t)
    ensures Reached(p, n + 1, start, x, State(s.d, r, s.b, s.c))
  {
    assert IsOperationFor(p, true);
    ReachNext(p, n, start, x, s, l, r);
  }

  /** Four more, in which the registers take turns. */
  lemma FourReached(p: Operator, q: nat, start: State, x: seq<Word>, s: State, f: Four, a: Word, b: Word, c: Word, d: Word)
    requires q < 16 && IsOperation(p) && Reached(p, 4 * q, start, x, s) && Agrees(f, q)
    requires f.l0.k < 16 && f.l1.k < 16 && f.l2.k < 16 && f.l3.k < 16
    requires a == Operation(4 * q / 16, s.a, s.b, s.c, s.d, x[f.l0.k], f.l0.s, f.l0.t)
    requires d == Operation((4 * q + 1) / 16, s.d, a, s.b, s.c, x[f.l1.k], f.l1.s, f.l1.t)
    requires c == Operation((4 * q + 2) / 16, s.c, d, a, s.b, x[f.l2.k], f.l2.s, f.l2.t)
    requires b == Operation((4 * q + 3) / 16, s.b, c, d, a, x[f.l3.k], f.l3.s, f.l3.t)
    ensures Reached(p, 4 * q + 4, start, x, State(a, b, c, d))
  {
    assert AgreesFor(f, q, true);
    LineReached(p, 4 * q, start, x, s, f.l0, a);
    LineReached(p, 4 * q + 1, start, x, State(s.d, a, s.b, s.c), f.l1, d);
    LineReached(p, 4 * q + 2, start, x, State(s.c, d, a, s.b), f.l2, c);
    LineReached(p, 4 * q + 3, start, x, State(s.b, c, d, a), f.l3, b);
  }

  // ---- the message "ABCDEFGHIJKLMNOPQRSTUVWXYZabcdefghijklmnopqrstuvwxyz0123456789" ----

  /** The message and its padding, four bytes at a time. */
  function Row(k: nat): (b: seq<Byte>)
    ensures |b| == 4
  {
    if k == 0 then [0x41, 0x42, 0x43, 0x44]
    else if k == 1 then [0x45, 0x46, 0x47, 0x48]
    else if k == 2 then [0x49, 0x4A, 0x4B, 0x4C]
    else if k == 3 then [0x4D, 0x4E, 0x4F, 0x50]
    else if k == 4 then [0x51, 0x52, 0x53, 0x54]
    else if k == 5 then [0x55, 0x56, 0x57, 0x58]
    else if k == 6 then [0x59, 0x5A, 0x61, 0x62]
    else if k == 7 then [0x63, 0x64, 0x65, 0x66]
    else if k == 8 then [0x67, 0x68, 0x69, 0x6A]
    else if k == 9 then [0x6B, 0x6C, 0x6D, 0x6E]
    else if k == 10 then [0x6F, 0x70, 0x71, 0x72]
    else if k == 11 then [0x73, 0x74, 0x75, 0x76]
    else if k == 12 then [0x77, 0x78, 0x79, 0x7A]
    else if k == 13 then [0x30, 0x31, 0x32, 0x33]
    else if k == 14 then [0x34, 0x35, 0x36, 0x37]
    else if k == 15 then [0x38, 0x39, 0x80, 0x00]
    else if k == 30 then [0xF0, 0x01, 0x00, 0x00]
    else [0, 0, 0, 0]
  }

  const LETTERS: seq<Byte> := seq(62, i requires 0 <= i < 62 => Row(i / 4)[i % 4])

  lemma LengthIs496()
    ensures LittleEndian(496, 8) == [0xF0, 0x01] + Zeros(6)
  {
    ZeroBytes(6);
    assert LittleEndian(1, 7) == [0x01] + LittleEndian(0, 6);
    assert LittleEndian(496, 8) == [0xF0] + LittleEndian(1, 7);
  }

  lemma {:induction false} ZeroBytes(n: nat)
    ensures LittleEndian(0, n) == Zeros(n)
  {
    if n > 0 {
      ZeroBytes(n - 1);
    }
  }

  lemma Indexed(m: seq<Byte>, p: seq<Byte>, l: seq<Byte>)
    requires |m| == 62 && p == [0x80] + Zeros(57) && l == [0xF0, 0x01] + Zeros(6)
    ensures var s := m + p + l;
            && |s| == 128 && s[..62] == m && s[62] == 0x80 && s[120] == 0xF0 && s[121] == 0x01
            && forall i :: 62 < i < 128 && i != 120 && i != 121 ==> s[i] == 0
  {
  }

  lemma PadOf62(m: seq<Byte>)
    requires |m| == 62
    ensures Pad(m) == m + Padding(62) + LittleEndian(496, 8) && Padding(62) == [0x80] + Zeros(57)
  {
    assert PadLength(62) == 58 && 8 * 62 % TWO_64 == 496;
  }

  lemma PadParts(m: seq<Byte>)
    requires |m| == 62
    ensures var s := Pad(m);
            && |s| == 128 && s[..62] == m && s[62] == 0x80 && s[120] == 0xF0 && s[121] == 0x01
            && forall i :: 62 < i < 128 && i != 120 && i != 121 ==> s[i] == 0
  {
    LengthIs496();
    PadOf62(m);
    Indexed(m, Padding(62), LittleEndian(496, 8));
  }

  lemma PaddedRows(k: nat)
    requires k < 32
    ensures |Pad(LETTERS)| == 128 && Pad(LETTERS)[4 * k..4 * k + 4] == Row(k)
  {
    PadParts(LETTERS);
    var s := Pad(LETTERS);
    forall j | 0 <= j < 4 ensures s[4 * k + j] == Row(k)[j] {
      var i := 4 * k + j;
      assert i / 4 == k && i % 4 == j;
      if i < 62 {
        assert s[..62][i] == LETTERS[i];
      }
    }
  }

  /** The words of the first block. */
  predicate First(x: seq<Word>) {
    && |x| == 16
    && x[0] == 0x44434241 && x[1] == 0x48474645 && x[2] == 0x4C4B4A49 && x[3] == 0x504F4E4D
    && x[4] == 0x54535251 && x[5] == 0x58575655 && x[6] == 0x62615A59 && x[7] == 0x66656463
    && x[8] == 0x6A696867 && x[9] == 0x6E6D6C6B && x[10] == 0x7271706F && x[11] == 0x76757473
    && x[12] == 0x7A797877 && x[13] == 0x33323130 && x[14] == 0x37363534 && x[15] == 0x00803938
  }

  /** Those of the second. */
  predicate Second(x: seq<Word>) {
    && |x| == 16
    && x[0] == 0x00000000 && x[1] == 0x00000000 && x[2] == 0x00000000 && x[3] == 0x00000000
    && x[4] == 0x00000000 && x[5] == 0x00000000 && x[6] == 0x00000000 && x[7] == 0x00000000
    && x[8] == 0x00000000 && x[9] == 0x00000000 && x[10] == 0x00000000 && x[11] == 0x00000000
    && x[12] == 0x00000000 && x[13] == 0x00000000 && x[14] == 0x000001F0 && x[15] == 0x00000000
  }

  /** `x` is the sixteen words from row `n` on. */
  predicate AreRows(x: seq<Word>, n: nat) {
    |x| == 16 && forall k :: 0 <= k < 16 ==> x[k] == RowWord(n + k)
  }

  function RowWord(k: nat): Word {
    WordAt(Row(k), 0)
  }

  lemma FirstWords(x: seq<Word>)
    requires AreRows(x, 0)
    ensures First(x)
  {
  }

  lemma SecondWords(x: seq<Word>)
    requires AreRows(x, 16)
    ensures Second(x)
  {
  }

  lemma OneWord(s: seq<Byte>, k: nat)
    requires 4 * k + 4 <= |s| && s[4 * k..4 * k + 4] == Row(k)
    ensures WordAt(s, 4 * k) == RowWord(k)
  {
    var r := s[4 * k..4 * k + 4];
    assert r[0] == s[4 * k] && r[1] == s[4 * k + 1] && r[2] == s[4 * k + 2] && r[3] == s[4 * k + 3];
  }

  lemma SameWord(s: seq<Byte>, b: seq<Byte>, n: nat, i: nat)
    requires n + |b| <= |s| && s[n..n + |b|] == b && i + 4 <= |b|
    ensures WordAt(b, i) == WordAt(s, n + i)
  {
  }

  lemma BlockWord(s: seq<Byte>, n: nat, b: seq<Byte>, k: nat)
    requires n <= 16 && |s| == 128 && s == Pad(LETTERS) && |b| == 64 && b == s[4 * n..4 * n + 64] && k < 16
    ensures WordAt(b, 4 * k) == RowWord(n + k)
  {
    PaddedRows(n + k);
    OneWord(s, n + k);
    SameWord(s, b, 4 * n, 4 * k);
    assert 4 * n + 4 * k == 4 * (n + k);
  }

  lemma BlockWords(s: seq<Byte>, n: nat, b: seq<Byte>)
    requires n <= 16 && |s| == 128 && s == Pad(LETTERS) && |b| == 64 && b == s[4 * n..4 * n + 64]
    ensures AreRows(WordsOf(b), n)
  {
    forall k | 0 <= k < 16 ensures WordsOf(b)[k] == RowWord(n + k) {
      BlockWord(s, n, b, k);
    }
  }

  /** The registers after the first block. */
  const MIDDLE := State(0x83FD320B, 0xDEFBE5CF, 0xA9B1642F, 0xFA6F932A)

  lemma Block1Round1(p: Operator, x: seq<Word>)
    requires First(x) && IsOperation(p) && Reached(p, 0, INIT, x, State(0x67452301, 0xEFCDAB89, 0x98BADCFE, 0x10325476))
    ensures Reached(p, 16, INIT, x, State(0x3CBDCD45, 0x5D38E690, 0xFA148C8A, 0xB8DEC763))
  {
    Quad0Agrees();
    FourReached(p, 0, INIT, x, State(0x67452301, 0xEFCDAB89, 0x98BADCFE, 0x10325476), QUAD0,
                0xC6C10796, 0x27BCE07A, 0x11067980, 0x99A09999);
    Quad1Agrees();
    FourReached(p, 1, INIT, x, State(0xC6C10796, 0x27BCE07A, 0x11067980, 0x99A09999), QUAD1,
                0xF22E6C4E, 0xA4799506, 0xA95A2FC0, 0xB4AC9218);
    Quad2Agrees();
    FourReached(p, 2, INIT, x, State(0xF22E6C4E, 0xA4799506, 0xA95A2FC0, 0xB4AC9218), QUAD2,
                0x1EB3E7C1, 0x8A7612EC, 0xCA27520B, 0xA6E70CFE);
    Quad3Agrees();
    FourReached(p, 3, INIT, x, State(0x1EB3E7C1, 0x8A7612EC, 0xCA27520B, 0xA6E70CFE), QUAD3,
                0x3CBDCD45, 0x5D38E690, 0xFA148C8A, 0xB8DEC763);
  }

  lemma Block1Round2(p: Operator, x: seq<Word>)
    requires First(x) && IsOperation(p) && Reached(p, 16, INIT, x, State(0x3CBDCD45, 0x5D38E690, 0xFA148C8A, 0xB8DEC763))
    ensures Reached(p, 32, INIT, x, State(0x9B085FA9, 0xDD789ECC, 0x5993248F, 0x4400A9BD))
  {
    Quad4Agrees();
    FourReached(p, 4, INIT, x, State(0x3CBDCD45, 0x5D38E690, 0xFA148C8A, 0xB8DEC763), QUAD4,
                0x04B9D52A, 0x47AE7C81, 0xD3EE3ED1, 0x783002EB);
    Quad5Agrees();
    FourReached(p, 5, INIT, x, State(0x04B9D52A, 0x47AE7C81, 0xD3EE3ED1, 0x783002EB), QUAD5,
                0x2D7D8A3F, 0x75292030, 0x4B534DC3, 0xD1210823);
    Quad6Agrees();
    FourReached(p, 6, INIT, x, State(0x2D7D8A3F, 0x75292030, 0x4B534DC3, 0xD1210823), QUAD6,
                0x9D2A6E33, 0xF2FF6EA0, 0xD473B564, 0x0E8D2E44);
    Quad7Agrees();
    FourReached(p, 7, INIT, x, State(0x9D2A6E33, 0xF2FF6EA0, 0xD473B564, 0x0E8D2E44), QUAD7,
                0x9B085FA9, 0xDD789ECC, 0x5993248F, 0x4400A9BD);
  }

  lemma Block1Round3(p: Operator, x: seq<Word>)
    requires First(x) && IsOperation(p) && Reached(p, 32, INIT, x, State(0x9B085FA9, 0xDD789ECC, 0x5993248F, 0x4400A9BD))
    ensures Reached(p, 48, INIT, x, State(0x2DBEE21D, 0xF166F514, 0xEE46E961, 0xE95C3A43))
  {
    Quad8Agrees();
    FourReached(p, 8, INIT, x, State(0x9B085FA9, 0xDD789ECC, 0x5993248F, 0x4400A9BD), QUAD8,
                0x21C8D2B7, 0x1B9504F8, 0x056EC119, 0x1D55A18E);
    Quad9Agrees();
    FourReached(p, 9, INIT, x, State(0x21C8D2B7, 0x1B9504F8, 0x056EC119, 0x1D55A18E), QUAD9,
                0x436B7FE9, 0xCF0341ED, 0xF404C2F6, 0x075800C1);
    Quad10Agrees();
    FourReached(p, 10, INIT, x, State(0x436B7FE9, 0xCF0341ED, 0xF404C2F6, 0x075800C1), QUAD10,
                0x888E7D8A, 0x047B9419, 0xCE620273, 0xBBDAECD8);
    Quad11Agrees();
    FourReached(p, 11, INIT, x, State(0x888E7D8A, 0x047B9419, 0xCE620273, 0xBBDAECD8), QUAD11,
                0x2DBEE21D, 0xF166F514, 0xEE46E961, 0xE95C3A43);
  }

  lemma Block1Round4(p: Operator, x: seq<Word>)
    requires First(x) && IsOperation(p) && Reached(p, 48, INIT, x, State(0x2DBEE21D, 0xF166F514, 0xEE46E961, 0xE95C3A43))
    ensures Reached(p, 64, INIT, x, State(0x1CB80F0A, 0xEF2E3A46, 0x10F68731, 0xEA3D3EB4))
  {
    Quad12Agrees();
    FourReached(p, 12, INIT, x, State(0x2DBEE21D, 0xF166F514, 0xEE46E961, 0xE95C3A43), QUAD12,
                0xE47FD4F3, 0x7A13BC5C, 0xF22AEDCC, 0xFB887751);
    Quad13Agrees();
    FourReached(p, 13, INIT, x, State(0xE47FD4F3, 0x7A13BC5C, 0xF22AEDCC, 0xFB887751), QUAD13,
                0xA691D430, 0xEFB0E72F, 0x3FC23DF6, 0x528452F2);
    Quad14Agrees();
    FourReached(p, 14, INIT, x, State(0xA691D430, 0xEFB0E72F, 0x3FC23DF6, 0x528452F2), QUAD14,
                0x27145703, 0x49D9A5B4, 0x374FBE79, 0x21A11069);
    Quad15Agrees();
    FourReached(p, 15, INIT, x, State(0x27145703, 0x49D9A5B4, 0x374FBE79, 0x21A11069), QUAD15,
                0x1CB80F0A, 0xEF2E3A46, 0x10F68731, 0xEA3D3EB4);
  }

  lemma Block1(data: seq<Byte>)
    requires |data| == 64 && First(WordsOf(data))
    ensures Compress(INIT, data) == MIDDLE
  {
    var p := TheOperation();
    ReachStart(p, INIT, WordsOf(data));
    Block1Round1(p, WordsOf(data));
    Block1Round2(p, WordsOf(data));
    Block1Round3(p, WordsOf(data));
    Block1Round4(p, WordsOf(data));
    ReachEnd(p, INIT, data, State(0x1CB80F0A, 0xEF2E3A46, 0x10F68731, 0xEA3D3EB4));
  }

  /** And after the second. */
  const RESULT := State(0x98AB74D1, 0xF5D977D2, 0x2C1C61A5, 0x9F9D419F)

  lemma Block2Round1(p: Operator, x: seq<Word>)
    requires Second(x) && IsOperation(p) && Reached(p, 0, MIDDLE, x, State(0x83FD320B, 0xDEFBE5CF, 0xA9B1642F, 0xFA6F932A))
    ensures Reached(p, 16, MIDDLE, x, State(0xA70737DA, 0xA36F556F, 0x96F6586E, 0x5473F8A7))
  {
    Quad0Agrees();
    FourReached(p, 0, MIDDLE, x, State(0x83FD320B, 0xDEFBE5CF, 0xA9B1642F, 0xFA6F932A), QUAD0,
                0xEDA23ED1, 0xDDCF0634, 0x3C307338, 0x989939CF);
    Quad1Agrees();
    FourReached(p, 1, MIDDLE, x, State(0xEDA23ED1, 0xDDCF0634, 0x3C307338, 0x989939CF), QUAD1,
                0x75144433, 0x99B6B699, 0xC783CB60, 0xC8875807);
    Quad2Agrees();
    FourReached(p, 2, MIDDLE, x, State(0x75144433, 0x99B6B699, 0xC783CB60, 0xC8875807), QUAD2,
                0xA60A3F69, 0x64CC7C5A, 0x64DB26E9, 0xAA6630BE);
    Quad3Agrees();
    FourReached(p, 3, MIDDLE, x, State(0xA60A3F69, 0x64CC7C5A, 0x64DB26E9, 0xAA6630BE), QUAD3,
                0xA70737DA, 0xA36F556F, 0x96F6586E, 0x5473F8A7);
  }

  lemma Block2Round2(p: Operator, x: seq<Word>)
    requires Second(x) && IsOperation(p) && Reached(p, 16, MIDDLE, x, State(0xA70737DA, 0xA36F556F, 0x96F6586E, 0x5473F8A7))
    ensures Reached(p, 32, MIDDLE, x, State(0x24EBA695, 0x9C03E2E8, 0x10C42A2F, 0x4BD0378B))
  {
    Quad4Agrees();
    FourReached(p, 4, MIDDLE, x, State(0xA70737DA, 0xA36F556F, 0x96F6586E, 0x5473F8A7), QUAD4,
                0xA5050AD3, 0x82B8827C, 0x27DCD8B4, 0x28776046);
    Quad5Agrees();
    FourReached(p, 5, MIDDLE, x, State(0xA5050AD3, 0x82B8827C, 0x27DCD8B4, 0x28776046), QUAD5,
                0xE04F070C, 0xDF35CB56, 0xC0D22B61, 0x2F3CD2A2);
    Quad6Agrees();
    FourReached(p, 6, MIDDLE, x, State(0xE04F070C, 0xDF35CB56, 0xC0D22B61, 0x2F3CD2A2), QUAD6,
                0x242DD210, 0x2291191A, 0x5C295967, 0x576ACE33);
    Quad7Agrees();
    FourReached(p, 7, MIDDLE, x, State(0x242DD210, 0x2291191A, 0x5C295967, 0x576ACE33), QUAD7,
                0x24EBA695, 0x9C03E2E8, 0x10C42A2F, 0x4BD0378B);
  }

  lemma Block2Round3(p: Operator, x: seq<Word>)
    requires Second(x) && IsOperation(p) && Reached(p, 32, MIDDLE, x, State(0x24EBA695, 0x9C03E2E8, 0x10C42A2F, 0x4BD0378B))
    ensures Reached(p, 48, MIDDLE, x, State(0x54C9EB3A, 0x79C0710A, 0x2EC86F72, 0xD4D9C6AC))
  {
    Quad8Agrees();
    FourReached(p, 8, MIDDLE, x, State(0x24EBA695, 0x9C03E2E8, 0x10C42A2F, 0x4BD0378B), QUAD8,
                0x5BE1D526, 0xA2448453, 0x9F4A1A7E, 0x9E414279);
    Quad9Agrees();
    FourReached(p, 9, MIDDLE, x, State(0x5BE1D526, 0xA2448453, 0x9F4A1A7E, 0x9E414279), QUAD9,
                0xE14E403D, 0xFE314121, 0x60CC183A, 0xE8CFD670);
    Quad10Agrees();
    FourReached(p, 10, MIDDLE, x, State(0xE14E403D, 0xFE314121, 0x60CC183A, 0xE8CFD670), QUAD10,
                0xFFF62809, 0x7C7E974C, 0x8CB5221C, 0xE37209AC);
    Quad11Agrees();
    FourReached(p, 11, MIDDLE, x, State(0xFFF62809, 0x7C7E974C, 0x8CB5221C, 0xE37209AC), QUAD11,
                0x54C9EB3A, 0x79C0710A, 0x2EC86F72, 0xD4D9C6AC);
  }

  lemma Block2Round4(p: Operator, x: seq<Word>)
    requires Second(x) && IsOperation(p) && Reached(p, 48, MIDDLE, x, State(0x54C9EB3A, 0x79C0710A, 0x2EC86F72, 0xD4D9C6AC))
    ensures Reached(p, 64, MIDDLE, x, State(0x14AE42C6, 0x16DD9203, 0x826AFD76, 0xA52DAE75))
  {
    Quad12Agrees();
    FourReached(p, 12, MIDDLE, x, State(0x54C9EB3A, 0x79C0710A, 0x2EC86F72, 0xD4D9C6AC), QUAD12,
                0x02095AF1, 0x2BA98E3F, 0xA8DCFE26, 0x13D245FD);
    Quad13Agrees();
    FourReached(p, 13, MIDDLE, x, State(0x02095AF1, 0x2BA98E3F, 0xA8DCFE26, 0x13D245FD), QUAD13,
                0xE126C1AA, 0xFB7BCEE0, 0x6F287FF5, 0x96B00FA7);
    Quad14Agrees();
    FourReached(p, 14, MIDDLE, x, State(0xE126C1AA, 0xFB7BCEE0, 0x6F287FF5, 0x96B00FA7), QUAD14,
                0x452C1099, 0x5AC74608, 0xC197EA8E, 0xCA801BA6);
    Quad15Agrees();
    FourReached(p, 15, MIDDLE, x, State(0x452C1099, 0x5AC74608, 0xC197EA8E, 0xCA801BA6), QUAD15,
                0x14AE42C6, 0x16DD9203, 0x826AFD76, 0xA52DAE75);
  }

  lemma Block2(data: seq<Byte>)
    requires |data| == 64 && Second(WordsOf(data))
    ensures Compress(MIDDLE, data) == RESULT
  {
    var p := TheOperation();
    ReachStart(p, MIDDLE, WordsOf(data));
    Block2Round1(p, WordsOf(data));
    Block2Round2(p, WordsOf(data));
    Block2Round3(p, WordsOf(data));
    Block2Round4(p, WordsOf(data));
    ReachEnd(p, MIDDLE, data, State(0x14AE42C6, 0x16DD9203, 0x826AFD76, 0xA52DAE75));
  }

  /** The digest that appendix A.5 of RFC 1321 gives for this message, and its hash value. */
  lemma DigestOfLetters()
    ensures Digest(LETTERS) == [0xd1, 0x74, 0xab, 0x98, 0xd2, 0x77, 0xd9, 0xf5,
                                0xa5, 0x61, 0x1c, 0x2c, 0x9f, 0x41, 0x9d, 0x9f]
    ensures FinalState(LETTERS).a == 0x98AB74D1
  {
    BothBlocks();
  }

  lemma BothBlocks()
    ensures FinalState(LETTERS) == RESULT
  {
    var s := Pad(LETTERS);
    PadParts(LETTERS);
    var a, b := s[..64], s[64..];
    BlockWords(s, 0, a);
    BlockWords(s, 16, b);
    FirstWords(WordsOf(a));
    SecondWords(WordsOf(b));
    Block1(a);
    Block2(b);
    TwoBlocks(INIT, s);
  }

  lemma TwoBlocks(st: State, s: seq<Byte>)
    requires |s| == 128
    ensures Fold(Compress, st, s) == Compress(Compress(st, s[..64]), s[64..])
  {
    assert s[..64] + s[64..] == s;
    FoldBlock(Compress, st, s[..64], s[64..]);
    FoldBlock(Compress, st, [], s[..64]);
    assert [] + s[..64] == s[..64];
  }
}
