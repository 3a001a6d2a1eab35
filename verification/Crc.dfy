/** The CRC-32 of keys: the table-driven loop against the bit-at-a-time definition. */
module Crc {
  type Byte = bv8
  type Word = bv32

  const POLYNOMIAL: Word := 0xedb88320
  const ALL_ONES: Word := 0xffffffff

  // ---- bit at a time, as in section 8 of RFC 1952 ----

  /** One bit: the reflected polynomial is subtracted if the bit shifted out is one. */
  function BitStep(x: Word): Word {
    if x & 1 == 1 then (x >> 1) ^ POLYNOMIAL else x >> 1
  }

  function Xor(a: Word, b: Word): Word {
    a ^ b
  }

  function Widen(b: Byte): Word {
    b as Word
  }

  function Complement(x: Word): Word {
    !x
  }

  function Four(step: Word -> Word, x: Word): Word {
    step(step(step(step(x))))
  }

  function Eight(step: Word -> Word, x: Word): Word {
    Four(step, Four(step, x))
  }

  /** The register after the bytes of `key`, each put in with its lowest bit first. */
  function Register(step: Word -> Word, key: seq<Byte>): Word {
    if key == [] then ALL_ONES else Eight(step, Xor(Register(step, key[..|key| - 1]), Widen(key[|key| - 1])))
  }

  function BitwiseCrc(key: seq<Byte>): Word {
    Xor(Register(BitStep, key), ALL_ONES)
  }

  // ---- the table, in rows of sixteen ----

  function Row(k: nat): (row: seq<Word>)
    requires k < 16
    ensures |row| == 16
  {
    match k
    case 0 =>
      [0x00000000, 0x77073096, 0xee0e612c, 0x990951ba, 0x076dc419, 0x706af48f, 0xe963a535, 0x9e6495a3,
       0x0edb8832, 0x79dcb8a4, 0xe0d5e91e, 0x97d2d988, 0x09b64c2b, 0x7eb17cbd, 0xe7b82d07, 0x90bf1d91]
    case 1 =>
      [0x1db71064, 0x6ab020f2, 0xf3b97148, 0x84be41de, 0x1adad47d, 0x6ddde4eb, 0xf4d4b551, 0x83d385c7,
       0x136c9856, 0x646ba8c0, 0xfd62f97a, 0x8a65c9ec, 0x14015c4f, 0x63066cd9, 0xfa0f3d63, 0x8d080df5]
    case 2 =>
      [0x3b6e20c8, 0x4c69105e, 0xd56041e4, 0xa2677172, 0x3c03e4d1, 0x4b04d447, 0xd20d85fd, 0xa50ab56b,
       0x35b5a8fa, 0x42b2986c, 0xdbbbc9d6, 0xacbcf940, 0x32d86ce3, 0x45df5c75, 0xdcd60dcf, 0xabd13d59]
    case 3 =>
      [0x26d930ac, 0x51de003a, 0xc8d75180, 0xbfd06116, 0x21b4f4b5, 0x56b3c423, 0xcfba9599, 0xb8bda50f,
       0x2802b89e, 0x5f058808, 0xc60cd9b2, 0xb10be924, 0x2f6f7c87, 0x58684c11, 0xc1611dab, 0xb6662d3d]
    case 4 =>
      [0x76dc4190, 0x01db7106, 0x98d220bc, 0xefd5102a, 0x71b18589, 0x06b6b51f, 0x9fbfe4a5, 0xe8b8d433,
       0x7807c9a2, 0x0f00f934, 0x9609a88e, 0xe10e9818, 0x7f6a0dbb, 0x086d3d2d, 0x91646c97, 0xe6635c01]
    case 5 =>
      [0x6b6b51f4, 0x1c6c6162, 0x856530d8, 0xf262004e, 0x6c0695ed, 0x1b01a57b, 0x8208f4c1, 0xf50fc457,
       0x65b0d9c6, 0x12b7e950, 0x8bbeb8ea, 0xfcb9887c, 0x62dd1ddf, 0x15da2d49, 0x8cd37cf3, 0xfbd44c65]
    case 6 =>
      [0x4db26158, 0x3ab551ce, 0xa3bc0074, 0xd4bb30e2, 0x4adfa541, 0x3dd895d7, 0xa4d1c46d, 0xd3d6f4fb,
       0x4369e96a, 0x346ed9fc, 0xad678846, 0xda60b8d0, 0x44042d73, 0x33031de5, 0xaa0a4c5f, 0xdd0d7cc9]
    case 7 =>
      [0x5005713c, 0x270241aa, 0xbe0b1010, 0xc90c2086, 0x5768b525, 0x206f85b3, 0xb966d409, 0xce61e49f,
       0x5edef90e, 0x29d9c998, 0xb0d09822, 0xc7d7a8b4, 0x59b33d17, 0x2eb40d81, 0xb7bd5c3b, 0xc0ba6cad]
    case 8 =>
      [0xedb88320, 0x9abfb3b6, 0x03b6e20c, 0x74b1d29a, 0xead54739, 0x9dd277af, 0x04db2615, 0x73dc1683,
       0xe3630b12, 0x94643b84, 0x0d6d6a3e, 0x7a6a5aa8, 0xe40ecf0b, 0x9309ff9d, 0x0a00ae27, 0x7d079eb1]
    case 9 =>
      [0xf00f9344, 0x8708a3d2, 0x1e01f268, 0x6906c2fe, 0xf762575d, 0x806567cb, 0x196c3671, 0x6e6b06e7,
       0xfed41b76, 0x89d32be0, 0x10da7a5a, 0x67dd4acc, 0xf9b9df6f, 0x8ebeeff9, 0x17b7be43, 0x60b08ed5]
    case 10 =>
      [0xd6d6a3e8, 0xa1d1937e, 0x38d8c2c4, 0x4fdff252, 0xd1bb67f1, 0xa6bc5767, 0x3fb506dd, 0x48b2364b,
       0xd80d2bda, 0xaf0a1b4c, 0x36034af6, 0x41047a60, 0xdf60efc3, 0xa867df55, 0x316e8eef, 0x4669be79]
    case 11 =>
      [0xcb61b38c, 0xbc66831a, 0x256fd2a0, 0x5268e236, 0xcc0c7795, 0xbb0b4703, 0x220216b9, 0x5505262f,
       0xc5ba3bbe, 0xb2bd0b28, 0x2bb45a92, 0x5cb36a04, 0xc2d7ffa7, 0xb5d0cf31, 0x2cd99e8b, 0x5bdeae1d]
    case 12 =>
      [0x9b64c2b0, 0xec63f226, 0x756aa39c, 0x026d930a, 0x9c0906a9, 0xeb0e363f, 0x72076785, 0x05005713,
       0x95bf4a82, 0xe2b87a14, 0x7bb12bae, 0x0cb61b38, 0x92d28e9b, 0xe5d5be0d, 0x7cdcefb7, 0x0bdbdf21]
    case 13 =>
      [0x86d3d2d4, 0xf1d4e242, 0x68ddb3f8, 0x1fda836e, 0x81be16cd, 0xf6b9265b, 0x6fb077e1, 0x18b74777,
       0x88085ae6, 0xff0f6a70, 0x66063bca, 0x11010b5c, 0x8f659eff, 0xf862ae69, 0x616bffd3, 0x166ccf45]
    case 14 =>
      [0xa00ae278, 0xd70dd2ee, 0x4e048354, 0x3903b3c2, 0xa7672661, 0xd06016f7, 0x4969474d, 0x3e6e77db,
       0xaed16a4a, 0xd9d65adc, 0x40df0b66, 0x37d83bf0, 0xa9bcae53, 0xdebb9ec5, 0x47b2cf7f, 0x30b5ffe9]
    case _ =>
      [0xbdbdf21c, 0xcabac28a, 0x53b39330, 0x24b4a3a6, 0xbad03605, 0xcdd70693, 0x54de5729, 0x23d967bf,
       0xb3667a2e, 0xc4614ab8, 0x5d681b02, 0x2a6f2b94, 0xb40bbe37, 0xc30c8ea1, 0x5a05df1b, 0x2d02ef8d]
  }

  const CRC32TAB: seq<Word> := seq(256, i requires 0 <= i < 256 => Row(i / 16)[i % 16])

  /** The entry for `y` is in row `k` and is what eight bit steps make of `y`. */
  predicate Tabulated(y: Word, k: nat) {
    k < 16 && (y as nat) / 16 == k && Row(k)[(y as nat) % 16] == Eight(BitStep, y)
  }

  lemma Row0(y: Word)
    requires 0x00 <= y < 0x10
    ensures Tabulated(y, 0)
  {
    if y < 0x08 {
      if y == 0x00 {} else if y == 0x01 {} else if y == 0x02 {} else if y == 0x03 {} else if y == 0x04 {}
      else if y == 0x05 {} else if y == 0x06 {} else { assert y == 0x07; }
    } else {
      if y == 0x08 {} else if y == 0x09 {} else if y == 0x0a {} else if y == 0x0b {} else if y == 0x0c {}
      else if y == 0x0d {} else if y == 0x0e {} else { assert y == 0x0f; }
    }
  }

  lemma Row1(y: Word)
    requires 0x10 <= y < 0x20
    ensures Tabulated(y, 1)
  {
    if y < 0x18 {
      if y == 0x10 {} else if y == 0x11 {} else if y == 0x12 {} else if y == 0x13 {} else if y == 0x14 {}
      else if y == 0x15 {} else if y == 0x16 {} else { assert y == 0x17; }
    } else {
      if y == 0x18 {} else if y == 0x19 {} else if y == 0x1a {} else if y == 0x1b {} else if y == 0x1c {}
      else if y == 0x1d {} else if y == 0x1e {} else { assert y == 0x1f; }
    }
  }

  lemma Row2(y: Word)
    requires 0x20 <= y < 0x30
    ensures Tabulated(y, 2)
  {
    if y < 0x28 {
      if y == 0x20 {} else if y == 0x21 {} else if y == 0x22 {} else if y == 0x23 {} else if y == 0x24 {}
      else if y == 0x25 {} else if y == 0x26 {} else { assert y == 0x27; }
    } else {
      if y == 0x28 {} else if y == 0x29 {} else if y == 0x2a {} else if y == 0x2b {} else if y == 0x2c {}
      else if y == 0x2d {} else if y == 0x2e {} else { assert y == 0x2f; }
    }
  }

  lemma Row3(y: Word)
    requires 0x30 <= y < 0x40
    ensures Tabulated(y, 3)
  {
    if y < 0x38 {
      if y == 0x30 {} else if y == 0x31 {} else if y == 0x32 {} else if y == 0x33 {} else if y == 0x34 {}
      else if y == 0x35 {} else if y == 0x36 {} else { assert y == 0x37; }
    } else {
      if y == 0x38 {} else if y == 0x39 {} else if y == 0x3a {} else if y == 0x3b {} else if y == 0x3c {}
      else if y == 0x3d {} else if y == 0x3e {} else { assert y == 0x3f; }
    }
  }

  lemma Row4(y: Word)
    requires 0x40 <= y < 0x50
    ensures Tabulated(y, 4)
  {
    if y < 0x48 {
      if y == 0x40 {} else if y == 0x41 {} else if y == 0x42 {} else if y == 0x43 {} else if y == 0x44 {}
      else if y == 0x45 {} else if y == 0x46 {} else { assert y == 0x47; }
    } else {
      if y == 0x48 {} else if y == 0x49 {} else if y == 0x4a {} else if y == 0x4b {} else if y == 0x4c {}
      else if y == 0x4d {} else if y == 0x4e {} else { assert y == 0x4f; }
    }
  }

  lemma Row5(y: Word)
    requires 0x50 <= y < 0x60
    ensures Tabulated(y, 5)
  {
    if y < 0x58 {
      if y == 0x50 {} else if y == 0x51 {} else if y == 0x52 {} else if y == 0x53 {} else if y == 0x54 {}
      else if y == 0x55 {} else if y == 0x56 {} else { assert y == 0x57; }
    } else {
      if y == 0x58 {} else if y == 0x59 {} else if y == 0x5a {} else if y == 0x5b {} else if y == 0x5c {}
      else if y == 0x5d {} else if y == 0x5e {} else { assert y == 0x5f; }
    }
  }

  lemma Row6(y: Word)
    requires 0x60 <= y < 0x70
    ensures Tabulated(y, 6)
  {
    if y < 0x68 {
      if y == 0x60 {} else if y == 0x61 {} else if y == 0x62 {} else if y == 0x63 {} else if y == 0x64 {}
      else if y == 0x65 {} else if y == 0x66 {} else { assert y == 0x67; }
    } else {
      if y == 0x68 {} else if y == 0x69 {} else if y == 0x6a {} else if y == 0x6b {} else if y == 0x6c {}
      else if y == 0x6d {} else if y == 0x6e {} else { assert y == 0x6f; }
    }
  }

  lemma Row7(y: Word)
    requires 0x70 <= y < 0x80
    ensures Tabulated(y, 7)
  {
    if y < 0x78 {
      if y == 0x70 {} else if y == 0x71 {} else if y == 0x72 {} else if y == 0x73 {} else if y == 0x74 {}
      else if y == 0x75 {} else if y == 0x76 {} else { assert y == 0x77; }
    } else {
      if y == 0x78 {} else if y == 0x79 {} else if y == 0x7a {} else if y == 0x7b {} else if y == 0x7c {}
      else if y == 0x7d {} else if y == 0x7e {} else { assert y == 0x7f; }
    }
  }

  lemma Row8(y: Word)
    requires 0x80 <= y < 0x90
    ensures Tabulated(y, 8)
  {
    if y < 0x88 {
      if y == 0x80 {} else if y == 0x81 {} else if y == 0x82 {} else if y == 0x83 {} else if y == 0x84 {}
      else if y == 0x85 {} else if y == 0x86 {} else { assert y == 0x87; }
    } else {
      if y == 0x88 {} else if y == 0x89 {} else if y == 0x8a {} else if y == 0x8b {} else if y == 0x8c {}
      else if y == 0x8d {} else if y == 0x8e {} else { assert y == 0x8f; }
    }
  }

  lemma Row9(y: Word)
    requires 0x90 <= y < 0xa0
    ensures Tabulated(y, 9)
  {
    if y < 0x98 {
      if y == 0x90 {} else if y == 0x91 {} else if y == 0x92 {} else if y == 0x93 {} else if y == 0x94 {}
      else if y == 0x95 {} else if y == 0x96 {} else { assert y == 0x97; }
    } else {
      if y == 0x98 {} else if y == 0x99 {} else if y == 0x9a {} else if y == 0x9b {} else if y == 0x9c {}
      else if y == 0x9d {} else if y == 0x9e {} else { assert y == 0x9f; }
    }
  }

  lemma RowA(y: Word)
    requires 0xa0 <= y < 0xb0
    ensures Tabulated(y, 10)
  {
    if y < 0xa8 {
      if y == 0xa0 {} else if y == 0xa1 {} else if y == 0xa2 {} else if y == 0xa3 {} else if y == 0xa4 {}
      else if y == 0xa5 {} else if y == 0xa6 {} else { assert y == 0xa7; }
    } else {
      if y == 0xa8 {} else if y == 0xa9 {} else if y == 0xaa {} else if y == 0xab {} else if y == 0xac {}
      else if y == 0xad {} else if y == 0xae {} else { assert y == 0xaf; }
    }
  }

  lemma RowB(y: Word)
    requires 0xb0 <= y < 0xc0
    ensures Tabulated(y, 11)
  {
    if y < 0xb8 {
      if y == 0xb0 {} else if y == 0xb1 {} else if y == 0xb2 {} else if y == 0xb3 {} else if y == 0xb4 {}
      else if y == 0xb5 {} else if y == 0xb6 {} else { assert y == 0xb7; }
    } else {
      if y == 0xb8 {} else if y == 0xb9 {} else if y == 0xba {} else if y == 0xbb {} else if y == 0xbc {}
      else if y == 0xbd {} else if y == 0xbe {} else { assert y == 0xbf; }
    }
  }

  lemma RowC(y: Word)
    requires 0xc0 <= y < 0xd0
    ensures Tabulated(y, 12)
  {
    if y < 0xc8 {
      if y == 0xc0 {} else if y == 0xc1 {} else if y == 0xc2 {} else if y == 0xc3 {} else if y == 0xc4 {}
      else if y == 0xc5 {} else if y == 0xc6 {} else { assert y == 0xc7; }
    } else {
      if y == 0xc8 {} else if y == 0xc9 {} else if y == 0xca {} else if y == 0xcb {} else if y == 0xcc {}
      else if y == 0xcd {} else if y == 0xce {} else { assert y == 0xcf; }
    }
  }

  lemma RowD(y: Word)
    requires 0xd0 <= y < 0xe0
    ensures Tabulated(y, 13)
  {
    if y < 0xd8 {
      if y == 0xd0 {} else if y == 0xd1 {} else if y == 0xd2 {} else if y == 0xd3 {} else if y == 0xd4 {}
      else if y == 0xd5 {} else if y == 0xd6 {} else { assert y == 0xd7; }
    } else {
      if y == 0xd8 {} else if y == 0xd9 {} else if y == 0xda {} else if y == 0xdb {} else if y == 0xdc {}
      else if y == 0xdd {} else if y == 0xde {} else { assert y == 0xdf; }
    }
  }

  lemma RowE(y: Word)
    requires 0xe0 <= y < 0xf0
    ensures Tabulated(y, 14)
  {
    if y < 0xe8 {
      if y == 0xe0 {} else if y == 0xe1 {} else if y == 0xe2 {} else if y == 0xe3 {} else if y == 0xe4 {}
      else if y == 0xe5 {} else if y == 0xe6 {} else { assert y == 0xe7; }
    } else {
      if y == 0xe8 {} else if y == 0xe9 {} else if y == 0xea {} else if y == 0xeb {} else if y == 0xec {}
      else if y == 0xed {} else if y == 0xee {} else { assert y == 0xef; }
    }
  }

  lemma RowF(y: Word)
    requires 0xf0 <= y < 0x100
    ensures Tabulated(y, 15)
  {
    if y < 0xf8 {
      if y == 0xf0 {} else if y == 0xf1 {} else if y == 0xf2 {} else if y == 0xf3 {} else if y == 0xf4 {}
      else if y == 0xf5 {} else if y == 0xf6 {} else { assert y == 0xf7; }
    } else {
      if y == 0xf8 {} else if y == 0xf9 {} else if y == 0xfa {} else if y == 0xfb {} else if y == 0xfc {}
      else if y == 0xfd {} else if y == 0xfe {} else { assert y == 0xff; }
    }
  }

  lemma LowRows(y: Word)
    requires y < 0x80
    ensures exists k :: Tabulated(y, k)
  {
    if y < 0x40 {
      if y < 0x10 { Row0(y); } else if y < 0x20 { Row1(y); } else if y < 0x30 { Row2(y); } else { Row3(y); }
    } else {
      if y < 0x50 { Row4(y); } else if y < 0x60 { Row5(y); } else if y < 0x70 { Row6(y); } else { Row7(y); }
    }
  }

  lemma HighRows(y: Word)
    requires 0x80 <= y < 0x100
    ensures exists k :: Tabulated(y, k)
  {
    if y < 0xc0 {
      if y < 0x90 { Row8(y); } else if y < 0xa0 { Row9(y); } else if y < 0xb0 { RowA(y); } else { RowB(y); }
    } else {
      if y < 0xd0 { RowC(y); } else if y < 0xe0 { RowD(y); } else if y < 0xf0 { RowE(y); } else { RowF(y); }
    }
  }

  // ---- eight steps at once, for any linear step ----

  ghost predicate Linear(step: Word -> Word) {
    forall a: Word, b: Word :: step(Xor(a, b)) == Xor(step(a), step(b))
  }

  lemma FourLinear(step: Word -> Word, a: Word, b: Word)
    requires Linear(step)
    ensures Four(step, Xor(a, b)) == Xor(Four(step, a), Four(step, b))
  {
  }

  lemma EightLinear(step: Word -> Word, a: Word, b: Word, a': Word, b': Word)
    requires Linear(step) && a' == Eight(step, a) && b' == Eight(step, b)
    ensures Eight(step, Xor(a, b)) == Xor(a', b')
  {
    FourLinear(step, a, b);
    FourLinear(step, Four(step, a), Four(step, b));
  }

  lemma XorLowBit(a: Word, b: Word)
    ensures (a ^ b) & 1 == (a & 1) ^ (b & 1) && (a ^ b) >> 1 == (a >> 1) ^ (b >> 1)
  {
  }

  lemma LowBit(a: Word)
    ensures a & 1 == 0 || a & 1 == 1
  {
  }

  lemma XorTwice(x: Word, y: Word, p: Word)
    ensures (x ^ p) ^ (y ^ p) == x ^ y && (x ^ p) ^ y == (x ^ y) ^ p && x ^ (y ^ p) == (x ^ y) ^ p
  {
  }

  lemma BitStepXor(a: Word, b: Word)
    ensures BitStep(a ^ b) == BitStep(a) ^ BitStep(b)
  {
    XorLowBit(a, b);
    LowBit(a);
    LowBit(b);
    XorTwice(a >> 1, b >> 1, POLYNOMIAL);
  }

  /** A bit step is linear. */
  lemma BitStepLinear()
    ensures Linear(BitStep)
  {
    forall a: Word, b: Word ensures BitStep(Xor(a, b)) == Xor(BitStep(a), BitStep(b)) {
      BitStepXor(a, b);
    }
  }

  /** `step` is the bit step; sealed, so that the solver does not unfold it. */
  ghost predicate IsBitStep(step: Word -> Word) {
    forall t: bool :: IsBitStepFor(step, t)
  }

  ghost predicate IsBitStepFor(step: Word -> Word, t: bool) {
    step == BitStep
  }

  lemma TheBitStep() returns (step: Word -> Word)
    ensures IsBitStep(step) && Linear(step)
  {
    step := BitStep;
    BitStepLinear();
  }

  lemma OpenStep(step: Word -> Word)
    requires IsBitStep(step)
    ensures step == BitStep
  {
    assert IsBitStepFor(step, true);
  }

  /** Bits that are not shifted out are only shifted. */
  lemma HighBitsShifted(x: Word)
    ensures Eight(BitStep, x & 0xffffff00) == x >> 8
  {
  }

  lemma HighBits(step: Word -> Word, x: Word)
    requires IsBitStep(step)
    ensures Eight(step, x & 0xffffff00) == x >> 8
  {
    OpenStep(step);
    HighBitsShifted(x);
  }

  /** Every entry of the table is eight bit steps. */
  lemma TableEntry(step: Word -> Word, y: Word)
    requires IsBitStep(step) && y < 0x100
    ensures (y as nat) < 256 && CRC32TAB[y as nat] == Eight(step, y)
  {
    OpenStep(step);
    if y < 0x80 {
      LowRows(y);
    } else {
      HighRows(y);
    }
    var k :| Tabulated(y, k);
  }

  lemma LowBits(x: Word)
    ensures x & 0xff < 0x100
  {
  }

  lemma SplitBits(x: Word)
    ensures x == Xor(x & 0xffffff00, x & 0xff)
  {
  }

  /** `crc >> 8` */
  function DropByte(x: Word): Word {
    x >> 8
  }

  /** `crc & 0xff`, as an index. */
  function LowByte(x: Word): (i: nat)
    ensures i < 256
  {
    (x & 0xff) as nat
  }

  lemma LowEntry(step: Word -> Word, x: Word)
    requires IsBitStep(step)
    ensures CRC32TAB[LowByte(x)] == Eight(step, x & 0xff)
  {
    LowBits(x);
    TableEntry(step, x & 0xff);
  }

  /** Eight bit steps are one lookup. */
  lemma EightStepsByTable(step: Word -> Word, x: Word)
    requires IsBitStep(step) && Linear(step)
    ensures Eight(step, x) == Xor(DropByte(x), CRC32TAB[LowByte(x)])
  {
    SplitBits(x);
    HighBits(step, x);
    LowEntry(step, x);
    EightLinear(step, x & 0xffffff00, x & 0xff, DropByte(x), CRC32TAB[LowByte(x)]);
  }

  // ---- the loop ----

  lemma ByteIn(crc: Word, b: Byte)
    ensures DropByte(Xor(crc, Widen(b))) == DropByte(crc)
  {
  }

  method LookUp(crc: Word, b: Byte, ghost step: Word -> Word) returns (r: Word)
    requires IsBitStep(step) && Linear(step)
    ensures r == Eight(step, Xor(crc, Widen(b)))
  {
    ByteIn(crc, b);
    EightStepsByTable(step, Xor(crc, Widen(b)));
    r := Xor(DropByte(crc), CRC32TAB[LowByte(Xor(crc, Widen(b)))]);
  }

  lemma ComplementIsXor(x: Word)
    ensures Complement(x) == Xor(x, ALL_ONES)
  {
  }

  lemma Finished(step: Word -> Word, key: seq<Byte>, crc: Word)
    requires IsBitStep(step) && crc == Register(step, key)
    ensures Complement(crc) == BitwiseCrc(key)
  {
    OpenStep(step);
    ComplementIsXor(crc);
  }

  /** `crc` is the register after the first `i` bytes; sealed. */
  ghost predicate Registered(step: Word -> Word, key: seq<Byte>, i: nat, crc: Word) {
    forall t: bool :: RegisteredFor(step, key, i, crc, t)
  }

  ghost predicate RegisteredFor(step: Word -> Word, key: seq<Byte>, i: nat, crc: Word, t: bool) {
    i <= |key| && crc == Register(step, key[..i])
  }

  lemma RegisterStart(step: Word -> Word, key: seq<Byte>)
    ensures Registered(step, key, 0, Complement(0))
  {
    assert Complement(0) == ALL_ONES;
    assert Complement(0) == Register(step, key[..0]);
  }

  lemma RegisterNext(step: Word -> Word, key: seq<Byte>, i: nat, crc: Word, crc': Word)
    requires i < |key| && Registered(step, key, i, crc) && crc' == Eight(step, Xor(crc, Widen(key[i])))
    ensures Registered(step, key, i + 1, crc')
  {
    assert RegisteredFor(step, key, i, crc, true);
    assert key[..i + 1][..i] == key[..i];
    assert crc' == Register(step, key[..i + 1]);
  }

  lemma RegisterEnd(step: Word -> Word, key: seq<Byte>, crc: Word)
    requires IsBitStep(step) && Registered(step, key, |key|, crc)
    ensures Complement(crc) == BitwiseCrc(key)
  {
    assert RegisteredFor(step, key, |key|, crc, true);
    assert key[..|key|] == key;
    Finished(step, key, crc);
  }

  /** `hash_crc_32`; its index has 32 bits. */
  method HashCrc32(key: seq<Byte>) returns (r: Word)
    requires |key| < 0x1_0000_0000
    ensures r == BitwiseCrc(key)
  {
    ghost var step := TheBitStep();
    var crc := Complement(0);
    RegisterStart(step, key);
    var i := 0;
    while i < |key|
      invariant 0 <= i <= |key| && Registered(step, key, i, crc)
    {
      ghost var before := crc;
      crc := LookUp(crc, key[i], step);
      RegisterNext(step, key, i, before, crc);
      i := i + 1;
    }
    RegisterEnd(step, key, crc);
    r := Complement(crc);
  }

  // ---- the published check value ----

  /** One byte put in. */
  function ByteStep(r: Word, b: Byte): Word {
    Eight(BitStep, Xor(r, Widen(b)))
  }

  lemma CheckSteps()
    ensures ByteStep(0xffffffff, 0x31) == 0x7c231048
    ensures ByteStep(0x7c231048, 0x32) == 0xb0acbb32
    ensures ByteStep(0xb0acbb32, 0x33) == 0x77b79c2d
    ensures ByteStep(0x77b79c2d, 0x34) == 0x641c1f5c
    ensures ByteStep(0x641c1f5c, 0x35) == 0x340ac5e3
    ensures ByteStep(0x340ac5e3, 0x36) == 0xf68d2c9e
    ensures ByteStep(0xf68d2c9e, 0x37) == 0xaffc9660
    ensures ByteStep(0xaffc9660, 0x38) == 0x651f2550
    ensures ByteStep(0x651f2550, 0x39) == 0x340bc6d9
  {
  }

  lemma OneByte(step: Word -> Word, key: seq<Byte>, i: nat, r: Word, r': Word)
    requires IsBitStep(step) && i < |key| && Registered(step, key, i, r) && r' == ByteStep(r, key[i])
    ensures Registered(step, key, i + 1, r')
  {
    OpenStep(step);
    RegisterNext(step, key, i, r, r');
  }

  lemma NineBytes(step: Word -> Word, key: seq<Byte>)
    requires IsBitStep(step) && |key| == 9 && key[0] == 0x31 && key[1] == 0x32 && key[2] == 0x33 && key[3] == 0x34
    requires key[4] == 0x35 && key[5] == 0x36 && key[6] == 0x37 && key[7] == 0x38 && key[8] == 0x39
    ensures Registered(step, key, 9, 0x340bc6d9)
  {
    CheckSteps();
    RegisterStart(step, key);
    OneByte(step, key, 0, 0xffffffff, 0x7c231048);
    OneByte(step, key, 1, 0x7c231048, 0xb0acbb32);
    OneByte(step, key, 2, 0xb0acbb32, 0x77b79c2d);
    OneByte(step, key, 3, 0x77b79c2d, 0x641c1f5c);
    OneByte(step, key, 4, 0x641c1f5c, 0x340ac5e3);
    OneByte(step, key, 5, 0x340ac5e3, 0xf68d2c9e);
    OneByte(step, key, 6, 0xf68d2c9e, 0xaffc9660);
    OneByte(step, key, 7, 0xaffc9660, 0x651f2550);
    OneByte(step, key, 8, 0x651f2550, 0x340bc6d9);
  }

  /** The check value of this CRC: that of the nine digits from "1" to "9". */
  lemma CheckValue()
    ensures BitwiseCrc([0x31, 0x32, 0x33, 0x34, 0x35, 0x36, 0x37, 0x38, 0x39]) == 0xcbf43926
  {
    var key: seq<Byte> := [0x31, 0x32, 0x33, 0x34, 0x35, 0x36, 0x37, 0x38, 0x39];
    var step := TheBitStep();
    NineBytes(step, key);
    RegisterEnd(step, key, 0x340bc6d9);
  }
}
