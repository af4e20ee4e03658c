/** The 256-entry table of the frame check and the loop that uses it. */
module CrcTable {
  import opened Bits
  import opened Crc16

  // The precomputed table, in rows of eight entries.
  const ROW0: seq<nat> := [0x0000, 0x1021, 0x2042, 0x3063, 0x4084, 0x50a5, 0x60c6, 0x70e7]
  const ROW1: seq<nat> := [0x8108, 0x9129, 0xa14a, 0xb16b, 0xc18c, 0xd1ad, 0xe1ce, 0xf1ef]
  const ROW2: seq<nat> := [0x1231, 0x0210, 0x3273, 0x2252, 0x52b5, 0x4294, 0x72f7, 0x62d6]
  const ROW3: seq<nat> := [0x9339, 0x8318, 0xb37b, 0xa35a, 0xd3bd, 0xc39c, 0xf3ff, 0xe3de]
  const ROW4: seq<nat> := [0x2462, 0x3443, 0x0420, 0x1401, 0x64e6, 0x74c7, 0x44a4, 0x5485]
  const ROW5: seq<nat> := [0xa56a, 0xb54b, 0x8528, 0x9509, 0xe5ee, 0xf5cf, 0xc5ac, 0xd58d]
  const ROW6: seq<nat> := [0x3653, 0x2672, 0x1611, 0x0630, 0x76d7, 0x66f6, 0x5695, 0x46b4]
  const ROW7: seq<nat> := [0xb75b, 0xa77a, 0x9719, 0x8738, 0xf7df, 0xe7fe, 0xd79d, 0xc7bc]
  const ROW8: seq<nat> := [0x48c4, 0x58e5, 0x6886, 0x78a7, 0x0840, 0x1861, 0x2802, 0x3823]
  const ROW9: seq<nat> := [0xc9cc, 0xd9ed, 0xe98e, 0xf9af, 0x8948, 0x9969, 0xa90a, 0xb92b]
  const ROW10: seq<nat> := [0x5af5, 0x4ad4, 0x7ab7, 0x6a96, 0x1a71, 0x0a50, 0x3a33, 0x2a12]
  const ROW11: seq<nat> := [0xdbfd, 0xcbdc, 0xfbbf, 0xeb9e, 0x9b79, 0x8b58, 0xbb3b, 0xab1a]
  const ROW12: seq<nat> := [0x6ca6, 0x7c87, 0x4ce4, 0x5cc5, 0x2c22, 0x3c03, 0x0c60, 0x1c41]
  const ROW13: seq<nat> := [0xedae, 0xfd8f, 0xcdec, 0xddcd, 0xad2a, 0xbd0b, 0x8d68, 0x9d49]
  const ROW14: seq<nat> := [0x7e97, 0x6eb6, 0x5ed5, 0x4ef4, 0x3e13, 0x2e32, 0x1e51, 0x0e70]
  const ROW15: seq<nat> := [0xff9f, 0xefbe, 0xdfdd, 0xcffc, 0xbf1b, 0xaf3a, 0x9f59, 0x8f78]
  const ROW16: seq<nat> := [0x9188, 0x81a9, 0xb1ca, 0xa1eb, 0xd10c, 0xc12d, 0xf14e, 0xe16f]
  const ROW17: seq<nat> := [0x1080, 0x00a1, 0x30c2, 0x20e3, 0x5004, 0x4025, 0x7046, 0x6067]
  const ROW18: seq<nat> := [0x83b9, 0x9398, 0xa3fb, 0xb3da, 0xc33d, 0xd31c, 0xe37f, 0xf35e]
  const ROW19: seq<nat> := [0x02b1, 0x1290, 0x22f3, 0x32d2, 0x4235, 0x5214, 0x6277, 0x7256]
  const ROW20: seq<nat> := [0xb5ea, 0xa5cb, 0x95a8, 0x8589, 0xf56e, 0xe54f, 0xd52c, 0xc50d]
  const ROW21: seq<nat> := [0x34e2, 0x24c3, 0x14a0, 0x0481, 0x7466, 0x6447, 0x5424, 0x4405]
  const ROW22: seq<nat> := [0xa7db, 0xb7fa, 0x8799, 0x97b8, 0xe75f, 0xf77e, 0xc71d, 0xd73c]
  const ROW23: seq<nat> := [0x26d3, 0x36f2, 0x0691, 0x16b0, 0x6657, 0x7676, 0x4615, 0x5634]
  const ROW24: seq<nat> := [0xd94c, 0xc96d, 0xf90e, 0xe92f, 0x99c8, 0x89e9, 0xb98a, 0xa9ab]
  const ROW25: seq<nat> := [0x5844, 0x4865, 0x7806, 0x6827, 0x18c0, 0x08e1, 0x3882, 0x28a3]
  const ROW26: seq<nat> := [0xcb7d, 0xdb5c, 0xeb3f, 0xfb1e, 0x8bf9, 0x9bd8, 0xabbb, 0xbb9a]
  const ROW27: seq<nat> := [0x4a75, 0x5a54, 0x6a37, 0x7a16, 0x0af1, 0x1ad0, 0x2ab3, 0x3a92]
  const ROW28: seq<nat> := [0xfd2e, 0xed0f, 0xdd6c, 0xcd4d, 0xbdaa, 0xad8b, 0x9de8, 0x8dc9]
  const ROW29: seq<nat> := [0x7c26, 0x6c07, 0x5c64, 0x4c45, 0x3ca2, 0x2c83, 0x1ce0, 0x0cc1]
  const ROW30: seq<nat> := [0xef1f, 0xff3e, 0xcf5d, 0xdf7c, 0xaf9b, 0xbfba, 0x8fd9, 0x9ff8]
  const ROW31: seq<nat> := [0x6e17, 0x7e36, 0x4e55, 0x5e74, 0x2e93, 0x3eb2, 0x0ed1, 0x1ef0]

  function Row(r: nat): (row: seq<nat>)
    ensures |row| == 8
  {
    match r
    case 0 => ROW0
    case 1 => ROW1
    case 2 => ROW2
    case 3 => ROW3
    case 4 => ROW4
    case 5 => ROW5
    case 6 => ROW6
    case 7 => ROW7
    case 8 => ROW8
    case 9 => ROW9
    case 10 => ROW10
    case 11 => ROW11
    case 12 => ROW12
    case 13 => ROW13
    case 14 => ROW14
    case 15 => ROW15
    case 16 => ROW16
    case 17 => ROW17
    case 18 => ROW18
    case 19 => ROW19
    case 20 => ROW20
    case 21 => ROW21
    case 22 => ROW22
    case 23 => ROW23
    case 24 => ROW24
    case 25 => ROW25
    case 26 => ROW26
    case 27 => ROW27
    case 28 => ROW28
    case 29 => ROW29
    case 30 => ROW30
    case _ => ROW31
  }

  function Table(i: nat): nat {
    Row(i / 8)[i % 8]
  }

  /** Subtracting the generator from a number: toggling the bits of x^12, x^5 and 1. */
  function Subtract(n: nat): nat {
    Flip(Flip(Flip(n, 4096), 32), 1)
  }

  /** One division step on a 16-bit number. */
  function StepNum(n: nat): nat {
    if n >= 32768 then Subtract(2 * n - 65536) else 2 * n
  }

  /** A row follows from the half row starting at k of the row with half its index. */
  predicate Follows(row: seq<nat>, half: seq<nat>, k: nat) {
    && |row| == |half| == 8 && k <= 4
    && row[0] == StepNum(half[k]) && row[1] == Subtract(row[0])
    && row[2] == StepNum(half[k + 1]) && row[3] == Subtract(row[2])
    && row[4] == StepNum(half[k + 2]) && row[5] == Subtract(row[4])
    && row[6] == StepNum(half[k + 3]) && row[7] == Subtract(row[6])
  }

  predicate RowFollows(r: nat) {
    Follows(Row(r), Row(r / 2), 4 * (r % 2))
  }


  lemma Row0() ensures RowFollows(0) {}
  lemma Row1() ensures RowFollows(1) {}
  lemma Row2() ensures RowFollows(2) {}
  lemma Row3() ensures RowFollows(3) {}
  lemma Row4() ensures RowFollows(4) {}
  lemma Row5() ensures RowFollows(5) {}
  lemma Row6() ensures RowFollows(6) {}
  lemma Row7() ensures RowFollows(7) {}
  lemma Row8() ensures RowFollows(8) {}
  lemma Row9() ensures RowFollows(9) {}
  lemma Row10() ensures RowFollows(10) {}
  lemma Row11() ensures RowFollows(11) {}
  lemma Row12() ensures RowFollows(12) {}
  lemma Row13() ensures RowFollows(13) {}
  lemma Row14() ensures RowFollows(14) {}
  lemma Row15() ensures RowFollows(15) {}
  lemma Row16() ensures RowFollows(16) {}
  lemma Row17() ensures RowFollows(17) {}
  lemma Row18() ensures RowFollows(18) {}
  lemma Row19() ensures RowFollows(19) {}
  lemma Row20() ensures RowFollows(20) {}
  lemma Row21() ensures RowFollows(21) {}
  lemma Row22() ensures RowFollows(22) {}
  lemma Row23() ensures RowFollows(23) {}
  lemma Row24() ensures RowFollows(24) {}
  lemma Row25() ensures RowFollows(25) {}
  lemma Row26() ensures RowFollows(26) {}
  lemma Row27() ensures RowFollows(27) {}
  lemma Row28() ensures RowFollows(28) {}
  lemma Row29() ensures RowFollows(29) {}
  lemma Row30() ensures RowFollows(30) {}
  lemma Row31() ensures RowFollows(31) {}

  lemma Rows0To7(r: nat)
    requires 0 <= r < 8
    ensures RowFollows(r)
  {
    match r
    case 0 => Row0();
    case 1 => Row1();
    case 2 => Row2();
    case 3 => Row3();
    case 4 => Row4();
    case 5 => Row5();
    case 6 => Row6();
    case 7 => Row7();
  }

  lemma Rows8To15(r: nat)
    requires 8 <= r < 16
    ensures RowFollows(r)
  {
    match r
    case 8 => Row8();
    case 9 => Row9();
    case 10 => Row10();
    case 11 => Row11();
    case 12 => Row12();
    case 13 => Row13();
    case 14 => Row14();
    case 15 => Row15();
  }

  lemma Rows16To23(r: nat)
    requires 16 <= r < 24
    ensures RowFollows(r)
  {
    match r
    case 16 => Row16();
    case 17 => Row17();
    case 18 => Row18();
    case 19 => Row19();
    case 20 => Row20();
    case 21 => Row21();
    case 22 => Row22();
    case 23 => Row23();
  }

  lemma Rows24To31(r: nat)
    requires 24 <= r < 32
    ensures RowFollows(r)
  {
    match r
    case 24 => Row24();
    case 25 => Row25();
    case 26 => Row26();
    case 27 => Row27();
    case 28 => Row28();
    case 29 => Row29();
    case 30 => Row30();
    case 31 => Row31();
  }

  lemma AllRows(r: nat)
    requires r < 32
    ensures RowFollows(r)
  {
    if r < 8 {
      Rows0To7(r);
    } else if r < 16 {
      Rows8To15(r);
    } else if r < 24 {
      Rows16To23(r);
    } else {
      Rows24To31(r);
    }
  }

  /** Subtracting the generator is exclusive or with it. */
  lemma SubtractIsXor(n: nat)
    ensures NumBits(Subtract(n), 16) == XorBits(NumBits(n, 16), GENERATOR)
  {
    PowersOfTwo();
    FlipIsXor(n, 12, 16);
    FlipIsXor(Flip(n, 4096), 5, 16);
    FlipIsXor(Flip(Flip(n, 4096), 32), 0, 16);
  }

  /** The step on numbers is the step on polynomials. */
  lemma StepNumIsStep(n: nat)
    requires n < 65536
    ensures NumBits(StepNum(n), 16) == Step(NumBits(n, 16))
  {
    DoubleIsShift(n);
    TopBit(n);
    if n >= 32768 {
      PowersOfTwo();
      LowBits(1, 2 * n - 65536, 16);
      SubtractIsXor(2 * n - 65536);
    } else {
      XorAlgebra(NumBits(2 * n, 16), ZERO, ZERO);
    }
  }

  /** Where the entries i, i / 2 and i - 1 are. */
  lemma EntryPlaces(i: nat)
    requires 0 < i < 256
    ensures i % 2 == 0 ==> i / 2 / 8 == i / 8 / 2 && i / 2 % 8 == 4 * (i / 8 % 2) + i % 8 / 2
    ensures i % 2 == 1 ==> (i - 1) / 8 == i / 8 && (i - 1) % 8 == i % 8 - 1
    ensures i % 8 % 2 == i % 2
  {
  }

  lemma TableEntry(i: nat)
    requires 0 < i < 256
    ensures i % 2 == 0 ==> Table(i) == StepNum(Table(i / 2))
    ensures i % 2 == 1 ==> Table(i) == Subtract(Table(i - 1))
  {
    EntryPlaces(i);
    AllRows(i / 8);
    EntryFollows(Row(i / 8), Row(i / 8 / 2), i / 8 % 2, i % 8);
  }

  lemma EntryFollows(row: seq<nat>, half: seq<nat>, odd: nat, j: nat)
    requires odd < 2 && j < 8 && Follows(row, half, 4 * odd)
    ensures j % 2 == 0 ==> row[j] == StepNum(half[4 * odd + j / 2])
    ensures j % 2 == 1 ==> row[j] == Subtract(row[j - 1])
  {
  }

  lemma AppendBit(i: nat, bit: bool, k: nat)
    ensures NumBits(2 * i + BitValue(bit), k + 1) == NumBits(i, k) + [bit]
  {
    assert (2 * i + BitValue(bit)) / 2 == i;
  }

  lemma SmallByte(i: nat)
    requires i < 128
    ensures NumBits(i, 8) == [false] + NumBits(i, 7)
  {
    SplitBits(i, 1, 7);
    HalveIsDivide(i, 7);
    PowersOfTwo();
    assert NumBits(0, 1) == [false];
  }

  /** Feeding the byte value twice as large means one more step before the others. */
  lemma DoubleByte(i: nat)
    requires i < 128
    ensures HighByte(2 * i) == Step(HighByte(i))
    ensures HighByte(2 * i + 1) == XorBits(HighByte(2 * i), Unit(16, 8))
  {
    SmallByte(i);
    AppendBit(i, false, 7);
    AppendBit(i, true, 7);
    var low := NumBits(i, 7);
    var r: Word := [false] + low + Zeros(8);
    assert HighByte(i) == r;
    assert HighByte(2 * i) == low + [false] + Zeros(8);
    assert Step(r) == r[1..] + [false];
  }

  lemma StepsCommute(a: Word, n: nat)
    ensures Steps(Step(a), n) == Step(Steps(a, n))
  {
    StepsAdd(a, 1, n);
    StepsAdd(a, n, 1);
    assert Steps(a, 1) == Step(Steps(a, 0));
    assert Steps(Steps(a, n), 1) == Step(Steps(Steps(a, n), 0));
  }

  /** Eight steps on x^8 give the generator's tail. */
  lemma EightStepsOfOne()
    ensures Steps(Unit(16, 8), 8) == GENERATOR
  {
    assert Unit(16, 8) == Zeros(7) + ([true] + Zeros(8));
    NoShift(Unit(16, 8), [true] + Zeros(8));
    StepsShift(Unit(16, 8), [true] + Zeros(8), 7);
    var top: Word := Steps(Unit(16, 8), 7);
    TopBitComesOut(top);
  }

  lemma TopBitComesOut(top: Word)
    requires top == Zeros(0) + ([true] + Zeros(8)) + Zeros(7)
    ensures Step(top) == GENERATOR
  {
    var shifted := top[1..] + [false];
    assert forall i :: 0 <= i < 15 ==> shifted[i] == top[i + 1];
    assert shifted == ZERO;
    XorAlgebra(ZERO, GENERATOR, ZERO);
  }

  lemma FlipBounded(n: nat)
    requires n < 65536
    ensures Flip(n, 4096) < 65536 && Flip(n, 32) < 65536 && Flip(n, 1) < 65536
  {
  }

  lemma SubtractBounded(n: nat)
    requires n < 65536
    ensures Subtract(n) < 65536
  {
    FlipBounded(n);
    FlipBounded(Flip(n, 4096));
    FlipBounded(Flip(Flip(n, 4096), 32));
  }

  /** The remainder of a byte, as a number. */
  function Ideal(i: nat): (v: nat)
    requires i < 256
    ensures v < 65536 && NumBits(v, 16) == Steps(HighByte(i), 8)
  {
    BitsOfNum(Steps(HighByte(i), 8));
    PowersOfTwo();
    NumOf(Steps(HighByte(i), 8))
  }

  lemma SameBits(m: nat, n: nat)
    requires m < 65536 && n < 65536 && NumBits(m, 16) == NumBits(n, 16)
    ensures m == n
  {
    PowersOfTwo();
    NumOfBits(m, 16);
    NumOfBits(n, 16);
  }

  lemma IsIdeal(i: nat, v: nat)
    requires i < 256 && v < 65536 && NumBits(v, 16) == Steps(HighByte(i), 8)
    ensures Ideal(i) == v
  {
    SameBits(Ideal(i), v);
  }

  lemma EvenBits(i: nat, half: nat)
    requires i < 128 && half < 65536 && NumBits(half, 16) == Steps(HighByte(i), 8)
    ensures StepNum(half) < 65536 && NumBits(StepNum(half), 16) == Steps(HighByte(2 * i), 8)
  {
    StepNumIsStep(half);
    DoubleByte(i);
    StepsCommute(HighByte(i), 8);
    if half >= 32768 {
      SubtractBounded(2 * half - 65536);
    }
  }

  lemma OddBits(i: nat, even: nat)
    requires i < 128 && even < 65536 && NumBits(even, 16) == Steps(HighByte(2 * i), 8)
    ensures Subtract(even) < 65536 && NumBits(Subtract(even), 16) == Steps(HighByte(2 * i + 1), 8)
  {
    SubtractIsXor(even);
    DoubleByte(i);
    StepsLinear(HighByte(2 * i), Unit(16, 8), 8);
    EightStepsOfOne();
    SubtractBounded(even);
  }

  lemma IdealEven(i: nat)
    requires i < 128
    ensures Ideal(2 * i) == StepNum(Ideal(i))
  {
    EvenBits(i, Ideal(i));
    IsIdeal(2 * i, StepNum(Ideal(i)));
  }

  lemma IdealOdd(i: nat)
    requires i < 128
    ensures Ideal(2 * i + 1) == Subtract(Ideal(2 * i))
  {
    OddBits(i, Ideal(2 * i));
    IsIdeal(2 * i + 1, Subtract(Ideal(2 * i)));
  }

  lemma IdealEntry(k: nat)
    requires 0 < k < 256
    ensures k % 2 == 0 ==> Ideal(k) == StepNum(Ideal(k / 2))
    ensures k % 2 == 1 ==> Ideal(k) == Subtract(Ideal(k - 1))
  {
    var h := k / 2;
    if k % 2 == 0 {
      assert k == 2 * h;
      IdealEven(h);
    } else {
      assert k == 2 * h + 1;
      IdealOdd(h);
    }
  }

  /** The recurrence both the table and the remainders satisfy. */
  predicate Recurs(a: seq<nat>, i: nat)
    requires 0 < i < |a|
  {
    a[i] == if i % 2 == 0 then StepNum(a[i / 2]) else Subtract(a[i - 1])
  }

  predicate Recurrent(a: seq<nat>) {
    forall k {:trigger Recurs(a, k)} :: 0 < k < |a| ==> Recurs(a, k)
  }

  lemma {:induction false} RecurrenceUnique(a: seq<nat>, b: seq<nat>, i: nat)
    requires i < |a| == |b| && a[0] == b[0] && Recurrent(a) && Recurrent(b)
    ensures a[i] == b[i]
  {
    if i > 0 {
      assert Recurs(a, i) && Recurs(b, i);
      RecurrenceUnique(a, b, if i % 2 == 0 then i / 2 else i - 1);
    }
  }

  function Entries(): (table: seq<nat>)
    ensures |table| == 256 && forall j :: 0 <= j < 256 ==> table[j] == Table(j)
  {
    seq(256, (j: nat) => Table(j))
  }

  function Ideals(): (ideal: seq<nat>)
    ensures |ideal| == 256 && forall j :: 0 <= j < 256 ==> ideal[j] == Ideal(j)
  {
    seq(256, (j: nat) requires j < 256 => Ideal(j))
  }

  lemma IdealsRecur(k: nat)
    requires 0 < k < 256
    ensures Recurs(Ideals(), k)
  {
    IdealEntry(k);
    if k % 2 == 0 {
      assert Ideals()[k] == Ideal(k) && Ideals()[k / 2] == Ideal(k / 2);
    } else {
      assert Ideals()[k] == Ideal(k) && Ideals()[k - 1] == Ideal(k - 1);
    }
  }

  lemma EntriesRecur(k: nat)
    requires 0 < k < 256
    ensures Recurs(Entries(), k)
  {
    TableEntry(k);
  }

  lemma EntriesAreIdeals(i: nat)
    requires i < 256
    ensures Entries()[i] == Ideals()[i]
  {
    FirstEntry();
    forall k | 0 < k < 256 ensures Recurs(Entries(), k) {
      EntriesRecur(k);
    }
    forall k | 0 < k < 256 ensures Recurs(Ideals(), k) {
      IdealsRecur(k);
    }
    RecurrenceUnique(Entries(), Ideals(), i);
  }

  /** All 256 entries are what polynomial division gives for their index. */
  lemma TableIsDivision(i: byte)
    ensures Table(i) == Ideal(i)
  {
    EntriesAreIdeals(i);
    assert Entries()[i] == Table(i);
  }

  lemma FirstEntry()
    ensures Table(0) == Ideal(0)
  {
    assert NumBits(0, 16) == ZERO by { ZeroBits(16); }
    assert HighByte(0) == ZERO by { ZeroBits(8); }
    StepsInjective(ZERO, 8);
    SameBits(0, Ideal(0));
  }

  // ---------------------------------------------------------------- the loop

  function XorWord(a: nat, b: nat): (c: nat)
    ensures c < 65536 && NumBits(c, 16) == XorBits(NumBits(a, 16), NumBits(b, 16))
  {
    BitsOfNum(XorBits(NumBits(a, 16), NumBits(b, 16)));
    PowersOfTwo();
    NumOf(XorBits(NumBits(a, 16), NumBits(b, 16)))
  }

  /** Eight steps move a low byte up unchanged. */
  lemma LowByteShifts(b: byte)
    ensures Steps(Zeros(8) + NumBits(b, 8), 8) == NumBits(b * 256, 16)
  {
    LowByteUp(b);
    TwoByteBits(b, 0);
    ZeroBits(8);
  }

  lemma RegisterHalves(crc: nat, b: byte)
    requires crc < 65536
    ensures XorBits(NumBits(crc, 16), HighByte(b))
      == XorBits(HighByte(XorByte(crc / 256, b)), Zeros(8) + NumBits(crc % 256, 8))
  {
    WordBits(crc);
  }

  /** The table lookup does eight division steps at once. */
  lemma LookupIsUpdate(crc: nat, b: byte)
    requires crc < 65536
    ensures NumBits(XorWord(crc % 256 * 256, Table(XorByte(crc / 256, b))), 16) == Update(NumBits(crc, 16), b)
  {
    var i := XorByte(crc / 256, b);
    RegisterHalves(crc, b);
    StepsLinear(HighByte(i), Zeros(8) + NumBits(crc % 256, 8), 8);
    LowByteShifts(crc % 256);
    TableIsDivision(i);
    XorAlgebra(Steps(HighByte(i), 8), NumBits(crc % 256 * 256, 16), ZERO);
  }

  /** The loop over the data: `crc << 8` truncated to 16 bits is `crc % 256 * 256`. */
  method ComputeCrc(data: seq<byte>) returns (crc: nat)
    ensures crc == CrcValue(data)
  {
    crc := 0;
    var cnt := 0;
    ZeroBits(16);
    while cnt < |data|
      invariant 0 <= cnt <= |data| && crc < 65536
      invariant NumBits(crc, 16) == Crc(data[..cnt])
    {
      LookupIsUpdate(crc, data[cnt]);
      crc := XorWord(crc % 256 * 256, Table(XorByte(crc / 256, data[cnt])));
      assert data[..cnt + 1][..cnt] == data[..cnt];
      cnt := cnt + 1;
    }
    assert data[..cnt] == data;
    BitsOfNum(Crc(data));
    SameBits(crc, CrcValue(data));
  }
}
