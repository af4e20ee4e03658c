/** The frame check: a CRC with the generator x^16 + x^12 + x^5 + 1 of section 2 of ITU-T
    Recommendation V.41, initial value 0, most significant bit first. */
module Crc16 {
  import opened Bits
  import Sequences

  /** A polynomial of degree below 16, highest coefficient first. */
  type Word = bits: seq<bool> | |bits| == 16 witness Zeros(16)

  const ZERO: Word := Zeros(16)

  /** The generator without its leading term: x^12 + x^5 + 1. */
  const GENERATOR: Word := XorBits(XorBits(Unit(16, 12), Unit(16, 5)), Unit(16, 0))

  // ---------------------------------------------------------------- polynomial division

  /** One step of long division: shift in a zero coefficient and subtract the generator if a
      leading coefficient comes out. */
  function Step(r: Word): Word {
    XorBits(r[1..] + [false], if r[0] then GENERATOR else ZERO)
  }

  function Steps(r: Word, n: nat): Word {
    if n == 0 then r else Step(Steps(r, n - 1))
  }

  /** Remainder of the polynomial with the given coefficients after division by the generator. */
  function Remainder(bits: seq<bool>): Word {
    if bits == [] then ZERO
    else XorBits(Step(Remainder(bits[..|bits| - 1])), Zeros(15) + [bits[|bits| - 1]])
  }

  /** The message as one polynomial, the first byte's highest bit first. */
  function MessageBits(data: seq<byte>): seq<bool> {
    if data == [] then [] else MessageBits(data[..|data| - 1]) + NumBits(data[|data| - 1], 8)
  }

  // ---------------------------------------------------------------- the register, byte by byte

  function HighByte(b: byte): Word {
    NumBits(b, 8) + Zeros(8)
  }

  function Update(crc: Word, b: byte): Word {
    Steps(XorBits(crc, HighByte(b)), 8)
  }

  function CrcFrom(crc: Word, data: seq<byte>): Word {
    if data == [] then crc else Update(CrcFrom(crc, data[..|data| - 1]), data[|data| - 1])
  }

  function Crc(data: seq<byte>): Word {
    CrcFrom(ZERO, data)
  }

  /** The check value as the 16-bit number the code computes. */
  function CrcValue(data: seq<byte>): (n: nat)
    ensures n < 65536
  {
    BitsOfNum(Crc(data));
    PowersOfTwo();
    NumOf(Crc(data))
  }

  // ---------------------------------------------------------------- linearity

  lemma XorAlgebra(a: Word, b: Word, c: Word)
    ensures XorBits(a, b) == XorBits(b, a)
    ensures XorBits(XorBits(a, b), c) == XorBits(a, XorBits(b, c))
    ensures XorBits(a, ZERO) == a
    ensures XorBits(a, b) == ZERO <==> a == b
  {
    if XorBits(a, b) == ZERO {
      forall i | 0 <= i < 16 ensures a[i] == b[i] {
        assert !XorBits(a, b)[i];
      }
    }
  }

  lemma StepLinear(a: Word, b: Word)
    ensures Step(XorBits(a, b)) == XorBits(Step(a), Step(b))
  {
  }

  predicate LinearAfter(a: Word, b: Word, n: nat) {
    Steps(XorBits(a, b), n) == XorBits(Steps(a, n), Steps(b, n))
  }

  lemma {:induction false} StepsLinear(a: Word, b: Word, n: nat)
    ensures LinearAfter(a, b, n)
  {
    if n > 0 {
      StepsLinear(a, b, n - 1);
      LinearOnce(a, b, n);
    }
  }

  lemma LinearOnce(a: Word, b: Word, n: nat)
    requires 0 < n && LinearAfter(a, b, n - 1)
    ensures LinearAfter(a, b, n)
  {
    StepLinear(Steps(a, n - 1), Steps(b, n - 1));
  }

  lemma StepInjective(a: Word)
    ensures Step(a) == ZERO <==> a == ZERO
  {
    if Step(a) == ZERO {
      assert !Step(a)[15];
      forall i | 0 <= i < 16 ensures !a[i] {
        if i > 0 {
          assert !Step(a)[i - 1];
        }
      }
    }
  }

  lemma {:induction false} StepsInjective(a: Word, n: nat)
    ensures Steps(a, n) == ZERO <==> a == ZERO
  {
    if n > 0 {
      StepsInjective(a, n - 1);
      StepInjective(Steps(a, n - 1));
    }
  }

  lemma {:induction false} StepsAdd(a: Word, m: nat, n: nat)
    ensures Steps(Steps(a, m), n) == Steps(a, m + n)
  {
    if n > 0 {
      StepsAdd(a, m, n - 1);
    }
  }

  /** While no coefficient comes out at the top, division only shifts. */
  predicate Shifts(start: Word, low: seq<bool>, n: nat) {
    n + |low| <= 16 && Steps(start, n) == Zeros(16 - |low| - n) + low + Zeros(n)
  }

  lemma {:induction false} StepsShift(start: Word, low: seq<bool>, n: nat)
    requires n + |low| <= 16 && Shifts(start, low, 0)
    ensures Shifts(start, low, n)
  {
    if n > 0 {
      StepsShift(start, low, n - 1);
      ShiftOnce(start, low, n);
    }
  }

  lemma NoShift(start: Word, low: seq<bool>)
    requires |low| <= 16 && start == Zeros(16 - |low|) + low
    ensures Shifts(start, low, 0)
  {
    assert Zeros(0) == [];
    assert Zeros(16 - |low|) + low + [] == Zeros(16 - |low|) + low;
  }

  lemma ShiftOnce(start: Word, low: seq<bool>, n: nat)
    requires 0 < n && n + |low| <= 16 && Shifts(start, low, n - 1)
    ensures Shifts(start, low, n)
  {
    StepShifts(low, n - 1);
  }

  lemma StepShifts(low: seq<bool>, n: nat)
    requires n + |low| < 16
    ensures Step(Zeros(16 - |low| - n) + low + Zeros(n)) == Zeros(15 - |low| - n) + low + Zeros(n + 1)
  {
    var r: Word := Zeros(16 - |low| - n) + low + Zeros(n);
    assert !r[0];
    assert r[1..] + [false] == Zeros(15 - |low| - n) + low + Zeros(n + 1);
    XorAlgebra(r[1..] + [false], ZERO, ZERO);
  }

  // ---------------------------------------------------------------- the register is the remainder

  lemma RemainderAppendZero(bits: seq<bool>)
    ensures Remainder(bits + [false]) == Step(Remainder(bits))
  {
    assert (bits + [false])[..|bits|] == bits;
    assert Zeros(15) + [false] == ZERO;
    XorAlgebra(Step(Remainder(bits)), ZERO, ZERO);
  }

  predicate ZerosStep(bits: seq<bool>, n: nat) {
    Remainder(bits + Zeros(n)) == Steps(Remainder(bits), n)
  }

  lemma {:induction false} RemainderAppendZeros(bits: seq<bool>, n: nat)
    ensures ZerosStep(bits, n)
  {
    if n == 0 {
      assert bits + Zeros(0) == bits;
    } else {
      RemainderAppendZeros(bits, n - 1);
      OneMoreZero(bits, n - 1);
    }
  }

  lemma OneMoreZero(bits: seq<bool>, n: nat)
    requires ZerosStep(bits, n)
    ensures ZerosStep(bits, n + 1)
  {
    calc {
      Remainder(bits + Zeros(n + 1));
      { assert bits + Zeros(n + 1) == bits + Zeros(n) + [false]; }
      Remainder(bits + Zeros(n) + [false]);
      { RemainderAppendZero(bits + Zeros(n)); }
      Step(Steps(Remainder(bits), n));
    }
  }

  /** Appending bits shifts the remainder so far and adds the remainder of the new bits. */
  predicate Appends(bits: seq<bool>, more: seq<bool>) {
    Remainder(bits + more) == XorBits(Steps(Remainder(bits), |more|), Remainder(more))
  }

  lemma {:induction false} RemainderAppend(bits: seq<bool>, more: seq<bool>)
    ensures Appends(bits, more)
  {
    if more == [] {
      NothingMore(bits, more);
    } else {
      var n := |more| - 1;
      RemainderAppend(bits, more[..n]);
      OneMoreBit(bits, more[..n], more[n]);
      Sequences.FrontAndLast(more);
    }
  }

  lemma NothingMore(bits: seq<bool>, more: seq<bool>)
    requires more == []
    ensures Appends(bits, more)
  {
    assert bits + more == bits;
    XorAlgebra(Remainder(bits), ZERO, ZERO);
  }

  lemma OneMoreBit(bits: seq<bool>, front: seq<bool>, bit: bool)
    requires Appends(bits, front)
    ensures Appends(bits, front + [bit])
  {
    SnocLast(bits, front, bit);
    RemainderSnoc(bits + front, bit);
    RemainderSnoc(front, bit);
    NextSteps(Remainder(bits), |front|);
    assert |front + [bit]| == |front| + 1;
    StepBoth(Remainder(bits + front), Steps(Remainder(bits), |front|), Remainder(front), Zeros(15) + [bit]);
  }

  lemma NextSteps(r: Word, n: nat)
    ensures Steps(r, n + 1) == Step(Steps(r, n))
  {
  }

  lemma StepBoth(sum: Word, a: Word, b: Word, c: Word)
    requires sum == XorBits(a, b)
    ensures XorBits(Step(sum), c) == XorBits(Step(a), XorBits(Step(b), c))
  {
    StepAndAdd(a, b, c);
  }

  lemma SnocLast<T>(a: seq<T>, b: seq<T>, x: T)
    ensures a + (b + [x]) == a + b + [x]
  {
  }

  lemma StepAndAdd(a: Word, b: Word, c: Word)
    ensures XorBits(Step(XorBits(a, b)), c) == XorBits(Step(a), XorBits(Step(b), c))
  {
    StepLinear(a, b);
    XorAlgebra(Step(a), Step(b), c);
  }

  lemma RemainderSnoc(bits: seq<bool>, bit: bool)
    ensures Remainder(bits + [bit]) == XorBits(Step(Remainder(bits)), Zeros(15) + [bit])
  {
    assert (bits + [bit])[..|bits|] == bits;
  }

  /** A polynomial of degree below 16 is its own remainder. */
  predicate OwnRemainder(bits: seq<bool>) {
    |bits| <= 16 && Remainder(bits) == Zeros(16 - |bits|) + bits
  }

  lemma {:induction false} RemainderOfShort(bits: seq<bool>)
    requires |bits| <= 16
    ensures OwnRemainder(bits)
  {
    if bits == [] {
      assert ZERO == Zeros(16) + [];
    } else {
      var n := |bits| - 1;
      RemainderOfShort(bits[..n]);
      OneMoreShort(bits[..n], bits[n]);
      assert bits == bits[..n] + [bits[n]];
    }
  }

  lemma OneMoreShort(front: seq<bool>, bit: bool)
    requires |front| < 16 && OwnRemainder(front)
    ensures OwnRemainder(front + [bit])
  {
    RemainderSnoc(front, bit);
    ShiftIn(front, bit);
  }

  lemma ShiftIn(bits: seq<bool>, bit: bool)
    requires |bits| < 16
    ensures XorBits(Step(Zeros(16 - |bits|) + bits), Zeros(15) + [bit]) == Zeros(15 - |bits|) + (bits + [bit])
  {
    var r: Word := Zeros(16 - |bits|) + bits;
    assert !r[0];
    assert Step(r) == Zeros(15 - |bits|) + bits + [false];
  }

  /** Feeding one byte to the register, in terms of remainders. */
  lemma RemainderAppendByte(front: seq<bool>, b: byte)
    ensures Steps(Remainder(front + NumBits(b, 8)), 16) == Update(Steps(Remainder(front), 16), b)
  {
    var r, bits := Remainder(front), NumBits(b, 8);
    var low: Word := Zeros(8) + bits;
    RemainderAppend(front, bits);
    RemainderOfShort(bits);
    StepsLinear(Steps(r, 8), low, 16);
    StepsAdd(r, 8, 16);
    StepsAdd(r, 16, 8);
    LowByteUp(b);
    StepsAdd(low, 8, 8);
    StepsLinear(Steps(r, 16), HighByte(b), 8);
  }

  lemma LowByteUp(b: byte)
    ensures Steps(Zeros(8) + NumBits(b, 8), 8) == HighByte(b)
  {
    NoShift(Zeros(8) + NumBits(b, 8), NumBits(b, 8));
    StepsShift(Zeros(8) + NumBits(b, 8), NumBits(b, 8), 8);
  }

  /** The register after the message is the remainder of the message times x^16: the check value
      is what bit-by-bit polynomial division gives. */
  lemma {:induction false} CrcIsRemainder(data: seq<byte>)
    ensures Crc(data) == Remainder(MessageBits(data) + Zeros(16))
  {
    RemainderAppendZeros(MessageBits(data), 16);
    if data == [] {
      StepsInjective(ZERO, 16);
    } else {
      var n := |data| - 1;
      CrcIsRemainder(data[..n]);
      RemainderAppendZeros(MessageBits(data[..n]), 16);
      RemainderAppendByte(MessageBits(data[..n]), data[n]);
    }
  }
}
