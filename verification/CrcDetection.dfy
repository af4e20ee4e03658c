/** What the check value detects. */
module CrcDetection {
  import opened Bits
  import opened Crc16
  import Sequences

  /** Byte-wise exclusive or of two messages of the same length. */
  ghost predicate IsXor(a: seq<byte>, b: seq<byte>, c: seq<byte>) {
    && |a| == |b| == |c|
    && forall i :: 0 <= i < |a| ==> NumBits(c[i], 8) == XorBits(NumBits(a[i], 8), NumBits(b[i], 8))
  }

  lemma UpdateLinear(x: Word, y: Word, a: byte, b: byte, c: byte)
    requires NumBits(c, 8) == XorBits(NumBits(a, 8), NumBits(b, 8))
    ensures Update(XorBits(x, y), c) == XorBits(Update(x, a), Update(y, b))
  {
    StepsLinear(XorBits(x, HighByte(a)), XorBits(y, HighByte(b)), 8);
    assert XorBits(XorBits(x, y), HighByte(c)) == XorBits(XorBits(x, HighByte(a)), XorBits(y, HighByte(b)));
  }

  lemma {:induction false} CrcFromLinear(x: Word, y: Word, a: seq<byte>, b: seq<byte>, c: seq<byte>)
    requires IsXor(a, b, c)
    ensures CrcFrom(XorBits(x, y), c) == XorBits(CrcFrom(x, a), CrcFrom(y, b))
  {
    if a != [] {
      var n := |a| - 1;
      CrcFromLinear(x, y, a[..n], b[..n], c[..n]);
      UpdateLinear(CrcFrom(x, a[..n]), CrcFrom(y, b[..n]), a[n], b[n], c[n]);
    }
  }

  /** The check value is linear: that of the exclusive or of two messages of equal length is the
      exclusive or of theirs. */
  lemma CrcLinear(a: seq<byte>, b: seq<byte>, c: seq<byte>)
    requires IsXor(a, b, c)
    ensures Crc(c) == XorBits(Crc(a), Crc(b))
  {
    XorAlgebra(ZERO, ZERO, ZERO);
    CrcFromLinear(ZERO, ZERO, a, b, c);
  }

  lemma {:induction false} CrcFromAppend(x: Word, a: seq<byte>, b: seq<byte>)
    ensures CrcFrom(x, a + b) == CrcFrom(CrcFrom(x, a), b)
  {
    if b == [] {
      assert a + b == a;
    } else {
      var n := |b| - 1;
      assert (a + b)[..|a + b| - 1] == a + b[..n];
      CrcFromAppend(x, a, b[..n]);
    }
  }

  lemma TwoUpdates(x: Word, h: byte, l: byte)
    ensures CrcFrom(x, [h, l]) == Update(Update(x, h), l)
  {
    var two: seq<byte>, one: seq<byte> := [h, l], [h];
    assert two[..|two| - 1] == one && one[..|one| - 1] == [];
    assert CrcFrom(x, one) == Update(CrcFrom(x, []), h);
  }

  lemma JoinBytes(x: Word, h: byte, l: byte)
    ensures XorBits(XorBits(x, HighByte(h)), Zeros(8) + NumBits(l, 8)) == XorBits(x, NumBits(h, 8) + NumBits(l, 8))
  {
  }

  /** Feeding two bytes to the register is sixteen steps on the register plus the two bytes. */
  lemma TwoBytes(x: Word, h: byte, l: byte)
    ensures CrcFrom(x, [h, l]) == Steps(XorBits(x, NumBits(h, 8) + NumBits(l, 8)), 16)
  {
    TwoUpdates(x, h, l);
    JoinBytes(x, h, l);
    SixteenSteps(XorBits(x, HighByte(h)), l);
  }

  lemma SixteenSteps(r: Word, l: byte)
    ensures Update(Steps(r, 8), l) == Steps(XorBits(r, Zeros(8) + NumBits(l, 8)), 16)
  {
    var low: Word := Zeros(8) + NumBits(l, 8);
    LowByteUp(l);
    StepsLinear(r, low, 8);
    StepsAdd(XorBits(r, low), 8, 8);
  }

  lemma WordNumber(n: nat)
    requires n < 65536
    ensures NumOf(NumBits(n, 16)) == n
  {
    PowersOfTwo();
    NumOfBits(n, 16);
  }

  lemma WordValue(h: byte, l: byte, crc: Word)
    ensures 256 * h + l == NumOf(crc) <==> NumBits(h, 8) + NumBits(l, 8) == crc
  {
    TwoByteBits(h, l);
    BitsOfNum(crc);
    WordNumber(256 * h + l);
  }

  /** A message followed by a 16-bit word has check value zero exactly when the word is the
      message's check value. */
  lemma ResidueZero(data: seq<byte>, h: byte, l: byte)
    ensures Crc(data + [h, l]) == ZERO <==> 256 * h + l == CrcValue(data)
  {
    var word := NumBits(h, 8) + NumBits(l, 8);
    CrcFromAppend(ZERO, data, [h, l]);
    TwoBytes(Crc(data), h, l);
    StepsInjective(XorBits(Crc(data), word), 16);
    XorAlgebra(Crc(data), word, ZERO);
    WordValue(h, l, Crc(data));
  }

  // ---------------------------------------------------------------- bursts

  /** A message has check value zero exactly when its polynomial is divisible by the generator. */
  lemma ZeroIffDivisible(data: seq<byte>)
    ensures Crc(data) == ZERO <==> Remainder(MessageBits(data)) == ZERO
  {
    CrcIsRemainder(data);
    RemainderAppendZeros(MessageBits(data), 16);
    StepsInjective(Remainder(MessageBits(data)), 16);
  }

  ghost predicate Additive(x: seq<bool>, y: seq<bool>)
    requires |x| == |y|
  {
    Remainder(XorBits(x, y)) == XorBits(Remainder(x), Remainder(y))
  }

  lemma {:induction false} RemainderLinear(x: seq<bool>, y: seq<bool>)
    requires |x| == |y|
    ensures Additive(x, y)
  {
    if x == [] {
      NothingToAdd(x, y);
    } else {
      var n := |x| - 1;
      RemainderLinear(x[..n], y[..n]);
      OneMoreSum(x[..n], y[..n], x[n], y[n]);
      Sequences.FrontAndLast(x);
      Sequences.FrontAndLast(y);
    }
  }

  lemma NothingToAdd(x: seq<bool>, y: seq<bool>)
    requires x == [] && y == []
    ensures Additive(x, y)
  {
    assert XorBits(x, y) == [];
    XorAlgebra(ZERO, ZERO, ZERO);
  }

  lemma OneMoreSum(x: seq<bool>, y: seq<bool>, a: bool, b: bool)
    requires |x| == |y| && Additive(x, y)
    ensures Additive(x + [a], y + [b])
  {
    assert XorBits(x + [a], y + [b]) == XorBits(x, y) + [a != b];
    RemainderSnoc(XorBits(x, y), a != b);
    RemainderSnoc(x, a);
    RemainderSnoc(y, b);
    StepLinear(Remainder(x), Remainder(y));
    SumOfSums(Step(Remainder(x)), Step(Remainder(y)), a, b);
  }

  lemma SumOfSums(u: Word, v: Word, a: bool, b: bool)
    ensures XorBits(XorBits(u, v), Zeros(15) + [a != b])
      == XorBits(XorBits(u, Zeros(15) + [a]), XorBits(v, Zeros(15) + [b]))
  {
  }

  lemma RemainderOfZeros(n: nat)
    ensures Remainder(Zeros(n)) == ZERO
  {
    RemainderAppendZeros([], n);
    assert [] + Zeros(n) == Zeros(n);
    StepsInjective(ZERO, n);
  }

  /** At most sixteen coefficients anywhere in zeros are divisible by the generator only if they are
      zero themselves. */
  lemma BurstNonzero(k: nat, w: seq<bool>, n: nat)
    requires |w| <= 16
    ensures Remainder(Zeros(k) + w + Zeros(n)) == ZERO <==> w == Zeros(|w|)
  {
    RemainderAppendZeros(Zeros(k) + w, n);
    StepsInjective(Remainder(Zeros(k) + w), n);
    RemainderAppend(Zeros(k), w);
    RemainderOfZeros(k);
    StepsInjective(ZERO, |w|);
    XorAlgebra(Remainder(w), ZERO, ZERO);
    XorAlgebra(ZERO, Remainder(w), ZERO);
    RemainderOfShort(w);
    ShortZero(w);
  }

  lemma ShortZero(w: seq<bool>)
    requires |w| <= 16
    ensures Zeros(16 - |w|) + w == ZERO <==> w == Zeros(|w|)
  {
    var padded := Zeros(16 - |w|) + w;
    if padded == ZERO {
      forall i | 0 <= i < |w| ensures !w[i] {
        assert !padded[16 - |w| + i];
      }
    }
  }

  /** The two sequences agree but for the coefficients from k to end. */
  predicate AgreeOutside(x: seq<bool>, y: seq<bool>, k: nat, end: nat) {
    && |x| == |y| && k <= end <= |x|
    && forall i :: 0 <= i < |x| && (i < k || end <= i) ==> x[i] == y[i]
  }

  lemma XorZeroOutside(x: seq<bool>, y: seq<bool>, k: nat, end: nat)
    requires AgreeOutside(x, y, k, end)
    ensures XorBits(x, y) == Zeros(k) + XorBits(x, y)[k..end] + Zeros(|x| - end)
  {
  }

  lemma XorZeroInside(x: seq<bool>, y: seq<bool>, k: nat, end: nat)
    requires AgreeOutside(x, y, k, end)
    ensures XorBits(x, y)[k..end] == Zeros(end - k) ==> x == y
  {
    if XorBits(x, y)[k..end] == Zeros(end - k) {
      forall i | k <= i < end ensures x[i] == y[i] {
        assert !XorBits(x, y)[k..end][i - k];
      }
    }
  }

  /** Any change of a sequence of coefficients within sixteen in a row changes divisibility. */
  lemma BitsBurst(x: seq<bool>, y: seq<bool>, k: nat, end: nat)
    requires AgreeOutside(x, y, k, end) && end <= k + 16 && x != y
    requires Remainder(x) == ZERO
    ensures Remainder(y) != ZERO
  {
    XorZeroOutside(x, y, k, end);
    XorZeroInside(x, y, k, end);
    BurstNonzero(k, XorBits(x, y)[k..end], |x| - end);
    RemainderLinear(x, y);
    XorAlgebra(ZERO, Remainder(y), ZERO);
    XorAlgebra(Remainder(y), ZERO, ZERO);
  }

  // ---------------------------------------------------------------- bursts in bytes

  lemma {:induction false} MessageBit(data: seq<byte>, i: nat, j: nat)
    requires i < |data| && j < 8
    ensures |MessageBits(data)| == 8 * |data|
    ensures MessageBits(data)[8 * i + j] == NumBits(data[i], 8)[j]
  {
    var n := |data| - 1;
    MessageLength(data[..n]);
    if i < n {
      MessageBit(data[..n], i, j);
    }
  }

  lemma {:induction false} MessageLength(data: seq<byte>)
    ensures |MessageBits(data)| == 8 * |data|
  {
    if data != [] {
      MessageLength(data[..|data| - 1]);
    }
  }

  lemma ByteNumber(b: byte)
    ensures NumOf(NumBits(b, 8)) == b
  {
    PowersOfTwo();
    NumOfBits(b, 8);
  }

  lemma {:induction false} MessageBitsInjective(a: seq<byte>, b: seq<byte>)
    requires |a| == |b| && MessageBits(a) == MessageBits(b)
    ensures a == b
  {
    if a != [] {
      var n := |a| - 1;
      MessageLength(a[..n]);
      MessageLength(b[..n]);
      var x, y := MessageBits(a), MessageBits(b);
      assert x[..8 * n] == MessageBits(a[..n]) && y[..8 * n] == MessageBits(b[..n]);
      assert x[8 * n..] == NumBits(a[n], 8) && y[8 * n..] == NumBits(b[n], 8);
      MessageBitsInjective(a[..n], b[..n]);
      ByteNumber(a[n]);
      ByteNumber(b[n]);
      assert a == a[..n] + [a[n]] && b == b[..n] + [b[n]];
    }
  }

  /** The two messages agree but for sixteen bits in a row, from bit k on. */
  predicate WithinBurst(a: seq<byte>, b: seq<byte>, k: nat) {
    && |a| == |b| && |MessageBits(a)| == |MessageBits(b)| && k <= |MessageBits(a)|
    && forall i :: 0 <= i < |MessageBits(a)| && (i < k || k + 16 <= i) ==> MessageBits(a)[i] == MessageBits(b)[i]
  }

  /** Any change of a message with check value zero that is confined to sixteen bits in a row, at any
      position, makes the check value nonzero. */
  lemma BurstDetected(a: seq<byte>, b: seq<byte>, k: nat)
    requires a != b && WithinBurst(a, b, k) && Crc(a) == ZERO
    ensures Crc(b) != ZERO
  {
    if MessageBits(a) == MessageBits(b) {
      MessageBitsInjective(a, b);
    }
    ZeroIffDivisible(a);
    ZeroIffDivisible(b);
    var n := |MessageBits(a)|;
    BitsBurst(MessageBits(a), MessageBits(b), k, if k + 16 <= n then k + 16 else n);
  }

  /** Two adjacent bytes are sixteen bits in a row. */
  lemma TwoBytesAreABurst(a: seq<byte>, b: seq<byte>, k: nat)
    requires |a| == |b| && k < |a|
    requires forall i :: 0 <= i < |a| && i != k && i != k + 1 ==> a[i] == b[i]
    ensures WithinBurst(a, b, 8 * k)
  {
    MessageLength(a);
    MessageLength(b);
    forall i | 0 <= i < 8 * |a| && (i < 8 * k || 8 * k + 16 <= i)
      ensures MessageBits(a)[i] == MessageBits(b)[i]
    {
      MessageBit(a, i / 8, i % 8);
      MessageBit(b, i / 8, i % 8);
    }
  }
}
