/** Numbers as bits, most significant first, and bitwise exclusive or. */
module Bits {
  import Arithmetic
  import Sequences

  type byte = n: int | 0 <= n < 256

  /** The low k bits of n. */
  function NumBits(n: nat, k: nat): (bits: seq<bool>)
    ensures |bits| == k
  {
    if k == 0 then [] else NumBits(n / 2, k - 1) + [n % 2 == 1]
  }

  function BitValue(bit: bool): nat {
    if bit then 1 else 0
  }

  function NumOf(bits: seq<bool>): nat {
    if bits == [] then 0 else 2 * NumOf(bits[..|bits| - 1]) + BitValue(bits[|bits| - 1])
  }

  function Zeros(k: nat): (bits: seq<bool>)
    ensures |bits| == k
    ensures forall i :: 0 <= i < k ==> !bits[i]
  {
    seq(k, _ => false)
  }

  function XorBits(a: seq<bool>, b: seq<bool>): (c: seq<bool>)
    requires |a| == |b|
    ensures |c| == |a|
    ensures forall i :: 0 <= i < |a| ==> c[i] == (a[i] != b[i])
  {
    seq(|a|, i requires 0 <= i < |a| => a[i] != b[i])
  }

  function Pow2(k: nat): (n: nat)
    ensures 0 < n
  {
    if k == 0 then 1 else 2 * Pow2(k - 1)
  }

  lemma {:induction false} NumOfBits(n: nat, k: nat)
    requires n < Pow2(k)
    ensures NumOf(NumBits(n, k)) == n
  {
    if k > 0 {
      NumOfBits(n / 2, k - 1);
      Sequences.FrontOf(NumBits(n / 2, k - 1), n % 2 == 1);
    }
  }

  lemma {:induction false} BitsOfNum(bits: seq<bool>)
    ensures NumOf(bits) < Pow2(|bits|)
    ensures NumBits(NumOf(bits), |bits|) == bits
  {
    if bits != [] {
      BitsOfNum(bits[..|bits| - 1]);
    }
  }

  /** The number with the bit of the given weight toggled. */
  function Flip(n: nat, weight: nat): nat
    requires 0 < weight
  {
    if n / weight % 2 == 1 && weight <= n then n - weight else n + weight
  }

  /** k bits, all zero but the one of weight 2^p. */
  function Unit(k: nat, p: nat): (bits: seq<bool>)
    requires p < k
    ensures |bits| == k
    ensures forall i :: 0 <= i < k ==> bits[i] == (i == k - 1 - p)
  {
    Zeros(k - 1 - p) + [true] + Zeros(p)
  }

  lemma FlipHalves(n: nat, w: nat)
    requires 0 < w
    ensures Flip(n, 2 * w) / 2 == Flip(n / 2, w) && Flip(n, 2 * w) % 2 == n % 2
  {
    Arithmetic.DivideTwice(n, w);
  }

  lemma {:induction false} FlipIsXor(n: nat, p: nat, k: nat)
    requires p < k
    ensures NumBits(Flip(n, Pow2(p)), k) == XorBits(NumBits(n, k), Unit(k, p))
  {
    if p == 0 {
      assert Flip(n, 1) / 2 == n / 2;
    } else {
      FlipHalves(n, Pow2(p - 1));
      FlipIsXor(n / 2, p - 1, k - 1);
    }
  }

  function Halve(n: nat, k: nat): nat {
    if k == 0 then n else Halve(n / 2, k - 1)
  }

  lemma {:induction false} SplitBits(n: nat, j: nat, k: nat)
    ensures NumBits(n, j + k) == NumBits(Halve(n, k), j) + NumBits(n, k)
  {
    if k > 0 {
      SplitBits(n / 2, j, k - 1);
    }
  }

  lemma {:induction false} LowBits(m: nat, n: nat, k: nat)
    ensures NumBits(Pow2(k) * m + n, k) == NumBits(n, k)
  {
    if k > 0 {
      var p := Pow2(k - 1) * m;
      assert Pow2(k) * m == 2 * p;
      LowBits(m, n / 2, k - 1);
    }
  }

  lemma {:induction false} HalveIsDivide(n: nat, k: nat)
    ensures Halve(n, k) == n / Pow2(k)
  {
    if k > 0 {
      HalveIsDivide(n / 2, k - 1);
      Arithmetic.DivideTwice(n, Pow2(k - 1));
    }
  }

  lemma PowersOfTwo()
    ensures Pow2(0) == 1 && Pow2(5) == 32 && Pow2(8) == 256 && Pow2(12) == 4096
    ensures Pow2(15) == 32768 && Pow2(16) == 65536
  {
    assert Pow2(4) == 16;
    assert Pow2(8) == 16 * Pow2(4);
    assert Pow2(12) == 16 * Pow2(8);
    assert Pow2(16) == 16 * Pow2(12);
  }

  /** The leading bit of a 16-bit number. */
  lemma TopBit(n: nat)
    requires n < 65536
    ensures NumBits(n, 16)[0] <==> n >= 32768
  {
    PowersOfTwo();
    SplitBits(n, 1, 15);
    HalveIsDivide(n, 15);
    assert NumBits(n / 32768, 1)[0] == (n / 32768 % 2 == 1);
  }

  lemma DoubleIsShift(n: nat)
    ensures NumBits(2 * n, 16) == NumBits(n, 16)[1..] + [false]
  {
    assert NumBits(2 * n, 16) == NumBits(n, 15) + [false];
    SplitBits(n, 1, 15);
  }

  /** A 16-bit number is its high byte followed by its low byte. */
  lemma WordBits(n: nat)
    ensures NumBits(n, 16) == NumBits(n / 256, 8) + NumBits(n % 256, 8)
  {
    SplitBits(n, 8, 8);
    HalveIsDivide(n, 8);
    PowersOfTwo();
    LowBits(n / 256, n % 256, 8);
  }

  lemma TwoByteBits(h: byte, l: byte)
    ensures NumBits(256 * h + l, 16) == NumBits(h, 8) + NumBits(l, 8)
  {
    WordBits(256 * h + l);
    assert (256 * h + l) / 256 == h && (256 * h + l) % 256 == l;
  }

  function XorByte(a: byte, b: byte): (c: byte)
    ensures NumBits(c, 8) == XorBits(NumBits(a, 8), NumBits(b, 8))
  {
    BitsOfNum(XorBits(NumBits(a, 8), NumBits(b, 8)));
    PowersOfTwo();
    NumOf(XorBits(NumBits(a, 8), NumBits(b, 8)))
  }

  lemma {:induction false} ZeroBits(k: nat)
    ensures NumBits(0, k) == Zeros(k)
  {
    if k > 0 {
      ZeroBits(k - 1);
    }
  }
}
