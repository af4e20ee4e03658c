/** The size of a 32-bit word, and division and remainder by a variable divisor. */
module Arithmetic {

  /** Unsigned 32-bit numbers wrap at this value. */
  const WORD: nat := 0x1_0000_0000

  lemma ModuloOfMultiple(a: nat, m: nat, size: nat)
    requires 0 < size && 0 < m && m % size == 0
    ensures a % m % size == a % size
  {
    var q, r := m / size, a / m;
    assert m == size * q;
    assert a == m * r + a % m;
    assert m * r == size * (q * r);
    AddMultiple(a % m, q * r, size);
  }

  lemma {:induction false} AddMultiple(x: nat, n: nat, size: nat)
    requires 0 < size
    ensures (size * n + x) % size == x % size
    decreases n
  {
    if n > 0 {
      assert size * n + x == size * (n - 1) + x + size;
      AddMultiple(x, n - 1, size);
      AddOne(size * (n - 1) + x, size);
    }
  }

  lemma AddOne(x: nat, size: nat)
    requires 0 < size
    ensures (x + size) % size == x % size
  {
    var q := x / size;
    assert x == size * q + x % size;
    assert x + size == size * (q + 1) + x % size;
    QuotientUnique(x + size, size, q + 1, x % size);
  }

  lemma MultiplesApart(size: nat, a: nat, b: nat)
    ensures a < b ==> size * a + size <= size * b
  {
    if a < b {
      var d := b - a - 1;
      assert b == a + 1 + d;
      assert size * (a + 1 + d) == size * a + size + size * d;
    }
  }

  lemma QuotientUnique(x: nat, size: nat, q: nat, r: nat)
    requires 0 < size && x == size * q + r && r < size
    ensures x / size == q && x % size == r
  {
    var q', r' := x / size, x % size;
    assert x == size * q' + r';
    MultiplesApart(size, q, q');
    MultiplesApart(size, q', q);
  }

  lemma DivideTwice(n: nat, w: nat)
    requires 0 < w
    ensures n / (2 * w) == n / 2 / w
  {
    var half := n / 2;
    var q, r := half / w, half % w;
    assert half == w * q + r;
    TwiceProduct(w, q);
    QuotientUnique(n, 2 * w, q, 2 * r + n % 2);
  }

  lemma TwiceProduct(w: int, q: int)
    ensures 2 * w * q == 2 * (w * q)
  {
  }
}
