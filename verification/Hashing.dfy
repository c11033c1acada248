/** One step of FNV-1a: exclusive or with a byte, then a multiplication that wraps
    around. No step forgets anything, because the multipliers are odd. */
module Hashing {
  /** Bitwise exclusive or. */
  function Xor(a: nat, b: nat): nat {
    if a == 0 && b == 0 then 0 else 2 * Xor(a / 2, b / 2) + (a % 2 + b % 2) % 2
  }

  /** The bit of `n` worth `2^i`. */
  function Bit(n: nat, i: nat): bool {
    if i == 0 then n % 2 == 1 else Bit(n / 2, i - 1)
  }

  lemma XorHalves(a: nat, b: nat)
    ensures Xor(a, b) / 2 == Xor(a / 2, b / 2) && Xor(a, b) % 2 == (a % 2 + b % 2) % 2
  {
  }

  /** Bit by bit: one of the two, not both. */
  lemma {:induction false} XorIsBitwise(a: nat, b: nat, i: nat)
    ensures Bit(Xor(a, b), i) <==> Bit(a, i) != Bit(b, i)
    decreases i
  {
    hide Xor;
    XorHalves(a, b);
    if i > 0 { XorIsBitwise(a / 2, b / 2, i - 1); }
  }

  lemma XorOfNothing()
    ensures Xor(0, 0) == 0
  {
  }

  lemma SameHalves(m: nat, n: nat)
    requires m / 2 == n / 2 && m % 2 == n % 2
    ensures m == n
  {
  }

  lemma {:induction false} XorUndoesItself(a: nat, b: nat)
    ensures Xor(Xor(a, b), b) == a
    decreases a + b
  {
    hide Xor;
    if a == 0 && b == 0 {
      XorOfNothing();
    } else {
      XorHalves(a, b);
      XorHalves(Xor(a, b), b);
      XorUndoesItself(a / 2, b / 2);
      SameHalves(Xor(Xor(a, b), b), a);
    }
  }

  lemma {:induction false} XorIsSymmetric(a: nat, b: nat)
    ensures Xor(a, b) == Xor(b, a)
    decreases a + b
  {
    hide Xor;
    if a != 0 || b != 0 {
      XorHalves(a, b);
      XorHalves(b, a);
      XorIsSymmetric(a / 2, b / 2);
      SameHalves(Xor(a, b), Xor(b, a));
    }
  }

  function Power2(k: nat): nat {
    if k == 0 then 1 else 2 * Power2(k - 1)
  }

  lemma {:induction false} PowersMultiply(a: nat, b: nat)
    ensures Power2(a + b) == Power2(a) * Power2(b)
    decreases a
  {
    if a > 0 {
      PowersMultiply(a - 1, b);
      assert Power2(a + b) == 2 * Power2(a - 1 + b);
    }
  }

  lemma {:induction false} XorStaysBelow(a: nat, b: nat, k: nat)
    requires a < Power2(k) && b < Power2(k)
    ensures Xor(a, b) < Power2(k)
    decreases k
  {
    hide Xor;
    XorHalves(a, b);
    if k == 0 { XorOfNothing(); } else { XorStaysBelow(a / 2, b / 2, k - 1); }
  }

  lemma TwiceMore(q: nat, half: nat, r: nat)
    ensures (q * (2 * half) + r) / 2 == q * half + r / 2 && (q * (2 * half) + r) % 2 == r % 2
  {
    assert q * (2 * half) == 2 * (q * half);
  }

  /** Only the low bits meet. */
  lemma {:induction false} XorBelow(q: nat, r: nat, b: nat, k: nat)
    requires r < Power2(k) && b < Power2(k)
    ensures Xor(q * Power2(k) + r, b) == q * Power2(k) + Xor(r, b)
    decreases k
  {
    hide Xor;
    if k == 0 {
      XorWithNothing(q);
      XorOfNothing();
    } else {
      var half := Power2(k - 1);
      TwiceMore(q, half, r);
      TwiceMore(q, half, Xor(r, b));
      XorHalves(q * Power2(k) + r, b);
      XorHalves(r, b);
      XorBelow(q, r / 2, b / 2, k - 1);
      SameHalves(Xor(q * Power2(k) + r, b), q * Power2(k) + Xor(r, b));
    }
  }

  lemma {:induction false} XorWithNothing(a: nat)
    ensures Xor(a, 0) == a
    decreases a
  {
    hide Xor;
    if a == 0 {
      XorOfNothing();
    } else {
      XorHalves(a, 0);
      XorWithNothing(a / 2);
      SameHalves(Xor(a, 0), a);
    }
  }

  lemma OnePlace(a: nat, b: nat, rest: nat)
    requires Xor(a / 2, b / 2) == rest
    ensures Xor(a, b) == 2 * rest + (a % 2 + b % 2) % 2
  {
    hide Xor;
    XorHalves(a, b);
  }

  lemma MultiplesAreFar(e: int, m: int)
    requires m > 0
    ensures e >= 1 ==> e * m >= m
    ensures e <= -1 ==> e * m <= 0 - m
  {
    if e >= 1 { assert e * m == m + (e - 1) * m && (e - 1) * m >= 0; }
    if e <= -1 { assert e * m == (e + 1) * m - m && (e + 1) * m <= 0; }
  }

  lemma MultipleIsNothing(x: nat, q: int, y: nat, m: nat)
    requires x < m && y == x + q * m
    ensures y % m == x
  {
    var d, r := y / m, y % m;
    assert y == d * m + r;
    assert (d - q) * m == x - r;
    MultiplesAreFar(d - q, m);
  }

  /** Multiplying by a number with an inverse can be undone. */
  lemma Undone(x: nat, p: nat, inverse: nat, k: nat, m: nat)
    requires x < m && p * inverse == k * m + 1
    ensures (x * p % m) * inverse % m == x
  {
    var q, r := x * p / m, x * p % m;
    assert x * p == q * m + r;
    assert r * inverse == x + (x * k - q * inverse) * m by {
      assert r * inverse == x * p * inverse - q * m * inverse;
      assert x * p * inverse == x * (p * inverse) == x * (k * m + 1);
    }
    MultipleIsNothing(x, x * k - q * inverse, r * inverse, m);
  }

  /** One step, from hash `h` over the byte `b`. */
  function Mixed(h: nat, b: nat, p: nat, m: nat): (r: nat)
    requires m > 0
    ensures r < m
  {
    Xor(h, b) * p % m
  }

  /** Different hashes over the same byte, or the same hash over different bytes,
      give different hashes. */
  lemma MixingForgetsNothing(g: nat, a: nat, h: nat, b: nat, p: nat, inverse: nat, k: nat, bits: nat)
    requires var m := Power2(bits); g < m && h < m && a < m && b < m && p * inverse == k * m + 1
    requires g == h || a == b
    ensures Mixed(g, a, p, Power2(bits)) == Mixed(h, b, p, Power2(bits)) <==> g == h && a == b
  {
    hide Xor;
    var m := Power2(bits);
    XorStaysBelow(g, a, bits);
    XorStaysBelow(h, b, bits);
    Undone(Xor(g, a), p, inverse, k, m);
    Undone(Xor(h, b), p, inverse, k, m);
    XorUndoesItself(g, a);
    XorUndoesItself(h, b);
    XorIsSymmetric(g, a);
    XorIsSymmetric(h, b);
    XorUndoesItself(a, g);
    XorUndoesItself(b, h);
  }
}
