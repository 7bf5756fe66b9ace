/**
 Unsigned machine words as natural numbers: the bitwise operators of the libbson inline
 functions, defined bit by bit for every width.
 */
module Words {
  function Pow2(n: nat): (r: nat)
    ensures r > 0
  {
    if n == 0 then 1 else 2 * Pow2(n - 1)
  }

  function Or(a: nat, b: nat): nat {
    if a == 0 && b == 0 then 0
    else (if a % 2 == 1 || b % 2 == 1 then 1 else 0) + 2 * Or(a / 2, b / 2)
  }

  function And(a: nat, b: nat): nat {
    if a == 0 && b == 0 then 0
    else (if a % 2 == 1 && b % 2 == 1 then 1 else 0) + 2 * And(a / 2, b / 2)
  }

  function Shr(v: nat, n: nat): nat {
    DivNonNegative(v, Pow2(n));
    v / Pow2(n)
  }

  /** A left shift in a word of w bits loses what leaves the word. */
  function Shl(v: nat, n: nat, w: nat): nat {
    v * Pow2(n) % Pow2(w)
  }

  predicate Bit(v: nat, i: nat) {
    if i == 0 then v % 2 == 1 else Bit(v / 2, i - 1)
  }

  // ----- powers of two

  lemma {:induction false} Pow2Sum(m: nat, n: nat)
    ensures Pow2(m + n) == Pow2(m) * Pow2(n)
  {
    if m > 0 {
      Pow2Sum(m - 1, n);
      assert Pow2(m + n) == 2 * (Pow2(m - 1) * Pow2(n));
    }
  }

  lemma {:induction false} Pow2Grows(m: nat, n: nat)
    requires m < n
    ensures 2 * Pow2(m) <= Pow2(n)
  {
    if m < n - 1 {
      Pow2Grows(m, n - 1);
    }
  }

  /** The widths the library uses, as numbers. */
  lemma Pow2Values()
    ensures Pow2(1) == 2 && Pow2(2) == 4 && Pow2(4) == 16 && Pow2(8) == 0x100 && Pow2(16) == 0x1_0000
    ensures Pow2(24) == 0x100_0000 && Pow2(32) == 0x1_0000_0000 && Pow2(40) == 0x100_0000_0000
    ensures Pow2(48) == 0x1_0000_0000_0000 && Pow2(56) == 0x100_0000_0000_0000
    ensures Pow2(64) == 0x1_0000_0000_0000_0000
  {
    assert Pow2(8) == 0x100;
    Pow2Sum(8, 8);
    Pow2Sum(8, 16);
    Pow2Sum(8, 24);
    Pow2Sum(8, 32);
    Pow2Sum(8, 40);
    Pow2Sum(8, 48);
    Pow2Sum(8, 56);
  }

  // ----- bits of the operators

  lemma {:induction false} BitOfOr(a: nat, b: nat, i: nat)
    ensures Bit(Or(a, b), i) <==> Bit(a, i) || Bit(b, i)
    decreases i
  {
    assert Or(a, b) / 2 == Or(a / 2, b / 2);
    if i > 0 {
      BitOfOr(a / 2, b / 2, i - 1);
    }
  }

  lemma {:induction false} BitOfShr(v: nat, n: nat, i: nat)
    ensures Bit(Shr(v, n), i) <==> Bit(v, i + n)
    decreases n
  {
    if n > 0 {
      HalfOfShr(v, n);
      BitOfShr(v / 2, n - 1, i);
    }
  }

  lemma HalfOfShr(v: nat, n: nat)
    requires n > 0
    ensures Shr(v, n) == Shr(v / 2, n - 1)
  {
    DivDiv(v, 2, Pow2(n - 1));
  }

  lemma Distribute(a: int, x: int, y: int)
    ensures a * (x + y) == a * x + a * y
  {
  }

  lemma MulAtLeast(d: nat, x: nat)
    requires x > 0
    ensures d * x >= d
  {
    Distribute(d, x - 1, 1);
    assert d * (x - 1) >= 0;
  }

  lemma DivNonNegative(v: nat, d: nat)
    requires d > 0
    ensures v / d >= 0
  {
    var q := v / d;
    assert v == d * q + v % d;
    if q < 0 {
      MulAtLeast(d, -q);
      Distribute(d, q, -q);
    }
  }

  lemma DivUnique(v: nat, d: nat, q: nat, r: nat)
    requires d > 0 && v == d * q + r && r < d
    ensures v / d == q && v % d == r
  {
    var q' := v / d;
    assert v == d * q' + v % d;
    if q > q' {
      Distribute(d, q', q - q');
      MulAtLeast(d, q - q');
    } else if q < q' {
      Distribute(d, q, q' - q);
      MulAtLeast(d, q' - q);
    }
  }

  lemma DivDiv(v: nat, a: nat, b: nat)
    requires a > 0 && b > 0
    ensures a * b > 0 && v / (a * b) == (v / a) / b
  {
    var h, s := v / a, v % a;
    var q, r := h / b, h % b;
    assert v == a * h + s && h == b * q + r;
    Distribute(a, b * q, r);
    assert a * (b * q) == (a * b) * q;
    Distribute(a, r, b - r);
    MulAtLeast(a, b - r);
    MulAtLeast(a, b);
    assert a * r >= 0;
    DivUnique(v, a * b, q, a * r + s);
  }

  /** Above its length a number has no bits, and at its length it has one. */
  lemma {:induction false} BitsBelow(v: nat, n: nat, i: nat)
    requires v < Pow2(n) && i >= n
    ensures !Bit(v, i)
    decreases i
  {
    if i > 0 {
      if n > 0 {
        BitsBelow(v / 2, n - 1, i - 1);
      } else {
        BitsBelow(v / 2, 0, i - 1);
      }
    }
  }

  lemma {:induction false} TopBit(v: nat, n: nat)
    requires Pow2(n) <= v < Pow2(n + 1)
    ensures Bit(v, n)
    decreases n
  {
    if n > 0 {
      TopBit(v / 2, n - 1);
    }
  }

  /** A number with exactly the bits below n. */
  lemma {:induction false} AllOnes(v: nat, n: nat)
    requires forall i: nat :: Bit(v, i) <==> i < n
    ensures v == Pow2(n) - 1
    decreases n
  {
    assert Bit(v, 0) <==> 0 < n;
    forall i: nat ensures Bit(v / 2, i) <==> i < n - 1 {
      assert Bit(v, i + 1) <==> i + 1 < n;
    }
    if n > 0 {
      AllOnes(v / 2, n - 1);
    } else if v > 0 {
      var m := LengthOf(v);
      TopBit(v, m);
    }
  }

  /** Every positive number lies between two neighbouring powers. */
  lemma {:induction false} LengthOf(v: nat) returns (m: nat)
    requires v > 0
    ensures Pow2(m) <= v < Pow2(m + 1)
  {
    if v == 1 {
      m := 0;
    } else {
      var h := LengthOf(v / 2);
      m := h + 1;
    }
  }
}
