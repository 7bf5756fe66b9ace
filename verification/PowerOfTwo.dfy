/**
 bson_next_power_of_two and bson_is_power_of_two (bson-types.h).
 */
module PowerOfTwo {
  import opened Words

  ghost predicate IsPower(p: nat) {
    exists k: nat :: p == Pow2(k)
  }

  /** The least power of two that is not below v. */
  ghost predicate LeastPowerFrom(v: nat, p: nat) {
    v <= p && IsPower(p) && forall k: nat :: v <= Pow2(k) ==> p <= Pow2(k)
  }

  // ----- smearing, for any shift

  /** Bit i of v is the OR of the w bits of u from i up. */
  ghost predicate Smeared(u: nat, v: nat, w: nat) {
    forall i: nat :: Bit(v, i) <==> AnyBit(u, i, w)
  }

  ghost predicate AnyBit(u: nat, i: nat, w: nat) {
    exists j: nat :: i <= j < i + w && Bit(u, j)
  }

  lemma SmearStart(u: nat)
    ensures Smeared(u, u, 1)
  {
    forall i: nat ensures Bit(u, i) <==> AnyBit(u, i, 1) {
      if Bit(u, i) {
        assert i <= i < i + 1 && Bit(u, i);
      }
    }
  }

  /** One statement `v |= v >> w` doubles the reach. */
  lemma SmearDoubles(u: nat, v: nat, w: nat)
    requires Smeared(u, v, w)
    ensures Smeared(u, Or(v, Shr(v, w)), 2 * w)
  {
    forall i: nat ensures Bit(Or(v, Shr(v, w)), i) <==> AnyBit(u, i, 2 * w) {
      BitOfOr(v, Shr(v, w), i);
      BitOfShr(v, w, i);
      assert Bit(v, i) <==> AnyBit(u, i, w);
      assert Bit(v, i + w) <==> AnyBit(u, i + w, w);
      if AnyBit(u, i, w) {
        var j: nat :| i <= j < i + w && Bit(u, j);
        assert i <= j < i + 2 * w && Bit(u, j);
      }
      if AnyBit(u, i + w, w) {
        var j: nat :| i + w <= j < i + w + w && Bit(u, j);
        assert i <= j < i + 2 * w && Bit(u, j);
      }
      if AnyBit(u, i, 2 * w) {
        var j: nat :| i <= j < i + 2 * w && Bit(u, j);
        assert (i <= j < i + w && Bit(u, j)) || (i + w <= j < i + w + w && Bit(u, j));
      }
    }
  }

  /** A smear that reaches over the whole word fills it below its highest bit. */
  lemma SmearFills(u: nat, v: nat, w: nat, m: nat)
    requires Smeared(u, v, w) && Pow2(m) <= u < Pow2(m + 1) && m < w
    ensures v == Pow2(m + 1) - 1
  {
    forall i: nat ensures Bit(v, i) <==> i < m + 1 {
      assert Bit(v, i) <==> AnyBit(u, i, w);
      if i <= m {
        TopBit(u, m);
        assert i <= m < i + w && Bit(u, m);
      } else if AnyBit(u, i, w) {
        var j: nat :| i <= j < i + w && Bit(u, j);
        BitsBelow(u, m + 1, j);
      }
    }
    AllOnes(v, m + 1);
  }

  lemma SmearOfZero(v: nat, w: nat)
    requires Smeared(0, v, w)
    ensures v == 0
  {
    forall i: nat ensures Bit(v, i) <==> i < 0 {
      assert Bit(v, i) <==> AnyBit(0, i, w);
      if AnyBit(0, i, w) {
        var j: nat :| i <= j < i + w && Bit(0, j);
        BitsBelow(0, 0, j);
      }
    }
    AllOnes(v, 0);
  }

  /** What the shifts leave for v - 1, plus one, is the least power from v. */
  lemma SmearedPlusOne(v: nat, s: nat, w: nat)
    requires v > 0 && v <= Pow2(w) && Smeared(v - 1, s, w)
    ensures LeastPowerFrom(v, s + 1) && s + 1 <= Pow2(w)
  {
    if v == 1 {
      SmearOfZero(s, w);
      assert s + 1 == Pow2(0);
      if w > 0 { Pow2Grows(0, w); }
    } else {
      var m := LengthOf(v - 1);
      if m >= w {
        if m > w { Pow2Grows(w, m); }
        assert false;
      }
      SmearFills(v - 1, s, w, m);
      assert s + 1 == Pow2(m + 1);
      if m + 1 < w { Pow2Grows(m + 1, w); }
      forall k: nat | v <= Pow2(k) ensures s + 1 <= Pow2(k) {
        if k < m { Pow2Grows(k, m); }
        if k > m + 1 { Pow2Grows(m + 1, k); }
      }
    }
  }

  /** The least power of two from v, found by halving. */
  function NextPower(v: nat): (p: nat)
    ensures LeastPowerFrom(v, p)
  {
    if v <= 1 then
      assert 1 == Pow2(0);
      1
    else
      var h := NextPower((v + 1) / 2);
      Doubled(v, h);
      2 * h
  }

  lemma Doubled(v: nat, h: nat)
    requires v > 1 && LeastPowerFrom((v + 1) / 2, h)
    ensures LeastPowerFrom(v, 2 * h)
  {
    var k: nat :| h == Pow2(k);
    assert 2 * h == Pow2(k + 1);
    forall j: nat | v <= Pow2(j) ensures 2 * h <= Pow2(j) {
      assert j > 0 && (v + 1) / 2 <= Pow2(j - 1);
    }
  }

  lemma LeastPowerUnique(v: nat, p: nat, q: nat)
    requires LeastPowerFrom(v, p) && LeastPowerFrom(v, q)
    ensures p == q
  {
    var j: nat :| p == Pow2(j);
    var k: nat :| q == Pow2(k);
  }

  // ----- the two functions

  predicate IsWordSize(bits: nat) { bits == 32 || bits == 64 }

  /** In a word of this width: the least power, or 0 where it does not fit and for a request of 0. */
  function NextPowerInWord(size: nat, bits: nat): nat
    requires bits > 0
  {
    if 1 <= size <= Pow2(bits - 1) then NextPower(size) else 0
  }

  /**
   bson_next_power_of_two in a size_t of the given width.  It returns the least power of two that is
   not below v for every v from 1 to half the word, and 0 for every other v.
   */
  method NextPowerOfTwo(size: nat, bits: nat) returns (v: nat)
    requires IsWordSize(bits) && size < Pow2(bits)
    ensures v == NextPowerInWord(size, bits)
    ensures 1 <= size <= Pow2(bits - 1) ==> LeastPowerFrom(size, v)
    ensures v < Pow2(bits)
  {
    var u := (size + Pow2(bits) - 1) % Pow2(bits);
    v := SmearDown(u, bits);
    WordIsNextPower(size, u, v, bits);
    v := (v + 1) % Pow2(bits);
  }

  /** The shift-and-OR statements: every bit of the word becomes the OR of the bits from it up. */
  method SmearDown(u: nat, bits: nat) returns (v: nat)
    requires IsWordSize(bits)
    ensures Smeared(u, v, bits)
  {
    v := u;
    SmearStart(u);
    SmearDoubles(u, v, 1);
    v := Or(v, Shr(v, 1));
    SmearDoubles(u, v, 2);
    v := Or(v, Shr(v, 2));
    SmearDoubles(u, v, 4);
    v := Or(v, Shr(v, 4));
    SmearDoubles(u, v, 8);
    v := Or(v, Shr(v, 8));
    SmearDoubles(u, v, 16);
    v := Or(v, Shr(v, 16));
    if bits == 64 {
      SmearDoubles(u, v, 32);
      v := Or(v, Shr(v, 32));
    }
  }

  /** Zero, or a request above half the word: the highest bit is set, so the increment wraps. */
  lemma TopHalfWraps(u: nat, s: nat, bits: nat)
    requires bits > 0 && Pow2(bits - 1) <= u < Pow2(bits) && Smeared(u, s, bits)
    ensures (s + 1) % Pow2(bits) == 0
  {
    SmearFills(u, s, bits, bits - 1);
    DivUnique(s + 1, Pow2(bits), 1, 0);
  }

  lemma WordIsNextPower(size: nat, u: nat, s: nat, bits: nat)
    requires bits > 0 && size < Pow2(bits) && u == (size + Pow2(bits) - 1) % Pow2(bits)
    requires Smeared(u, s, bits)
    ensures (s + 1) % Pow2(bits) == NextPowerInWord(size, bits)
  {
    WordEnds(size, u, s, bits);
    if 1 <= size <= Pow2(bits - 1) {
      LeastPowerUnique(size, (s + 1) % Pow2(bits), NextPower(size));
    }
  }

  lemma WordEnds(size: nat, u: nat, s: nat, bits: nat)
    requires bits > 0 && size < Pow2(bits) && u == (size + Pow2(bits) - 1) % Pow2(bits)
    requires Smeared(u, s, bits)
    ensures 1 <= size <= Pow2(bits - 1) ==> LeastPowerFrom(size, (s + 1) % Pow2(bits))
    ensures size == 0 || size > Pow2(bits - 1) ==> (s + 1) % Pow2(bits) == 0
  {
    var full, half := Pow2(bits), Pow2(bits - 1);
    if size == 0 {
      DivUnique(full - 1, full, 0, full - 1);
      TopHalfWraps(u, s, bits);
    } else {
      DivUnique(size + full - 1, full, 1, size - 1);
      if size > half {
        TopHalfWraps(u, s, bits);
      } else {
        SmearedPlusOne(size, s, bits);
        assert half >= size;
        assert s + 1 <= half < full;
        DivUnique(s + 1, full, 0, s + 1);
      }
    }
  }

  lemma FitsInHalf(v: nat, bits: nat)
    requires bits > 0 && 1 <= v <= Pow2(bits - 1)
    ensures v <= NextPower(v) <= Pow2(bits - 1)
  {
    assert LeastPowerFrom(v, NextPower(v));
  }

  lemma FixedPoints(v: nat, bits: nat)
    requires bits > 0
    ensures NextPowerInWord(v, bits) == v <==> v == 0 || (IsPower(v) && v <= Pow2(bits - 1))
  {
    if 1 <= v <= Pow2(bits - 1) {
      var p := NextPower(v);
      assert LeastPowerFrom(v, p);
      if IsPower(v) {
        var j: nat :| v == Pow2(j);
        assert v <= Pow2(j);
      }
    }
  }

  /**
   What the function returns: the same again when asked again, the request itself exactly for 0 and
   the powers up to half the word, and, up to half the word, no less for a larger request.
   */
  lemma NextPowerProperties(v: nat, v': nat, bits: nat)
    requires bits > 0
    ensures NextPowerInWord(NextPowerInWord(v, bits), bits) == NextPowerInWord(v, bits)
    ensures NextPowerInWord(v, bits) == v <==> v == 0 || (IsPower(v) && v <= Pow2(bits - 1))
    ensures v <= v' <= Pow2(bits - 1) ==> NextPowerInWord(v, bits) <= NextPowerInWord(v', bits)
  {
    FixedPoints(v, bits);
    if 1 <= v <= Pow2(bits - 1) {
      FitsInHalf(v, bits);
      assert LeastPowerFrom(v, NextPower(v));
      FixedPoints(NextPower(v), bits);
    }
    if 1 <= v <= v' <= Pow2(bits - 1) {
      assert LeastPowerFrom(v, NextPower(v)) && LeastPowerFrom(v', NextPower(v'));
      var k: nat :| NextPower(v') == Pow2(k);
    }
  }

  /** bson_is_power_of_two, on a 32-bit word. */
  predicate IsPowerOfTwo(v: nat) {
    v != 0 && And(v, v - 1) == 0
  }

  lemma {:induction false} AndSelf(v: nat)
    ensures And(v, v) == v
  {
    if v > 0 {
      AndSelf(v / 2);
    }
  }

  /** The test holds exactly of the powers of two, in any width. */
  lemma {:induction false} IsPowerOfTwoIff(v: nat)
    ensures IsPowerOfTwo(v) <==> IsPower(v)
  {
    if v == 0 {
    } else if v == 1 {
      assert v == Pow2(0);
    } else if v % 2 == 1 {
      AndSelf(v / 2);
      assert (v - 1) / 2 == v / 2;
    } else {
      assert (v - 1) / 2 == v / 2 - 1;
      IsPowerOfTwoIff(v / 2);
      if IsPower(v / 2) {
        var k: nat :| v / 2 == Pow2(k);
        assert v == Pow2(k + 1);
      }
      if IsPower(v) {
        var k: nat :| v == Pow2(k);
        assert v / 2 == Pow2(k - 1);
      }
    }
  }

  /**
   Passed on to bson_is_power_of_two, which takes 32 bits, a result passes the test exactly when the
   request was from 1 to 2^31: larger results are truncated to 0.
   */
  lemma ResultPassesTestIff(v: nat, bits: nat)
    requires bits >= 32
    ensures IsPowerOfTwo(NextPowerInWord(v, bits) % Pow2(32)) <==> 1 <= v <= Pow2(31)
  {
    var half := Pow2(bits - 1);
    HalfGrows(bits);
    if 1 <= v <= half {
      LeastPassesTestIff(v, NextPower(v));
    } else {
      ZeroFails(32);
    }
  }

  lemma ZeroFails(n: nat)
    ensures !IsPowerOfTwo(0 % Pow2(n))
  {
    DivUnique(0, Pow2(n), 0, 0);
  }

  lemma HalfGrows(bits: nat)
    requires bits >= 32
    ensures Pow2(31) <= Pow2(bits - 1)
  {
    if bits > 32 {
      Pow2Grows(31, bits - 1);
    }
  }

  lemma LeastPassesTestIff(v: nat, p: nat)
    requires LeastPowerFrom(v, p) && v > 0
    ensures IsPowerOfTwo(p % Pow2(32)) <==> v <= Pow2(31)
  {
    var k: nat :| p == Pow2(k);
    if v <= Pow2(31) {
      Pow2Grows(31, 32);
      DivUnique(p, Pow2(32), 0, p);
      IsPowerOfTwoIff(p);
    } else {
      LongPower(p, k, 31);
    }
  }

  lemma LongPower(p: nat, k: nat, n: nat)
    requires p == Pow2(k) && p > Pow2(n)
    ensures p % Pow2(n + 1) == 0
  {
    if k < n {
      Pow2Grows(k, n);
    }
    assert k > n;
    Pow2Sum(k - n - 1, n + 1);
    DivUnique(p, Pow2(n + 1), Pow2(k - n - 1), 0);
  }
}
