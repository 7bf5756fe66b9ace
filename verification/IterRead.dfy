/**
 The unchecked readers of bson-iter.h: fixed-width little-endian fields at an offset of a
 document, and the two readings of a date in milliseconds.
 */
module IterRead {
  import opened Words
  import opened Endian

  /** d1 is the offset of the value inside the raw document. */
  datatype Iter = Iter(raw: seq<byte>, d1: nat)

  predicate Holds(it: Iter, n: nat) {
    it.d1 + n <= |it.raw|
  }

  function Field(it: Iter, offset: nat, n: nat): (r: seq<byte>)
    requires Holds(it, offset + n)
    ensures |r| == n
  {
    it.raw[it.d1 + offset..it.d1 + offset + n]
  }

  /** The bytes at d1 of a document that has a value there are the bytes of the value. */
  lemma ValueAt(pre: seq<byte>, value: seq<byte>, post: seq<byte>, offset: nat, n: nat)
    requires offset + n <= |value|
    ensures var it := Iter(pre + value + post, |pre|);
            && Holds(it, offset + n) && it.raw[it.d1 + offset..it.d1 + offset + n] == value[offset..offset + n]
            && Field(it, offset, n) == value[offset..offset + n]
  {
  }

  /** Two's complement in w bits. */
  function ToSigned(u: nat, w: nat): int
    requires w > 0
  {
    if u < Pow2(w - 1) then u else u - Pow2(w)
  }

  function ToUnsigned(s: int, w: nat): nat {
    s % Pow2(w)
  }

  lemma SignedRoundTrip(u: nat, w: nat)
    requires w > 0 && u < Pow2(w)
    ensures ToUnsigned(ToSigned(u, w), w) == u
    ensures -(Pow2(w - 1) as int) <= ToSigned(u, w) < Pow2(w - 1)
  {
    assert Pow2(w) == 2 * Pow2(w - 1);
    ModOfDifference(u, Pow2(w));
  }

  lemma ModOfDifference(u: nat, d: nat)
    requires u < d
    ensures u % d == u && (u - d) % d == u
  {
    DivUnique(u, d, 0, u);
    var q, r := (u - d) / d, (u - d) % d;
    assert u - d == d * q + r;
    Distribute(d, q, 1);
    if q + 1 < 0 {
      Distribute(d, q + 1, -(q + 1));
      MulAtLeast(d, -(q + 1));
    }
  }

  function Int32Unsafe(order: ByteOrder, it: Iter): int
    requires Holds(it, 4)
  {
    var val := ToSigned(Native(order, Field(it, 0, 4)), 32);
    ToSigned(FromLE32(order, ToUnsigned(val, 32)), 32)
  }

  function Int64Unsafe(order: ByteOrder, it: Iter): int
    requires Holds(it, 8)
  {
    var val := ToSigned(Native(order, Field(it, 0, 8)), 64);
    ToSigned(FromLE64(order, ToUnsigned(val, 64)), 64)
  }

  lemma NativeBound(order: ByteOrder, bytes: seq<byte>)
    ensures Native(order, bytes) < Pow2(8 * |bytes|)
  {
    LEBound(bytes);
    SwapThere(bytes);
    LEBound(Reverse(bytes));
  }

  /** The integer readers give the signed little-endian value of the bytes from d1 on, on every host. */
  lemma IntReadersAreLittleEndian(order: ByteOrder, it: Iter)
    ensures Holds(it, 4) ==> Int32Unsafe(order, it) == ToSigned(LE(it.raw[it.d1..it.d1 + 4]), 32)
    ensures Holds(it, 8) ==> Int64Unsafe(order, it) == ToSigned(LE(it.raw[it.d1..it.d1 + 8]), 64)
  {
    if Holds(it, 4) {
      var b := Field(it, 0, 4);
      NativeBound(order, b);
      SignedRoundTrip(Native(order, b), 32);
      ConversionsAreHostIndependent(order, b);
    }
    if Holds(it, 8) {
      var b := Field(it, 0, 8);
      NativeBound(order, b);
      SignedRoundTrip(Native(order, b), 64);
      ConversionsAreHostIndependent(order, b);
    }
  }

  /** They read the value itself out of any document that has it at d1. */
  lemma IntReadersReadTheValue(order: ByteOrder, pre: seq<byte>, value: seq<byte>, post: seq<byte>)
    ensures |value| == 4 ==> Holds(Iter(pre + value + post, |pre|), 4)
                             && Int32Unsafe(order, Iter(pre + value + post, |pre|)) == ToSigned(LE(value), 32)
    ensures |value| == 8 ==> Holds(Iter(pre + value + post, |pre|), 8)
                             && Int64Unsafe(order, Iter(pre + value + post, |pre|)) == ToSigned(LE(value), 64)
  {
    var it := Iter(pre + value + post, |pre|);
    IntReadersAreLittleEndian(order, it);
    assert it.raw[it.d1..it.d1 + |value|] == value;
  }

  class Decimal128 {
    var low: nat
    var high: nat

    constructor ()
    {
      low, high := 0, 0;
    }
  }

  lemma HalvesOfField(it: Iter)
    requires Holds(it, 16)
    ensures LE(Field(it, 0, 16)) == LE(Field(it, 0, 8)) + Pow2(64) * LE(Field(it, 8, 8))
  {
    assert Field(it, 0, 16) == Field(it, 0, 8) + Field(it, 8, 8);
    LEConcat(Field(it, 0, 8), Field(it, 8, 8));
    assert 8 * |Field(it, 0, 8)| == 64;
  }

  lemma HalfIsLittleEndian(order: ByteOrder, b: seq<byte>)
    requires |b| == 8
    ensures FromLE64(order, Native(order, b)) == LE(b) && LE(b) < Pow2(64)
  {
    ConversionsAreHostIndependent(order, b);
    LEBound(b);
  }

  /** The two halves together are the 128-bit little-endian value of the field. */
  method Decimal128Unsafe(order: ByteOrder, it: Iter, dec: Decimal128)
    requires Holds(it, 16)
    modifies dec
    ensures dec.low < Pow2(64) && dec.high < Pow2(64)
    ensures dec.low + Pow2(64) * dec.high == LE(it.raw[it.d1..it.d1 + 16])
    ensures dec.low == LE(it.raw[it.d1..it.d1 + 8]) && dec.high == LE(it.raw[it.d1 + 8..it.d1 + 16])
  {
    var lowLE := Native(order, Field(it, 0, 8));
    var highLE := Native(order, Field(it, 8, 8));
    HalfIsLittleEndian(order, Field(it, 0, 8));
    HalfIsLittleEndian(order, Field(it, 8, 8));
    HalvesOfField(it);
    dec.low := FromLE64(order, lowLE);
    dec.high := FromLE64(order, highLE);
  }

  // ----- dates

  /** The date readers see the value of any document that has it at d1. */
  lemma DateReadersReadTheValue(order: ByteOrder, pre: seq<byte>, value: seq<byte>, post: seq<byte>, long: nat)
    requires |value| == 8 && IsLongSize(long)
    ensures var it, date := Iter(pre + value + post, |pre|), ToSigned(LE(value), 64);
            && Holds(it, 8) && Int64Unsafe(order, it) == date
            && (date >= 0 || long == 32 ==> TimeTUnsafe(order, it, long) == Quot(date, 1000))
  {
    IntReadersReadTheValue(order, pre, value, post);
    TimeTAgreesIff(order, Iter(pre + value + post, |pre|), long);
  }

  /** C's division and remainder, which truncate toward zero. */
  function Quot(a: int, b: int): int
    requires b > 0
  {
    if a >= 0 then a / b else -((-a) / b)
  }

  function Rem(a: int, b: int): int
    requires b > 0
  {
    a - b * Quot(a, b)
  }

  /** The bits of a long; time_t has 64. */
  predicate IsLongSize(bits: nat) { bits == 32 || bits == 64 }

  /**
   The divisor 1000UL makes the division unsigned where unsigned long is as wide as the date; a
   narrower one is converted to the date's type instead.
   */
  function TimeTUnsafe(order: ByteOrder, it: Iter, long: nat): int
    requires Holds(it, 8) && IsLongSize(long)
  {
    var value := Int64Unsafe(order, it);
    if long == 64 then ToSigned(ToUnsigned(value, 64) / 1000, 64) else Quot(value, 1000)
  }

  /** A cast to a signed type of w bits. */
  function Narrow(s: int, w: nat): int
    requires w > 0
  {
    ToSigned(ToUnsigned(s, w), w)
  }

  lemma NarrowIff(s: int, w: nat)
    requires w > 0
    ensures Narrow(s, w) == s <==> -(Pow2(w - 1) as int) <= s < Pow2(w - 1)
  {
    var full, half := Pow2(w), Pow2(w - 1);
    assert full == 2 * half;
    if 0 <= s < half {
      ModOfDifference(s, full);
    } else if -(half as int) <= s < 0 {
      ModOfDifference(s + full, full);
    } else {
      SignedRoundTrip(s % full, w);
    }
  }

  class Timeval {
    var sec: int
    var usec: int

    constructor ()
    {
      sec, usec := 0, 0;
    }
  }

  predicate Normalised(usec: int) { 0 <= usec < 1000000 }

  lemma SplitDate(value: int)
    ensures Quot(value, 1000) * 1000000 + Rem(value, 1000) * 1000 == value * 1000
    ensures -1000 < Rem(value, 1000) < 1000
    ensures 0 <= Rem(value, 1000) <==> value >= 0 || value % 1000 == 0
    ensures Rem(value, 1000) <= 0 <==> value <= 0 || value % 1000 == 0
  {
    if value < 0 {
      assert -value == 1000 * ((-value) / 1000) + (-value) % 1000;
    }
  }

  /**
   The microseconds are in the usual range exactly for dates from the epoch on and for whole seconds
   before it.  Seconds and microseconds together are exactly the milliseconds of the date if and only
   if the seconds fit the long they are cast to, which they always do in 64 bits.
   */
  method TimevalUnsafe(order: ByteOrder, it: Iter, tv: Timeval, long: nat)
    requires Holds(it, 8) && IsLongSize(long)
    modifies tv
    ensures -1000000 < tv.usec < 1000000
    ensures Normalised(tv.usec) <==> Int64Unsafe(order, it) >= 0 || Int64Unsafe(order, it) % 1000 == 0
    ensures tv.sec * 1000000 + tv.usec == Int64Unsafe(order, it) * 1000 <==>
            long == 64 || -0x8000_0000 <= Quot(Int64Unsafe(order, it), 1000) < 0x8000_0000
    ensures tv.usec == Int64Unsafe(order, it) * 1000 - Quot(Int64Unsafe(order, it), 1000) * 1000000
    ensures tv.sec == Narrow(Quot(Int64Unsafe(order, it), 1000), long)
  {
    var value := Int64Unsafe(order, it);
    tv.sec := Narrow(Quot(value, 1000), long);
    tv.usec := Rem(value, 1000) * 1000;
    SplitDate(value);
    SecondsFitIff(order, it, long);
  }

  lemma DateBound(order: ByteOrder, it: Iter)
    requires Holds(it, 8)
    ensures ToUnsigned(Int64Unsafe(order, it), 64) == LE(Field(it, 0, 8)) < Pow2(64)
    ensures Int64Unsafe(order, it) == ToSigned(LE(Field(it, 0, 8)), 64)
    ensures -(Pow2(63) as int) <= Int64Unsafe(order, it) < Pow2(63)
  {
    IntReadersAreLittleEndian(order, it);
    LEBound(Field(it, 0, 8));
    SignedRoundTrip(LE(Field(it, 0, 8)), 64);
  }

  lemma HalfWords()
    ensures Pow2(31) == 0x8000_0000 && Pow2(63) == 0x8000_0000_0000_0000
  {
    Pow2Values();
    assert Pow2(32) == 2 * Pow2(31) && Pow2(64) == 2 * Pow2(63);
  }

  lemma SecondsFitIff(order: ByteOrder, it: Iter, long: nat)
    requires Holds(it, 8) && IsLongSize(long)
    ensures var seconds := Quot(Int64Unsafe(order, it), 1000);
            Narrow(seconds, long) == seconds <==> long == 64 || -0x8000_0000 <= seconds < 0x8000_0000
  {
    DateBound(order, it);
    HalfWords();
    NarrowIff(Quot(Int64Unsafe(order, it), 1000), long);
  }

  /**
   The time_t reader gives the truncated seconds exactly for dates from the epoch on or where a long
   has 32 bits.
   */
  lemma TimeTAgreesIff(order: ByteOrder, it: Iter, long: nat)
    requires Holds(it, 8) && IsLongSize(long)
    ensures TimeTUnsafe(order, it, long) == Quot(Int64Unsafe(order, it), 1000)
       <==> Int64Unsafe(order, it) >= 0 || long == 32
    ensures long == 64 && Int64Unsafe(order, it) < 0 ==>
              TimeTUnsafe(order, it, long) == (0x1_0000_0000_0000_0000 + Int64Unsafe(order, it)) / 1000 > 0
  {
    if long == 64 {
      DateBound(order, it);
      HalfWords();
      var u, value := LE(Field(it, 0, 8)), Int64Unsafe(order, it);
      assert u / 1000 < Pow2(63);
      UnsignedSeconds(u, value);
    }
  }

  lemma UnsignedSeconds(u: nat, value: int)
    requires u < Pow2(64) && value == ToSigned(u, 64)
    ensures ToSigned(u / 1000, 64) == u / 1000
    ensures u / 1000 == Quot(value, 1000) <==> value >= 0
    ensures value < 0 ==> u == 0x1_0000_0000_0000_0000 + value && u / 1000 > 0
  {
    Pow2Values();
    HalfWords();
  }
}
