/**
 The byte swaps and byte-order conversions of bson-endian.h, against the value of a byte string
 read in either order.
 */
module Endian {
  import opened Words

  newtype byte = b: int | 0 <= b < 256

  datatype ByteOrder = LittleEndian | BigEndian

  /** The number whose least significant byte comes first. */
  function LE(bytes: seq<byte>): nat {
    if bytes == [] then 0 else bytes[0] as nat + 256 * LE(bytes[1..])
  }

  /** The number whose most significant byte comes first. */
  function BE(bytes: seq<byte>): nat {
    if bytes == [] then 0 else 256 * BE(bytes[..|bytes| - 1]) + bytes[|bytes| - 1] as nat
  }

  /** The first byte counts least in the one order and most in the other. */
  lemma EndsOfOrders(first: byte, rest: seq<byte>)
    ensures LE([first] + rest) == first as nat + 256 * LE(rest)
    ensures BE(rest + [first]) == 256 * BE(rest) + first as nat
    ensures LE([]) == 0 && BE([]) == 0
  {
    assert ([first] + rest)[1..] == rest && (rest + [first])[..|rest|] == rest;
  }

  /** What a memcpy of the bytes into an integer gives on a host of this order. */
  function Native(order: ByteOrder, bytes: seq<byte>): nat {
    if order.LittleEndian? then LE(bytes) else BE(bytes)
  }

  // ----- the swaps, statement by statement

  function Swap16(v: nat): nat {
    Or(Shl(And(v, 0x00FF), 8, 16), Shr(And(v, 0xFF00), 8))
  }

  function Swap32(v: nat): nat {
    Or(Or(Or(Shl(And(v, 0x0000_00FF), 24, 32), Shl(And(v, 0x0000_FF00), 8, 32)),
          Shr(And(v, 0x00FF_0000), 8)),
       Shr(And(v, 0xFF00_0000), 24))
  }

  /** The four bytes that move up, OR-ed first. */
  function Swap64Up(v: nat): nat {
    Or(Or(Or(
      Shl(And(v, 0x0000_0000_0000_00FF), 56, 64),
      Shl(And(v, 0x0000_0000_0000_FF00), 40, 64)),
      Shl(And(v, 0x0000_0000_00FF_0000), 24, 64)),
      Shl(And(v, 0x0000_0000_FF00_0000), 8, 64))
  }

  function Swap64(v: nat): nat {
    Or(Or(Or(Or(Swap64Up(v),
      Shr(And(v, 0x0000_00FF_0000_0000), 8)),
      Shr(And(v, 0x0000_FF00_0000_0000), 24)),
      Shr(And(v, 0x00FF_0000_0000_0000), 40)),
      Shr(And(v, 0xFF00_0000_0000_0000), 56))
  }

  function FromLE32(order: ByteOrder, v: nat): nat { if order.LittleEndian? then v else Swap32(v) }
  function FromBE32(order: ByteOrder, v: nat): nat { if order.LittleEndian? then Swap32(v) else v }
  function FromLE64(order: ByteOrder, v: nat): nat { if order.LittleEndian? then v else Swap64(v) }
  function FromBE64(order: ByteOrder, v: nat): nat { if order.LittleEndian? then Swap64(v) else v }
  function FromLE16(order: ByteOrder, v: nat): nat { if order.LittleEndian? then v else Swap16(v) }
  function FromBE16(order: ByteOrder, v: nat): nat { if order.LittleEndian? then Swap16(v) else v }

  // ----- masks and disjoint ORs, for any position

  lemma MulAssoc(a: nat, b: nat, c: nat)
    ensures (a * b) * c == a * (b * c)
  {
  }

  lemma ModTwice(v: nat, h: nat)
    requires h > 0
    ensures v % (2 * h) == 2 * (v / 2 % h) + v % 2
  {
    var q, r := v / 2 / h, v / 2 % h;
    assert v / 2 == h * q + r && v == 2 * (v / 2) + v % 2;
    MulAssoc(2, h, q);
    DivUnique(v, 2 * h, q, 2 * r + v % 2);
  }

  lemma {:induction false} AndAll(v: nat, n: nat)
    ensures And(v, Pow2(n) - 1) == v % Pow2(n)
  {
    if n == 0 {
      AndZero(v);
    } else {
      var half := Pow2(n - 1);
      assert (Pow2(n) - 1) / 2 == half - 1 && (Pow2(n) - 1) % 2 == 1;
      AndAll(v / 2, n - 1);
      ModTwice(v, half);
    }
  }

  lemma {:induction false} AndZero(v: nat)
    ensures And(v, 0) == 0
  {
    if v > 0 { AndZero(v / 2); }
  }

  lemma AndDouble(v: nat, x: nat)
    ensures And(v, 2 * x) == 2 * And(v / 2, x)
  {
    var y := 2 * x;
    assert y % 2 == 0 && y / 2 == x;
    assert And(v, y) == 2 * And(v / 2, y / 2);
  }

  /** A mask moved up by k selects the same bits, k higher. */
  lemma {:induction false} AndShifted(v: nat, m: nat, k: nat)
    ensures And(v, m * Pow2(k)) == And(Shr(v, k), m) * Pow2(k)
    decreases k
  {
    if k > 0 {
      var up, part := Pow2(k - 1), And(Shr(v / 2, k - 1), m);
      MulTwice(m, up);
      MulTwice(part, up);
      AndDouble(v, m * up);
      AndShifted(v / 2, m, k - 1);
      HalfOfShr(v, k);
    }
  }

  lemma MulTwice(x: nat, y: nat)
    ensures x * (2 * y) == 2 * (x * y)
  {
  }

  /** The OR of parts that do not overlap is their sum. */
  lemma {:induction false} OrDisjoint(high: nat, low: nat, k: nat)
    requires low < Pow2(k)
    ensures Or(high * Pow2(k), low) == high * Pow2(k) + low
    decreases k
  {
    if k == 0 {
      OrZero(high);
    } else {
      MulTwice(high, Pow2(k - 1));
      OrDisjoint(high, low / 2, k - 1);
    }
  }

  lemma {:induction false} OrZero(v: nat)
    ensures Or(v, 0) == v
  {
    if v > 0 { OrZero(v / 2); }
  }

  // ----- one byte on its way to the other side

  /** The byte of v that starts at bit k. */
  function ByteAt(v: nat, k: nat): (d: nat)
    ensures d < 256
  {
    Shr(v, k) % 256
  }

  lemma FieldIs(v: nat, k: nat)
    ensures And(v, (Pow2(8) - 1) * Pow2(k)) == ByteAt(v, k) * Pow2(k)
  {
    AndShifted(v, Pow2(8) - 1, k);
    AndAll(Shr(v, k), 8);
  }

  /** A byte at bit k moves s places up without leaving the word. */
  lemma ByteUp(d: nat, k: nat, s: nat, w: nat)
    requires d < Pow2(8) && k + s + 8 <= w
    ensures Shl(d * Pow2(k), s, w) == d * Pow2(k + s)
  {
    var up := d * Pow2(k + s);
    Pow2Sum(k, s);
    MulAssoc(d, Pow2(k), Pow2(s));
    ByteFits(d, k + s, w);
    DivUnique(up, Pow2(w), 0, up);
  }

  lemma ByteFits(d: nat, n: nat, w: nat)
    requires d < Pow2(8) && n + 8 <= w
    ensures d * Pow2(n) < Pow2(w)
  {
    Pow2Sum(8, n);
    MulLess(d, Pow2(8), Pow2(n));
    if n + 8 < w { Pow2Grows(n + 8, w); }
  }

  lemma ByteDown(d: nat, k: nat, s: nat)
    requires s <= k
    ensures Shr(d * Pow2(k), s) == d * Pow2(k - s)
  {
    Pow2Sum(k - s, s);
    MulAssoc(d, Pow2(k - s), Pow2(s));
    DivUnique(d * Pow2(k), Pow2(s), d * Pow2(k - s), 0);
  }

  lemma FieldUp(v: nat, k: nat, s: nat, w: nat)
    requires k + s + 8 <= w
    ensures Shl(And(v, (Pow2(8) - 1) * Pow2(k)), s, w) == ByteAt(v, k) * Pow2(k + s)
  {
    FieldIs(v, k);
    ByteUp(ByteAt(v, k), k, s, w);
  }

  lemma FieldDown(v: nat, k: nat, s: nat)
    requires s <= k
    ensures Shr(And(v, (Pow2(8) - 1) * Pow2(k)), s) == ByteAt(v, k) * Pow2(k - s)
  {
    FieldIs(v, k);
    ByteDown(ByteAt(v, k), k, s);
  }

  lemma MulLess(a: nat, b: nat, c: nat)
    requires a < b && c > 0
    ensures a * c < b * c
  {
    Distribute(c, a, b - a);
    MulAtLeast(c, b - a);
  }

  /** OR-ing the next lower byte into the bytes gathered so far appends it; unit is the lower byte's place. */
  lemma OrAppends(a: nat, d: nat, k: nat, unit: nat)
    requires d < 256 && unit == Pow2(k)
    ensures Or(a * (256 * unit), d * unit) == (a * 256 + d) * unit
  {
    BytePlace(k);
    MulLess(d, 256, unit);
    OrDisjoint(a, d * unit, k + 8);
    MulAssoc(a, 256, unit);
    Distribute(unit, a * 256, d);
  }

  /** Four bytes OR-ed from the top down. */
  lemma FourBytes(a: nat, b: nat, c: nat, d: nat, k: nat, unit: nat)
    requires b < 256 && c < 256 && d < 256 && unit == Pow2(k)
    ensures Or(Or(Or(a * (0x100_0000 * unit), b * (0x1_0000 * unit)), c * (0x100 * unit)), d * unit)
         == (((a * 256 + b) * 256 + c) * 256 + d) * unit
  {
    BytePlace(k);
    BytePlace(k + 8);
    OrAppends(a, b, k + 16, 0x1_0000 * unit);
    OrAppends(a * 256 + b, c, k + 8, 0x100 * unit);
    OrAppends((a * 256 + b) * 256 + c, d, k, unit);
  }

  lemma BytePlace(k: nat)
    ensures Pow2(k + 8) == 256 * Pow2(k)
  {
    Pow2Values();
    Pow2Sum(8, k);
  }

  /** The four bytes from bit k on, the lowest one most significant. */
  function Reversed4(v: nat, k: nat): nat {
    ((ByteAt(v, k) * 256 + ByteAt(v, k + 8)) * 256 + ByteAt(v, k + 16)) * 256 + ByteAt(v, k + 24)
  }

  lemma Swap16Bytes(v: nat)
    ensures Swap16(v) == ByteAt(v, 0) * 256 + ByteAt(v, 8)
  {
    Pow2Values();
    FieldUp(v, 0, 8, 16);
    FieldDown(v, 8, 8);
    OrAppends(ByteAt(v, 0), ByteAt(v, 8), 0, 1);
  }

  lemma Swap32Terms(v: nat)
    ensures Shl(And(v, 0x0000_00FF), 24, 32) == ByteAt(v, 0) * 0x100_0000
    ensures Shl(And(v, 0x0000_FF00), 8, 32) == ByteAt(v, 8) * 0x1_0000
    ensures Shr(And(v, 0x00FF_0000), 8) == ByteAt(v, 16) * 0x100
    ensures Shr(And(v, 0xFF00_0000), 24) == ByteAt(v, 24)
  {
    Pow2Values();
    FieldUp(v, 0, 24, 32);
    FieldUp(v, 8, 8, 32);
    FieldDown(v, 16, 8);
    FieldDown(v, 24, 24);
  }

  /** The OR of four terms that are bytes in place. */
  lemma FourTerms(t: nat, u: nat, x: nat, y: nat, a: nat, b: nat, c: nat, d: nat, k: nat, unit: nat)
    requires b < 256 && c < 256 && d < 256 && unit == Pow2(k)
    requires t == a * (0x100_0000 * unit) && u == b * (0x1_0000 * unit) && x == c * (0x100 * unit) && y == d * unit
    ensures Or(Or(Or(t, u), x), y) == (((a * 256 + b) * 256 + c) * 256 + d) * unit
  {
    FourBytes(a, b, c, d, k, unit);
  }

  lemma Swap32Bytes(v: nat)
    ensures Swap32(v) == Reversed4(v, 0)
  {
    Swap32Terms(v);
    FourTerms(Shl(And(v, 0x0000_00FF), 24, 32), Shl(And(v, 0x0000_FF00), 8, 32),
              Shr(And(v, 0x00FF_0000), 8), Shr(And(v, 0xFF00_0000), 24),
              ByteAt(v, 0), ByteAt(v, 8), ByteAt(v, 16), ByteAt(v, 24), 0, 1);
  }

  lemma Swap64UpTerms(v: nat)
    ensures Shl(And(v, 0x0000_0000_0000_00FF), 56, 64) == ByteAt(v, 0) * 0x100_0000_0000_0000
    ensures Shl(And(v, 0x0000_0000_0000_FF00), 40, 64) == ByteAt(v, 8) * 0x1_0000_0000_0000
    ensures Shl(And(v, 0x0000_0000_00FF_0000), 24, 64) == ByteAt(v, 16) * 0x100_0000_0000
    ensures Shl(And(v, 0x0000_0000_FF00_0000), 8, 64) == ByteAt(v, 24) * 0x1_0000_0000
  {
    Pow2Values();
    FieldUp(v, 0, 56, 64);
    FieldUp(v, 8, 40, 64);
    FieldUp(v, 16, 24, 64);
    FieldUp(v, 24, 8, 64);
  }

  lemma Swap64DownTerms(v: nat)
    ensures Shr(And(v, 0x0000_00FF_0000_0000), 8) == ByteAt(v, 32) * 0x100_0000
    ensures Shr(And(v, 0x0000_FF00_0000_0000), 24) == ByteAt(v, 40) * 0x1_0000
    ensures Shr(And(v, 0x00FF_0000_0000_0000), 40) == ByteAt(v, 48) * 0x100
    ensures Shr(And(v, 0xFF00_0000_0000_0000), 56) == ByteAt(v, 56)
  {
    Pow2Values();
    FieldDown(v, 32, 8);
    FieldDown(v, 40, 24);
    FieldDown(v, 48, 40);
    FieldDown(v, 56, 56);
  }

  lemma Swap64High(v: nat)
    ensures Swap64Up(v) == Reversed4(v, 0) * 0x1_0000_0000
  {
    Swap64UpTerms(v);
    UnitIs32();
    FourTerms(Shl(And(v, 0x0000_0000_0000_00FF), 56, 64), Shl(And(v, 0x0000_0000_0000_FF00), 40, 64),
              Shl(And(v, 0x0000_0000_00FF_0000), 24, 64), Shl(And(v, 0x0000_0000_FF00_0000), 8, 64),
              ByteAt(v, 0), ByteAt(v, 8), ByteAt(v, 16), ByteAt(v, 24), 32, 0x1_0000_0000);
  }

  lemma UnitIs32()
    ensures Pow2(32) == 0x1_0000_0000
  {
    Pow2Values();
  }

  /** Four more terms below a high part. */
  lemma FourTermsBelow(h: nat, t: nat, u: nat, x: nat, y: nat, a: nat, b: nat, c: nat, d: nat, e: nat)
    requires b < 256 && c < 256 && d < 256 && e < 256
    requires h == a * 0x1_0000_0000 && t == b * 0x100_0000 && u == c * 0x1_0000 && x == d * 256 && y == e
    ensures Or(Or(Or(Or(h, t), u), x), y)
         == a * 0x1_0000_0000 + (((b * 256 + c) * 256 + d) * 256 + e)
  {
    Pow2Values();
    OrAppends(a, b, 24, 0x100_0000);
    FourBytes(a * 256 + b, c, d, e, 0, 1);
  }

  lemma Swap64Bytes(v: nat)
    ensures Swap64(v) == Reversed4(v, 0) * 0x1_0000_0000 + Reversed4(v, 32)
  {
    Swap64High(v);
    Swap64DownTerms(v);
    FourTermsBelow(Swap64Up(v),
      Shr(And(v, 0x0000_00FF_0000_0000), 8), Shr(And(v, 0x0000_FF00_0000_0000), 24),
      Shr(And(v, 0x00FF_0000_0000_0000), 40), Shr(And(v, 0xFF00_0000_0000_0000), 56),
      Reversed4(v, 0), ByteAt(v, 32), ByteAt(v, 40), ByteAt(v, 48), ByteAt(v, 56));
  }

  // ----- swaps and byte strings

  lemma {:induction false} LEBound(bytes: seq<byte>)
    ensures LE(bytes) < Pow2(8 * |bytes|)
  {
    if bytes != [] {
      LEBound(bytes[1..]);
      Pow2Sum(8, 8 * |bytes[1..]|);
      Pow2Values();
    }
  }

  /** Byte i of the little-endian value is byte i of the string. */
  lemma {:induction false} ByteOfLE(bytes: seq<byte>, i: nat)
    requires i < |bytes|
    ensures ByteAt(LE(bytes), 8 * i) == bytes[i] as nat
    decreases i
  {
    Pow2Values();
    var v, rest := LE(bytes), LE(bytes[1..]);
    if i == 0 {
      DivUnique(v, 256, rest, bytes[0] as nat);
    } else {
      DivUnique(v, 256, rest, bytes[0] as nat);
      Pow2Sum(8, 8 * (i - 1));
      DivDiv(v, 256, Pow2(8 * (i - 1)));
      ByteOfLE(bytes[1..], i - 1);
    }
  }

  lemma BE4(s: seq<byte>)
    requires |s| == 4
    ensures BE(s) == ((s[0] as nat * 256 + s[1] as nat) * 256 + s[2] as nat) * 256 + s[3] as nat
  {
    assert s[..3][..2] == s[..2] && s[..2][..1] == s[..1] && s[..1][..0] == [];
    assert BE(s[..1]) == s[0] as nat;
    assert BE(s[..2]) == s[0] as nat * 256 + s[1] as nat;
  }

  lemma {:induction false} BEConcat(high: seq<byte>, low: seq<byte>)
    ensures BE(high + low) == BE(high) * Pow2(8 * |low|) + BE(low)
    decreases |low|
  {
    if low == [] {
      assert high + low == high;
    } else {
      var n := |low| - 1;
      assert (high + low)[..|high + low| - 1] == high + low[..n];
      BEConcat(high, low[..n]);
      BytePower(n);
      Scale(BE(high), Pow2(8 * n));
    }
  }

  lemma BytePower(n: nat)
    ensures Pow2(8 * (n + 1)) == 256 * Pow2(8 * n)
  {
    Pow2Values();
    Pow2Sum(8, 8 * n);
  }

  lemma Scale(x: nat, p: nat)
    ensures 256 * (x * p) == x * (256 * p)
  {
  }

  /** Each swap turns the little-endian value of its bytes into the big-endian one. */
  lemma SwapReadsBackwards2(bytes: seq<byte>)
    requires |bytes| == 2
    ensures Swap16(LE(bytes)) == BE(bytes)
  {
    Swap16Bytes(LE(bytes));
    ByteOfLE(bytes, 0);
    ByteOfLE(bytes, 1);
    assert bytes[..1] == [bytes[0]] && bytes[..1][..0] == [];
    assert BE(bytes[..1]) == bytes[0] as nat;
  }

  lemma SwapReadsBackwards4(bytes: seq<byte>)
    requires |bytes| == 4
    ensures Swap32(LE(bytes)) == BE(bytes)
  {
    Swap32Bytes(LE(bytes));
    ByteOfLE(bytes, 0);
    ByteOfLE(bytes, 1);
    ByteOfLE(bytes, 2);
    ByteOfLE(bytes, 3);
    BE4(bytes);
  }

  lemma Reversed4IsBE(bytes: seq<byte>, i: nat)
    requires i + 4 <= |bytes|
    ensures Reversed4(LE(bytes), 8 * i) == BE(bytes[i..i + 4])
  {
    ByteOfLE(bytes, i);
    ByteOfLE(bytes, i + 1);
    ByteOfLE(bytes, i + 2);
    ByteOfLE(bytes, i + 3);
    BE4(bytes[i..i + 4]);
  }

  lemma Halves(b: seq<byte>, c: seq<byte>)
    requires |b| == |c| == 4
    ensures LE(b + c) == LE(b) + 0x1_0000_0000 * LE(c) && BE(b + c) == BE(b) * 0x1_0000_0000 + BE(c)
  {
    LEConcat(b, c);
    BEConcat(b, c);
    Pow2Values();
    assert 8 * |b| == 32;
  }

  lemma HalvesReversed(bytes: seq<byte>)
    requires |bytes| == 8
    ensures Reversed4(LE(bytes), 0) * 0x1_0000_0000 + Reversed4(LE(bytes), 32) == BE(bytes)
  {
    Reversed4IsBE(bytes, 0);
    Reversed4IsBE(bytes, 4);
    Halves(bytes[..4], bytes[4..]);
    assert bytes[..4] + bytes[4..] == bytes && bytes[0..4] == bytes[..4] && bytes[4..8] == bytes[4..];
  }

  lemma SwapReadsBackwards8(bytes: seq<byte>)
    requires |bytes| == 8
    ensures Swap64(LE(bytes)) == BE(bytes)
  {
    Swap64Bytes(LE(bytes));
    HalvesReversed(bytes);
  }

  // ----- the value of a reversed string, and words as strings

  function Reverse(bytes: seq<byte>): seq<byte> {
    if bytes == [] then [] else Reverse(bytes[1..]) + [bytes[0]]
  }

  lemma {:induction false} ReverseLength(bytes: seq<byte>)
    ensures |Reverse(bytes)| == |bytes|
  {
    if bytes != [] { ReverseLength(bytes[1..]); }
  }

  lemma {:induction false} BEOfReverse(bytes: seq<byte>)
    ensures BE(Reverse(bytes)) == LE(bytes)
  {
    if bytes != [] {
      BEOfReverse(bytes[1..]);
      var r := Reverse(bytes);
      assert r[..|r| - 1] == Reverse(bytes[1..]);
    }
  }

  lemma {:induction false} LEConcat(low: seq<byte>, high: seq<byte>)
    ensures LE(low + high) == LE(low) + Pow2(8 * |low|) * LE(high)
  {
    if low == [] {
      assert low + high == high;
    } else {
      assert (low + high)[1..] == low[1..] + high;
      LEConcat(low[1..], high);
      Pow2Values();
      Pow2Sum(8, 8 * |low[1..]|);
      MulAssoc(256, Pow2(8 * |low[1..]|), LE(high));
    }
  }

  lemma {:induction false} LEOfReverse(bytes: seq<byte>)
    ensures LE(Reverse(bytes)) == BE(bytes)
  {
    if bytes != [] {
      var n := |bytes| - 1;
      LEOfReverse(bytes[..n]);
      ReverseSnoc(bytes[..n], bytes[n]);
      assert bytes == bytes[..n] + [bytes[n]];
      assert ([bytes[n]] + Reverse(bytes[..n]))[1..] == Reverse(bytes[..n]);
    }
  }

  lemma {:induction false} ReverseSnoc(s: seq<byte>, b: byte)
    ensures Reverse(s + [b]) == [b] + Reverse(s)
  {
    if s == [] {
      assert s + [b] == [b];
    } else {
      assert (s + [b])[1..] == s[1..] + [b];
      ReverseSnoc(s[1..], b);
    }
  }

  /** Every word of n bytes is the little-endian value of some n bytes. */
  lemma {:induction false} AsBytes(v: nat, n: nat) returns (bytes: seq<byte>)
    requires v < Pow2(8 * n)
    ensures |bytes| == n && LE(bytes) == v
    decreases n
  {
    if n == 0 {
      bytes := [];
    } else {
      BytePower(n - 1);
      var high := AsBytes(v / 256, n - 1);
      bytes := [(v % 256) as byte] + high;
    }
  }

  /** Swapping twice gives the word back, in each width. */
  lemma SwapsAreInvolutions(v: nat)
    ensures v < Pow2(16) ==> Swap16(Swap16(v)) == v
    ensures v < Pow2(32) ==> Swap32(Swap32(v)) == v
    ensures v < Pow2(64) ==> Swap64(Swap64(v)) == v
  {
    if v < Pow2(16) {
      var b := AsBytes(v, 2);
      SwapThere(b);
      SwapReadsBackwards2(b);
      SwapReadsBackwards2(Reverse(b));
    }
    if v < Pow2(32) {
      var b := AsBytes(v, 4);
      SwapThere(b);
      SwapReadsBackwards4(b);
      SwapReadsBackwards4(Reverse(b));
    }
    if v < Pow2(64) {
      var b := AsBytes(v, 8);
      SwapThere(b);
      SwapReadsBackwards8(b);
      SwapReadsBackwards8(Reverse(b));
    }
  }

  lemma SwapThere(b: seq<byte>)
    ensures |Reverse(b)| == |b| && LE(Reverse(b)) == BE(b) && BE(Reverse(b)) == LE(b)
  {
    ReverseLength(b);
    BEOfReverse(b);
    LEOfReverse(b);
  }

  /** The 64-bit swap swaps each half and exchanges the halves. */
  lemma Swap64IsTwoSwaps(low: nat, high: nat)
    requires low < 0x1_0000_0000 && high < 0x1_0000_0000
    ensures Swap64(low + 0x1_0000_0000 * high) == Swap32(low) * 0x1_0000_0000 + Swap32(high)
  {
    Pow2Values();
    var b := AsBytes(low, 4);
    var c := AsBytes(high, 4);
    SwapHalves(b, c);
  }

  lemma SwapHalves(b: seq<byte>, c: seq<byte>)
    requires |b| == |c| == 4
    ensures Swap64(LE(b) + 0x1_0000_0000 * LE(c)) == Swap32(LE(b)) * 0x1_0000_0000 + Swap32(LE(c))
  {
    Halves(b, c);
    SwapReadsBackwards4(b);
    SwapReadsBackwards4(c);
    SwapReadsBackwards8(b + c);
  }

  /**
   On a host of either byte order, reading the bytes natively and converting from little-endian
   gives their little-endian value, and converting from big-endian their big-endian value.
   */
  lemma ConversionsAreHostIndependent(order: ByteOrder, bytes: seq<byte>)
    ensures |bytes| == 2 ==> FromLE16(order, Native(order, bytes)) == LE(bytes)
                             && FromBE16(order, Native(order, bytes)) == BE(bytes)
    ensures |bytes| == 4 ==> FromLE32(order, Native(order, bytes)) == LE(bytes)
                             && FromBE32(order, Native(order, bytes)) == BE(bytes)
    ensures |bytes| == 8 ==> FromLE64(order, Native(order, bytes)) == LE(bytes)
                             && FromBE64(order, Native(order, bytes)) == BE(bytes)
  {
    SwapThere(bytes);
    if |bytes| == 2 {
      SwapReadsBackwards2(bytes);
      SwapReadsBackwards2(Reverse(bytes));
    } else if |bytes| == 4 {
      SwapReadsBackwards4(bytes);
      SwapReadsBackwards4(Reverse(bytes));
    } else if |bytes| == 8 {
      SwapReadsBackwards8(bytes);
      SwapReadsBackwards8(Reverse(bytes));
    }
  }
}
