/**
 The inline functions of bson-oid.h on the twelve bytes of an ObjectId.  Where nothing depends on
 the length, the statements are for byte strings of any length.
 */
module ObjectId {
  import opened Words
  import opened Endian

  const OID_BYTES: nat := 12

  // ----- order

  /** memcmp: the difference of the first bytes that differ. */
  function MemCmp(a: seq<byte>, b: seq<byte>): int
    requires |a| == |b|
  {
    if a == [] then 0
    else if a[0] != b[0] then a[0] as int - b[0] as int
    else MemCmp(a[1..], b[1..])
  }

  function Compare(a: seq<byte>, b: seq<byte>): int
    requires |a| == |b| == OID_BYTES
  {
    MemCmp(a, b)
  }

  predicate Equal(a: seq<byte>, b: seq<byte>)
    requires |a| == |b| == OID_BYTES
  {
    MemCmp(a, b) == 0
  }

  lemma BEHead(a: seq<byte>)
    requires a != []
    ensures BE(a) == a[0] as nat * Pow2(8 * |a[1..]|) + BE(a[1..])
  {
    assert a == a[..1] + a[1..] && a[..1][..0] == [];
    BEConcat(a[..1], a[1..]);
    assert BE(a[..1]) == a[0] as nat;
  }

  lemma BEBound(a: seq<byte>)
    ensures BE(a) < Pow2(8 * |a|)
  {
    SwapThere(a);
    LEBound(Reverse(a));
  }

  lemma HigherByteWins(x: nat, y: nat, p: nat, u: nat, v: nat)
    requires x < y && u < p
    ensures x * p + u < y * p + v
  {
    Distribute(p, x, y - x);
    MulAtLeast(p, y - x);
  }

  /** The sign of memcmp is the order of the numbers that the bytes spell, most significant first. */
  lemma {:induction false} CompareIsNumeric(a: seq<byte>, b: seq<byte>)
    requires |a| == |b|
    ensures MemCmp(a, b) < 0 <==> BE(a) < BE(b)
    ensures MemCmp(a, b) == 0 <==> BE(a) == BE(b)
    ensures MemCmp(a, b) == 0 <==> a == b
  {
    if a != [] {
      var p := Pow2(8 * |a[1..]|);
      BEHead(a);
      BEHead(b);
      if a[0] == b[0] {
        CompareIsNumeric(a[1..], b[1..]);
        assert a == [a[0]] + a[1..] && b == [b[0]] + b[1..];
      } else {
        BEBound(a[1..]);
        BEBound(b[1..]);
        if a[0] < b[0] {
          HigherByteWins(a[0] as nat, b[0] as nat, p, BE(a[1..]), BE(b[1..]));
        } else {
          HigherByteWins(b[0] as nat, a[0] as nat, p, BE(b[1..]), BE(a[1..]));
        }
      }
    }
  }

  /** qsort may use it: a total order that agrees with the equality test. */
  lemma CompareIsTotalOrder(a: seq<byte>, b: seq<byte>, c: seq<byte>)
    requires |a| == |b| == |c| == OID_BYTES
    ensures Compare(a, b) <= 0 || Compare(b, a) <= 0
    ensures Compare(a, b) <= 0 && Compare(b, a) <= 0 ==> a == b
    ensures Compare(a, b) <= 0 && Compare(b, c) <= 0 ==> Compare(a, c) <= 0
    ensures Equal(a, b) <==> a == b
  {
    CompareIsNumeric(a, b);
    CompareIsNumeric(b, a);
    CompareIsNumeric(b, c);
    CompareIsNumeric(a, c);
  }

  // ----- generation time

  function GetTime(order: ByteOrder, oid: seq<byte>): nat
    requires |oid| == OID_BYTES
  {
    FromBE32(order, Native(order, oid[..4]))
  }

  /** The time is the first four bytes on every host, and comparison never goes against it. */
  lemma TimeIsMonotone(order: ByteOrder, a: seq<byte>, b: seq<byte>)
    requires |a| == |b| == OID_BYTES
    ensures GetTime(order, a) == BE(a[..4])
    ensures Compare(a, b) <= 0 ==> GetTime(order, a) <= GetTime(order, b)
    ensures GetTime(order, a) < GetTime(order, b) ==> Compare(a, b) < 0
  {
    ConversionsAreHostIndependent(order, a[..4]);
    ConversionsAreHostIndependent(order, b[..4]);
    CompareIsNumeric(a, b);
    assert a == a[..4] + a[4..] && b == b[..4] + b[4..];
    BEConcat(a[..4], a[4..]);
    BEConcat(b[..4], b[4..]);
    BEBound(a[4..]);
    BEBound(b[4..]);
    var p := Pow2(8 * |a[4..]|);
    if BE(b[..4]) < BE(a[..4]) {
      HigherByteWins(BE(b[..4]), BE(a[..4]), p, BE(b[4..]), BE(a[4..]));
    } else if BE(a[..4]) < BE(b[..4]) {
      HigherByteWins(BE(a[..4]), BE(b[..4]), p, BE(a[4..]), BE(b[4..]));
    }
  }

  // ----- hash

  const WORD: nat := 0x1_0000_0000

  /** One turn of the loop, in 32-bit unsigned arithmetic. */
  function HashStep(hash: nat, b: byte): nat {
    ((Shl(hash, 5, 32) + hash) % WORD + b as nat) % WORD
  }

  /** The same recurrence without overflow. */
  function Poly(bytes: seq<byte>): nat {
    if bytes == [] then 5381 else 33 * Poly(bytes[..|bytes| - 1]) + bytes[|bytes| - 1] as nat
  }

  function Pow33(n: nat): nat { if n == 0 then 1 else 33 * Pow33(n - 1) }

  /** The sum of bytes[i] * 33^(n-1-i). */
  function Weighted(bytes: seq<byte>): nat {
    if bytes == [] then 0 else bytes[0] as nat * Pow33(|bytes| - 1) + Weighted(bytes[1..])
  }

  lemma {:induction false} WeightedSnoc(s: seq<byte>, b: byte)
    ensures Weighted(s + [b]) == 33 * Weighted(s) + b as nat
  {
    if s == [] {
      assert s + [b] == [b] && Pow33(0) == 1;
    } else {
      assert (s + [b])[1..] == s[1..] + [b];
      WeightedSnoc(s[1..], b);
      MulAssoc(33, Pow33(|s| - 1), s[0] as nat);
    }
  }

  /** In closed form, 5381 * 33^n plus the weighted bytes. */
  lemma {:induction false} PolyClosedForm(bytes: seq<byte>)
    ensures Poly(bytes) == 5381 * Pow33(|bytes|) + Weighted(bytes)
  {
    if bytes != [] {
      var s, b := bytes[..|bytes| - 1], bytes[|bytes| - 1];
      assert bytes == s + [b];
      PolyClosedForm(s);
      WeightedSnoc(s, b);
    }
  }

  lemma HashStepIs(hash: nat, x: nat, b: byte)
    requires hash == x % WORD
    ensures HashStep(hash, b) == (33 * x + b as nat) % WORD
  {
    HashStepValue(hash, b);
    StepOfRemainder(x, b);
  }

  lemma HashStepValue(hash: nat, b: byte)
    ensures HashStep(hash, b) == (33 * hash + b as nat) % WORD
  {
    Pow2Values();
    assert Pow2(5) == 32;
    AddWrapped(hash * 32, hash);
    AddWrapped(hash * 32 + hash, b as nat);
  }

  /** Wrapping an operand first does not change a wrapped sum. */
  lemma AddWrapped(x: nat, y: nat)
    ensures (x % WORD + y) % WORD == (x + y) % WORD
  {
  }

  lemma StepOfRemainder(x: nat, b: byte)
    ensures (33 * x + b as nat) % WORD == (33 * (x % WORD) + b as nat) % WORD
  {
    var k, y := x / WORD, 33 * (x % WORD) + b as nat;
    assert 33 * x + b as nat == WORD * (33 * k) + y;
    DivUnique(33 * x + b as nat, WORD, 33 * k + y / WORD, y % WORD);
  }

  /** bson_oid_hash_unsafe: the unbounded polynomial, modulo 2^32. */
  method Hash(bytes: seq<byte>) returns (hash: nat)
    ensures hash == HashOf(bytes)
    ensures hash == (5381 * Pow33(|bytes|) + Weighted(bytes)) % WORD
  {
    hash := 5381;
    var i := 0;
    while i < |bytes|
      invariant 0 <= i <= |bytes|
      invariant hash == Poly(bytes[..i]) % WORD
    {
      assert bytes[..i + 1][..i] == bytes[..i];
      HashStepIs(hash, Poly(bytes[..i]), bytes[i]);
      hash := HashStep(hash, bytes[i]);
      i := i + 1;
    }
    assert bytes[..i] == bytes;
    PolyClosedForm(bytes);
  }

  function HashOf(bytes: seq<byte>): nat {
    Poly(bytes) % WORD
  }

  // 33 is invertible modulo 2^32
  const INV33: nat := 1041204193

  lemma SmallMultiple(d: int, k: int)
    requires d == WORD * k && -(WORD as int) < d < WORD
    ensures d == 0
  {
  }

  /** A turn of the loop is injective in the running hash. */
  lemma StepInjective(h: nat, g: nat, b: byte)
    requires h < WORD && g < WORD && (33 * h + b as nat) % WORD == (33 * g + b as nat) % WORD
    ensures h == g
  {
    assert 33 * INV33 == 1 + 8 * WORD;
    var d := h - g;
    var m := (33 * h + b as nat) / WORD - (33 * g + b as nat) / WORD;
    assert 33 * d == WORD * m;
    assert d == WORD * (INV33 * m - 8 * d);
    SmallMultiple(d, INV33 * m - 8 * d);
  }

  lemma HashUnfolds(s: seq<byte>, b: byte)
    ensures HashOf(s + [b]) == (33 * HashOf(s) + b as nat) % WORD
  {
    assert (s + [b])[..|s|] == s;
    StepOfRemainder(Poly(s), b);
  }

  /** Different running hashes stay different through any common tail. */
  lemma {:induction false} TailKeepsDifference(s: seq<byte>, t: seq<byte>, tail: seq<byte>)
    ensures HashOf(s + tail) == HashOf(t + tail) <==> HashOf(s) == HashOf(t)
    decreases |tail|
  {
    if tail == [] {
      assert s + tail == s && t + tail == t;
    } else {
      var n := |tail| - 1;
      assert s + tail == (s + tail[..n]) + [tail[n]] && t + tail == (t + tail[..n]) + [tail[n]];
      HashUnfolds(s + tail[..n], tail[n]);
      HashUnfolds(t + tail[..n], tail[n]);
      TailKeepsDifference(s, t, tail[..n]);
      if HashOf(s + tail) == HashOf(t + tail) {
        StepInjective(HashOf(s + tail[..n]), HashOf(t + tail[..n]), tail[n]);
      }
    }
  }

  /** Two ids that differ in exactly one byte never collide. */
  lemma OneByteNeverCollides(a: seq<byte>, i: nat, x: byte)
    requires i < |a| && x != a[i]
    ensures HashOf(a[i := x]) != HashOf(a)
  {
    var p, tail := a[..i], a[i + 1..];
    assert a == (p + [a[i]]) + tail && a[i := x] == (p + [x]) + tail;
    TailKeepsDifference(p + [a[i]], p + [x], tail);
    HashUnfolds(p, a[i]);
    HashUnfolds(p, x);
    var h := 33 * HashOf(p);
    if (h + a[i] as nat) % WORD == (h + x as nat) % WORD {
      var k := (h + a[i] as nat) / WORD - (h + x as nat) / WORD;
      SmallMultiple(a[i] as int - x as int, k);
    }
  }

  lemma PolyThree(p: seq<byte>, x: byte, y: byte, z: byte)
    ensures Poly(p + [x, y, z]) == 35937 * Poly(p) + 1089 * x as nat + 33 * y as nat + z as nat
  {
    assert (p + [x, y, z])[..|p| + 2] == p + [x, y] && (p + [x, y])[..|p| + 1] == p + [x] && (p + [x])[..|p|] == p;
    assert Poly(p + [x]) == 33 * Poly(p) + x as nat;
    assert Poly(p + [x, y]) == 33 * Poly(p + [x]) + y as nat;
  }

  /** Ids that agree on all but the last three bytes collide exactly when the weights cancel. */
  lemma LastThreeCollideIff(p: seq<byte>, a: seq<byte>, b: seq<byte>)
    requires |a| == |b| == 3
    ensures HashOf(p + a) == HashOf(p + b) <==>
            1089 * (a[0] as int - b[0] as int) + 33 * (a[1] as int - b[1] as int) + (a[2] as int - b[2] as int) == 0
  {
    assert a == [a[0], a[1], a[2]] && b == [b[0], b[1], b[2]];
    PolyThree(p, a[0], a[1], a[2]);
    PolyThree(p, b[0], b[1], b[2]);
    var d := Poly(p + a) - Poly(p + b);
    if HashOf(p + a) == HashOf(p + b) {
      SmallMultiple(d, Poly(p + a) / WORD - Poly(p + b) / WORD);
    }
  }

  // ----- hexadecimal form

  /** bson_oid_parse_hex_char; anything that is not a digit counts as 0. */
  function ParseHexChar(hex: char): (v: nat)
    ensures v < 16
  {
    if '0' <= hex <= '9' then hex as nat - '0' as nat
    else if 'a' <= hex <= 'f' then hex as nat - 'a' as nat + 10
    else if 'A' <= hex <= 'F' then hex as nat - 'A' as nat + 10
    else 0
  }

  function HexChar(v: nat): char
    requires v < 16
  {
    if v < 10 then ('0' as nat + v) as char else ('a' as nat + (v - 10)) as char
  }

  /** The digits are the usual sixteen, in either case; every other character counts as 0. */
  lemma HexDigits(c: char, v: nat)
    requires v < 16
    ensures HexChar(v) == "0123456789abcdef"[v] && ParseHexChar(HexChar(v)) == v
    ensures 'A' <= c <= 'F' ==> ParseHexChar(c) == ParseHexChar(LowerChar(c))
    ensures !IsHexDigit(c) ==> ParseHexChar(c) == 0
  {
  }

  /** The byte with these two digits. */
  function ByteOfHex(high: char, low: char): (b: byte)
    ensures b as nat / 16 == ParseHexChar(high) && b as nat % 16 == ParseHexChar(low)
  {
    (16 * ParseHexChar(high) + ParseHexChar(low)) as byte
  }

  /** A digit shifted up by four and OR-ed with the next makes their byte. */
  lemma NibblePair(h: nat, l: nat)
    requires h < 16 && l < 16
    ensures Or(Shl(h, 4, 32), l) == 16 * h + l
  {
    assert Pow2(4) == 16;
    Pow2Grows(8, 32);
    DivUnique(h * 16, Pow2(32), 0, h * 16);
    OrDisjoint(h, l, 4);
  }

  function Decode(str: string): (r: seq<byte>)
    ensures |r| == |str| / 2
  {
    if |str| < 2 then [] else [ByteOfHex(str[0], str[1])] + Decode(str[2..])
  }

  lemma {:induction false} DecodeAt(str: string, i: nat)
    requires 2 * i + 1 < |str|
    ensures Decode(str)[i] == ByteOfHex(str[2 * i], str[2 * i + 1])
  {
    if i > 0 {
      DecodeAt(str[2..], i - 1);
    }
  }

  /** bson_oid_init_from_string_unsafe, filling the id in place. */
  method InitFromString(oid: array<byte>, str: string)
    requires oid.Length == OID_BYTES && |str| >= 2 * OID_BYTES
    modifies oid
    ensures oid[..] == Decode(str[..2 * OID_BYTES])
  {
    var i := 0;
    while i < OID_BYTES
      invariant 0 <= i <= OID_BYTES
      invariant forall k :: 0 <= k < i ==> oid[k] == ByteOfHex(str[2 * k], str[2 * k + 1])
    {
      NibblePair(ParseHexChar(str[2 * i]), ParseHexChar(str[2 * i + 1]));
      oid[i] := Or(Shl(ParseHexChar(str[2 * i]), 4, 32), ParseHexChar(str[2 * i + 1])) as byte;
      i := i + 1;
    }
    forall k | 0 <= k < OID_BYTES ensures oid[k] == Decode(str[..2 * OID_BYTES])[k] {
      DecodeAt(str[..2 * OID_BYTES], k);
    }
  }

  /** The canonical form: two lower-case digits a byte. */
  function Encode(bytes: seq<byte>): (r: string)
    ensures |r| == 2 * |bytes|
  {
    if bytes == [] then []
    else [HexChar(bytes[0] as nat / 16), HexChar(bytes[0] as nat % 16)] + Encode(bytes[1..])
  }

  function CanonicalChar(c: char): char {
    HexChar(ParseHexChar(c))
  }

  /** Lower case, with '0' for every character that is not a digit. */
  function Canonical(str: string): (r: string)
    ensures |r| == |str|
  {
    if str == [] then [] else [CanonicalChar(str[0])] + Canonical(str[1..])
  }

  lemma {:induction false} DecodeEncode(bytes: seq<byte>)
    ensures Decode(Encode(bytes)) == bytes
  {
    if bytes != [] {
      ByteOfItsDigits(bytes[0]);
      assert Encode(bytes)[2..] == Encode(bytes[1..]);
      DecodeEncode(bytes[1..]);
    }
  }

  lemma ParseOfHexChar(v: nat)
    requires v < 16
    ensures ParseHexChar(HexChar(v)) == v
  {
  }

  lemma ByteOfItsDigits(b: byte)
    ensures ByteOfHex(HexChar(b as nat / 16), HexChar(b as nat % 16)) == b
  {
    ParseOfHexChar(b as nat / 16);
    ParseOfHexChar(b as nat % 16);
  }

  lemma EncodeHead(high: char, low: char, rest: seq<byte>)
    ensures Encode([ByteOfHex(high, low)] + rest) == [CanonicalChar(high), CanonicalChar(low)] + Encode(rest)
  {
    assert ([ByteOfHex(high, low)] + rest)[1..] == rest;
  }

  lemma CanonicalHead(str: string)
    requires |str| >= 2
    ensures Canonical(str) == [CanonicalChar(str[0]), CanonicalChar(str[1])] + Canonical(str[2..])
  {
    assert str[1..] == [str[1]] + str[2..] && str[1..][1..] == str[2..];
  }

  lemma {:induction false} EncodeDecode(str: string)
    requires |str| % 2 == 0
    ensures Encode(Decode(str)) == Canonical(str)
  {
    if str != [] {
      EncodeHead(str[0], str[1], Decode(str[2..]));
      CanonicalHead(str);
      EncodeDecode(str[2..]);
    }
  }

  /** Two strings give the same bytes exactly when their canonical forms are equal. */
  lemma DecodeAlikeIff(s: string, t: string)
    requires |s| % 2 == 0 && |t| % 2 == 0
    ensures Decode(s) == Decode(t) <==> Canonical(s) == Canonical(t)
  {
    EncodeDecode(s);
    EncodeDecode(t);
    DecodeEncode(Decode(s));
    DecodeEncode(Decode(t));
  }

  predicate IsHexDigit(c: char) {
    '0' <= c <= '9' || 'a' <= c <= 'f' || 'A' <= c <= 'F'
  }

  function LowerChar(c: char): char {
    if 'A' <= c <= 'Z' then (c as int - 'A' as int + 'a' as int) as char else c
  }

  function LowerCase(str: string): string {
    if str == [] then [] else [LowerChar(str[0])] + LowerCase(str[1..])
  }

  predicate IsHex(str: string) {
    forall i :: 0 <= i < |str| ==> IsHexDigit(str[i])
  }

  /** On a hexadecimal string the canonical form is the lower-case string. */
  lemma {:induction false} CanonicalIsLowerCase(str: string)
    requires IsHex(str)
    ensures Canonical(str) == LowerCase(str)
  {
    if str != [] {
      CanonicalIsLowerCase(str[1..]);
    }
  }

  /** Hexadecimal strings print back in lower case, and decode alike exactly when equal up to case. */
  lemma HexUpToCase(s: string, t: string)
    requires |s| % 2 == 0 && |t| % 2 == 0 && IsHex(s) && IsHex(t)
    ensures Encode(Decode(s)) == LowerCase(s)
    ensures Decode(s) == Decode(t) <==> LowerCase(s) == LowerCase(t)
  {
    EncodeDecode(s);
    CanonicalIsLowerCase(s);
    CanonicalIsLowerCase(t);
    DecodeAlikeIff(s, t);
  }

  /** strcmp on strings of equal length. */
  function StrCmp(s: string, t: string): int
    requires |s| == |t|
  {
    if s == [] then 0 else if s[0] != t[0] then s[0] as int - t[0] as int else StrCmp(s[1..], t[1..])
  }

  lemma HexCharsOrdered(x: nat, y: nat)
    requires x < 16 && y < 16
    ensures x < y <==> HexChar(x) < HexChar(y)
    ensures x == y <==> HexChar(x) == HexChar(y)
  {
  }

  lemma StrCmpPair(a: char, b: char, s: string, c: char, d: char, t: string)
    requires |s| == |t|
    ensures StrCmp([a, b] + s, [c, d] + t) ==
            if a != c then a as int - c as int else if b != d then b as int - d as int else StrCmp(s, t)
  {
    assert ([a, b] + s)[1..] == [b] + s && ([b] + s)[1..] == s;
    assert ([c, d] + t)[1..] == [d] + t && ([d] + t)[1..] == t;
  }

  /** Canonical strings sort exactly as the ids they stand for. */
  lemma {:induction false} HexOrderAgrees(a: seq<byte>, b: seq<byte>)
    requires |a| == |b|
    ensures StrCmp(Encode(a), Encode(b)) < 0 <==> MemCmp(a, b) < 0
    ensures StrCmp(Encode(a), Encode(b)) == 0 <==> MemCmp(a, b) == 0
  {
    if a != [] {
      var x, y := a[0] as nat, b[0] as nat;
      HexCharsOrdered(x / 16, y / 16);
      HexCharsOrdered(x % 16, y % 16);
      StrCmpPair(HexChar(x / 16), HexChar(x % 16), Encode(a[1..]), HexChar(y / 16), HexChar(y % 16), Encode(b[1..]));
      HexOrderAgrees(a[1..], b[1..]);
    }
  }
}
