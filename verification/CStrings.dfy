/**
 NUL-terminated strings in a flat memory, and the copying helpers of p_string.cpp.
 */
module CStrings {
  const NUL: char := '\0'

  /** The position of the terminator of the string at a, or the end of memory if there is none. */
  function End(mem: seq<char>, a: nat): (r: nat)
    requires a <= |mem|
    ensures a <= r <= |mem|
    ensures r < |mem| ==> mem[r] == NUL
    ensures forall k :: a <= k < r ==> mem[k] != NUL
    decreases |mem| - a
  {
    if a == |mem| || mem[a] == NUL then a else End(mem, a + 1)
  }

  predicate IsString(mem: seq<char>, a: nat) {
    a < |mem| && End(mem, a) < |mem|
  }

  function StrLen(mem: seq<char>, a: nat): nat
    requires IsString(mem, a)
  {
    End(mem, a) - a
  }

  /** The first position after the string at a and its terminator. */
  function Next(mem: seq<char>, a: nat): (r: nat)
    requires IsString(mem, a)
    ensures a < r <= |mem| && mem[r - 1] == NUL
  {
    a + StrLen(mem, a) + 1
  }

  /** Two memories that agree on a string, terminator included, have the same string there. */
  lemma {:induction false} EndAgrees(mem: seq<char>, mem': seq<char>, a: nat)
    requires IsString(mem, a) && |mem'| == |mem|
    requires forall k :: a <= k <= End(mem, a) ==> mem'[k] == mem[k]
    ensures IsString(mem', a) && End(mem', a) == End(mem, a)
    decreases |mem| - a
  {
    if mem[a] != NUL {
      EndAgrees(mem, mem', a + 1);
    }
  }

  /** The n characters that strncpy stores for a source string: the string, then NULs. */
  function Padded(src: seq<char>, n: nat): (r: seq<char>)
    ensures |r| == n && forall i :: 0 <= i < n ==> r[i] == if i < |src| then src[i] else NUL
  {
    if n <= |src| then src[..n] else src + seq(n - |src|, _ => NUL)
  }

  /** Memory with a piece stored at a. */
  function Overlay(mem: seq<char>, a: nat, piece: seq<char>): (r: seq<char>)
    requires a + |piece| <= |mem|
    ensures |r| == |mem|
  {
    mem[..a] + piece + mem[a + |piece|..]
  }

  lemma OverlaySnoc(mem: seq<char>, a: nat, piece: seq<char>, c: char)
    requires a + |piece| < |mem|
    ensures Overlay(mem, a, piece)[a + |piece| := c] == Overlay(mem, a, piece + [c])
  {
  }

  method MemSet(mem: array<char>, a: nat, c: char, n: nat)
    requires a + n <= mem.Length
    modifies mem
    ensures mem[..] == Overlay(old(mem[..]), a, seq(n, _ => c))
  {
    var i := 0;
    while i < n
      invariant 0 <= i <= n
      invariant mem[..] == Overlay(old(mem[..]), a, seq(i, _ => c))
    {
      assert seq(i, _ => c) + [c] == seq(i + 1, _ => c);
      OverlaySnoc(old(mem[..]), a, seq(i, _ => c), c);
      mem[a + i] := c;
      i := i + 1;
    }
  }

  lemma PaddedSnoc(src: seq<char>, i: nat)
    ensures Padded(src, i + 1) == Padded(src, i) + [if i < |src| then src[i] else NUL]
  {
  }

  /**
   strncpy stores n characters.  Where the destination's memory ends before that, the store beyond it
   faults; what was stored up to there stays.
   */
  method StrNCpy(mem: array<char>, a: nat, src: seq<char>, n: nat) returns (fault: bool)
    requires a <= mem.Length && NUL !in src
    modifies mem
    ensures fault <==> a + n > mem.Length
    ensures var m := Min(n, mem.Length - a);
            mem[..] == Overlay(old(mem[..]), a, Padded(src, m))
  {
    ghost var before := mem[..];
    var i := 0;
    while i < n && a + i < mem.Length
      invariant 0 <= i <= Min(n, mem.Length - a)
      invariant mem[..] == Overlay(before, a, Padded(src, i))
    {
      var c := if i < |src| then src[i] else NUL;
      PaddedSnoc(src, i);
      OverlaySnoc(before, a, Padded(src, i), c);
      ghost var now := mem[..];
      mem[a + i] := c;
      assert mem[..] == now[a + i := c];
      i := i + 1;
    }
    fault := i < n;
  }

  function Min(a: int, b: int): int { if a < b then a else b }

  const SIZE_MAX_PLUS_1: int := 0x1_0000_0000_0000_0000

  /** A conversion to size_t. */
  function ToSize(n: int): nat {
    n % SIZE_MAX_PLUS_1
  }

  /**
   rc_strncpy, for every pair of sizes.  With n the smaller of the source length and the stated size
   less one, it stores n characters of the source and a terminator, and touches nothing else, unless n
   is negative or that runs past the end of memory: then it faults.
   */
  method RcStrncpy(mem: array<char>, a: nat, d_l: int, src: seq<char>, s_l: int) returns (fault: bool)
    requires a <= mem.Length < 0x8000_0000_0000_0000 && NUL !in src
    requires -0x8000_0000 < d_l < 0x8000_0000 && -0x8000_0000 <= s_l < 0x8000_0000
    modifies mem
    ensures var n := Min(s_l, d_l - 1);
            && (fault <==> n < 0 || a + n >= mem.Length)
            && (!fault ==> mem[..] == Overlay(old(mem[..]), a, Padded(src, n) + [NUL]))
    ensures mem[..a] == old(mem[..a])
  {
    if s_l < d_l - 1 {
      fault := CopyAndEnd(mem, a, src, s_l);
    } else {
      fault := CopyAndEnd(mem, a, src, d_l - 1);
    }
  }

  /** strncpy(dest, src, n) and dest[n] = NUL, the two statements of either branch. */
  method CopyAndEnd(mem: array<char>, a: nat, src: seq<char>, n: int) returns (fault: bool)
    requires a <= mem.Length < 0x8000_0000_0000_0000 && NUL !in src
    requires -0x8000_0000 <= n < 0x8000_0000
    modifies mem
    ensures fault <==> n < 0 || a + n >= mem.Length
    ensures !fault ==> mem[..] == Overlay(old(mem[..]), a, Padded(src, n) + [NUL])
    ensures mem[..a] == old(mem[..a])
  {
    ghost var before := mem[..];
    SizeOf(n);
    fault := StrNCpy(mem, a, src, ToSize(n));
    assert mem[..a] == before[..a];
    if fault || a + n >= mem.Length {
      return true;
    }
    OverlaySnoc(before, a, Padded(src, n), NUL);
    mem[a + n] := NUL;
  }

  /** A negative length becomes larger than any memory. */
  lemma SizeOf(n: int)
    requires -0x8000_0000 <= n < 0x8000_0000
    ensures ToSize(n) == if n < 0 then n + SIZE_MAX_PLUS_1 else n
  {
  }

  // ----- the room rc_strncpy needs

  /** The offsets from dest that rc_strncpy stores to; the length of strncpy is a size_t. */
  predicate Stored(d_l: int, s_l: nat, o: int) {
    if s_l < d_l - 1 then 0 <= o <= s_l
    else 0 <= o < ToSize(d_l - 1) || o == d_l - 1
  }

  /** rc_strncpy stays inside its destination exactly when the stated size is positive. */
  lemma StaysInsideIff(d_l: int, s_l: nat)
    requires -0x8000_0000 < d_l < 0x8000_0000
    ensures (forall o :: Stored(d_l, s_l, o) ==> 0 <= o < d_l) <==> d_l >= 1
    ensures d_l >= 1 ==> forall o :: Stored(d_l, s_l, o) <==> 0 <= o <= Min(s_l, d_l - 1)
  {
    if d_l <= 0 {
      assert Stored(d_l, s_l, d_l - 1);
    }
  }
}
