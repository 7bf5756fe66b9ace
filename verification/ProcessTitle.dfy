/**
 init_process_title and set_process_titile (global_conf.cpp of pulld): finding the block of memory
 that starts with argv[0] and writing a title over it.
 */
module ProcessTitle {
  import opened CStrings

  /** The strings at these addresses follow one another without a gap, from `from` on. */
  predicate Chain(mem: seq<char>, ptrs: seq<nat>, from: nat) {
    ptrs == [] ||
    (ptrs[0] == from && IsString(mem, from) && Chain(mem, ptrs[1..], Next(mem, from)))
  }

  function ChainEnd(mem: seq<char>, ptrs: seq<nat>, from: nat): nat
    requires Chain(mem, ptrs, from)
  {
    if ptrs == [] then from else ChainEnd(mem, ptrs[1..], Next(mem, from))
  }

  predicate Strings(mem: seq<char>, ptrs: seq<nat>) {
    forall p :: p in ptrs ==> IsString(mem, p)
  }

  /** One pass over a pointer list: step over every string that starts where the last one ended. */
  function Extend(mem: seq<char>, ptrs: seq<nat>, last: nat): nat
    requires Strings(mem, ptrs)
  {
    if ptrs == [] then last
    else Extend(mem, ptrs[1..], if ptrs[0] == last then Next(mem, last) else last)
  }

  lemma {:induction false} ExtendSnoc(mem: seq<char>, ptrs: seq<nat>, p: nat, last: nat)
    requires Strings(mem, ptrs + [p])
    ensures Strings(mem, ptrs)
    ensures var e := Extend(mem, ptrs, last);
            Extend(mem, ptrs + [p], last) == if p == e then Next(mem, e) else e
  {
    assert p in ptrs + [p];
    if ptrs == [] {
      assert ptrs + [p] == [p];
    } else {
      assert (ptrs + [p])[0] in ptrs + [p] && forall q :: q in ptrs ==> q in ptrs + [p];
      assert (ptrs + [p])[1..] == ptrs[1..] + [p];
      ExtendSnoc(mem, ptrs[1..], p, if ptrs[0] == last then Next(mem, last) else last);
    }
  }

  /** What the pass steps over is a chain of strings taken from the list. */
  lemma {:induction false} ExtendTiles(mem: seq<char>, ptrs: seq<nat>, last: nat) returns (chain: seq<nat>)
    requires Strings(mem, ptrs)
    ensures Chain(mem, chain, last) && ChainEnd(mem, chain, last) == Extend(mem, ptrs, last)
    ensures forall p :: p in chain ==> p in ptrs
    ensures chain == [] <==> Extend(mem, ptrs, last) == last
    decreases |ptrs|
  {
    if ptrs == [] {
      chain := [];
    } else if ptrs[0] == last {
      var rest := ExtendTiles(mem, ptrs[1..], Next(mem, last));
      chain := [last] + rest;
      assert chain[1..] == rest;
      ChainGrows(mem, rest, Next(mem, last));
    } else {
      chain := ExtendTiles(mem, ptrs[1..], last);
    }
  }

  lemma {:induction false} ChainGrows(mem: seq<char>, ptrs: seq<nat>, from: nat)
    requires Chain(mem, ptrs, from)
    ensures from <= ChainEnd(mem, ptrs, from)
    ensures ptrs != [] ==> 0 < ChainEnd(mem, ptrs, from) <= |mem| && mem[ChainEnd(mem, ptrs, from) - 1] == NUL
    decreases |ptrs|
  {
    if ptrs != [] {
      ChainGrows(mem, ptrs[1..], Next(mem, from));
    }
  }

  /** Every position of the block lies in one of the chain's strings or is its terminator. */
  lemma {:induction false} ChainCovers(mem: seq<char>, ptrs: seq<nat>, from: nat, x: nat) returns (p: nat)
    requires Chain(mem, ptrs, from) && from <= x < ChainEnd(mem, ptrs, from)
    ensures p in ptrs && IsString(mem, p) && p <= x <= End(mem, p)
    decreases |ptrs|
  {
    if x < Next(mem, from) {
      p := from;
    } else {
      p := ChainCovers(mem, ptrs[1..], Next(mem, from), x);
    }
  }

  /** When all strings of the list are one chain, the pass reaches its end. */
  lemma {:induction false} WholeChain(mem: seq<char>, ptrs: seq<nat>, from: nat)
    requires Chain(mem, ptrs, from) && Strings(mem, ptrs)
    ensures Extend(mem, ptrs, from) == ChainEnd(mem, ptrs, from)
    decreases |ptrs|
  {
    if ptrs != [] {
      assert forall p :: p in ptrs[1..] ==> p in ptrs;
      WholeChain(mem, ptrs[1..], Next(mem, from));
    }
  }

  /** The pass moves exactly when some string of the list starts at its starting point. */
  lemma {:induction false} ExtendMovesIff(mem: seq<char>, ptrs: seq<nat>, last: nat)
    requires Strings(mem, ptrs)
    ensures Extend(mem, ptrs, last) >= last
    ensures Extend(mem, ptrs, last) > last <==> last in ptrs
    decreases |ptrs|
  {
    if ptrs != [] {
      assert forall p :: p in ptrs[1..] ==> p in ptrs;
      assert ptrs[0] in ptrs;
      if ptrs[0] == last {
        ExtendMovesIff(mem, ptrs[1..], Next(mem, last));
      } else {
        ExtendMovesIff(mem, ptrs[1..], last);
      }
    }
  }

  /** The block is not empty and its last position is a terminator. */
  lemma BlockEnd(mem: seq<char>, ptrs: seq<nat>, from: nat)
    requires Strings(mem, ptrs) && from in ptrs
    ensures var end := Extend(mem, ptrs, from); from < end <= |mem| && mem[end - 1] == NUL
  {
    var chain := ExtendTiles(mem, ptrs, from);
    ExtendMovesIff(mem, ptrs, from);
    ChainGrows(mem, chain, from);
  }

  /** Memory with the title, cut to what fits, and then NULs from position `from` up to `last`. */
  function Titled(mem: seq<char>, from: nat, last: nat, title: seq<char>): (r: seq<char>)
    requires from < last < |mem|
    ensures |r| == |mem|
    ensures forall x :: 0 <= x < |mem| && !(from <= x < last) ==> r[x] == mem[x]
    ensures forall x :: from <= x < last ==>
              r[x] == if x - from < Min(|title|, last - from - 1) then title[x - from] else NUL
  {
    var n := Min(|title|, last - from - 1);
    mem[..from] + title[..n] + seq(last - from - n, _ => NUL) + mem[last..]
  }

  lemma TitledAfterClear(before: seq<char>, cleared: seq<char>, after: seq<char>,
                         from: nat, last: nat, title: seq<char>)
    requires from < last < |before|
    requires cleared == Overlay(before, from, seq(last - from, _ => NUL))
    requires var n := Min(|title|, last - from - 1);
             after == Overlay(cleared, from, title[..n] + [NUL])
    ensures after == Titled(before, from, last, title)
  {
    forall x | 0 <= x < |before| ensures after[x] == Titled(before, from, last, title)[x] {
    }
  }

  class Conf {
    const argv: seq<nat>
    const osArgv: nat
    var last: nat

    constructor (argv: seq<nat>)
      requires argv != []
      ensures this.argv == argv && this.osArgv == argv[0]
    {
      this.argv, this.osArgv, this.last := argv, argv[0], 0;
    }

    /** The end of the block: the last position of the strings that follow argv[0] without a gap. */
    method InitProcessTitle(mem: array<char>, environ: seq<nat>)
      requires argv != [] && osArgv == argv[0] && Strings(mem[..], argv + environ)
      modifies this`last
      ensures last + 1 == Extend(mem[..], argv + environ, osArgv)
      ensures last >= osArgv && last < mem.Length && mem[last] == NUL
    {
      ghost var m := mem[..];
      assert forall p :: p in argv ==> p in argv + environ;
      assert forall p :: p in environ ==> p in argv + environ;
      var size := 0;
      var i := 0;
      while i < |environ|
        invariant 0 <= i <= |environ|
      {
        size := (size + StrLen(mem[..], environ[i]) + 1) % 0x1_0000_0000;
        i := i + 1;
      }
      var end := argv[0];
      i := 0;
      while i < |argv|
        invariant 0 <= i <= |argv|
        invariant Strings(m, argv[..i]) && end == Extend(m, argv[..i], osArgv)
      {
        assert argv[..i + 1] == argv[..i] + [argv[i]];
        ExtendSnoc(m, argv[..i], argv[i], osArgv);
        if end == argv[i] {
          end := argv[i] + StrLen(mem[..], argv[i]) + 1;
        }
        i := i + 1;
      }
      assert argv[..i] == argv;
      i := 0;
      assert argv + environ[..0] == argv;
      while i < |environ|
        invariant 0 <= i <= |environ|
        invariant Strings(m, argv + environ[..i]) && end == Extend(m, argv + environ[..i], osArgv)
      {
        assert argv + environ[..i + 1] == (argv + environ[..i]) + [environ[i]];
        ExtendSnoc(m, argv + environ[..i], environ[i], osArgv);
        if end == environ[i] {
          size := StrLen(mem[..], environ[i]) + 1;
          end := environ[i] + size;
        }
        i := i + 1;
      }
      assert environ[..i] == environ;
      BlockEnd(m, argv + environ, osArgv);
      last := end - 1;
    }

    /**
     The title, cut to what fits, then NULs, in place of the block, and nothing else changes; with a
     block of no positions the copy faults.
     */
    method SetProcessTitle(mem: array<char>, title: seq<char>) returns (fault: bool)
      requires NUL !in title && |title| < 0x8000_0000
      requires osArgv <= last < mem.Length < 0x8000_0000
      modifies mem
      ensures fault <==> last == osArgv
      ensures !fault ==> mem[..] == Titled(old(mem[..]), osArgv, last, title)
      ensures mem[..osArgv] == old(mem[..osArgv])
    {
      var len := last - osArgv;
      ghost var before := mem[..];
      MemSet(mem, osArgv, NUL, len);
      ghost var cleared := mem[..];
      fault := RcStrncpy(mem, osArgv, len, title, |title|);
      if !fault {
        TitledAfterClear(before, cleared, mem[..], osArgv, last, title);
      }
      assert mem[..osArgv] == cleared[..osArgv] == before[..osArgv];
    }
  }

  /** There is room for a title exactly when argv[0] is not an empty string standing alone. */
  lemma RoomIff(mem: seq<char>, argv: seq<nat>, environ: seq<nat>)
    requires argv != [] && Strings(mem, argv + environ)
    ensures argv[0] < |mem|
    ensures Extend(mem, argv + environ, argv[0]) - 1 > argv[0]
       <==> mem[argv[0]] != NUL || argv[0] + 1 in argv[1..] + environ
  {
    var a, rest := argv[0], argv[1..] + environ;
    assert a in argv + environ && forall p :: p in rest ==> p in argv + environ;
    assert (argv + environ)[1..] == rest && (argv + environ)[0] == a;
    ExtendMovesIff(mem, rest, Next(mem, a));
  }

  /**
   The two calls together.  The block from argv[0] is exactly tiled by a chain of argv and environ
   strings; writing any title leaves every position outside it as it was and NUL-terminates it; and
   a string that shares no position with the chain's strings is still there, unchanged.
   */
  lemma TitleStaysInBlock(mem: seq<char>, argv: seq<nat>, environ: seq<nat>, title: seq<char>, last: nat)
    returns (chain: seq<nat>)
    requires argv != [] && Strings(mem, argv + environ)
    requires last + 1 == Extend(mem, argv + environ, argv[0]) && argv[0] < last < |mem|
    ensures Chain(mem, chain, argv[0]) && ChainEnd(mem, chain, argv[0]) == last + 1
    ensures forall q :: q in chain ==> q in argv + environ
    ensures var mem' := Titled(mem, argv[0], last, title);
            && (forall x :: 0 <= x < |mem| && !(argv[0] <= x <= last) ==> mem'[x] == mem[x])
            && mem'[last] == NUL
    ensures forall p :: IsString(mem, p) && Apart(mem, chain, p) ==>
              SameString(mem, Titled(mem, argv[0], last, title), p)
  {
    chain := ExtendTiles(mem, argv + environ, argv[0]);
    ChainGrows(mem, chain, argv[0]);
    forall p | IsString(mem, p) && Apart(mem, chain, p)
      ensures SameString(mem, Titled(mem, argv[0], last, title), p)
    {
      OutsideChain(mem, chain, argv[0], p);
      EndAgrees(mem, Titled(mem, argv[0], last, title), p);
    }
  }

  /** The string at p shares no position, terminators included, with the strings of the list. */
  predicate Apart(mem: seq<char>, ptrs: seq<nat>, p: nat)
    requires IsString(mem, p)
  {
    forall q :: q in ptrs && IsString(mem, q) ==> End(mem, q) < p || End(mem, p) < q
  }

  predicate SameString(mem: seq<char>, mem': seq<char>, p: nat)
    requires IsString(mem, p)
  {
    IsString(mem', p) && mem'[p..Next(mem', p)] == mem[p..Next(mem, p)]
  }

  /** A string that meets none of the chain's strings lies before the block or after it. */
  lemma OutsideChain(mem: seq<char>, chain: seq<nat>, from: nat, p: nat)
    requires Chain(mem, chain, from) && chain != [] && IsString(mem, p) && Apart(mem, chain, p)
    ensures End(mem, p) < from || ChainEnd(mem, chain, from) <= p
  {
    if p < ChainEnd(mem, chain, from) && End(mem, p) >= from {
      var x := if p >= from then p else from;
      var q := ChainCovers(mem, chain, from, x);
    }
  }
}
