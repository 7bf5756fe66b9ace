/**
 get_cur_path (global_conf.cpp of pulld): the directory part of a path.
 */
module PathScan {
  import opened Wrappers
  import opened CStrings

  /** strchr from position pos. */
  function StrChr(str: seq<char>, pos: nat, c: char): (r: Option<nat>)
    requires pos <= |str|
    ensures r.Some? ==> pos <= r.value < |str| && str[r.value] == c && c !in str[pos..r.value]
    ensures r.None? ==> c !in str[pos..]
    decreases |str| - pos
  {
    if pos == |str| then None
    else if str[pos] == c then Some(pos)
    else
      var r := StrChr(str, pos + 1, c);
      assert str[pos..] == [str[pos]] + str[pos + 1..];
      assert r.Some? ==> str[pos..r.value] == [str[pos]] + str[pos + 1..r.value];
      r
  }

  /** Position k splits the path into a directory, the slash and a name without slashes. */
  predicate LastSlashAt(str: seq<char>, k: int) {
    0 <= k < |str| && str[k] == '/' && '/' !in str[k + 1..]
  }

  /** The split position, found from the end. */
  function LastSlash(str: seq<char>): (k: nat)
    requires '/' in str
    ensures LastSlashAt(str, k)
  {
    var n := |str| - 1;
    if str[n] == '/' then n
    else
      assert str == str[..n] + [str[n]];
      var k := LastSlash(str[..n]);
      assert str[k + 1..] == str[..n][k + 1..] + [str[n]];
      k
  }

  lemma OneLastSlash(str: seq<char>, j: int, k: int)
    requires LastSlashAt(str, k)
    ensures LastSlashAt(str, j) <==> j == k
  {
    if 0 <= j < k {
      assert str[j + 1..][k - (j + 1)] == str[k];
    } else if k < j < |str| {
      assert str[k + 1..][j - (k + 1)] == str[j];
    }
  }

  /** The split is unique, and it takes the path apart without loss. */
  lemma SplitIsExact(str: seq<char>, j: int)
    requires '/' in str
    ensures LastSlashAt(str, j) <==> j == LastSlash(str)
    ensures str == str[..LastSlash(str)] + "/" + str[LastSlash(str) + 1..]
  {
    OneLastSlash(str, j, LastSlash(str));
    Rejoins(str, LastSlash(str));
  }

  lemma Rejoins(str: seq<char>, k: nat)
    requires k < |str| && str[k] == '/'
    ensures str == str[..k] + "/" + str[k + 1..]
  {
  }

  /** The scan: from each slash on to the next, until there is none or the path ends. */
  method ScanSlashes(str: seq<char>) returns (last_slash: Option<nat>)
    ensures '/' in str ==> last_slash == Some(LastSlash(str))
    ensures '/' !in str ==> last_slash == None
  {
    var pos := 0;
    last_slash := None;
    var again := true;
    while again
      invariant 0 <= pos <= |str|
      invariant last_slash.None? ==> pos == 0 && (!again ==> '/' !in str)
      invariant last_slash.Some? ==> last_slash.value < pos && str[last_slash.value] == '/'
                                     && '/' !in str[last_slash.value + 1..pos]
      invariant last_slash.Some? && !again ==> LastSlashAt(str, last_slash.value)
      decreases again, |str| - pos
    {
      var found := StrChr(str, pos, '/');
      if found.Some? {
        last_slash := found;
        pos := found.value + 1;
        again := pos < |str|;
      } else {
        if last_slash.Some? {
          assert str[last_slash.value + 1..] == str[last_slash.value + 1..pos] + str[pos..];
        }
        again := false;
      }
    }
    if last_slash.Some? {
      SplitIsExact(str, last_slash.value);
    }
  }

  predicate IsS32(n: int) {
    -0x8000_0000 <= n < 0x8000_0000
  }

  /** A conversion to s32: the number of that type that differs by a multiple of 2^32. */
  function ToS32(n: int): (r: int)
    ensures IsS32(r) && (r - n) % 0x1_0000_0000 == 0
  {
    var u := n % 0x1_0000_0000;
    if u < 0x8000_0000 then u else u - 0x1_0000_0000
  }

  datatype Outcome = Done | Exited | Faulted

  /** There is one number of that type at each distance. */
  lemma OneS32(m: int, n: int)
    requires IsS32(m) && IsS32(n) && (m - n) % 0x1_0000_0000 == 0
    ensures m == n
  {
  }

  /** The buffer holds the first n characters of the path and a terminator, and is as before behind it. */
  predicate Copied(before: seq<char>, after: seq<char>, str: seq<char>, n: int) {
    && 0 <= n <= |str| && n < |after| == |before|
    && after[..n] == str[..n] && after[n] == NUL && after[n + 1..] == before[n + 1..]
  }

  /**
   With a slash at k and none behind it: the process exits with o_path untouched if k characters and a
   terminator do not fit, and otherwise o_path holds exactly the directory part.  Without a slash the
   length is the s32 at the distance of the negated address: the process exits if it does not fit,
   faults if it is negative, and otherwise that many characters are stored.
   */
  method GetCurPath(str: seq<char>, addr: nat, o_path: array<char>) returns (r: Outcome)
    requires NUL !in str && |str| < 0x8000_0000 && o_path.Length < 0x8000_0000
    modifies o_path
    ensures r == Exited ==> o_path[..] == old(o_path[..])
    ensures forall k :: LastSlashAt(str, k) ==>
              && (r == Exited <==> k >= o_path.Length)
              && (r != Exited ==> r == Done && Copied(old(o_path[..]), o_path[..], str, k))
    ensures '/' !in str ==> forall len :: IsS32(len) && (len + addr) % 0x1_0000_0000 == 0 ==>
              && (r == Exited <==> len >= o_path.Length) && (r == Faulted <==> len < 0)
              && (r == Done ==> o_path[..] == Overlay(old(o_path[..]), 0, Padded(str, len) + [NUL]))
  {
    var last_slash := ScanSlashes(str);
    var len := if last_slash.None? then ToS32(-(addr as int)) else last_slash.value;
    ghost var before := o_path[..];
    r := StoreDirectory(str, len, o_path);
    if last_slash.Some? {
      forall k | LastSlashAt(str, k) ensures k == len {
        OneLastSlash(str, k, len);
      }
      if r == Done {
        StoredIsCopied(before, o_path[..], str, len);
      }
    } else {
      forall n | IsS32(n) && (n + addr) % 0x1_0000_0000 == 0 ensures n == len {
        OneS32(n, len);
      }
      forall k ensures !LastSlashAt(str, k) {
      }
    }
  }

  /** The bounds test and the copy, for a length of either origin. */
  method StoreDirectory(str: seq<char>, len: int, o_path: array<char>) returns (r: Outcome)
    requires NUL !in str && IsS32(len) && o_path.Length < 0x8000_0000
    modifies o_path
    ensures r == Exited <==> len >= o_path.Length
    ensures r == Faulted <==> len < 0
    ensures r == Exited ==> o_path[..] == old(o_path[..])
    ensures r == Done ==> o_path[..] == Overlay(old(o_path[..]), 0, Padded(str, len) + [NUL])
  {
    if len > o_path.Length - 1 {
      return Exited;
    }
    var fault := RcStrncpy(o_path, 0, o_path.Length, str, len);
    return if fault then Faulted else Done;
  }

  lemma StoredIsCopied(before: seq<char>, after: seq<char>, str: seq<char>, n: nat)
    requires n <= |str| && n < |before| && after == Overlay(before, 0, Padded(str, n) + [NUL])
    ensures Copied(before, after, str, n)
  {
    assert Padded(str, n) == str[..n];
  }
}
