/**
 The text of a pid file: written at offset 0 over whatever was there, never truncated
 (main.cpp of pulld, write_pid_to_file), and read back with atoi (utils.cpp, get_pid_from_file).
 */
module PidFile {
  const PID_MAX: nat := 0x7FFF_FFFF

  function DigitChar(d: nat): char
    requires d < 10
  {
    ['0', '1', '2', '3', '4', '5', '6', '7', '8', '9'][d]
  }

  predicate IsDigit(c: char) { '0' <= c <= '9' }

  function Digits(n: nat): string {
    (if n < 10 then [] else Digits(n / 10)) + [DigitChar(n % 10)]
  }

  /** What snprintf puts into the buffer for "%d\n". */
  function PidLine(pid: nat): string {
    Digits(pid) + "\n"
  }

  /** write(fd, s) at offset 0 without O_TRUNC. */
  function Overwrite(content: string, s: string): string {
    s + (if |content| > |s| then content[|s|..] else [])
  }

  function FirstLine(s: string): string {
    if s == [] || s[0] == '\n' then [] else [s[0]] + FirstLine(s[1..])
  }

  predicate IsSpace(c: char) {
    c == ' ' || '\t' <= c <= '\r'
  }

  /** The six white-space characters of C. */
  lemma SpacesOfC(c: char)
    ensures IsSpace(c) <==> c as int in {32, 9, 10, 11, 12, 13}
  {
  }

  function SkipSpace(s: string): string {
    if s != [] && IsSpace(s[0]) then SkipSpace(s[1..]) else s
  }

  /** The value of the leading digits, appended to acc. */
  function DigitsValue(s: string, acc: int): int {
    if s == [] || !IsDigit(s[0]) then acc
    else DigitsValue(s[1..], 10 * acc + (s[0] as int - '0' as int))
  }

  function Atoi(s: string): int {
    var t := SkipSpace(s);
    if t != [] && t[0] == '-' then -DigitsValue(t[1..], 0)
    else if t != [] && t[0] == '+' then DigitsValue(t[1..], 0)
    else DigitsValue(t, 0)
  }

  const READ_MAX: nat := 64

  /** get_pid_from_file: at most 64 bytes are read before the conversion. */
  function ReadPid(content: string): int {
    Atoi(if |content| <= READ_MAX then content else content[..READ_MAX])
  }

  // ----- the digits of a pid

  lemma {:induction false} AllDigits(n: nat)
    ensures |Digits(n)| > 0 && forall i :: 0 <= i < |Digits(n)| ==> IsDigit(Digits(n)[i])
  {
    if n >= 10 {
      AllDigits(n / 10);
    }
  }

  lemma {:induction false} DigitsLength(n: nat, k: nat)
    requires k > 0 && n < Power10(k)
    ensures |Digits(n)| <= k
  {
    if n >= 10 {
      assert Power10(0) == 1;
      DigitsLength(n / 10, k - 1);
    }
  }

  function Power10(k: nat): nat { if k == 0 then 1 else 10 * Power10(k - 1) }

  lemma {:induction false} DigitsValueAppend(s: string, t: string, acc: int)
    requires forall i :: 0 <= i < |s| ==> IsDigit(s[i])
    ensures DigitsValue(s + t, acc) == DigitsValue(t, DigitsValue(s, acc))
  {
    if s == [] {
      assert s + t == t;
    } else {
      assert (s + t)[1..] == s[1..] + t;
      DigitsValueAppend(s[1..], t, 10 * acc + (s[0] as int - '0' as int));
    }
  }

  lemma {:induction false} DigitsDenote(n: nat)
    ensures DigitsValue(Digits(n), 0) == n
  {
    var last := [DigitChar(n % 10)];
    if n < 10 {
      assert Digits(n) == last;
    } else {
      DigitsDenote(n / 10);
      AllDigits(n / 10);
      DigitsValueAppend(Digits(n / 10), last, 0);
    }
    assert last[1..] == [];
  }

  lemma {:induction false} FirstLineOf(s: string, rest: string)
    requires '\n' !in s
    ensures FirstLine(s + "\n" + rest) == s
  {
    if s == [] {
      assert s + "\n" + rest == "\n" + rest;
    } else {
      assert (s + "\n" + rest)[1..] == s[1..] + "\n" + rest;
      FirstLineOf(s[1..], rest);
    }
  }

  /** No digit is written in vain. */
  lemma {:induction false} NoLeadingZero(n: nat)
    ensures Digits(n)[0] == '0' <==> n == 0
    ensures n < 10 ==> |Digits(n)| == 1
  {
    if n >= 10 {
      AllDigits(n / 10);
      NoLeadingZero(n / 10);
    }
  }

  // ----- the file after a write

  /** atoi stops at the first character that is not a digit. */
  lemma AtoiOfDigits(pid: nat, rest: string)
    ensures Atoi(Digits(pid) + "\n" + rest) == pid
  {
    var digits, file := Digits(pid), Digits(pid) + "\n" + rest;
    AllDigits(pid);
    assert IsDigit(file[0]) by { assert file[0] == digits[0]; }
    assert SkipSpace(file) == file;
    assert file == digits + ("\n" + rest);
    DigitsValueAppend(digits, "\n" + rest, 0);
    DigitsDenote(pid);
  }

  function Blanks(n: nat): string {
    if n == 0 then [] else [' '] + Blanks(n - 1)
  }

  lemma {:induction false} SkipsBlanks(n: nat, rest: string)
    ensures SkipSpace(Blanks(n) + rest) == SkipSpace(rest) && |Blanks(n)| == n
  {
    if n == 0 {
      assert Blanks(0) + rest == rest;
    } else {
      assert (Blanks(n) + rest)[1..] == Blanks(n - 1) + rest;
      SkipsBlanks(n - 1, rest);
    }
  }

  /** atoi skips blanks and takes one sign. */
  lemma AtoiSigned(blanks: nat, pid: nat, rest: string)
    requires rest == [] || !IsDigit(rest[0])
    ensures Atoi(Blanks(blanks) + (Digits(pid) + rest)) == pid
    ensures Atoi(Blanks(blanks) + ("+" + (Digits(pid) + rest))) == pid
    ensures Atoi(Blanks(blanks) + ("-" + (Digits(pid) + rest))) == -(pid as int)
  {
    var number := Digits(pid) + rest;
    AllDigits(pid);
    assert number[0] == Digits(pid)[0];
    SkipsBlanks(blanks, number);
    SkipsBlanks(blanks, "+" + number);
    SkipsBlanks(blanks, "-" + number);
    assert ("+" + number)[1..] == number && ("-" + number)[1..] == number;
    DigitsValueAppend(Digits(pid), rest, 0);
    DigitsDenote(pid);
  }

  /** get_pid_from_file sees a digit exactly when fewer than 64 characters come before it. */
  lemma ReadsSixtyFour(n: nat)
    ensures ReadPid(Blanks(n) + "7") == if n < 64 then 7 else 0
  {
    var file := Blanks(n) + "7";
    SkipsBlanks(n, "7");
    if n < 64 {
      AtoiSigned(n, 7, []);
      assert Digits(7) + [] == "7";
      assert Blanks(n) + (Digits(7) + []) == file;
    } else {
      FirstBlanks(n, 64);
      assert file[..64] == Blanks(n)[..64];
      SkipsBlanks(64, []);
      assert Blanks(64) + [] == Blanks(64);
    }
  }

  lemma {:induction false} FirstBlanks(n: nat, k: nat)
    requires k <= n
    ensures |Blanks(n)| == n && Blanks(n)[..k] == Blanks(k)
  {
    if n > 0 {
      FirstBlanks(n - 1, if k > 0 then k - 1 else 0);
      if k > 0 {
        assert Blanks(n)[..k] == [' '] + Blanks(n - 1)[..k - 1];
      }
    }
  }

  lemma PidLineIsShort(pid: nat)
    requires pid <= PID_MAX
    ensures |PidLine(pid)| <= 11
  {
    assert Power10(10) == 100000 * 100000 by {
      assert Power10(5) == 100000;
    }
    DigitsLength(pid, 10);
  }

  /**
   Whatever the file held, after a write its first line is the writer's pid in decimal and reading
   the file gives that pid; behind the line the old text is still what it was, and it is gone entirely
   exactly when it was no longer than the line.
   */
  lemma WriteThenRead(content: string, pid: nat)
    requires pid <= PID_MAX
    ensures FirstLine(Overwrite(content, PidLine(pid))) == Digits(pid)
    ensures ReadPid(Overwrite(content, PidLine(pid))) == pid
    ensures Overwrite(content, PidLine(pid)) == PidLine(pid) <==> |content| <= |PidLine(pid)|
    ensures forall i :: |PidLine(pid)| <= i < |content| ==>
              i < |Overwrite(content, PidLine(pid))| && Overwrite(content, PidLine(pid))[i] == content[i]
    ensures |content| > |PidLine(pid)| ==> |Overwrite(content, PidLine(pid))| == |content|
  {
    var line, file := PidLine(pid), Overwrite(content, PidLine(pid));
    PidLineIsShort(pid);
    AllDigits(pid);
    assert file == Digits(pid) + "\n" + file[|line|..];
    FirstLineOf(Digits(pid), file[|line|..]);
    var read := if |file| <= READ_MAX then file else file[..READ_MAX];
    assert read == Digits(pid) + "\n" + read[|line|..];
    AtoiOfDigits(pid, read[|line|..]);
  }
}
