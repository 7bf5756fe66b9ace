/**
 What a worker's command line says, read the way a shell splits it.
 */
module StreamCommand {
  import opened ProcessStore
  import opened StreamControl
  import opened StreamPids

  // ----- the words of a line

  /** The characters up to the first blank. */
  function Word(line: string): (w: string)
    ensures |w| <= |line| && w == line[..|w|]
  {
    if line == [] || line[0] == ' ' then [] else [line[0]] + Word(line[1..])
  }

  /** The words of a line, which runs of blanks separate. */
  function Words(line: string): seq<string>
    decreases |line|
  {
    if line == [] then []
    else if line[0] == ' ' then Words(line[1..])
    else [Word(line)] + Words(line[|Word(line)|..])
  }

  predicate Plain(word: string) {
    word != [] && ' ' !in word
  }

  lemma {:induction false} WordStops(word: string, rest: string)
    requires ' ' !in word && (rest == [] || rest[0] == ' ')
    ensures Word(word + rest) == word
  {
    if word == [] {
      assert word + rest == rest;
    } else {
      assert (word + rest)[1..] == word[1..] + rest;
      WordStops(word[1..], rest);
    }
  }

  lemma FirstWord(word: string, rest: string)
    requires Plain(word)
    ensures Words(word + " " + rest) == [word] + Words(rest)
  {
    var line := word + (" " + rest);
    WordStops(word, " " + rest);
    assert word + " " + rest == line && line[|word|..] == " " + rest;
    assert (" " + rest)[1..] == rest;
  }

  lemma OnlyWord(word: string)
    requires Plain(word)
    ensures Words(word) == [word]
  {
    WordStops(word, []);
    assert word + [] == word && word[|word|..] == [];
  }

  // ----- the command

  /** The arguments of a worker, in the order in which the program gets them. */
  function Arguments(src: string, dest: string): seq<string> {
    ["ffmpeg", "-v", "quiet", "-i", src, "-c", "copy", "-f", "flv", dest]
  }

  /** The words with one blank between two. */
  function Joined(words: seq<string>): string {
    if words == [] then [] else if |words| == 1 then words[0] else words[0] + " " + Joined(words[1..])
  }

  lemma {:induction false} WordsOfJoined(words: seq<string>)
    requires forall w :: w in words ==> Plain(w)
    ensures Words(Joined(words)) == words
  {
    if |words| == 1 {
      OnlyWord(words[0]);
    } else if words != [] {
      assert forall w :: w in words[1..] ==> w in words;
      FirstWord(words[0], Joined(words[1..]));
      WordsOfJoined(words[1..]);
    }
  }

  lemma {:induction false} JoinedSplit(a: seq<string>, b: seq<string>)
    requires a != [] && b != []
    ensures Joined(a + b) == Joined(a) + " " + Joined(b)
  {
    if |a| == 1 {
      assert (a + b)[1..] == b;
    } else {
      assert (a + b)[1..] == a[1..] + b;
      JoinedSplit(a[1..], b);
    }
  }

  lemma InputPart()
    ensures Joined(["ffmpeg", "-v", "quiet", "-i"]) == "ffmpeg -v quiet -i"
  {
    assert ["ffmpeg", "-v", "quiet", "-i"][1..] == ["-v", "quiet", "-i"];
    assert ["-v", "quiet", "-i"][1..] == ["quiet", "-i"] && ["quiet", "-i"][1..] == ["-i"];
    assert Joined(["quiet", "-i"]) == "quiet -i" && Joined(["-v", "quiet", "-i"]) == "-v quiet -i";
  }

  lemma OutputPart()
    ensures Joined(["-c", "copy", "-f", "flv"]) == "-c copy -f flv"
  {
    assert ["-c", "copy", "-f", "flv"][1..] == ["copy", "-f", "flv"];
    assert ["copy", "-f", "flv"][1..] == ["-f", "flv"] && ["-f", "flv"][1..] == ["flv"];
    assert Joined(["-f", "flv"]) == "-f flv" && Joined(["copy", "-f", "flv"]) == "copy -f flv";
  }

  lemma JoinedParts(a: seq<string>, src: string, b: seq<string>, dest: string)
    requires a != [] && b != []
    ensures Joined(a + ([src] + (b + [dest]))) == Joined(a) + " " + (src + " " + (Joined(b) + " " + dest))
  {
    JoinedSplit(b, [dest]);
    JoinedSplit([src], b + [dest]);
    JoinedSplit(a, [src] + (b + [dest]));
  }

  lemma Regroup(a: string, src: string, b: string, dest: string)
    ensures a + " " + (src + " " + (b + " " + dest)) == (a + " ") + src + (" " + b + " ") + dest
  {
  }

  lemma JoinedArguments(src: string, dest: string)
    ensures Joined(Arguments(src, dest)) == "ffmpeg -v quiet -i " + src + " -c copy -f flv " + dest
  {
    var a, b := ["ffmpeg", "-v", "quiet", "-i"], ["-c", "copy", "-f", "flv"];
    assert Arguments(src, dest) == a + ([src] + (b + [dest]));
    JoinedParts(a, src, b, dest);
    InputPart();
    OutputPart();
    Regroup("ffmpeg -v quiet -i", src, "-c copy -f flv", dest);
    assert "ffmpeg -v quiet -i" + " " == "ffmpeg -v quiet -i ";
    assert " " + "-c copy -f flv" + " " == " -c copy -f flv ";
  }

  /** The line is the arguments with blanks between, cut after 2046 characters and not before. */
  lemma CommandIsLine(info: ProcessInfo)
    ensures var line := Joined(Arguments(info.srcUrl, info.destUrl));
            && Command(info) <= line
            && |Command(info)| == (if |line| <= 2046 then |line| else 2046)
            && (Command(info) == line <==> |line| <= 2046)
  {
    JoinedArguments(info.srcUrl, info.destUrl);
  }

  predicate Fits(info: ProcessInfo) {
    |Joined(Arguments(info.srcUrl, info.destUrl))| <= 2046
  }

  predicate PlainUrls(info: ProcessInfo) {
    Plain(info.srcUrl) && Plain(info.destUrl)
  }

  /** For URLs without blanks that fit, the program is ffmpeg, its input the source, its output the destination. */
  lemma CommandArguments(info: ProcessInfo)
    requires PlainUrls(info) && Fits(info)
    ensures Words(Command(info))
            == ["ffmpeg", "-v", "quiet", "-i", info.srcUrl, "-c", "copy", "-f", "flv", info.destUrl]
  {
    CommandIsLine(info);
    WordsOfJoined(Arguments(info.srcUrl, info.destUrl));
  }

  /** Two such records have the same command exactly when both URLs agree. */
  lemma SameCommandIff(a: ProcessInfo, b: ProcessInfo)
    requires PlainUrls(a) && Fits(a) && PlainUrls(b) && Fits(b)
    ensures Command(a) == Command(b) <==> a.srcUrl == b.srcUrl && a.destUrl == b.destUrl
  {
    CommandArguments(a);
    CommandArguments(b);
    if Command(a) == Command(b) {
      assert Arguments(a.srcUrl, a.destUrl)[4] == Arguments(b.srcUrl, b.destUrl)[4];
      assert Arguments(a.srcUrl, a.destUrl)[9] == Arguments(b.srcUrl, b.destUrl)[9];
    }
  }

  /** After every run in which commands agree, a running worker copies its own record's source to its destination. */
  lemma WorkerCopiesOwnStream(st: Sys, tr: seq<Event>, n: Name)
    requires Possible(st, tr) && OwnCommandAll(st) && AllAgree(st, tr)
    requires var end := Run(st, tr);
             && Valid(end, n) && Record(end, n).pid in end.live && PlainUrls(Record(end, n)) && Fits(Record(end, n))
    ensures var end := Run(st, tr); var info := Record(end, n);
            Words(end.live[info.pid])
            == ["ffmpeg", "-v", "quiet", "-i", info.srcUrl, "-c", "copy", "-f", "flv", info.destUrl]
  {
    CommandsStayOwnIff(st, tr);
    OwnAtEnd(st, tr);
    CommandArguments(Record(Run(st, tr), n));
  }

  lemma {:induction false} OwnAtEnd(st: Sys, tr: seq<Event>)
    requires Possible(st, tr) && OwnCommandThroughout(st, tr)
    ensures OwnCommandAll(Run(st, tr))
    decreases |tr|
  {
    if tr != [] {
      OwnAtEnd(Step(st, tr[0]), tr[1..]);
    }
  }
}
