/** readLogFile of worker/process.go: head/tail limits on the text of a log file, against the plain
    "first n lines" and "last n lines" of what the pipe readers wrote. */
module LogFile {
  import opened Basics
  import opened Strings

  /** strings.TrimRight(s, "\n") */
  function TrimNewlines(s: string): string {
    if s != [] && s[|s| - 1] == '\n' then TrimNewlines(s[..|s| - 1]) else s
  }

  // ---- readLogFile ----

  datatype FileRead = Missing | Unreadable | Data(content: string)

  datatype ReadResult = Text(text: string) | ReadError

  /** What readLogFile returns for a file with this content. */
  function Limited(content: string, head: int, tail: int): string {
    if content == "" || (head <= 0 && tail <= 0) then content
    else
      var lines := Split(TrimNewlines(content));
      Join(if head > 0 then First(lines, head) else Last(lines, tail)) + "\n"
  }

  function First<T>(s: seq<T>, n: nat): seq<T> {
    if n < |s| then s[..n] else s
  }

  function Last<T>(s: seq<T>, n: nat): seq<T> {
    if n < |s| then s[|s| - n..] else s
  }

  /** At most `n` from the front, and at most `n` from the end. */
  lemma FirstAndLast<T>(s: seq<T>, n: nat)
    ensures |First(s, n)| == |Last(s, n)| == if n < |s| then n else |s|
    ensures First(s, n) <= s
    ensures s[|s| - |Last(s, n)|..] == Last(s, n)
  {
  }

  /** What is trimmed are newlines only, and all at the end. */
  lemma {:induction false} TrimNewlinesTrims(s: string)
    ensures var t := TrimNewlines(s);
      && t <= s && (t == "" || t[|t| - 1] != '\n')
      && forall i :: |t| <= i < |s| ==> s[i] == '\n'
  {
    if s != "" && s[|s| - 1] == '\n' {
      TrimNewlinesTrims(s[..|s| - 1]);
    }
  }

  method ReadLogFile(file: FileRead, head: int, tail: int) returns (r: ReadResult)
    ensures file.Missing? ==> r == Text("")
    ensures file.Unreadable? <==> r == ReadError
    ensures file.Data? ==> r == Text(Limited(file.content, head, tail))
  {
    if !file.Data? {
      return if file.Missing? then Text("") else ReadError;
    }
    var content := file.content;
    if content == "" {
      return Text("");
    }
    if head <= 0 && tail <= 0 {
      return Text(content);
    }
    var lines := Split(TrimNewlines(content));
    if head > 0 {
      if head < |lines| {
        lines := lines[..head];
      }
    } else if tail > 0 {
      if tail < |lines| {
        lines := lines[|lines| - tail..];
      }
    }
    return Text(Join(lines) + "\n");
  }

  // ---- the reference: lists of lines ----

  /** The file after `fmt.Fprintln(logFile, line)` for each line. */
  function Written(lines: seq<string>): string {
    if lines == [] then "" else lines[0] + "\n" + Written(lines[1..])
  }

  function WithoutBlankEnd(lines: seq<string>): seq<string> {
    if lines != [] && lines[|lines| - 1] == "" then WithoutBlankEnd(lines[..|lines| - 1]) else lines
  }

  /** The lines that a limited read counts: trailing blank lines do not exist for it, except that a
      log of nothing but blank lines counts as one. */
  function Countable(lines: seq<string>): (r: seq<string>)
    ensures r != []
  {
    if WithoutBlankEnd(lines) == [] then [""] else WithoutBlankEnd(lines)
  }

  lemma {:induction false} WrittenSnoc(lines: seq<string>, line: string)
    ensures Written(lines + [line]) == Written(lines) + line + "\n"
  {
    if lines == [] {
      assert [line][1..] == [];
      assert lines + [line] == [line];
      assert Written([line]) == line + "\n" + Written([]);
    } else {
      WrittenSnoc(lines[1..], line);
      assert (lines + [line])[1..] == lines[1..] + [line];
    }
  }

  lemma {:induction false} WrittenAppend(a: seq<string>, b: seq<string>)
    ensures Written(a + b) == Written(a) + Written(b)
  {
    if a == [] {
      assert a + b == b;
    } else {
      WrittenAppend(a[1..], b);
      DropOne(a, b);
      Assoc(a[0] + "\n", Written(a[1..]), Written(b));
    }
  }

  lemma {:induction false} JoinIsWritten(lines: seq<string>)
    requires lines != []
    ensures Join(lines) + "\n" == Written(lines)
  {
    if |lines| == 1 {
      assert Written(lines[1..]) == "";
    } else {
      JoinIsWritten(lines[1..]);
    }
  }

  lemma TrimOnce(s: string)
    ensures TrimNewlines(s + "\n") == TrimNewlines(s)
  {
    assert (s + "\n")[..|s|] == s;
  }

  lemma {:induction false} TrimKeepsLastLine(lines: seq<string>)
    requires lines != [] && NewlineFree(lines) && lines[|lines| - 1] != ""
    ensures TrimNewlines(Written(lines)) == Join(lines)
  {
    JoinIsWritten(lines);
    TrimOnce(Join(lines));
    JoinEnds(lines);
  }

  lemma {:induction false} JoinEnds(lines: seq<string>)
    requires lines != [] && lines[|lines| - 1] != ""
    ensures Join(lines) != "" && Join(lines)[|Join(lines)| - 1] == lines[|lines| - 1][|lines[|lines| - 1]| - 1]
  {
    if |lines| > 1 {
      JoinEnds(lines[1..]);
    }
  }

  lemma {:induction false} TrimWritten(lines: seq<string>)
    requires NewlineFree(lines)
    ensures TrimNewlines(Written(lines)) == Join(WithoutBlankEnd(lines))
    decreases |lines|
  {
    if lines != [] {
      var front, last := lines[..|lines| - 1], lines[|lines| - 1];
      assert lines == front + [last];
      if last == "" {
        WrittenSnoc(front, last);
        assert Written(lines) == Written(front) + "\n";
        TrimOnce(Written(front));
        TrimWritten(front);
      } else {
        TrimKeepsLastLine(lines);
      }
    }
  }

  lemma {:induction false} WithoutBlankEndPrefix(lines: seq<string>)
    ensures WithoutBlankEnd(lines) <= lines
    ensures WithoutBlankEnd(lines) == [] || WithoutBlankEnd(lines)[|WithoutBlankEnd(lines)| - 1] != ""
    ensures forall i :: |WithoutBlankEnd(lines)| <= i < |lines| ==> lines[i] == ""
  {
    if lines != [] && lines[|lines| - 1] == "" {
      WithoutBlankEndPrefix(lines[..|lines| - 1]);
    }
  }

  /** The lines that readLogFile works on are the countable lines. */
  lemma LinesSeen(lines: seq<string>)
    requires NewlineFree(lines)
    ensures Split(TrimNewlines(Written(lines))) == Countable(lines)
  {
    TrimWritten(lines);
    WithoutBlankEndPrefix(lines);
    var m := WithoutBlankEnd(lines);
    forall i | 0 <= i < |m| ensures '\n' !in m[i] {
      assert m[i] == lines[i];
    }
    if m != [] {
      SplitJoin(m);
    }
  }

  /** readLogFile refines "first n lines" and "last n lines": with M the countable lines, head n gives
      the first min(n, |M|) of M, tail n the last, each line terminated; no limit gives everything;
      and head wins over tail. */
  lemma LimitedIsFirstOrLast(lines: seq<string>, head: int, tail: int)
    requires NewlineFree(lines) && lines != []
    ensures Limited(Written(lines), head, tail) ==
      if head > 0 then Written(First(Countable(lines), head))
      else if tail > 0 then Written(Last(Countable(lines), tail))
      else Written(lines)
  {
    assert Written(lines) != "";
    LinesSeen(lines);
    if head > 0 {
      JoinIsWritten(First(Countable(lines), head));
    } else if tail > 0 {
      JoinIsWritten(Last(Countable(lines), tail));
    }
  }

  /** A head and the complementary tail make up the countable lines, nothing lost or repeated. */
  lemma HeadAndTailRebuild(lines: seq<string>, n: nat)
    requires NewlineFree(lines) && lines != [] && 0 < n < |Countable(lines)|
    ensures Limited(Written(lines), n, 0) + Limited(Written(lines), 0, |Countable(lines)| - n)
         == Written(Countable(lines))
  {
    var m := Countable(lines);
    LimitedIsFirstOrLast(lines, n, 0);
    LimitedIsFirstOrLast(lines, 0, |m| - n);
    Rebuild(m, n);
  }

  lemma Rebuild(m: seq<string>, n: nat)
    requires n <= |m|
    ensures Written(First(m, n)) + Written(Last(m, |m| - n)) == Written(m)
  {
    var a, b := m[..n], m[n..];
    assert a + b == m && First(m, n) == a && Last(m, |m| - n) == b;
    WrittenAppend(a, b);
  }

  lemma {:induction false} WrittenLength(lines: seq<string>)
    ensures |Written(lines)| >= |lines|
  {
    if lines != [] {
      WrittenLength(lines[1..]);
    }
  }

  lemma {:induction false} NothingLeft(lines: seq<string>)
    requires lines != [] && WithoutBlankEnd(lines) == []
    ensures lines[0] == ""
  {
    if |lines| > 1 {
      NothingLeft(lines[..|lines| - 1]);
    }
  }

  /** The countable lines start the log, and they are all of it unless it ends in a further blank line. */
  lemma CountableStarts(lines: seq<string>)
    requires lines != []
    ensures Countable(lines) <= lines
    ensures |Countable(lines)| == |lines| <==> lines[|lines| - 1] != "" || |lines| == 1
  {
    WithoutBlankEndPrefix(lines);
    if WithoutBlankEnd(lines) == [] {
      NothingLeft(lines);
    }
    if lines[|lines| - 1] == "" {
      WithoutBlankEndPrefix(lines[..|lines| - 1]);
    }
  }

  lemma SliceIsWholeIff(lines: seq<string>, from: nat, to: nat)
    requires from <= to <= |lines|
    ensures Written(lines[from..to]) == Written(lines) <==> to - from == |lines|
  {
    var before, part, after := lines[..from], lines[from..to], lines[to..];
    ThreeParts(lines, from, to);
    WrittenAppend(before + part, after);
    WrittenAppend(before, part);
    WrittenLength(before);
    WrittenLength(after);
    if to - from == |lines| {
      assert part == lines;
    } else {
      assert |Written(part)| < |Written(lines)|;
    }
  }

  /** The part of the countable lines that a positive limit shows, as a part of all lines. */
  lemma ShownSlice(m: seq<string>, lines: seq<string>, from: nat, to: nat)
    requires m <= lines && from <= to <= |m|
    ensures Written(m[from..to]) == Written(lines) <==> to - from == |lines|
  {
    SliceOfPrefix(m, lines, from, to);
    SliceIsWholeIff(lines, from, to);
  }

  lemma LastIsSlice<T>(s: seq<T>, n: nat)
    ensures Last(s, n) == s[if n < |s| then |s| - n else 0..|s|]
  {
  }

  /** A head limit returns the log unchanged exactly if it covers the log and the log does not end in a
      blank line, or is that blank line alone. */
  lemma HeadIsWholeIff(lines: seq<string>, n: int)
    requires NewlineFree(lines) && lines != [] && n > 0
    ensures Limited(Written(lines), n, 0) == Written(lines)
       <==> n >= |lines| && (lines[|lines| - 1] != "" || |lines| == 1)
  {
    LimitedIsFirstOrLast(lines, n, 0);
    CountableStarts(lines);
    var m := Countable(lines);
    var k := if n < |m| then n else |m|;
    assert First(m, n) == m[0..k];
    ShownSlice(m, lines, 0, k);
  }

  /** And so does a tail limit. */
  lemma TailIsWholeIff(lines: seq<string>, n: int)
    requires NewlineFree(lines) && lines != [] && n > 0
    ensures Limited(Written(lines), 0, n) == Written(lines)
       <==> n >= |lines| && (lines[|lines| - 1] != "" || |lines| == 1)
  {
    LimitedIsFirstOrLast(lines, 0, n);
    CountableStarts(lines);
    var m := Countable(lines);
    LastIsSlice(m, n);
    var k := if n < |m| then |m| - n else 0;
    ShownSlice(m, lines, k, |m|);
  }

  /** For any positive limit, from either end. */
  lemma LimitIsWholeIff(lines: seq<string>, n: int)
    requires NewlineFree(lines) && lines != [] && n > 0
    ensures var whole := n >= |lines| && (lines[|lines| - 1] != "" || |lines| == 1);
      && (Limited(Written(lines), n, 0) == Written(lines) <==> whole)
      && (Limited(Written(lines), 0, n) == Written(lines) <==> whole)
  {
    HeadIsWholeIff(lines, n);
    TailIsWholeIff(lines, n);
  }
}
