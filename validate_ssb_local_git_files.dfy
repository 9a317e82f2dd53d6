/**
 * Validation of a repository's `.gitignore` and `.gitattributes` against
 * the recommended ones. Each file is read line by line with `readline()`,
 * every line right-stripped and comment lines (those starting with `#`
 * after stripping) dropped; the local files pass when every recommended
 * line occurs somewhere among the local lines.
 */
module ValidateSsbLocalGitFiles {
  import opened Wrappers
  import opened FileErrors
  import opened PyText

  /**
   * `file.readline()` at the start of `text`: everything up to and
   * including the first newline, or the rest of the text when there is
   * none; `""` only at end of file.
   */
  function ReadLine(text: string): (line: string)
    ensures line <= text
    ensures text != [] ==> line != []
  {
    if text == [] then []
    else if text[0] == '\n' then ['\n']
    else [text[0]] + ReadLine(text[1..])
  }

  /**
   * The line read ends at the first newline and includes it; with no
   * newline left, it is the whole rest of the text.
   */
  lemma {:induction false} ReadLineFirstLine(text: string)
    ensures '\n' !in text ==> ReadLine(text) == text
    ensures '\n' in text ==> var line := ReadLine(text);
              line != [] && line[|line| - 1] == '\n' && '\n' !in line[..|line| - 1]
    decreases |text|
  {
    if text != [] && text[0] != '\n' {
      ReadLineFirstLine(text[1..]);
      assert text == [text[0]] + text[1..];
      var line := ReadLine(text);
      assert line == [text[0]] + ReadLine(text[1..]);
      if '\n' in text {
        assert line[..|line| - 1] == [text[0]] + ReadLine(text[1..])[..|line| - 2];
      }
    }
  }

  /** The lines successive `readline()` calls return before end of file. */
  function Lines(text: string): (lines: seq<string>)
    ensures |lines| <= |text|
    decreases |text|
  {
    if text == [] then []
    else
      var line := ReadLine(text);
      [line] + Lines(text[|line|..])
  }

  /** Every line read before end of file is non-empty, so the loop's `while line` stops only at the end. */
  lemma {:induction false} LinesNonEmpty(text: string)
    ensures forall k :: 0 <= k < |Lines(text)| ==> Lines(text)[k] != []
    decreases |text|
  {
    if text != [] {
      var line := ReadLine(text);
      LinesNonEmpty(text[|line|..]);
      LinesUnfold(text);
    }
  }

  /** A non-empty text reads as its first line followed by the lines after it. */
  lemma LinesUnfold(text: string)
    requires text != []
    ensures Lines(text) == [ReadLine(text)] + Lines(text[|ReadLine(text)|..])
  {
  }

  /** The lines written one after another. */
  function Concat(lines: seq<string>): string
  {
    if lines == [] then "" else lines[0] + Concat(lines[1..])
  }

  /** Reading a file line by line loses nothing: the lines put back together are the file. */
  lemma {:induction false} LinesConcat(text: string)
    ensures Concat(Lines(text)) == text
    decreases |text|
  {
    if text != [] {
      var line := ReadLine(text);
      LinesConcat(text[|line|..]);
      LinesUnfold(text);
      assert ([line] + Lines(text[|line|..]))[1..] == Lines(text[|line|..]);
      assert text == line + text[|line|..];
    }
  }

  /** One raw line after `rstrip()`, kept unless it starts with `#`. */
  function KeptLine(raw: string): (kept: seq<string>)
    ensures |kept| <= 1
    ensures kept == [] <==> StartsWith(RStrip(raw), "#")
    ensures kept != [] ==> kept[0] <= raw && !StartsWith(kept[0], "#")
  {
    var stripped := RStrip(raw);
    if StartsWith(stripped, "#") then [] else [stripped]
  }

  /** The comment filter applied to raw lines, in their order. */
  function KeptLines(raw: seq<string>): (kept: seq<string>)
    ensures |kept| <= |raw|
  {
    if raw == [] then [] else KeptLine(raw[0]) + KeptLines(raw[1..])
  }

  /** The list `_read_local_git_file` returns for a file holding `text`. */
  function GitFileLines(text: string): (lines: seq<string>)
    ensures |lines| <= |text|
    ensures text == [] ==> lines == []
  {
    KeptLines(Lines(text))
  }

  /**
   * One `readline()` step: what was collected so far plus the first line's
   * contribution, followed by the rest of the file's, is still the whole answer.
   */
  lemma KeptLinesStep(collected: seq<string>, unread: string, whole: seq<string>)
    requires unread != []
    requires collected + KeptLines(Lines(unread)) == whole
    ensures var line := ReadLine(unread);
            (collected + KeptLine(line)) + KeptLines(Lines(unread[|line|..])) == whole
  {
    var line := ReadLine(unread);
    var next := Lines(unread[|line|..]);
    LinesUnfold(unread);
    assert ([line] + next)[1..] == next;
    assert KeptLines(Lines(unread)) == KeptLine(line) + KeptLines(next);
  }

  /** `_read_local_git_file`: a `readline()` loop appending each stripped non-comment line. */
  method ReadLocalGitFile(text: string) returns (lines: seq<string>)
    ensures lines == GitFileLines(text)
  {
    lines := [];
    var unread := text;
    var line := ReadLine(unread);
    while line != ""
      invariant line == ReadLine(unread)
      invariant lines + KeptLines(Lines(unread)) == GitFileLines(text)
      decreases |unread|
    {
      KeptLinesStep(lines, unread, GitFileLines(text));
      ghost var grown := lines + KeptLine(line);
      var strippedLine := RStrip(line);
      if !StartsWith(strippedLine, "#") {
        lines := lines + [strippedLine];
      }
      assert lines == grown;
      unread := unread[|line|..];
      line := ReadLine(unread);
    }
    assert unread == [];
  }

  /** Every line `rstrip()` leaves, in order: the lines the filter chooses from. */
  function StrippedLines(raw: seq<string>): (stripped: seq<string>)
    ensures |stripped| == |raw|
  {
    if raw == [] then [] else [RStrip(raw[0])] + StrippedLines(raw[1..])
  }

  /**
   * What the reader keeps, exactly: the stripped lines that do not start
   * with `#`, in input order, each as often as it occurs (blank lines and
   * indented `#` lines included), and nothing else.
   */
  lemma KeptLinesFilter(raw: seq<string>)
    ensures IsSubsequence(KeptLines(raw), StrippedLines(raw))
    ensures forall x :: multiset(KeptLines(raw))[x] ==
                          if StartsWith(x, "#") then 0 else multiset(StrippedLines(raw))[x]
  {
    KeptLinesInOrder(raw);
    KeptLinesCounts(raw);
  }

  /** Every kept line is stripped and does not start with `#`. */
  lemma {:induction false} KeptLinesClean(raw: seq<string>)
    ensures forall k :: 0 <= k < |KeptLines(raw)| ==>
              var line := KeptLines(raw)[k];
              (line == [] || !IsSpace(line[|line| - 1])) && !StartsWith(line, "#")
    decreases |raw|
  {
    if raw != [] {
      KeptLinesClean(raw[1..]);
      var head := KeptLine(raw[0]);
      var tail := KeptLines(raw[1..]);
      assert KeptLines(raw) == head + tail;
      forall k | 0 <= k < |head + tail|
        ensures var line := (head + tail)[k];
                (line == [] || !IsSpace(line[|line| - 1])) && !StartsWith(line, "#")
      {
        if k >= |head| {
          assert (head + tail)[k] == tail[k - |head|];
        }
      }
    }
  }

  /** The kept lines keep the order of the stripped lines. */
  lemma {:induction false} KeptLinesInOrder(raw: seq<string>)
    ensures IsSubsequence(KeptLines(raw), StrippedLines(raw))
    decreases |raw|
  {
    if raw != [] {
      KeptLinesInOrder(raw[1..]);
      var head := KeptLine(raw[0]);
      var tail := KeptLines(raw[1..]);
      assert StrippedLines(raw)[1..] == StrippedLines(raw[1..]);
      assert KeptLines(raw) == head + tail;
      if head == [] {
        assert KeptLines(raw) == tail;
        assert IsSubsequence(tail, StrippedLines(raw)) by {
          if tail != [] {
            assert IsSubsequence(tail, StrippedLines(raw)[1..]);
          }
        }
      } else {
        assert (head + tail)[1..] == tail;
        assert (head + tail)[0] == RStrip(raw[0]) == StrippedLines(raw)[0];
      }
    }
  }

  /** Each stripped line that does not start with `#` is kept as often as it occurs. */
  lemma {:induction false} KeptLinesCounts(raw: seq<string>)
    ensures forall x :: multiset(KeptLines(raw))[x] ==
                          if StartsWith(x, "#") then 0 else multiset(StrippedLines(raw))[x]
    decreases |raw|
  {
    if raw != [] {
      KeptLinesCounts(raw[1..]);
      assert StrippedLines(raw) == [RStrip(raw[0])] + StrippedLines(raw[1..]);
      assert KeptLines(raw) == KeptLine(raw[0]) + KeptLines(raw[1..]);
    }
  }

  /** A complete line at the start of the text is the one `readline()` returns. */
  lemma {:induction false} ReadLineOfLine(line: string, rest: string)
    requires line != [] && line[|line| - 1] == '\n'
    requires forall i :: 0 <= i < |line| - 1 ==> line[i] != '\n'
    ensures ReadLine(line + rest) == line
    ensures Lines(line + rest) == [line] + Lines(rest)
    decreases |line|
  {
    var text := line + rest;
    assert text[0] == line[0];
    if |line| > 1 {
      assert text[1..] == line[1..] + rest;
      ReadLineOfLine(line[1..], rest);
      assert line == [line[0]] + line[1..];
    }
    assert text[|line|..] == rest;
  }

  /** Blank lines and indented comments survive; a comment line at column 0 does not. */
  lemma ReaderExample()
    ensures GitFileLines("#x\n\n #\ny \n") == ["", " #", "y"]
  {
    var raw := ["#x\n", "\n", " #\n", "y \n"];
    ExampleLines();
    ExampleKeptLines();
    KeptLinesOfFour(raw[0], raw[1], raw[2], raw[3]);
    assert [raw[0], raw[1], raw[2], raw[3]] == raw;
  }

  /** The filter on four lines is the four lines' contributions in order. */
  lemma KeptLinesOfFour(a: string, b: string, c: string, d: string)
    ensures KeptLines([a, b, c, d]) == KeptLine(a) + (KeptLine(b) + (KeptLine(c) + KeptLine(d)))
  {
    assert [d][1..] == [];
    assert KeptLines([d]) == KeptLine(d);
    assert [c, d][1..] == [d];
    assert KeptLines([c, d]) == KeptLine(c) + KeptLine(d);
    assert [b, c, d][1..] == [c, d];
    assert KeptLines([b, c, d]) == KeptLine(b) + (KeptLine(c) + KeptLine(d));
    assert [a, b, c, d][1..] == [b, c, d];
  }

  /** The example's lines one by one: stripped, and dropped when they open with `#`. */
  lemma ExampleKeptLines()
    ensures KeptLine("#x\n") == []
    ensures KeptLine("\n") == [""]
    ensures KeptLine(" #\n") == [" #"]
    ensures KeptLine("y \n") == ["y"]
  {
    assert RStrip("#x\n") == "#x";
    assert RStrip("\n") == "";
    assert RStrip(" #\n") == " #";
    assert RStrip("y \n") == "y";
  }

  /** The four lines `readline()` returns for the example file. */
  lemma ExampleLines()
    ensures Lines("#x\n\n #\ny \n") == ["#x\n", "\n", " #\n", "y \n"]
  {
    ExampleMiddleLines();
    ReadLineOfLine("#x\n", "\n #\ny \n");
    assert "#x\n" + "\n #\ny \n" == "#x\n\n #\ny \n";
  }

  /** The last three lines of the example file. */
  lemma ExampleMiddleLines()
    ensures Lines("\n #\ny \n") == ["\n", " #\n", "y \n"]
  {
    ExampleTailLines();
    ReadLineOfLine("\n", " #\ny \n");
    assert "\n" + " #\ny \n" == "\n #\ny \n";
  }

  /** The last two lines of the example file. */
  lemma ExampleTailLines()
    ensures Lines(" #\ny \n") == [" #\n", "y \n"]
  {
    ReadLineOfLine("y \n", "");
    assert "y \n" + "" == "y \n";
    ReadLineOfLine(" #\n", "y \n");
    assert " #\n" + "y \n" == " #\ny \n";
  }

  /** `all(line in local for line in recommended)`. */
  function AllPresent(recommended: seq<string>, local: seq<string>): (ok: bool)
    ensures ok <==> forall k :: 0 <= k < |recommended| ==> recommended[k] in local
  {
    if recommended == [] then true
    else recommended[0] in local && AllPresent(recommended[1..], local)
  }

  /** The verdict on the two local files, given all four files' contents. */
  function LocalFilesValid(
    recommendedIgnore: string,
    recommendedAttributes: string,
    localIgnore: string,
    localAttributes: string): (valid: bool)
    ensures valid <==>
              && (forall x :: x in GitFileLines(recommendedIgnore) ==> x in GitFileLines(localIgnore))
              && (forall x :: x in GitFileLines(recommendedAttributes) ==> x in GitFileLines(localAttributes))
  {
    && AllPresent(GitFileLines(recommendedIgnore), GitFileLines(localIgnore))
    && AllPresent(GitFileLines(recommendedAttributes), GitFileLines(localAttributes))
  }

  /**
   * `_validate_local_git_files`, with whether each local file exists and
   * the contents of the four files given as inputs. A missing `.gitignore`
   * is reported before `.gitattributes` is looked at.
   */
  method ValidateLocalGitFiles(
    gitignorePath: string,
    gitattributesPath: string,
    gitignoreExists: bool,
    gitattributesExists: bool,
    recommendedIgnoreText: string,
    recommendedAttributesText: string,
    localIgnoreText: string,
    localAttributesText: string) returns (r: Result<bool, FileError>)
    ensures !gitignoreExists ==> r == Failure(FileMissing(gitignorePath))
    ensures gitignoreExists && !gitattributesExists ==> r == Failure(FileMissing(gitattributesPath))
    ensures gitignoreExists && gitattributesExists ==>
              r == Success(LocalFilesValid(recommendedIgnoreText, recommendedAttributesText,
                                           localIgnoreText, localAttributesText))
  {
    if !gitignoreExists {
      return Failure(FileMissing(gitignorePath));
    }
    if !gitattributesExists {
      return Failure(FileMissing(gitattributesPath));
    }
    var ssbRecommendedIgnore := ReadLocalGitFile(recommendedIgnoreText);
    var ssbRecommendedAttributes := ReadLocalGitFile(recommendedAttributesText);
    var localIgnore := ReadLocalGitFile(localIgnoreText);
    var localAttributes := ReadLocalGitFile(localAttributesText);
    r := Success(AllPresent(ssbRecommendedIgnore, localIgnore)
                 && AllPresent(ssbRecommendedAttributes, localAttributes));
  }

  /**
   * The verdict sees the local lines only as a set: reordering or repeating
   * them, or adding lines, never turns a pass into a failure.
   */
  lemma AllPresentMonotone(recommended: seq<string>, local: seq<string>, local': seq<string>)
    requires forall x :: x in local ==> x in local'
    ensures AllPresent(recommended, local) ==> AllPresent(recommended, local')
  {
  }

  /** `readline()` stops at the first newline, so text after it does not change the line. */
  lemma {:induction false} ReadLineAppend(a: string, b: string)
    requires '\n' in a
    ensures ReadLine(a + b) == ReadLine(a)
    decreases |a|
  {
    assert (a + b)[0] == a[0];
    if a[0] != '\n' {
      assert (a + b)[1..] == a[1..] + b;
      ReadLineAppend(a[1..], b);
    }
  }

  /** The first line of `a + b`, when `a` holds a newline, is `a`'s, and reading goes on in the rest of `a` then `b`. */
  lemma LinesAppendStep(a: string, b: string)
    requires '\n' in a
    ensures var line := ReadLine(a);
            Lines(a + b) == [line] + Lines(a[|line|..] + b)
  {
    var line := ReadLine(a);
    ReadLineAppend(a, b);
    assert (a + b)[|line|..] == a[|line|..] + b;
    LinesUnfold(a + b);
  }

  /** What is left after the first line still ends in the newline that ended `a`. */
  lemma AfterFirstLineEndsInNewline(a: string)
    requires a != [] && a[|a| - 1] == '\n'
    ensures '\n' in a
    ensures var rest := a[|ReadLine(a)|..];
            rest == [] || rest[|rest| - 1] == '\n'
  {
    assert a[|a| - 1] in a;
  }

  /** Putting an element in front commutes with appending. */
  lemma ConsAppend<T>(x: T, s: seq<T>, t: seq<T>)
    ensures [x] + (s + t) == ([x] + s) + t
  {
  }

  /** Reading a file that continues after a complete line reads that file's lines first. */
  lemma {:induction false} LinesAppend(a: string, b: string)
    requires a == [] || a[|a| - 1] == '\n'
    ensures Lines(a + b) == Lines(a) + Lines(b)
    decreases |a|
  {
    if a == [] {
      assert a + b == b;
    } else {
      var line := ReadLine(a);
      var rest := a[|line|..];
      AfterFirstLineEndsInNewline(a);
      LinesAppendStep(a, b);
      LinesAppend(rest, b);
      LinesUnfold(a);
      ConsAppend(line, Lines(rest), Lines(b));
    }
  }

  /** The filter works line by line, so it distributes over concatenation. */
  lemma {:induction false} KeptLinesAppend(a: seq<string>, b: seq<string>)
    ensures KeptLines(a + b) == KeptLines(a) + KeptLines(b)
    decreases |a|
  {
    if a == [] {
      assert a + b == b;
    } else {
      assert (a + b)[1..] == a[1..] + b;
      KeptLinesAppend(a[1..], b);
    }
  }

  /**
   * Appending lines to a local file (one that is empty or ends in a
   * newline) never turns a passing validation into a failing one.
   */
  lemma AppendingLinesKeepsValid(
    recommendedIgnore: string,
    recommendedAttributes: string,
    localIgnore: string,
    localAttributes: string,
    extraIgnore: string,
    extraAttributes: string)
    requires localIgnore == [] || localIgnore[|localIgnore| - 1] == '\n'
    requires localAttributes == [] || localAttributes[|localAttributes| - 1] == '\n'
    requires LocalFilesValid(recommendedIgnore, recommendedAttributes, localIgnore, localAttributes)
    ensures LocalFilesValid(recommendedIgnore, recommendedAttributes,
                            localIgnore + extraIgnore, localAttributes + extraAttributes)
  {
    LinesAppend(localIgnore, extraIgnore);
    KeptLinesAppend(Lines(localIgnore), Lines(extraIgnore));
    LinesAppend(localAttributes, extraAttributes);
    KeptLinesAppend(Lines(localAttributes), Lines(extraAttributes));
  }

  /** Local files equal to the recommended ones pass. */
  lemma RecommendedFilesValidate(recommendedIgnore: string, recommendedAttributes: string)
    ensures LocalFilesValid(recommendedIgnore, recommendedAttributes, recommendedIgnore, recommendedAttributes)
  {
  }
}
