/** The execution log: a string to which the push-channel handler and the execute
    handler add lines with `${prevLog}\n${line}`. */
module Transcript {

  /** One line added to the log: a newline, then the line. */
  function Append(log: string, line: string): (r: string)
    ensures |r| == |log| + 1 + |line|
  {
    log + "\n" + line
  }

  /** The previous log is kept as a prefix, and the line follows the newline verbatim. */
  lemma AppendKeepsPrefix(log: string, line: string)
    ensures var r := Append(log, line);
      |r| == |log| + 1 + |line| && r[..|log|] == log && r[|log|] == '\n' && r[|log| + 1..] == line
  {
  }

  /** Lines added one after another in arrival order, the last one last. Each line
      adds at least its newline, so the log grows by at least one character per line. */
  function AppendAll(log: string, lines: seq<string>): (r: string)
    ensures |r| >= |log| + |lines|
    decreases |lines|
  {
    if lines == [] then log
    else Append(AppendAll(log, lines[..|lines| - 1]), lines[|lines| - 1])
  }

  /** However many lines are appended, the previous log stays a prefix. */
  lemma {:induction false} AppendAllKeepsPrefix(log: string, lines: seq<string>)
    ensures var r := AppendAll(log, lines); |log| <= |r| && r[..|log|] == log
    decreases |lines|
  {
    if lines != [] {
      var before := AppendAll(log, lines[..|lines| - 1]);
      AppendAllKeepsPrefix(log, lines[..|lines| - 1]);
      var r := Append(before, lines[|lines| - 1]);
      assert r[..|before|] == before;
      assert r[..|log|] == r[..|before|][..|log|];
    }
  }

  /** Reference definition: each line contributes a newline followed by itself. */
  function Lines(lines: seq<string>): (r: string)
    ensures r == "" <==> lines == []
  {
    if lines == [] then "" else "\n" + lines[0] + Lines(lines[1..])
  }

  lemma {:induction false} LinesSnoc(lines: seq<string>, line: string)
    ensures Lines(lines + [line]) == Lines(lines) + "\n" + line
  {
    if lines == [] {
      assert lines + [line] == [line];
    } else {
      assert (lines + [line])[1..] == lines[1..] + [line];
      LinesSnoc(lines[1..], line);
    }
  }

  /** Appending the lines one by one leaves the old log followed by exactly those
      lines, none dropped and none reordered. */
  lemma {:induction false} AppendAllIsConcat(log: string, lines: seq<string>)
    ensures AppendAll(log, lines) == log + Lines(lines)
    decreases |lines|
  {
    if lines != [] {
      var init, last := lines[..|lines| - 1], lines[|lines| - 1];
      AppendAllIsConcat(log, init);
      assert init + [last] == lines;
      LinesSnoc(init, last);
    }
  }

  /** Two bursts of lines appended in turn are one burst of their concatenation. */
  lemma {:induction false} AppendAllTwice(log: string, first: seq<string>, second: seq<string>)
    ensures AppendAll(AppendAll(log, first), second) == AppendAll(log, first + second)
    decreases |second|
  {
    if second == [] {
      assert first + second == first;
    } else {
      var init, last := second[..|second| - 1], second[|second| - 1];
      AppendAllTwice(log, first, init);
      AppendAllSnoc(log, first + init, last);
      assert first + init + [last] == first + second;
    }
  }

  /** One more line after a burst is the burst extended by that line. */
  lemma AppendAllSnoc(log: string, lines: seq<string>, line: string)
    ensures Append(AppendAll(log, lines), line) == AppendAll(log, lines + [line])
  {
    assert (lines + [line])[..|lines|] == lines;
  }

  /** With no interleaved lines the log built from empty is newline-separated. */
  lemma AppendAllSmall(a: string, b: string)
    ensures AppendAll("", [a]) == "\n" + a
    ensures AppendAll("", [a, b]) == "\n" + a + "\n" + b
  {
    AppendAllIsConcat("", [a]);
    AppendAllIsConcat("", [a, b]);
    assert [a, b][1..] == [b];
  }

  /** The log as the `<pre>` element shows it: split at every newline. */
  function Split(s: string): (parts: seq<string>)
    ensures |parts| >= 1
    decreases |s|
  {
    if s == [] then [""]
    else if s[0] == '\n' then [""] + Split(s[1..])
    else
      var rest := Split(s[1..]);
      [[s[0]] + rest[0]] + rest[1..]
  }

  predicate SingleLine(line: string) {
    '\n' !in line
  }

  /** Text without a newline glues onto the first displayed line. */
  lemma {:induction false} SplitPrefix(line: string, s: string)
    requires SingleLine(line)
    ensures Split(line + s) == [line + Split(s)[0]] + Split(s)[1..]
    decreases |line|
  {
    if line != [] {
      assert (line + s)[0] == line[0];
      assert (line + s)[1..] == line[1..] + s;
      SplitPrefix(line[1..], s);
      assert [line[0]] + (line[1..] + Split(s)[0]) == line + Split(s)[0];
    } else {
      assert line + s == s;
      assert line + Split(s)[0] == Split(s)[0];
      assert Split(s) == [Split(s)[0]] + Split(s)[1..];
    }
  }

  /** Reading the log back line by line recovers exactly the appended lines, in
      order, after the empty first line, provided none of them holds a newline. */
  lemma {:induction false} SplitLines(lines: seq<string>)
    requires forall i :: 0 <= i < |lines| ==> SingleLine(lines[i])
    ensures Split(Lines(lines)) == [""] + lines
  {
    if lines == [] {
      assert Lines(lines) == "";
    } else {
      var rest := Lines(lines[1..]);
      assert Lines(lines) == "\n" + (lines[0] + rest);
      assert ("\n" + (lines[0] + rest))[1..] == lines[0] + rest;
      SplitLines(lines[1..]);
      SplitPrefix(lines[0], rest);
      var s := "\n" + (lines[0] + rest);
      assert s[0] == '\n';
      assert Split(s) == [""] + Split(lines[0] + rest);
      assert Split(rest)[0] == "" && Split(rest)[1..] == lines[1..];
      assert lines[0] + "" == lines[0];
      assert lines == [lines[0]] + lines[1..];
    }
  }

  /** The transcript of a run that starts from a cleared log displays, after the
      empty first line, every appended line in arrival order. */
  lemma TranscriptReadsBack(lines: seq<string>)
    requires forall i :: 0 <= i < |lines| ==> SingleLine(lines[i])
    ensures Split(AppendAll("", lines)) == [""] + lines
  {
    AppendAllIsConcat("", lines);
    assert "" + Lines(lines) == Lines(lines);
    SplitLines(lines);
  }
}
