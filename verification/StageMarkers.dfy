/** Stage markers: how a pipeline script prints them, and the two ways the backend recognises them.

    A script prints a marker with `echo`, so a marker ends its line, but the last line of ordinary
    output before it may lack its newline and then shares the marker's line.  The backend searches
    every line with a regular expression and, after the process has ended, looks for the done
    markers as substrings of the joined text. */
module StageMarkers {
  import opened Runs
  import opened Patterns

  const MARKER_PREFIX := "@@STAGE:"

  function StagePattern(): Pattern {
    [Lit(MARKER_PREFIX)] + ([Group(Word)] + ([Lit(":")] + ([Group(Word)] + ([Lit("@@")] + []))))
  }

  predicate IsWord(s: string) { s != "" && AllIn(Word, s) }

  datatype Mark = Mark(stage: string, status: string)

  predicate WellNamed(m: Mark) { IsWord(m.stage) && IsWord(m.status) }

  function MarkText(m: Mark): string {
    MARKER_PREFIX + (m.stage + (":" + (m.status + "@@")))
  }

  /** What `echo` prints. */
  function MarkLine(m: Mark): string { MarkText(m) + "\n" }

  /** `STAGE_RE.search(line)`. */
  function MarkOf(line: string): Option<Mark> {
    match Search(StagePattern(), line)
    case None => None
    case Some(groups) => if |groups| == 2 then Some(Mark(groups[0], groups[1])) else None
  }

  /** The lines a text stream is read in: each keeps its newline, the last may lack one. */
  function Lines(text: string): seq<string> {
    if text == "" then []
    else
      var k := LineLength(text);
      if k == |text| then [text] else [text[..k + 1]] + Lines(text[k + 1..])
  }

  /** `"".join(lines)`. */
  function Join(lines: seq<string>): string {
    if lines == [] then "" else lines[0] + Join(lines[1..])
  }

  lemma {:induction false} JoinLines(text: string)
    ensures Join(Lines(text)) == text
  {
    if text != "" {
      var k := LineLength(text);
      if k < |text| {
        JoinLines(text[k + 1..]);
        assert text == text[..k + 1] + text[k + 1..];
      } else {
        assert Join([]) == "" && text + "" == text;
      }
    }
  }

  /** The marks recognised line by line, in order. */
  function Marks(lines: seq<string>): seq<Mark> {
    if lines == [] then []
    else (match MarkOf(lines[0]) case None => [] case Some(m) => [m]) + Marks(lines[1..])
  }

  // ----- One match of the pattern -----

  /** A word and the literal after it. */
  lemma MatchWordLit(word: string, text: string, p: Pattern, rest: string)
    requires IsWord(word) && text != "" && !InClass(Word, text[0])
    ensures Match([Group(Word)] + ([Lit(text)] + p), word + (text + rest))
         == match Match(p, rest) case None => None case Some(groups) => Some([word] + groups)
  {
    MatchLit(text, p, rest);
    MatchGroup(Word, word, [Lit(text)] + p, text + rest);
  }

  /** The pattern matches where a well-named marker text begins. */
  lemma MatchMark(m: Mark, rest: string)
    requires WellNamed(m)
    ensures Match(StagePattern(), MarkText(m) + rest) == Some([m.stage, m.status])
  {
    var p := [Group(Word)] + ([Lit("@@")] + []);
    var after := m.status + ("@@" + rest);
    MatchWordLit(m.status, "@@", [], rest);
    MatchWordLit(m.stage, ":", p, after);
    MatchLit(MARKER_PREFIX, [Group(Word)] + ([Lit(":")] + p), m.stage + (":" + after));
    MarkTextPlus(m.stage, m.status, rest);
    assert [m.stage] + ([m.status] + []) == [m.stage, m.status];
  }

  lemma MarkTextPlus(stage: string, status: string, rest: string)
    ensures MarkText(Mark(stage, status)) + rest == MARKER_PREFIX + (stage + (":" + (status + ("@@" + rest))))
  {
  }

  lemma MatchBegins(s: string)
    requires Match(StagePattern(), s).Some?
    ensures MARKER_PREFIX <= s
  {
  }

  /** Undoing a group and a literal of the pattern. */
  lemma MatchGroupLit(text: string, p: Pattern, s: string)
    requires Match([Group(Word)] + ([Lit(text)] + p), s).Some?
    ensures var k := Span(Word, s);
            && k > 0 && text <= s[k..] && Match(p, s[k + |text|..]).Some?
            && Match([Group(Word)] + ([Lit(text)] + p), s) == Some([s[..k]] + Match(p, s[k + |text|..]).value)
  {
    var k := Span(Word, s);
    var q := [Lit(text)] + p;
    assert ([Group(Word)] + q)[1..] == q;
    assert q[1..] == p;
    assert s[k..][|text|..] == s[k + |text|..];
  }

  /** The rest of the pattern, after the prefix. */
  const NAMES: Pattern := [Group(Word)] + ([Lit(":")] + STATUS)
  const STATUS: Pattern := [Group(Word)] + ([Lit("@@")] + [])

  lemma MatchReadsNames(s: string)
    requires Match(NAMES, s).Some?
    ensures var j := Span(Word, s); var rest := s[j..];
            && j > 0 && ":" <= rest
            && var status := rest[1..]; var k := Span(Word, status);
               && k > 0 && "@@" <= status[k..] && Match(NAMES, s) == Some([s[..j], status[..k]])
  {
    MatchGroupLit(":", STATUS, s);
    var j := Span(Word, s);
    var status := s[j + 1..];
    assert s[j..][1..] == status;
    MatchGroupLit("@@", [], status);
    var k := Span(Word, status);
    assert [s[..j]] + ([status[..k]] + []) == [s[..j], status[..k]];
  }

  /** A match reads off a well-named marker text. */
  lemma MatchReadsMark(s: string)
    requires Match(StagePattern(), s).Some?
    ensures var groups := Match(StagePattern(), s).value;
            |groups| == 2 && WellNamed(Mark(groups[0], groups[1])) && MarkText(Mark(groups[0], groups[1])) <= s
  {
    var s1 := s[8..];
    assert StagePattern()[1..] == NAMES;
    MatchReadsNames(s1);
    var j := Span(Word, s1);
    var s3 := s1[j + 1..];
    assert s1[j..][1..] == s3;
    Reassemble(s, s1, j, s3, Span(Word, s3));
  }

  lemma Reassemble(s: string, s1: string, j: nat, s3: string, k: nat)
    requires MARKER_PREFIX <= s && s1 == s[8..] && j < |s1| && ":" <= s1[j..]
    requires s3 == s1[j + 1..] && k < |s3| && "@@" <= s3[k..]
    ensures MarkText(Mark(s1[..j], s3[..k])) <= s
  {
    var rest := s3[k + 2..];
    assert s3 == s3[..k] + ("@@" + rest);
    assert s1 == s1[..j] + (":" + s3);
    assert s == MARKER_PREFIX + s1;
    MarkTextPlus(s1[..j], s3[..k], rest);
  }

  // ----- The two recognisers -----

  /** At most one place of the line where a marker begins. */
  ghost predicate AtMostOneMark(line: string) {
    forall i, j | 0 <= i <= |line| && 0 <= j <= |line| ::
      Match(StagePattern(), line[i..]).Some? && Match(StagePattern(), line[j..]).Some? ==> i == j
  }

  lemma MatchAtMark(m: Mark, s: string)
    requires WellNamed(m) && MarkText(m) <= s
    ensures Match(StagePattern(), s) == Some([m.stage, m.status])
  {
    MatchMark(m, s[|MarkText(m)|..]);
    assert s == MarkText(m) + s[|MarkText(m)|..];
  }

  lemma SearchIsAt(line: string, i: nat)
    requires AtMostOneMark(line) && i <= |line| && Match(StagePattern(), line[i..]).Some?
    ensures Search(StagePattern(), line) == Match(StagePattern(), line[i..])
  {
    SearchIsLeftmost(StagePattern(), line);
    var j :| 0 <= j <= |line| && Search(StagePattern(), line) == Match(StagePattern(), line[j..]);
    assert i == j;
  }

  /** A search never reports a marker that is not in the line. */
  lemma ReportedIsContained(line: string, m: Mark)
    requires MarkOf(line) == Some(m)
    ensures Contains(MarkText(m), line)
  {
    SearchIsLeftmost(StagePattern(), line);
    var i :| 0 <= i <= |line| && Search(StagePattern(), line) == Match(StagePattern(), line[i..]);
    MatchReadsMark(line[i..]);
    ContainsSomewhere(MarkText(m), line);
  }

  /** On a line with at most one marker, the substring test and the search agree on every marker. */
  lemma LineRecognisersAgree(line: string, m: Mark)
    requires AtMostOneMark(line) && WellNamed(m)
    ensures Contains(MarkText(m), line) <==> MarkOf(line) == Some(m)
  {
    if Contains(MarkText(m), line) {
      ContainsSomewhere(MarkText(m), line);
      var i :| 0 <= i <= |line| && MarkText(m) <= line[i..];
      MatchAtMark(m, line[i..]);
      SearchIsAt(line, i);
    }
    if MarkOf(line) == Some(m) {
      ReportedIsContained(line, m);
    }
  }

  ghost predicate ContainsInSome(m: string, lines: seq<string>) {
    exists i :: 0 <= i < |lines| && Contains(m, lines[i])
  }

  lemma ContainsInCons(m: string, line: string, tail: seq<string>)
    ensures ContainsInSome(m, [line] + tail) <==> Contains(m, line) || ContainsInSome(m, tail)
  {
    var ls := [line] + tail;
    if Contains(m, line) { assert Contains(m, ls[0]); }
    if ContainsInSome(m, tail) {
      var i :| 0 <= i < |tail| && Contains(m, tail[i]);
      assert Contains(m, ls[i + 1]);
    }
  }

  /** A text without newline occurs in a joined text exactly when it occurs in some line of it. */
  lemma {:induction false} ContainsInSomeLine(m: string, text: string)
    requires m != "" && Lacks('\n', m)
    ensures Contains(m, text) <==> ContainsInSome(m, Lines(text))
    decreases |text|
  {
    if text != "" {
      var k := LineLength(text);
      if k == |text| {
        ContainsInCons(m, text, []);
        assert [text] + [] == [text];
      } else {
        var line, rest := text[..k + 1], text[k + 1..];
        ContainsInSomeLine(m, rest);
        ContainsAcrossLine(m, line, rest);
        ContainsInCons(m, line, Lines(rest));
        assert text == line + rest;
      }
    }
  }

  /** A text without newline that begins inside a line ends inside it. */
  lemma StaysInLine(m: string, line: string, rest: string, i: nat)
    requires m != "" && Lacks('\n', m) && line != "" && line[|line| - 1] == '\n'
    requires i < |line| && m <= (line + rest)[i..]
    ensures m <= line[i..]
  {
    var t, n := (line + rest)[i..], |line| - i;
    assert t == line[i..] + rest;
    assert t[n - 1] == '\n';
    assert forall k :: 0 <= k < |m| ==> m[k] == t[k];
    assert |m| < n;
    assert m == t[..|m|] == line[i..][..|m|];
  }

  lemma ContainsAcrossLine(m: string, line: string, rest: string)
    requires m != "" && Lacks('\n', m) && line != "" && line[|line| - 1] == '\n'
    ensures Contains(m, line + rest) <==> Contains(m, line) || Contains(m, rest)
  {
    var s := line + rest;
    ContainsSomewhere(m, s);
    ContainsSomewhere(m, line);
    ContainsSomewhere(m, rest);
    forall i | 0 <= i <= |s| && m <= s[i..]
      ensures Contains(m, line) || Contains(m, rest)
    {
      if i < |line| { StaysInLine(m, line, rest, i); } else { assert s[i..] == rest[i - |line|..]; }
    }
    ContainsMore(m, line, rest);
  }

  lemma ContainsMore(m: string, line: string, rest: string)
    ensures Contains(m, line) || Contains(m, rest) ==> Contains(m, line + rest)
  {
    var s := line + rest;
    ContainsSomewhere(m, s);
    ContainsSomewhere(m, line);
    ContainsSomewhere(m, rest);
    forall i | 0 <= i <= |line| && m <= line[i..] ensures Contains(m, s) {
      assert s[i..] == line[i..] + rest;
    }
    forall i | 0 <= i <= |rest| && m <= rest[i..] ensures Contains(m, s) {
      assert s[|line| + i..] == rest[i..];
    }
  }

  lemma {:induction false} InMarks(m: Mark, lines: seq<string>)
    ensures m in Marks(lines) <==> exists i :: 0 <= i < |lines| && MarkOf(lines[i]) == Some(m)
  {
    if lines != [] {
      InMarks(m, lines[1..]);
      assert forall i :: 0 <= i < |lines[1..]| ==> lines[1..][i] == lines[i + 1];
      if exists i :: 0 < i < |lines| && MarkOf(lines[i]) == Some(m) {
        var i :| 0 < i < |lines| && MarkOf(lines[i]) == Some(m);
        assert lines[1..][i - 1] == lines[i];
      }
    }
  }

  /** The recognisers agree: when no line of a text has two markers, the joined text contains a
      marker as a substring exactly when the line-by-line search reported it. */
  lemma RecognisersAgree(text: string, m: Mark)
    requires WellNamed(m)
    requires forall i :: 0 <= i < |Lines(text)| ==> AtMostOneMark(Lines(text)[i])
    ensures Contains(MarkText(m), text) <==> m in Marks(Lines(text))
  {
    MarkTextFacts(m);
    ContainsInSomeLine(MarkText(m), text);
    InMarks(m, Lines(text));
    forall i | 0 <= i < |Lines(text)|
      ensures Contains(MarkText(m), Lines(text)[i]) <==> MarkOf(Lines(text)[i]) == Some(m)
    {
      LineRecognisersAgree(Lines(text)[i], m);
    }
  }

  lemma MarkTextFacts(m: Mark)
    requires WellNamed(m)
    ensures MarkText(m) != "" && Lacks('\n', MarkText(m))
  {
    ClassLacks(Word, '\n', m.stage);
    ClassLacks(Word, '\n', m.status);
  }

  /** With two markers on a line they do not agree: the search reports the first one only. */
  lemma RecognisersDisagree(first: Mark, second: Mark)
    requires WellNamed(first) && WellNamed(second) && first != second
    ensures var line := MarkText(first) + MarkLine(second);
            Contains(MarkText(second), line) && MarkOf(line) == Some(first)
  {
    var line := MarkText(first) + MarkLine(second);
    MatchMark(first, MarkLine(second));
    ContainsSomewhere(MarkText(second), line);
    assert line[|MarkText(first)|..] == MarkLine(second);
  }

  // ----- Ordinary output around one marker -----

  /** Ordinary output: no marker begins in it. */
  predicate Quiet(out: string) { !Contains(MARKER_PREFIX, out) }

  lemma QuietPart(out: string, i: nat, j: nat)
    requires Quiet(out) && i <= j <= |out|
    ensures Quiet(out[i..j])
  {
    ContainsSomewhere(MARKER_PREFIX, out);
    ContainsSomewhere(MARKER_PREFIX, out[i..j]);
    forall k | 0 <= k <= j - i ensures !(MARKER_PREFIX <= out[i..j][k..]) {
      assert !(MARKER_PREFIX <= out[i + k..]);
      assert out[i..j][k..] == out[i + k..][..j - i - k];
    }
  }

  lemma QuietLine(line: string)
    requires Quiet(line)
    ensures MarkOf(line).None? && AtMostOneMark(line)
  {
    ContainsSomewhere(MARKER_PREFIX, line);
    SearchIsLeftmost(StagePattern(), line);
    forall i | 0 <= i <= |line| ensures Match(StagePattern(), line[i..]).None? {
      if Match(StagePattern(), line[i..]).Some? { MatchBegins(line[i..]); }
    }
  }

  /** Inside a marker line the prefix only begins at the start. */
  lemma PrefixOnlyAtStart(m: Mark, i: nat)
    requires WellNamed(m) && 0 < i <= |MarkLine(m)|
    ensures !(MARKER_PREFIX <= MarkLine(m)[i..])
  {
    ClassLacks(Word, '@', m.stage);
    ClassLacks(Word, '@', m.status);
    var line := MarkLine(m);
    var n := |line|;
    var words := "STAGE:" + (m.stage + (":" + m.status));
    assert line == "@@" + (words + "@@\n");
    assert Lacks('@', words);
    if i < n {
      assert line[i..][0] == line[i];
      if i == 1 {
        assert line[i..][1] == words[0] == 'S';
      } else {
        assert i < n - 3 ==> line[i] == words[i - 2];
      }
    }
  }

  /** No marker straddles the end of ordinary output. */
  lemma NoStraddle(out: string, s: string, i: nat)
    requires Quiet(out) && MARKER_PREFIX <= s && i < |out|
    ensures !(MARKER_PREFIX <= (out + s)[i..])
  {
    ContainsSomewhere(MARKER_PREFIX, out);
    assert !(MARKER_PREFIX <= out[i..]);
    var t := (out + s)[i..];
    var n := |out| - i;
    if n < 8 {
      assert t[n] == '@' && t[n + 1] == '@';
      assert n == 7 ==> t[7] == '@';
      assert MARKER_PREFIX[n] == '@' ==> n == 1;
      assert n == 1 ==> t[2] == '@';
    } else {
      assert t[..8] == out[i..][..8];
    }
  }

  /** Ordinary output that runs into a marker line: that marker is the only one. */
  lemma MarkedLine(out: string, m: Mark)
    requires Quiet(out) && WellNamed(m)
    ensures MarkOf(out + MarkLine(m)) == Some(m) && AtMostOneMark(out + MarkLine(m))
  {
    var line := out + MarkLine(m);
    forall i | 0 <= i <= |line| && Match(StagePattern(), line[i..]).Some? ensures i == |out| {
      MatchBegins(line[i..]);
      if i < |out| {
        NoStraddle(out, MarkLine(m), i);
      } else if i > |out| {
        assert line[i..] == MarkLine(m)[i - |out|..];
        PrefixOnlyAtStart(m, i - |out|);
      }
    }
    assert line[|out|..] == MarkText(m) + "\n";
    MatchMark(m, "\n");
    SearchIsAt(line, |out|);
  }

  ghost predicate OneMarkPerLine(text: string) {
    forall i :: 0 <= i < |Lines(text)| ==> AtMostOneMark(Lines(text)[i])
  }

  lemma LinesOfFirst(line: string, rest: string)
    requires Lacks('\n', line)
    ensures Lines(line + "\n" + rest) == [line + "\n"] + Lines(rest)
  {
    LineLengthIs(line, rest);
    var text := line + "\n" + rest;
    assert text[..|line| + 1] == line + "\n" && text[|line| + 1..] == rest;
  }

  lemma OneMoreLine(line: string, rest: string)
    requires Lacks('\n', line)
    ensures Marks(Lines(line + "\n" + rest))
         == (match MarkOf(line + "\n") case None => [] case Some(m) => [m]) + Marks(Lines(rest))
    ensures AtMostOneMark(line + "\n") && OneMarkPerLine(rest) ==> OneMarkPerLine(line + "\n" + rest)
  {
    LinesOfFirst(line, rest);
    var ls, tail := Lines(line + "\n" + rest), Lines(rest);
    assert ls[0] == line + "\n" && ls[1..] == tail;
    assert forall i :: 0 < i < |ls| ==> ls[i] == tail[i - 1];
  }

  lemma MarksOnLine(out: string, m: Mark, rest: string)
    requires Quiet(out) && Lacks('\n', out) && WellNamed(m)
    ensures Marks(Lines(out + (MarkLine(m) + rest))) == [m] + Marks(Lines(rest))
    ensures OneMarkPerLine(rest) ==> OneMarkPerLine(out + (MarkLine(m) + rest))
  {
    MarkTextFacts(m);
    MarkedLine(out, m);
    LacksConcat('\n', out, MarkText(m));
    OneMoreLine(out + MarkText(m), rest);
    AppendLine(out, MarkText(m), rest);
  }

  lemma AppendLine(out: string, text: string, rest: string)
    ensures out + (text + "\n") == out + text + "\n" && out + (text + "\n" + rest) == out + text + "\n" + rest
  {
  }

  /** Cutting off the first line of ordinary output. */
  lemma FirstLineOff(out: string, s: string) returns (line: string, after: string)
    requires Quiet(out) && LineLength(out) < |out|
    ensures Lacks('\n', line) && Quiet(line + "\n") && Quiet(after) && |after| < |out|
    ensures out == line + "\n" + after && out + s == line + "\n" + (after + s)
  {
    var k := LineLength(out);
    line, after := out[..k], out[k + 1..];
    QuietPart(out, 0, k + 1);
    QuietPart(out, k + 1, |out|);
    assert out[0..k + 1] == line + "\n" && out[k + 1..|out|] == after;
  }

  /** Ordinary output, a marker line, and the rest: one more mark, and still one per line. */
  lemma {:induction false} MarksAcross(out: string, m: Mark, rest: string)
    requires Quiet(out) && WellNamed(m)
    ensures Marks(Lines(out + (MarkLine(m) + rest))) == [m] + Marks(Lines(rest))
    ensures OneMarkPerLine(rest) ==> OneMarkPerLine(out + (MarkLine(m) + rest))
    decreases |out|
  {
    if LineLength(out) == |out| {
      assert out[..|out|] == out;
      MarksOnLine(out, m, rest);
    } else {
      var line, after := FirstLineOff(out, MarkLine(m) + rest);
      QuietLine(line + "\n");
      MarksAcross(after, m, rest);
      OneMoreLine(line, after + (MarkLine(m) + rest));
    }
  }

  /** Ordinary output alone has no mark. */
  lemma {:induction false} QuietMarks(out: string)
    requires Quiet(out)
    ensures Marks(Lines(out)) == [] && OneMarkPerLine(out)
    decreases |out|
  {
    if out != "" {
      if LineLength(out) == |out| {
        QuietLine(out);
        assert Lines(out) == [out];
        assert Marks([out]) == [] + Marks([]);
      } else {
        var line, after := FirstLineOff(out, "");
        QuietLine(line + "\n");
        QuietMarks(after);
        OneMoreLine(line, after);
      }
    }
  }
}
