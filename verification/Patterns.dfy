/** The part of Python's `re` that the backend uses: literals, one greedy group over a
    character class, and `.*?\n` (the rest of the line, since `.` does not match a newline). */
module Patterns {
  import opened Runs

  datatype CharClass = Digits | Numeric | Word

  predicate IsDigit(c: char) { '0' <= c <= '9' }

  predicate InClass(cls: CharClass, c: char) {
    match cls
    case Digits => IsDigit(c)
    case Numeric => IsDigit(c) || c == '.'
    case Word => IsDigit(c) || 'a' <= c <= 'z' || 'A' <= c <= 'Z' || c == '_'
  }

  datatype Item = Lit(text: string) | Group(cls: CharClass) | RestOfLine

  type Pattern = seq<Item>

  predicate AllIn(cls: CharClass, s: string) { forall i :: 0 <= i < |s| ==> InClass(cls, s[i]) }

  predicate Lacks(c: char, s: string) { forall i :: 0 <= i < |s| ==> s[i] != c }

  /** Length of the longest prefix of characters of the class. */
  function Span(cls: CharClass, s: string): (k: nat)
    ensures k <= |s| && AllIn(cls, s[..k])
    ensures k < |s| ==> !InClass(cls, s[k])
  {
    if s != "" && InClass(cls, s[0]) then
      var k := 1 + Span(cls, s[1..]);
      assert s[..k] == [s[0]] + s[1..][..k - 1];
      k
    else 0
  }

  /** Length of the text before the first newline. */
  function LineLength(s: string): (k: nat)
    ensures k <= |s| && Lacks('\n', s[..k])
    ensures k < |s| ==> s[k] == '\n'
  {
    if s != "" && s[0] != '\n' then
      var k := 1 + LineLength(s[1..]);
      assert s[..k] == [s[0]] + s[1..][..k - 1];
      k
    else 0
  }

  /** The groups captured by matching the pattern at the very start of `s`, without backtracking. */
  function Match(p: Pattern, s: string): Option<seq<string>> {
    if p == [] then Some([])
    else match p[0]
      case Lit(text) => if text <= s then Match(p[1..], s[|text|..]) else None
      case Group(cls) =>
        var k := Span(cls, s);
        if k == 0 then None
        else (match Match(p[1..], s[k..])
              case None => None
              case Some(groups) => Some([s[..k]] + groups))
      case RestOfLine =>
        var k := LineLength(s);
        if k == |s| then None else Match(p[1..], s[k + 1..])
  }

  /** `re.search`: the groups of the leftmost match. */
  function Search(p: Pattern, s: string): Option<seq<string>> {
    if Match(p, s).Some? then Match(p, s)
    else if s == "" then None
    else Search(p, s[1..])
  }

  // ----- The regular expression's own meaning, and why `Match` needs no backtracking -----

  /** `s` can be cut up as the pattern says, the groups being `groups` and `rest` being left over:
      every way a backtracking matcher may try, with no preference among them. */
  ghost predicate Splits(p: Pattern, s: string, groups: seq<string>, rest: string)
    decreases |p|
  {
    if p == [] then groups == [] && rest == s
    else match p[0]
      case Lit(text) => text <= s && Splits(p[1..], s[|text|..], groups, rest)
      case Group(cls) =>
        && groups != [] && groups[0] != "" && groups[0] <= s && AllIn(cls, groups[0])
        && Splits(p[1..], s[|groups[0]|..], groups[1..], rest)
      case RestOfLine =>
        exists k :: 0 <= k < |s| && s[k] == '\n' && Lacks('\n', s[..k]) && Splits(p[1..], s[k + 1..], groups, rest)
  }

  /** Each group is the last item or is followed by a literal its own class cannot begin. */
  predicate Delimited(p: Pattern) {
    p == [] || (Delimited(p[1..]) &&
      (p[0].Group? && |p| > 1 ==> p[1].Lit? && p[1].text != "" && !InClass(p[0].cls, p[1].text[0])))
  }

  /** Two captures agree, except that the last group of the first one may be a mere prefix. */
  predicate AgreeUpToLast(shorter: seq<string>, longer: seq<string>) {
    && |shorter| == |longer|
    && (forall i :: 0 <= i < |shorter| - 1 ==> shorter[i] == longer[i])
    && (shorter != [] ==> shorter[|shorter| - 1] <= longer[|longer| - 1])
  }

  /** Whatever `Match` returns is a way to cut the text. */
  lemma {:induction false} MatchIsSplit(p: Pattern, s: string)
    ensures Match(p, s).Some? ==> exists rest :: Splits(p, s, Match(p, s).value, rest)
    decreases |p|
  {
    if p == [] {
      assert Splits(p, s, [], s);
    } else if Match(p, s).Some? {
      match p[0]
      case Lit(text) =>
        MatchIsSplit(p[1..], s[|text|..]);
        var rest :| Splits(p[1..], s[|text|..], Match(p, s).value, rest);
        assert Splits(p, s, Match(p, s).value, rest);
      case Group(cls) =>
        var k := Span(cls, s);
        MatchIsSplit(p[1..], s[k..]);
        var groups := Match(p[1..], s[k..]).value;
        var rest :| Splits(p[1..], s[k..], groups, rest);
        assert ([s[..k]] + groups)[1..] == groups;
        assert Splits(p, s, [s[..k]] + groups, rest);
      case RestOfLine =>
        var k := LineLength(s);
        MatchIsSplit(p[1..], s[k + 1..]);
        var rest :| Splits(p[1..], s[k + 1..], Match(p, s).value, rest);
        assert Splits(p, s, Match(p, s).value, rest);
    }
  }

  /** The span is the only prefix length with its property. */
  lemma {:induction false} SpanIs(cls: CharClass, g: string, s: string)
    requires AllIn(cls, g) && (s != "" ==> !InClass(cls, s[0]))
    ensures Span(cls, g + s) == |g|
  {
    if g == "" {
      assert g + s == s;
    } else {
      assert (g + s)[0] == g[0];
      assert (g + s)[1..] == g[1..] + s;
      SpanIs(cls, g[1..], s);
    }
  }

  lemma {:induction false} LineLengthIs(line: string, s: string)
    requires Lacks('\n', line)
    ensures LineLength(line + "\n" + s) == |line|
  {
    if line == "" {
      assert line + "\n" + s == "\n" + s;
    } else {
      assert (line + "\n" + s)[0] == line[0];
      assert (line + "\n" + s)[1..] == line[1..] + "\n" + s;
      LineLengthIs(line[1..], s);
    }
  }

  lemma {:induction false} SpanOfPrefix(cls: CharClass, g: string, s: string)
    requires g <= s && AllIn(cls, g)
    ensures |g| <= Span(cls, s)
  {
    if g != "" {
      assert s[0] == g[0];
      SpanOfPrefix(cls, g[1..], s[1..]);
    }
  }

  lemma AgreeCons(g: string, shorter: seq<string>, longer: seq<string>)
    requires AgreeUpToLast(shorter, longer)
    ensures AgreeUpToLast([g] + shorter, [g] + longer)
  {
  }

  /** A delimited group spans exactly what any cut gives it. */
  lemma GroupIsSpan(p: Pattern, s: string, groups: seq<string>, rest: string)
    requires Delimited(p) && Splits(p, s, groups, rest) && p != [] && p[0].Group?
    ensures groups[0] <= s && |groups[0]| <= Span(p[0].cls, s)
    ensures |p| > 1 ==> Span(p[0].cls, s) == |groups[0]|
  {
    var g := groups[0];
    SpanOfPrefix(p[0].cls, g, s);
    if |p| > 1 {
      assert p[1..][0] == p[1];
      assert p[1].text <= s[|g|..];
      assert s[|g|..][0] == p[1].text[0];
      SpanIs(p[0].cls, g, s[|g|..]);
      assert g + s[|g|..] == s;
    }
  }

  /** A last group: the match takes its whole span. */
  lemma LastGroupIsMatch(p: Pattern, s: string, groups: seq<string>, rest: string)
    requires |p| == 1 && p[0].Group? && Splits(p, s, groups, rest)
    ensures Match(p, s).Some? && AgreeUpToLast(groups, Match(p, s).value)
  {
    GroupIsSpan(p, s, groups, rest);
    var k := Span(p[0].cls, s);
    assert p[1..] == [];
    assert groups == [groups[0]] + groups[1..];
    assert [s[..k]] + [] == [s[..k]];
    assert Match(p, s) == Some([s[..k]]);
  }

  /** A group and the literal after it: the match takes the same text as any cut. */
  lemma FirstGroupIsMatch(p: Pattern, s: string, groups: seq<string>, rest: string, tail: seq<string>)
    requires Delimited(p) && |p| > 1 && p[0].Group? && Splits(p, s, groups, rest)
    requires Match(p[1..], s[|groups[0]|..]) == Some(tail) && AgreeUpToLast(groups[1..], tail)
    ensures Match(p, s).Some? && AgreeUpToLast(groups, Match(p, s).value)
  {
    GroupIsSpan(p, s, groups, rest);
    assert s[..|groups[0]|] == groups[0];
    AgreeCons(groups[0], groups[1..], tail);
    assert groups == [groups[0]] + groups[1..];
    assert Match(p, s) == Some([groups[0]] + tail);
  }

  lemma {:induction false} FirstNewline(s: string, j: nat)
    requires j < |s| && s[j] == '\n' && Lacks('\n', s[..j])
    ensures LineLength(s) == j
  {
    if j > 0 {
      assert s[..j][0] == s[0];
      assert s[..j][1..] == s[1..][..j - 1];
      FirstNewline(s[1..], j - 1);
    }
  }

  /** The rest of a line ends at the first newline in any cut. */
  lemma LineIsMatch(p: Pattern, s: string, groups: seq<string>, rest: string)
    requires p != [] && p[0].RestOfLine? && Splits(p, s, groups, rest)
    ensures LineLength(s) < |s| && Splits(p[1..], s[LineLength(s) + 1..], groups, rest)
  {
    var j :| 0 <= j < |s| && s[j] == '\n' && Lacks('\n', s[..j]) && Splits(p[1..], s[j + 1..], groups, rest);
    FirstNewline(s, j);
  }

  /** Every way to cut the text is the one `Match` finds, up to the greed of a final group:
      the deterministic matcher decides exactly what the backtracking one does. */
  lemma {:induction false} SplitIsMatch(p: Pattern, s: string, groups: seq<string>, rest: string)
    requires Delimited(p) && Splits(p, s, groups, rest)
    ensures Match(p, s).Some? && AgreeUpToLast(groups, Match(p, s).value)
    decreases |p|
  {
    if p == [] {
    } else if p[0].Lit? {
      SplitIsMatch(p[1..], s[|p[0].text|..], groups, rest);
    } else if p[0].Group? {
      if |p| == 1 {
        LastGroupIsMatch(p, s, groups, rest);
      } else {
        SplitIsMatch(p[1..], s[|groups[0]|..], groups[1..], rest);
        FirstGroupIsMatch(p, s, groups, rest, Match(p[1..], s[|groups[0]|..]).value);
      }
    } else {
      LineIsMatch(p, s, groups, rest);
      SplitIsMatch(p[1..], s[LineLength(s) + 1..], groups, rest);
    }
  }

  /** `Search` finds the leftmost start at which the pattern matches, if there is any. */
  lemma {:induction false} SearchIsLeftmost(p: Pattern, s: string)
    ensures Search(p, s).None? <==> forall i :: 0 <= i <= |s| ==> Match(p, s[i..]).None?
    ensures Search(p, s).Some? ==> exists i :: 0 <= i <= |s| && Search(p, s) == Match(p, s[i..])
                                            && forall j :: 0 <= j < i ==> Match(p, s[j..]).None?
  {
    assert s[0..] == s;
    if Match(p, s).None? && s != "" {
      SearchIsLeftmost(p, s[1..]);
      assert forall i :: 0 <= i < |s| ==> s[1..][i..] == s[i + 1..];
      if Search(p, s).Some? {
        var i :| 0 <= i <= |s[1..]| && Search(p, s[1..]) == Match(p, s[1..][i..])
              && forall j :: 0 <= j < i ==> Match(p, s[1..][j..]).None?;
        assert forall j :: 0 <= j < i + 1 ==> Match(p, s[j..]).None? by {
          forall j | 0 <= j < i + 1 ensures Match(p, s[j..]).None? {
            if j > 0 { assert s[1..][j - 1..] == s[j..]; }
          }
        }
        assert Search(p, s) == Match(p, s[i + 1..]);
      } else {
        forall i | 0 <= i <= |s| ensures Match(p, s[i..]).None? {
          if i > 0 { assert s[1..][i - 1..] == s[i..]; }
        }
      }
    }
  }

  /** `re.search` with a delimited pattern succeeds exactly when some start of the text can be cut as
      the pattern says, and then the cut it reports is one of those, at the first such start. */
  lemma SearchDecidesRegex(p: Pattern, s: string)
    requires Delimited(p)
    ensures Search(p, s).Some? <==> exists i, groups, rest :: 0 <= i <= |s| && Splits(p, s[i..], groups, rest)
    ensures Search(p, s).Some? ==>
              exists i, rest :: 0 <= i <= |s| && Splits(p, s[i..], Search(p, s).value, rest)
                && (forall j, g, r :: 0 <= j < i ==> !Splits(p, s[j..], g, r))
  {
    SearchIsLeftmost(p, s);
    forall i, groups, rest | 0 <= i <= |s| && Splits(p, s[i..], groups, rest) ensures Match(p, s[i..]).Some? {
      SplitIsMatch(p, s[i..], groups, rest);
    }
    if Search(p, s).Some? {
      var i :| 0 <= i <= |s| && Search(p, s) == Match(p, s[i..]) && forall j :: 0 <= j < i ==> Match(p, s[j..]).None?;
      MatchIsSplit(p, s[i..]);
      var rest :| Splits(p, s[i..], Search(p, s).value, rest);
    }
  }

  // ----- Building matches -----

  lemma MatchLit(text: string, p: Pattern, s: string)
    ensures Match([Lit(text)] + p, text + s) == Match(p, s)
  {
    assert ([Lit(text)] + p)[1..] == p;
    assert (text + s)[|text|..] == s;
  }

  lemma MatchGroup(cls: CharClass, g: string, p: Pattern, s: string)
    requires g != "" && AllIn(cls, g) && (s != "" ==> !InClass(cls, s[0]))
    ensures Match([Group(cls)] + p, g + s)
         == match Match(p, s) case None => None case Some(groups) => Some([g] + groups)
  {
    assert ([Group(cls)] + p)[1..] == p;
    SpanIs(cls, g, s);
    assert (g + s)[..|g|] == g && (g + s)[|g|..] == s;
  }

  lemma MatchRestOfLine(line: string, p: Pattern, s: string)
    requires Lacks('\n', line)
    ensures Match([RestOfLine] + p, line + "\n" + s) == Match(p, s)
  {
    assert ([RestOfLine] + p)[1..] == p;
    var all := line + "\n" + s;
    LineLengthIs(line, s);
    assert all[|line| + 1..] == s;
  }

  // ----- Ruling matches out -----

  /** No item of the pattern can consume character `c`. */
  predicate Avoids(p: Pattern, c: char) {
    forall i :: 0 <= i < |p| ==>
      match p[i]
      case Lit(text) => Lacks(c, text)
      case Group(cls) => !InClass(cls, c)
      case RestOfLine => false
  }

  /** Some literal of the pattern contains character `c`. */
  predicate Needs(p: Pattern, c: char) {
    exists i :: 0 <= i < |p| && p[i].Lit? && c in p[i].text
  }

  /** A match sees nothing beyond a character its pattern avoids. */
  lemma {:induction false} MatchStopsAt(p: Pattern, a: string, c: char, b: string)
    requires Avoids(p, c)
    ensures Match(p, a + [c] + b) == Match(p, a)
    decreases |p|
  {
    if p != [] {
      var s := a + [c] + b;
      assert forall i :: 0 <= i < |p[1..]| ==> p[1..][i] == p[i + 1];
      match p[0]
      case Lit(text) =>
        if text <= a {
          assert text <= s;
          assert s[|text|..] == a[|text|..] + [c] + b;
          MatchStopsAt(p[1..], a[|text|..], c, b);
        } else {
          assert !(text <= s) by {
            assert |a| < |text| ==> s[|a|] != text[|a|];
            assert |text| <= |a| ==> s[..|text|] == a[..|text|];
          }
        }
      case Group(cls) =>
        var k := Span(cls, a);
        SpanIs(cls, a[..k], a[k..] + [c] + b);
        assert a[..k] + (a[k..] + [c] + b) == s;
        assert s[..k] == a[..k];
        assert s[k..] == a[k..] + [c] + b;
        MatchStopsAt(p[1..], a[k..], c, b);
    }
  }

  /** A pattern that avoids newlines and needs `c` only matches inside a line that has `c`. */
  lemma {:induction false} MatchNeeds(p: Pattern, c: char, s: string)
    requires Needs(p, c) && Match(p, s).Some?
    ensures c in s
    decreases |p|
  {
    var i :| 0 <= i < |p| && p[i].Lit? && c in p[i].text;
    match p[0]
    case Lit(text) =>
      if i == 0 {
        var j :| 0 <= j < |text| && text[j] == c;
        assert s[j] == c;
      } else {
        assert p[1..][i - 1] == p[i];
        MatchNeeds(p[1..], c, s[|text|..]);
      }
    case Group(cls) =>
      assert p[1..][i - 1] == p[i];
      MatchNeeds(p[1..], c, s[Span(cls, s)..]);
    case RestOfLine =>
      assert p[1..][i - 1] == p[i];
      MatchNeeds(p[1..], c, s[LineLength(s) + 1..]);
  }

  /** When the pattern matches at no start inside `a`, a search through `a + s` is a search in `s`. */
  lemma {:induction false} SearchSkips(p: Pattern, a: string, s: string)
    requires forall i :: 0 <= i < |a| ==> Match(p, a[i..] + s).None?
    ensures Search(p, a + s) == Search(p, s)
  {
    if a == "" {
      assert a + s == s;
    } else {
      assert a[0..] == a;
      assert Match(p, a + s).None?;
      assert (a + s)[1..] == a[1..] + s;
      forall i | 0 <= i < |a[1..]| ensures Match(p, a[1..][i..] + s).None? {
        assert a[1..][i..] == a[i + 1..];
      }
      SearchSkips(p, a[1..], s);
    }
  }

  /** A search for a pattern that begins with a literal passes over text where it never begins. */
  lemma SearchSkipsUnlabelled(p: Pattern, text: string, a: string, s: string)
    requires p != [] && p[0] == Lit(text)
    requires forall i :: 0 <= i < |a| ==> !(text <= a[i..] + s)
    ensures Search(p, a + s) == Search(p, s)
  {
    SearchSkips(p, a, s);
  }

  /** A search passes over a whole line that lacks a character the one-line pattern needs. */
  lemma SearchSkipsLine(p: Pattern, c: char, line: string, s: string)
    requires Avoids(p, '\n') && Needs(p, c) && Lacks(c, line) && p != [] && p[0].Lit? && p[0].text != ""
    ensures Search(p, line + "\n" + s) == Search(p, s)
  {
    var a := line + "\n";
    forall i | 0 <= i < |a| ensures Match(p, a[i..] + s).None? {
      if i < |line| {
        assert a[i..] + s == line[i..] + ['\n'] + s;
        MatchStopsAt(p, line[i..], '\n', s);
        if Match(p, line[i..]).Some? { MatchNeeds(p, c, line[i..]); }
      } else {
        assert (a[i..] + s)[0] == '\n' != p[0].text[0];
      }
    }
    SearchSkips(p, a, s);
    assert a + s == line + "\n" + s;
  }

  // ----- Substrings -----

  /** Python's `m in s`. */
  predicate Contains(m: string, s: string) {
    m <= s || (s != "" && Contains(m, s[1..]))
  }

  lemma {:induction false} ContainsSomewhere(m: string, s: string)
    ensures Contains(m, s) <==> exists i :: 0 <= i <= |s| && m <= s[i..]
  {
    assert s[0..] == s;
    if s != "" {
      ContainsSomewhere(m, s[1..]);
      assert forall i :: 0 <= i <= |s[1..]| ==> s[1..][i..] == s[i + 1..];
      if Contains(m, s[1..]) {
        var i :| 0 <= i <= |s[1..]| && m <= s[1..][i..];
        assert m <= s[i + 1..];
      }
      if exists i :: 0 < i <= |s| && m <= s[i..] {
        var i :| 0 < i <= |s| && m <= s[i..];
        assert s[1..][i - 1..] == s[i..];
      }
    }
  }

  lemma LacksConcat(c: char, a: string, b: string)
    requires Lacks(c, a) && Lacks(c, b)
    ensures Lacks(c, a + b)
  {
  }

  lemma ClassLacks(cls: CharClass, c: char, s: string)
    requires AllIn(cls, s) && !InClass(cls, c)
    ensures Lacks(c, s)
  {
  }
}
