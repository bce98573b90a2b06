/** What the chat loop does with one line typed by the operator: a line
    starting with a backslash is a command, a line starting with '!' must
    match /^!(\w+)\s+(\w+)/ and becomes a directive with its two words as
    message and target, any other line is a chat message; nothing is
    published while the node is silenced. */
module InputLine {
  import opened Protocol

  /** Ruby's \w: an ASCII letter, digit or underscore. */
  predicate IsWordChar(c: char)
  {
    ('a' <= c <= 'z') || ('A' <= c <= 'Z') || ('0' <= c <= '9') || c == '_'
  }

  /** Ruby's \s: space, tab, line feed, carriage return, form feed, vertical tab. */
  predicate IsSpaceChar(c: char)
  {
    c == ' ' || c == '\t' || c == '\n' || c == '\r' || c == '\U{C}' || c == '\U{B}'
  }

  /** What STDIN.gets returns: at most one line feed, and only at the end. */
  predicate SingleLine(line: string)
  {
    forall i | 0 <= i < |line| - 1 :: line[i] != '\n'
  }

  predicate StartsWith(line: string, c: char)
  {
    0 < |line| && line[0] == c
  }

  /** Ruby's String#chomp: drops one trailing "\r\n", "\n" or "\r". */
  function Chomp(s: string): (r: string)
    ensures r <= s && |s| - 2 <= |r|
    // what goes is exactly one "\r\n", "\n" or "\r"
    ensures |r| == |s| - 2 ==> s[|s| - 2] == '\r' && s[|s| - 1] == '\n'
    ensures |r| == |s| - 1 ==> s[|s| - 1] == '\n' || s[|s| - 1] == '\r'
    ensures |s| >= 2 && s[|s| - 2] == '\r' && s[|s| - 1] == '\n' ==> |r| == |s| - 2
    ensures |r| == |s| ==> |s| == 0 || (s[|s| - 1] != '\n' && s[|s| - 1] != '\r')
  {
    if |s| >= 2 && s[|s| - 2..] == "\r\n" then s[..|s| - 2]
    else if |s| >= 1 && (s[|s| - 1] == '\n' || s[|s| - 1] == '\r') then s[..|s| - 1]
    else s
  }

  /** The end of the longest run of word characters starting at `i`. */
  function WordRunEnd(s: string, i: nat): (j: nat)
    requires i <= |s|
    ensures i <= j <= |s|
    ensures forall k | i <= k < j :: IsWordChar(s[k])
    ensures j == |s| || !IsWordChar(s[j])
    decreases |s| - i
  {
    if i < |s| && IsWordChar(s[i]) then WordRunEnd(s, i + 1) else i
  }

  /** The end of the longest run of whitespace starting at `i`. */
  function SpaceRunEnd(s: string, i: nat): (j: nat)
    requires i <= |s|
    ensures i <= j <= |s|
    ensures forall k | i <= k < j :: IsSpaceChar(s[k])
    ensures j == |s| || !IsSpaceChar(s[j])
    decreases |s| - i
  {
    if i < |s| && IsSpaceChar(s[i]) then SpaceRunEnd(s, i + 1) else i
  }

  /** /^!(\w+)\s+(\w+)/ matches the line at its start with group 1 spanning
      [1, a), the whitespace [a, b) and group 2 [b, c). */
  ghost predicate ShapeAt(line: string, a: int, b: int, c: int)
  {
    && StartsWith(line, '!')
    && 1 < a < b < c <= |line|
    && (forall k | 1 <= k < a :: IsWordChar(line[k]))
    && (forall k | a <= k < b :: IsSpaceChar(line[k]))
    && (forall k | b <= k < c :: IsWordChar(line[k]))
  }

  ghost predicate DirectiveRegexMatches(line: string)
  {
    exists a, b, c :: ShapeAt(line, a, b, c)
  }

  /** The two groups the regular expression captures: both greedy. */
  function MatchDirective(line: string): (m: Option<(string, string)>)
    ensures m.Some? ==> StartsWith(line, '!') && m.value.0 != [] && m.value.1 != []
    ensures m.Some? ==> forall k | 0 <= k < |m.value.0| :: IsWordChar(m.value.0[k])
    ensures m.Some? ==> forall k | 0 <= k < |m.value.1| :: IsWordChar(m.value.1[k])
  {
    if !StartsWith(line, '!') then None
    else
      var a := WordRunEnd(line, 1);
      var b := SpaceRunEnd(line, a);
      var c := WordRunEnd(line, b);
      if a == 1 || b == a || c == b then None
      else Some((line[1..a], line[b..c]))
  }

  /** Where a match of the regular expression is, the runs the parser
      measures end exactly at its boundaries, and the second word may go on. */
  lemma RunsOfShape(line: string, a: int, b: int, c: int)
    requires ShapeAt(line, a, b, c)
    ensures WordRunEnd(line, 1) == a
    ensures SpaceRunEnd(line, a) == b
    ensures WordRunEnd(line, b) >= c
  {
    assert !IsWordChar(line[a]);
    assert !IsSpaceChar(line[b]);
  }

  /** The parser finds a match exactly when the regular expression has one,
      and then captures the maximal second word. */
  lemma MatchDirectiveCorrect(line: string)
    ensures MatchDirective(line).Some? <==> DirectiveRegexMatches(line)
    ensures MatchDirective(line).Some? ==> exists a, b, c ::
      && ShapeAt(line, a, b, c)
      && MatchDirective(line).value == (line[1..a], line[b..c])
      && (c == |line| || !IsWordChar(line[c]))
  {
    if DirectiveRegexMatches(line) {
      var a, b, c :| ShapeAt(line, a, b, c);
      RunsOfShape(line, a, b, c);
    }
    if MatchDirective(line).Some? {
      var a := WordRunEnd(line, 1);
      var b := SpaceRunEnd(line, a);
      var c := WordRunEnd(line, b);
      assert ShapeAt(line, a, b, c);
    }
  }

  /** What the chat loop does with a line (besides ending on "bye"). */
  datatype InputAction =
    | PublishMessage(text: string)
    | PublishCommand(text: string)
    | PublishDirective(directive: string, target: string)
    | Reject(line: string)
    | Suppressed

  function ClassifyInput(line: string, silenced: bool): (act: InputAction)
    requires SingleLine(line)
    ensures act.Suppressed? <==> silenced
    ensures !silenced && StartsWith(line, '\\') ==> act == PublishCommand(line)
    ensures !silenced && StartsWith(line, '!') ==>
      && (act.PublishDirective? <==> DirectiveRegexMatches(line))
      && (act.Reject? <==> !DirectiveRegexMatches(line))
    ensures act.PublishDirective? ==> exists a, b, c ::
      && ShapeAt(line, a, b, c)
      && act.directive == line[1..a] && act.target == line[b..c]
      && (c == |line| || !IsWordChar(line[c]))
    ensures act.Reject? ==> act.line == line
    ensures !silenced && !StartsWith(line, '\\') && !StartsWith(line, '!') ==> act == PublishMessage(line)
  {
    MatchDirectiveCorrect(line);
    if silenced then Suppressed
    else if StartsWith(line, '\\') then PublishCommand(line)
    else if StartsWith(line, '!') then
      match MatchDirective(line)
      case Some((d, t)) => PublishDirective(d, t)
      case None => Reject(line)
    else PublishMessage(line)
  }
}
