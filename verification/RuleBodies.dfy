// Rule bodies in the scanner of the PetaBricks language: nested braces, comments, strings and the stack of conditions.

module RuleText {
  import Macros

  datatype Option<T> = None | Some(value: T)

  /** The start conditions that matter inside a transform. */
  datatype Mode = Transform | Rule | Comment | LineComment | Quoted

  /** One match: the number of the rule and the length of the text. */
  datatype Match = Match(rule: int, length: nat)

  predicate IsSpecial(c: char) { c == '*' || c == '/' || c == '{' || c == '}' || c == '"' }

  /** The longest prefix without special characters. */
  function CodeRun(s: string): (n: nat)
    ensures n <= |s| && (forall i :: 0 <= i < n ==> !IsSpecial(s[i])) && (n < |s| ==> IsSpecial(s[n]))
  {
    if s == "" || IsSpecial(s[0]) then 0 else 1 + CodeRun(s[1..])
  }

  /** The longest prefix without `c`. */
  function RunWithout(s: string, c: char): (n: nat)
    ensures n <= |s| && (forall i :: 0 <= i < n ==> s[i] != c) && (n < |s| ==> s[n] == c)
  {
    if s == "" || s[0] == c then 0 else 1 + RunWithout(s[1..], c)
  }

  /** The longest prefix of digits. */
  function Digits(s: string): (n: nat)
    ensures n <= |s| && (forall i :: 0 <= i < n ==> '0' <= s[i] <= '9') && (n < |s| ==> !('0' <= s[n] <= '9'))
  {
    if s == "" || !('0' <= s[0] <= '9') then 0 else 1 + Digits(s[1..])
  }

  /** The length of `# number text` up to the end of the line; 0 if there is none. */
  function LineMark(s: string): (n: nat)
    ensures n <= |s|
  {
    if |s| < 2 || s[0] != '#' || s[1] != ' ' then 0
    else
      var d := Digits(s[2..]);
      if d == 0 || 2 + d == |s| || s[2 + d] != ' ' then 0 else 3 + d + RunWithout(s[3 + d..], '\n')
  }

  /** The position that the text of a rule body starts with: line number and file of its opening brace. */
  function Header(line: nat, file: string): string { "# " + Macros.Decimal(line) + " " + file + "\n" }

  lemma DigitsOfNumber(n: nat, rest: string)
    requires rest != "" && !('0' <= rest[0] <= '9')
    ensures Digits(Macros.Decimal(n) + rest) == |Macros.Decimal(n)|
  {
    Macros.DecimalReads(n);
    DigitsInFront(Macros.Decimal(n), rest);
  }

  lemma {:induction false} DigitsInFront(s: string, rest: string)
    requires Macros.OnlyDigits(s) && rest != "" && !('0' <= rest[0] <= '9')
    ensures Digits(s + rest) == |s|
  {
    if s == "" {
      assert s + rest == rest;
    } else {
      assert (s + rest)[1..] == s[1..] + rest;
      DigitsInFront(s[1..], rest);
    }
  }

  /** The text names its position: the number of the line and the file, then a line break and the body. */
  ghost predicate Located(text: string, line: nat, file: string, body: string) {
    exists number :: Macros.Numeral(number, line) && text == "# " + number + " " + file + "\n" + body
  }

  lemma HeaderLocates(line: nat, file: string, body: string)
    ensures Located(Header(line, file) + body, line, file, body)
  {
    Macros.DecimalReads(line);
  }

  /** The header is a line mark again, for whoever scans the text of the rule body. */
  lemma HeaderIsMark(line: nat, file: string, body: string)
    requires '\n' !in file
    ensures LineMark(Header(line, file) + body) == |Header(line, file)| - 1
  {
    hide Digits, RunWithout, Macros.Decimal;
    var s, number := Header(line, file) + body, Macros.Decimal(line);
    assert s[2..] == number + (" " + file + "\n" + body);
    DigitsOfNumber(line, " " + file + "\n" + body);
    assert s[3 + |number|..] == file + ("\n" + body);
    RunToEnd(file, "\n" + body);
  }

  lemma {:induction false} RunToEnd(s: string, rest: string)
    requires '\n' !in s && rest != "" && rest[0] == '\n'
    ensures RunWithout(s + rest, '\n') == |s|
  {
    if s == "" {
      assert s + rest == rest;
    } else {
      assert (s + rest)[1..] == s[1..] + rest;
      RunToEnd(s[1..], rest);
    }
  }

  /** What the scanner matches inside a rule body. `bol`: at the start of a line. */
  function Munch(mode: Mode, bol: bool, s: string): (m: Match)
    requires s != "" && mode != Transform
    ensures 0 < m.length <= |s|
    ensures if mode == Rule then m.rule !in {57, 60, 62} else m.rule !in {49, 50, 51, 52, 53, 54}
  {
    var mark := if bol then LineMark(s) else 0;
    match mode
    case Rule =>
      if s[0] == '/' then
        (if |s| > 1 && s[1] == '*' then Match(49, 2) else if |s| > 1 && s[1] == '/' then Match(50, 2) else Match(56, 1))
      else if s[0] == '{' then Match(52, 1)
      else if s[0] == '"' then Match(53, 1)
      else if s[0] == '}' then Match(54, 1)
      else if s[0] == '*' then Match(56, 1)
      else if mark > CodeRun(s) then Match(65, mark)
      else if bol && s[0] == '#' && CodeRun(s) == 1 then Match(51, 1)
      else Match(55, CodeRun(s))
    case Comment =>
      if s[0] == '*' then (if |s| > 1 && s[1] == '/' then Match(57, 2) else Match(59, 1))
      else if mark > RunWithout(s, '*') then Match(65, mark)
      else Match(58, RunWithout(s, '*'))
    case LineComment =>
      if s[0] == '\n' then Match(60, 1)
      else if mark > RunWithout(s, '\n') then Match(65, mark)
      else Match(61, RunWithout(s, '\n'))
    case Quoted =>
      if s[0] == '"' then Match(62, 1)
      else if |s| > 1 && s[0] == '\\' && s[1] == '"' then Match(64, 2)
      else if mark > 1 then Match(65, mark)
      else Match(63, 1)
  }

  // ----- that is the longest match by the lexical rules -----

  /** The conditions in which the rules apply; rules from 65 on apply in all. */
  predicate Applies(mode: Mode, rule: int) {
    65 <= rule <= 67 ||
    match mode
    case Transform => false
    case Rule => 49 <= rule <= 56
    case Comment => 57 <= rule <= 59
    case LineComment => 60 <= rule <= 61
    case Quoted => 62 <= rule <= 64
  }

  predicate IsLineMark(t: string) {
    |t| > 1 && t[0] == '#' && t[1] == ' ' &&
    var d := Digits(t[2..]);
    0 < d && 2 + d < |t| && t[2 + d] == ' ' && forall i :: 3 + d <= i < |t| ==> t[i] != '\n'
  }

  /** The text is one that the regular expression of the rule stands for. */
  predicate Fits(rule: int, bol: bool, t: string) {
    match rule
    case 49 => t == "/*"
    case 50 => t == "//"
    case 51 => bol && t == "#"
    case 52 => t == "{"
    case 53 => t == "\""
    case 54 => t == "}"
    case 55 => t != "" && forall i :: 0 <= i < |t| ==> t[i] !in "*/{}\""
    case 56 => |t| == 1 && t[0] != '\n'
    case 57 => t == "*/"
    case 58 => t != "" && forall i :: 0 <= i < |t| ==> t[i] != '*'
    case 59 => |t| == 1 && t[0] != '\n'
    case 60 => t == "\n"
    case 61 => t != "" && forall i :: 0 <= i < |t| ==> t[i] != '\n'
    case 62 => t == "\""
    case 63 => |t| == 1 && t[0] != '"'
    case 64 => t == "\\\""
    case 65 => bol && IsLineMark(t)
    case 66 => |t| == 1 && (t[0] == ' ' || t[0] == '\t' || t[0] == '\r' || t[0] == '\n')
    case 67 => |t| == 1 && t[0] != '\n'
    case _ => false
  }

  /** No other match is longer, and none of the same length has an earlier rule. */
  ghost predicate Best(mode: Mode, bol: bool, s: string, m: Match) {
    0 < m.length <= |s| && Applies(mode, m.rule) && Fits(m.rule, bol, s[..m.length]) &&
    forall rule: int, n: nat :: n <= |s| && Applies(mode, rule) && Fits(rule, bol, s[..n]) ==>
      n < m.length || (n == m.length && m.rule <= rule)
  }

  lemma {:induction false} DigitsOfPrefix(s: string, n: nat)
    requires n <= |s|
    ensures Digits(s[..n]) == if Digits(s) < n then Digits(s) else n
  {
    if n > 0 && '0' <= s[0] <= '9' {
      assert s[..n][1..] == s[1..][..n - 1];
      DigitsOfPrefix(s[1..], n - 1);
    }
  }

  /** The line marks at the start of a text are its prefixes, from the space behind the number to the end of the line. */
  lemma MarkIsLongest(s: string, n: nat)
    requires n <= |s| && IsLineMark(s[..n])
    ensures 0 < n <= LineMark(s)
  {
    var t := s[..n];
    assert t[2..] == s[2..][..n - 2];
    DigitsOfPrefix(s[2..], n - 2);
    var d := Digits(t[2..]);
    assert t[2 + d] == s[2 + d] == s[2..][d];
    var r := RunWithout(s[3 + d..], '\n');
    assert 3 + d + r < |s| ==> s[3 + d + r] == s[3 + d..][r] == '\n';
    assert forall i :: 3 + d <= i < n ==> t[i] == s[i];
  }

  lemma MarkFits(s: string)
    requires LineMark(s) > 0
    ensures IsLineMark(s[..LineMark(s)])
  {
    var n := LineMark(s);
    var t := s[..n];
    assert t[2..] == s[2..][..n - 2];
    DigitsOfPrefix(s[2..], n - 2);
    var d := Digits(s[2..]);
    forall i | 3 + d <= i < n
      ensures t[i] != '\n'
    {
      assert t[i] == s[3 + d..][i - 3 - d];
    }
  }

  lemma MunchIsBest(mode: Mode, bol: bool, s: string)
    requires s != "" && mode != Transform
    ensures Best(mode, bol, s, Munch(mode, bol, s))
  {
    hide Fits, Munch;
    var m := Munch(mode, bol, s);
    MunchFits(mode, bol, s);
    forall rule: int, n: nat | n <= |s| && Applies(mode, rule) && Fits(rule, bol, s[..n])
      ensures n < m.length || (n == m.length && m.rule <= rule)
    {
      NoBetter(mode, bol, s, rule, n);
    }
  }

  lemma MunchFits(mode: Mode, bol: bool, s: string)
    requires s != "" && mode != Transform
    ensures var m := Munch(mode, bol, s); Applies(mode, m.rule) && Fits(m.rule, bol, s[..m.length])
  {
    hide LineMark, IsLineMark;
    if bol && LineMark(s) > 0 { MarkFits(s); }
  }

  lemma NoBetter(mode: Mode, bol: bool, s: string, rule: int, n: nat)
    requires s != "" && mode != Transform && n <= |s| && Applies(mode, rule) && Fits(rule, bol, s[..n])
    ensures var m := Munch(mode, bol, s); n < m.length || (n == m.length && m.rule <= rule)
  {
    hide LineMark, IsLineMark;
    var t := s[..n];
    assert forall i :: 0 <= i < n ==> t[i] == s[i];
    assert 0 < n by { if rule == 65 { MarkIsLongest(s, n); } }
    if rule == 65 {
      MarkIsLongest(s, n);
      MarkEnds(s);
    } else if rule == 55 {
      assert n <= CodeRun(s);
    } else if rule == 58 {
      assert n <= RunWithout(s, '*');
    } else if rule == 61 {
      assert n <= RunWithout(s, '\n');
    }
  }

  // ----- what a rule body is, one character after the other -----

  function Plus(n: nat, o: Option<nat>): Option<nat> { if o.Some? then Some(n + o.value) else None }

  /**
   * The length of what is left of a rule body, up to the brace that closes it: braces count outside of comments and
   * strings only. None if the text ends first. `atLine` tells that a line begins here that a line mark or a `#` may open;
   * within code this is only so right behind a line comment.
   */
  function Body(s: string, mode: Mode, depth: nat, atLine: bool): (n: Option<nat>)
    ensures n.Some? ==> 0 < n.value <= |s|
    decreases |s|
  {
    if s == "" || mode == Transform then None
    else
      var two := if |s| > 1 then s[..2] else "";
      match mode
      case Rule =>
        if s[0] == '}' then (if depth <= 1 then Some(1) else Plus(1, Body(s[1..], Rule, depth - 1, false)))
        else if s[0] == '{' then Plus(1, Body(s[1..], Rule, depth + 1, false))
        else if s[0] == '"' then Plus(1, Body(s[1..], Quoted, depth, false))
        else if two == "/*" then Plus(2, Body(s[2..], Comment, depth, false))
        else if two == "//" then Plus(2, Body(s[2..], LineComment, depth, false))
        else if atLine && LineMark(s) > CodeRun(s) > 0 then Plus(LineMark(s), Body(s[LineMark(s)..], Rule, depth, false))
        else if atLine && s[0] == '#' && CodeRun(s) == 1 then Plus(1, Body(s[1..], LineComment, depth, false))
        else Plus(1, Body(s[1..], Rule, depth, false))
      case Comment =>
        if two == "*/" then Plus(2, Body(s[2..], Rule, depth, false)) else Plus(1, Body(s[1..], Comment, depth, false))
      case LineComment =>
        if s[0] == '\n' then Plus(1, Body(s[1..], Rule, depth, true)) else Plus(1, Body(s[1..], LineComment, depth, false))
      case Quoted =>
        if s[0] == '"' then Plus(1, Body(s[1..], Rule, depth, false))
        else if two == "\\\"" then Plus(2, Body(s[2..], Quoted, depth, false))
        else if atLine && LineMark(s) > 1 then Plus(LineMark(s), Body(s[LineMark(s)..], Quoted, depth, false))
        else Plus(1, Body(s[1..], Quoted, depth, s[0] == '\n'))
  }

  // ----- matches follow the characters -----

  /** Where a match can start at the beginning of a line. */
  predicate Consistent(mode: Mode, bol: bool, s: string) {
    (mode == Comment ==> !bol || s == "" || s[0] == '*') && (mode == LineComment ==> !bol || s == "")
  }

  /** The condition after the action of a rule. */
  function ModeAfter(mode: Mode, rule: int): Mode {
    if rule == 49 then Comment
    else if rule == 50 || rule == 51 then LineComment
    else if rule == 53 then Quoted
    else if rule == 57 || rule == 60 || rule == 62 then Rule
    else mode
  }

  function DepthAfter(depth: nat, rule: int): nat {
    if rule == 52 then depth + 1 else if rule == 54 && depth > 0 then depth - 1 else depth
  }

  lemma {:induction false} CodeSteps(s: string, r: nat, depth: nat)
    requires r <= CodeRun(s)
    ensures Body(s, Rule, depth, false) == if r == 0 then Body(s, Rule, depth, false) else Plus(r, Body(s[r..], Rule, depth, false))
    decreases r
  {
    if r > 1 {
      CodeSteps(s[1..], r - 1, depth);
      assert s[1..][r - 1..] == s[r..];
    }
  }

  lemma {:induction false} CommentSteps(s: string, r: nat, depth: nat)
    requires 0 < r <= RunWithout(s, '*')
    ensures Body(s, Comment, depth, false) == Plus(r, Body(s[r..], Comment, depth, false))
    decreases r
  {
    if r > 1 {
      CommentSteps(s[1..], r - 1, depth);
      assert s[1..][r - 1..] == s[r..];
    }
  }

  lemma {:induction false} LineSteps(s: string, r: nat, depth: nat)
    requires 0 < r <= RunWithout(s, '\n')
    ensures Body(s, LineComment, depth, false) == Plus(r, Body(s[r..], LineComment, depth, false))
    decreases r
  {
    if r > 1 {
      LineSteps(s[1..], r - 1, depth);
      assert s[1..][r - 1..] == s[r..];
    }
  }

  lemma NotFresh(s: string, mode: Mode, depth: nat)
    requires mode == Comment || mode == LineComment || s == "" || (mode == Rule && IsSpecial(s[0]))
    ensures Body(s, mode, depth, true) == Body(s, mode, depth, false)
  {
  }

  lemma MarkEnds(s: string)
    requires LineMark(s) > 0
    ensures s[LineMark(s) - 1] != '\n' && s[0] == '#'
  {
    var d := Digits(s[2..]);
    var r := RunWithout(s[3 + d..], '\n');
    if r > 0 { assert s[LineMark(s) - 1] == s[3 + d..][r - 1]; }
  }

  /** One match of the scanner advances a rule body the way its characters do. */
  predicate Advances(mode: Mode, depth: nat, bol: bool, s: string)
    requires s != "" && mode != Transform && depth > 0
  {
    var m := Munch(mode, bol, s);
    var later := s[m.length..];
    if m.rule == 54 && depth == 1 then mode == Rule && Body(s, mode, depth, bol) == Some(m.length)
    else
      var mode1, depth1, bol1 := ModeAfter(mode, m.rule), DepthAfter(depth, m.rule), s[m.length - 1] == '\n';
      mode1 != Transform && depth1 > 0 && Consistent(mode1, bol1, later) &&
      Body(s, mode, depth, bol) == Plus(m.length, Body(later, mode1, depth1, bol1))
  }

  lemma CodeMatch(depth: nat, bol: bool, s: string)
    requires s != "" && depth > 0
    ensures Advances(Rule, depth, bol, s)
  {
    hide Advances, LineMark;
    if IsSpecial(s[0]) {
      SpecialMatch(depth, bol, s);
    } else if bol && (LineMark(s) > CodeRun(s) || (s[0] == '#' && CodeRun(s) == 1)) {
      HashMatch(depth, s);
    } else {
      RunMatch(depth, bol, s);
    }
  }

  lemma SpecialMatch(depth: nat, bol: bool, s: string)
    requires s != "" && depth > 0 && IsSpecial(s[0])
    ensures Advances(Rule, depth, bol, s)
  {
    hide LineMark, RunWithout;
  }

  lemma HashMatch(depth: nat, s: string)
    requires s != "" && depth > 0 && !IsSpecial(s[0])
    requires LineMark(s) > CodeRun(s) || (s[0] == '#' && CodeRun(s) == 1)
    ensures Advances(Rule, depth, true, s)
  {
    hide LineMark, RunWithout, Body, CodeRun, Munch, Advances;
    if LineMark(s) > CodeRun(s) { MarkMatch(depth, s); } else { HashCommentMatch(depth, s); }
  }

  lemma MarkMatch(depth: nat, s: string)
    requires s != "" && depth > 0 && !IsSpecial(s[0]) && LineMark(s) > CodeRun(s)
    ensures Advances(Rule, depth, true, s)
  {
    hide LineMark, RunWithout, Body, CodeRun, Munch;
    MarkEnds(s);
    HashBody(s, depth);
    HashMunched(s);
  }

  lemma HashCommentMatch(depth: nat, s: string)
    requires s != "" && depth > 0 && LineMark(s) <= CodeRun(s) == 1 && s[0] == '#'
    ensures Advances(Rule, depth, true, s)
  {
    hide LineMark, RunWithout, Body, CodeRun, Munch;
    HashBody(s, depth);
    HashMunched(s);
  }

  lemma HashMunched(s: string)
    requires s != "" && !IsSpecial(s[0])
    requires LineMark(s) > CodeRun(s) || (s[0] == '#' && CodeRun(s) == 1)
    ensures Munch(Rule, true, s) == if LineMark(s) > CodeRun(s) then Match(65, LineMark(s)) else Match(51, 1)
  {
    hide LineMark, RunWithout;
  }

  lemma HashBody(s: string, depth: nat)
    requires s != "" && !IsSpecial(s[0])
    requires LineMark(s) > CodeRun(s) || (s[0] == '#' && CodeRun(s) == 1)
    ensures Body(s, Rule, depth, true) ==
      if LineMark(s) > CodeRun(s) then Plus(LineMark(s), Body(s[LineMark(s)..], Rule, depth, false))
      else Plus(1, Body(s[1..], LineComment, depth, false))
  {
    hide LineMark, RunWithout;
  }

  lemma RunMatch(depth: nat, bol: bool, s: string)
    requires s != "" && depth > 0 && !IsSpecial(s[0])
    requires bol ==> LineMark(s) <= CodeRun(s) && !(s[0] == '#' && CodeRun(s) == 1)
    ensures Advances(Rule, depth, bol, s)
  {
    hide LineMark, RunWithout, Body, CodeRun, Munch;
    RunMunched(bol, s);
    RunBody(s, depth, bol);
  }

  lemma RunMunched(bol: bool, s: string)
    requires s != "" && !IsSpecial(s[0])
    requires bol ==> LineMark(s) <= CodeRun(s) && !(s[0] == '#' && CodeRun(s) == 1)
    ensures Munch(Rule, bol, s) == Match(55, CodeRun(s))
  {
    hide LineMark, RunWithout;
  }

  lemma RunBody(s: string, depth: nat, bol: bool)
    requires s != "" && !IsSpecial(s[0])
    requires bol ==> LineMark(s) <= CodeRun(s) && !(s[0] == '#' && CodeRun(s) == 1)
    ensures forall b :: Body(s, Rule, depth, bol) == Plus(CodeRun(s), Body(s[CodeRun(s)..], Rule, depth, b))
  {
    hide LineMark, RunWithout, Body, CodeRun, Plus;
    RunSteps(s, depth, bol);
    NotFresh(s[CodeRun(s)..], Rule, depth);
  }

  lemma RunSteps(s: string, depth: nat, bol: bool)
    requires s != "" && !IsSpecial(s[0])
    requires bol ==> LineMark(s) <= CodeRun(s) && !(s[0] == '#' && CodeRun(s) == 1)
    ensures Body(s, Rule, depth, bol) == Plus(CodeRun(s), Body(s[CodeRun(s)..], Rule, depth, false))
  {
    hide LineMark, RunWithout, Body, CodeRun;
    var r := CodeRun(s);
    ShorterRun(s);
    OneCodeStep(s, depth, bol);
    CodeSteps(s[1..], r - 1, depth);
    assert s[1..][r - 1..] == s[r..];
  }

  lemma ShorterRun(s: string)
    requires s != "" && !IsSpecial(s[0])
    ensures CodeRun(s[1..]) == CodeRun(s) - 1
  {
  }

  lemma OneCodeStep(s: string, depth: nat, bol: bool)
    requires s != "" && !IsSpecial(s[0])
    requires bol ==> LineMark(s) <= CodeRun(s) && !(s[0] == '#' && CodeRun(s) == 1)
    ensures Body(s, Rule, depth, bol) == Plus(1, Body(s[1..], Rule, depth, false))
  {
    hide LineMark, RunWithout;
  }

  lemma CommentMatch(depth: nat, bol: bool, s: string)
    requires s != "" && depth > 0 && Consistent(Comment, bol, s)
    ensures Advances(Comment, depth, bol, s)
  {
    NotFresh(s, Comment, depth);
    var m := Munch(Comment, bol, s);
    if m.rule == 58 {
      CommentSteps(s, m.length, depth);
      NotFresh(s[m.length..], Comment, depth);
    }
  }

  lemma LineMatch(depth: nat, bol: bool, s: string)
    requires s != "" && depth > 0 && Consistent(LineComment, bol, s)
    ensures Advances(LineComment, depth, bol, s)
  {
    var m := Munch(LineComment, bol, s);
    if m.rule == 61 { LineSteps(s, m.length, depth); }
  }

  lemma QuotedMatch(depth: nat, bol: bool, s: string)
    requires s != "" && depth > 0
    ensures Advances(Quoted, depth, bol, s)
  {
    if LineMark(s) > 0 { MarkEnds(s); }
    hide LineMark, RunWithout, CodeRun, Digits;
  }

  lemma MatchAdvances(mode: Mode, depth: nat, bol: bool, s: string)
    requires s != "" && mode != Transform && Consistent(mode, bol, s) && depth > 0
    ensures Advances(mode, depth, bol, s)
  {
    match mode
    case Rule => CodeMatch(depth, bol, s);
    case Comment => CommentMatch(depth, bol, s);
    case LineComment => LineMatch(depth, bol, s);
    case Quoted => QuotedMatch(depth, bol, s);
  }
}

module RuleBodies {
  import opened RuleText

  const YY_START_STACK_INCR := 25

  datatype Token = RuleBody(text: string) | EndOfFile

  class PbLexer {
    const input: string
    var pos: nat
    var mode: Mode          // YY_START
    var stack: array<Mode>  // yy_start_stack; its length is yy_start_stack_depth
    var ptr: nat            // yy_start_stack_ptr
    var nest: int           // theNestCount
    var log: string         // theParseLog

    ghost predicate Valid()
      reads this
    {
      pos <= |input| && ptr <= stack.Length
    }

    ghost function Conditions(): seq<Mode>
      requires Valid()
      reads this, stack
    {
      stack[..ptr]
    }

    constructor (input: string)
      ensures Valid() && Conditions() == [] && mode == Transform && pos == 0 && this.input == input && fresh(stack)
    {
      this.input := input;
      pos, mode, ptr, nest, log := 0, Transform, 0, 0, "";
      stack := new Mode[0];
    }

    /** The stack of start conditions grows by a fixed number of entries when it is full. */
    method PushState(newMode: Mode)
      requires Valid()
      modifies this`mode, this`stack, this`ptr, stack
      ensures Valid() && mode == newMode && Conditions() == old(Conditions() + [mode])
      ensures stack == old(stack) || fresh(stack)
    {
      if ptr >= stack.Length {
        var larger := new Mode[stack.Length + YY_START_STACK_INCR](_ => Transform);
        forall i | 0 <= i < stack.Length { larger[i] := stack[i]; }
        assert larger[..ptr] == stack[..ptr];
        stack := larger;
      }
      stack[ptr] := mode;
      ptr := ptr + 1;
      mode := newMode;
    }

    /** False where the program ends with an underflow of the stack. */
    method PopState() returns (ok: bool)
      requires Valid()
      modifies this`mode, this`ptr
      ensures Valid() && ok == (old(ptr) > 0)
      ensures if ok then old(Conditions()) == Conditions() + [mode] else mode == old(mode) && ptr == old(ptr)
    {
      ok := ptr > 0;
      if ok {
        ptr := ptr - 1;
        mode := stack[ptr];
      }
    }

    /** The brace that opens a rule body: the log then starts with its position. */
    method OpenRule(line: nat, file: string)
      requires Valid()
      modifies this, stack
      ensures Valid() && mode == Rule && nest == 1 && log == Header(line, file) && pos == old(pos)
      ensures Conditions() == old(Conditions() + [mode]) && (stack == old(stack) || fresh(stack))
      ensures Located(log, line, file, "")
    {
      PushState(Rule);
      nest := 1;
      log := Header(line, file);
      HeaderLocates(line, file, "");
      assert log + "" == log;
    }

    predicate AtLineStart()
      requires pos <= |input|
      reads this
    {
      pos > 0 && input[pos - 1] == '\n'
    }

    /** Inside a rule body entered with `below` on the stack. */
    ghost predicate InBody(below: seq<Mode>)
      reads this, stack
    {
      Valid() && nest > 0 && mode != Transform && Conditions() == (if mode == Rule then below else below + [Rule])
    }

    /** Acts on one match of rule `r`. */
    method Act(r: int, ghost below: seq<Mode>) returns (done: bool, ok: bool)
      requires InBody(below) && below != [] && below[|below| - 1] == Transform
      requires r in {49, 50, 51, 52, 53, 54} ==> mode == Rule
      requires r in {57, 60, 62} ==> mode != Rule
      modifies this`mode, this`stack, this`ptr, this`nest, this`log, stack
      ensures ok && (stack == old(stack) || fresh(stack)) && done == (r == 54 && old(nest) == 1)
      ensures if done then Valid() && mode == Transform && Conditions() == below[..|below| - 1] && log == old(log)
        else InBody(below) && mode == ModeAfter(old(mode), r) && nest == DepthAfter(old(nest), r) && log == old(log)
    {
      done, ok := false, true;
      if r == 49 {
        PushState(Comment);
      } else if r == 50 || r == 51 {
        PushState(LineComment);
      } else if r == 52 {
        nest := nest + 1;
      } else if r == 53 {
        PushState(Quoted);
      } else if r == 54 {
        nest := nest - 1;
        if nest == 0 {
          ok := PopState();
          done := true;
        }
      } else if r == 57 || r == 60 || r == 62 {
        ok := PopState();
      }
    }

    /** What is left of the rule body. */
    ghost function Left(): Option<nat>
      requires pos <= |input| && nest >= 0
      reads this
    {
      Body(input[pos..], mode, nest, AtLineStart())
    }

    /** One match of the scanner inside a rule body. */
    method Step(ghost below: seq<Mode>) returns (done: bool)
      requires InBody(below) && below != [] && below[|below| - 1] == Transform && pos < |input|
      requires Consistent(mode, AtLineStart(), input[pos..])
      modifies this, stack
      ensures pos <= |input| && old(pos) < pos && log == old(log) + input[old(pos)..pos]
      ensures stack == old(stack) || fresh(stack)
      ensures if done then
          Valid() && mode == Transform && Conditions() == below[..|below| - 1] && old(Left()) == Some(pos - old(pos))
        else
          InBody(below) && Consistent(mode, AtLineStart(), input[pos..]) && old(Left()) == Plus(pos - old(pos), Left())
    {
      hide Body, Munch, Consistent, ModeAfter, DepthAfter;
      ghost var s := input[pos..];
      var m := Munch(mode, AtLineStart(), input[pos..]);
      MatchAdvances(mode, nest, AtLineStart(), s);
      assert s[m.length..] == input[pos + m.length..] && s[m.length - 1] == input[pos + m.length - 1];
      log := log + input[pos..pos + m.length];
      pos := pos + m.length;
      var ok;
      done, ok := Act(m.rule, below);
    }

    /**
     * Scans a rule body up to its closing brace. Its text is the header of the log and exactly the characters of the
     * body, and the stack is back where it was before the opening brace.
     */
    method ScanRuleBody() returns (token: Token)
      requires Valid() && mode == Rule && nest == 1 && pos > 0 && input[pos - 1] == '{'
      requires ptr > 0 && Conditions()[ptr - 1] == Transform
      modifies this, stack
      ensures Valid() && (stack == old(stack) || fresh(stack))
      ensures match Body(old(input[pos..]), Rule, 1, false)
        case None => token == EndOfFile
        case Some(n) =>
          pos == old(pos) + n && token == RuleBody(old(log) + input[old(pos)..pos]) &&
          mode == Transform && Conditions() == old(Conditions()[..ptr - 1])
    {
      hide Body;
      ghost var below := Conditions();
      ghost var whole := Left();
      while pos < |input|
        invariant old(pos) <= pos <= |input| && InBody(below) && (stack == old(stack) || fresh(stack))
        invariant Consistent(mode, AtLineStart(), input[pos..])
        invariant log == old(log) + input[old(pos)..pos]
        invariant whole == Plus(pos - old(pos), Left())
        decreases |input| - pos
      {
        ghost var here := pos;
        var done := Step(below);
        assert input[old(pos)..here] + input[here..pos] == input[old(pos)..pos];
        if done { return RuleBody(log); }
      }
      assert input[pos..] == "";
      NothingLeft(mode, nest, AtLineStart());
      return EndOfFile;
    }

    /** From the opening brace of a rule body to its closing one. */
    method ReadRuleBody(line: nat, file: string) returns (token: Token)
      requires Valid() && mode == Transform && pos > 0 && input[pos - 1] == '{'
      modifies this, stack
      ensures Valid() && (stack == old(stack) || fresh(stack))
      ensures match Body(old(input[pos..]), Rule, 1, false)
        case None => token == EndOfFile
        case Some(n) =>
          pos == old(pos) + n && token == RuleBody(Header(line, file) + input[old(pos)..pos]) &&
          Located(token.text, line, file, input[old(pos)..pos]) && mode == Transform && Conditions() == old(Conditions())
    {
      hide Body, Header, Located;
      OpenRule(line, file);
      token := ScanRuleBody();
      if token.RuleBody? { HeaderLocates(line, file, input[old(pos)..pos]); }
    }
  }

  lemma NothingLeft(mode: Mode, depth: nat, bol: bool)
    ensures Body("", mode, depth, bol) == None
  {
  }
}
