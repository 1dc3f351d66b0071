// Calls of macros: how the actuals are split out of the text, and what a call expands to.

module MacroCalls {
  import opened Macros
  import opened MacroExpansion

  datatype Result =
    | Done(text: string, next: nat, replaced: bool)
    | TooFewArguments
    | TooManyArguments

  datatype Split = Split(actuals: seq<string>, end: nat) | Unfinished

  /** Where the actual that goes on at `index` ends: a comma or a closing parenthesis at depth 0, or the end of the text. */
  function ActualEnd(s: string, index: nat, depth: int): (e: nat)
    requires index <= |s|
    ensures index <= e <= |s|
    decreases |s| - index
  {
    if index == |s| || (depth == 0 && (s[index] == ',' || s[index] == ')')) then index
    else ActualEnd(s, index + 1, DepthAfter(depth, s[index]))
  }

  function DepthAfter(depth: int, c: char): int {
    if c == '(' then depth + 1 else if c == ')' then depth - 1 else depth
  }

  /** The next `count` actuals, and the index behind the character that ends the last of them. */
  function SplitActuals(s: string, index: nat, count: nat): (split: Split)
    requires index <= |s|
    ensures split.Split? ==> |split.actuals| == count && index + count <= split.end <= |s|
    decreases count
  {
    if count == 0 then Split([], index)
    else
      var e := ActualEnd(s, index, 0);
      if e == |s| then Unfinished
      else
        match SplitActuals(s, e + 1, count - 1)
        case Unfinished => Unfinished
        case Split(more, end) => Split([s[index..e]] + more, end)
  }

  function StripLeft(s: string): string {
    if s != "" && (s[0] == ' ' || s[0] == ';') then StripLeft(s[1..]) else s
  }

  function StripRight(s: string): string {
    if s != "" && (s[|s| - 1] == ' ' || s[|s| - 1] == ';') then StripRight(s[..|s| - 1]) else s
  }

  /** `str.strip(' ;')` for block macros. */
  function Tidy(s: string, block: bool): string { if block then StripRight(StripLeft(s)) else s }

  predicate IsLoose(c: char) { c == ' ' || c == ';' }

  /** The slice of `s` from `i` to `j` is all but the blanks and semicolons at both ends. */
  ghost predicate CutAt(s: string, i: int, j: int) {
    0 <= i <= j <= |s| && (forall k :: 0 <= k < i || j <= k < |s| ==> IsLoose(s[k])) &&
    (i < j ==> !IsLoose(s[i]) && !IsLoose(s[j - 1]))
  }

  ghost predicate Stripped(s: string, mid: string) { exists i, j :: CutAt(s, i, j) && mid == s[i..j] }

  /** The expansion that a text comes to: only a block loses what is loose at its ends. */
  ghost predicate ExpandsTo(s: string, block: bool, expansion: string) {
    if block then Stripped(s, expansion) else expansion == s
  }

  lemma {:induction false} StripLeftCuts(s: string) returns (i: nat)
    ensures i <= |s| && StripLeft(s) == s[i..] && (forall k :: 0 <= k < i ==> IsLoose(s[k])) && (i < |s| ==> !IsLoose(s[i]))
  {
    i := 0;
    if s != "" && IsLoose(s[0]) {
      i := StripLeftCuts(s[1..]);
      assert s[1..][i..] == s[i + 1..] && forall k :: 1 <= k <= i ==> s[k] == s[1..][k - 1];
      i := i + 1;
    }
  }

  lemma {:induction false} StripRightCuts(s: string) returns (j: nat)
    ensures j <= |s| && StripRight(s) == s[..j] && (forall k :: j <= k < |s| ==> IsLoose(s[k])) && (j > 0 ==> !IsLoose(s[j - 1]))
    decreases |s|
  {
    j := |s|;
    if s != "" && IsLoose(s[|s| - 1]) {
      j := StripRightCuts(s[..|s| - 1]);
      assert s[..|s| - 1][..j] == s[..j];
    }
  }

  lemma TidyExpands(s: string, block: bool)
    ensures ExpandsTo(s, block, Tidy(s, block))
  {
    hide StripLeft, StripRight;
    if block {
      var i := StripLeftCuts(s);
      var left := s[i..];
      var j := StripRightCuts(left);
      assert left[..j] == s[i..i + j];
      assert forall k :: i + j <= k < |s| ==> s[k] == left[k - i];
      assert j > 0 ==> left[0] == s[i] && left[j - 1] == s[i + j - 1];
      assert CutAt(s, i, i + j);
    }
  }

  /** What is left of a text at its loose ends is one text only. */
  lemma StrippedOnce(s: string, a: string, b: string)
    requires Stripped(s, a) && Stripped(s, b)
    ensures a == b
  {
    var i, j :| CutAt(s, i, j) && a == s[i..j];
    var l, m :| CutAt(s, l, m) && b == s[l..m];
    if i < j { CutInside(s, i, j, l, m); }
    if l < m { CutInside(s, l, m, i, j); }
  }

  lemma CutInside(s: string, i: int, j: int, l: int, m: int)
    requires CutAt(s, i, j) && CutAt(s, l, m) && i < j
    ensures l <= i && j <= m
  {
  }

  /** What the call of a macro at `head` comes to. */
  function CallResult(name: string, count: nat, template: string, block: bool, s: string, head: nat): Result
    requires head + |name| <= |s|
  {
    var next := SkipIsolatedWord(s, head, name);
    if next == -1 then Done(s, head + |name|, false)
    else if next >= |s| || s[next] != '(' then Done(s, next, false)
    else
      match SplitActuals(s, next + 1, count)
      case Unfinished => TooFewArguments
      case Split(actuals, end) =>
        if s[end - 1] != ')' then TooManyArguments
        else Done(s[..head] + Tidy(Fill(template, actuals, count), block) + s[end..], end, true)
  }

  function Prefixed(before: seq<string>, split: Split): Split {
    match split
    case Unfinished => Unfinished
    case Split(more, end) => Split(before + more, end)
  }

  lemma {:induction false} FillMore(template: string, actuals: seq<string>, actual: string, n: nat)
    requires n <= |actuals|
    ensures Fill(template, actuals + [actual], n) == Fill(template, actuals, n)
  {
    if n > 0 { FillMore(template, actuals, actual, n - 1); }
  }

  /** The scan for the end of one actual. */
  method FindActualEnd(s: string, start: nat) returns (index: nat)
    requires start <= |s|
    ensures index == ActualEnd(s, start, 0)
  {
    var depth := 0;
    index := start;
    while index < |s|
      invariant start <= index <= |s|
      invariant ActualEnd(s, start, 0) == ActualEnd(s, index, depth)
    {
      if depth == 0 && (s[index] == ',' || s[index] == ')') {
        break;
      }
      if s[index] == '(' {
        depth := depth + 1;
      } else if s[index] == ')' {
        depth := depth - 1;
      }
      index := index + 1;
    }
  }

  /** Expands the macro at `head`. The index returned counts in the text before the expansion. */
  method ReplaceMacro(name: string, count: nat, template: string, block: bool, s: string, head: nat)
    returns (r: Result)
    requires head + |name| <= |s|
    ensures r == CallResult(name, count, template, block, s, head)
    ensures r.Done? && r.replaced ==> exists actuals, expansion ::
      SplitActuals(s, head + |name| + 1, count) == Split(actuals, r.next) &&
      ExpandsTo(Fill(template, actuals, count), block, expansion) && r.text == s[..head] + expansion + s[r.next..]
  {
    hide ActualEnd, SplitActuals, Replace, Fill, Tidy, ExpandsTo;
    var next := SkipIsolatedWord(s, head, name);
    if next == -1 {
      return Done(s, head + |name|, false);
    }
    if next >= |s| || s[next] != '(' {
      return Done(s, next, false);
    }
    var index := next + 1;
    var expanded := template;
    ghost var actuals: seq<string> := [];
    var i := 0;
    NothingSplit(s, index, count, template);
    while i < count
      invariant 0 <= i <= count && next < index <= |s| && |actuals| == i
      invariant expanded == Fill(template, actuals, i)
      invariant SplitActuals(s, next + 1, count) == Prefixed(actuals, SplitActuals(s, index, count - i))
    {
      var start := index;
      index := FindActualEnd(s, start);
      OneMore(s, start, count - i, actuals, template);
      if index == |s| {
        return TooFewArguments;
      }
      actuals := actuals + [s[start..index]];
      expanded := Replace(expanded, Marker(i), s[start..index]);
      index := index + 1;
      i := i + 1;
    }
    NothingSplit(s, index, 0, template);
    assert actuals + [] == actuals;
    if s[index - 1] != ')' {
      return TooManyArguments;
    }
    TidyExpands(expanded, block);
    ghost var filled := expanded;
    expanded := Tidy(expanded, block);
    assert SplitActuals(s, next + 1, count) == Split(actuals, index) && filled == Fill(template, actuals, count);
    return Done(s[..head] + expanded + s[index..], index, true);
  }

  lemma NothingSplit(s: string, index: nat, count: nat, template: string)
    requires index <= |s|
    ensures Fill(template, [], 0) == template && SplitActuals(s, index, 0) == Split([], index)
    ensures Prefixed([], SplitActuals(s, index, count)) == SplitActuals(s, index, count)
  {
    match SplitActuals(s, index, count)
    case Unfinished =>
    case Split(more, _) => assert [] + more == more;
  }

  /** What one more actual adds to the split and to the expansion. */
  lemma OneMore(s: string, start: nat, count: nat, actuals: seq<string>, template: string)
    requires start <= |s| && count > 0
    ensures var e := ActualEnd(s, start, 0);
      if e == |s| then SplitActuals(s, start, count) == Unfinished
      else
        var longer := actuals + [s[start..e]];
        Prefixed(actuals, SplitActuals(s, start, count)) == Prefixed(longer, SplitActuals(s, e + 1, count - 1)) &&
        Fill(template, longer, |longer|) == Replace(Fill(template, actuals, |actuals|), Marker(|actuals|), s[start..e])
  {
    hide ActualEnd, Replace, Marker;
    var e := ActualEnd(s, start, 0);
    if e < |s| {
      FillMore(template, actuals, s[start..e], |actuals|);
      match SplitActuals(s, e + 1, count - 1)
      case Unfinished =>
      case Split(more, _) => assert actuals + ([s[start..e]] + more) == actuals + [s[start..e]] + more;
    }
  }

  // ----- well-formed calls -----

  /** Parentheses are balanced and no comma stands outside of them. */
  predicate Balanced(a: string, depth: nat) {
    if a == "" then depth == 0
    else if a[0] == '(' then Balanced(a[1..], depth + 1)
    else if a[0] == ')' then depth > 0 && Balanced(a[1..], depth - 1)
    else (a[0] == ',' ==> depth > 0) && Balanced(a[1..], depth)
  }

  function Count(s: string, c: char): nat {
    if s == "" then 0 else (if s[0] == c then 1 else 0) + Count(s[1..], c)
  }

  /** The parentheses open behind the first `k` characters. */
  function Open(s: string, k: nat): int
    requires k <= |s|
  {
    Count(s[..k], '(') - Count(s[..k], ')')
  }

  predicate FineAt(a: string, depth: nat, k: int)
    requires 0 <= k < |a|
  {
    depth + Open(a, k + 1) >= 0 && (a[k] == ',' ==> depth + Open(a, k) > 0)
  }

  lemma OpenFirst(a: string, k: nat)
    requires k < |a|
    ensures Open(a, 0) == 0
    ensures Open(a, k + 1) == Open(a[1..], k) + (if a[0] == '(' then 1 else if a[0] == ')' then -1 else 0)
  {
    assert a[..k + 1][1..] == a[1..][..k];
  }

  /** As many parentheses close as open, none before it opens, and every comma stands between some. */
  lemma {:induction false} BalancedIff(a: string, depth: nat)
    ensures Balanced(a, depth) <==>
      depth + Open(a, |a|) == 0 && forall k :: 0 <= k < |a| ==> FineAt(a, depth, k)
  {
    hide Open, Count;
    if a != "" {
      var after := if a[0] == '(' then depth + 1 else if a[0] == ')' then depth - 1 else depth;
      forall k: nat | k < |a|
        ensures depth + Open(a, k + 1) == after + Open(a[1..], k) && depth + Open(a, 0) == depth
      {
        OpenFirst(a, k);
      }
      if |a| > 1 { OpenFirst(a[1..], 0); } else { NoneOpen(a[1..]); }
      assert depth + Open(a, 1) == after && depth + Open(a, |a|) == after + Open(a[1..], |a[1..]|) by { OpenFirst(a, |a| - 1); }
      assert FineAt(a, depth, 0) <==> after >= 0 && (a[0] == ',' ==> depth > 0);
      if after >= 0 {
        BalancedIff(a[1..], after);
        forall k | 1 <= k < |a|
          ensures FineAt(a, depth, k) <==> FineAt(a[1..], after, k - 1)
        {
          assert a[k] == a[1..][k - 1];
        }
        assert (forall k :: 0 <= k < |a[1..]| ==> FineAt(a[1..], after, k)) <==>
          forall k :: 1 <= k < |a| ==> FineAt(a, depth, k) by { Shifted(a, depth, after); }
      } else {
        assert !FineAt(a, depth, 0);
      }
    } else {
      NoneOpen(a);
    }
  }

  lemma NoneOpen(a: string)
    requires a == ""
    ensures Open(a, 0) == 0
  {
  }

  lemma Shifted(a: string, depth: nat, after: nat)
    requires a != "" && forall k :: 1 <= k < |a| ==> (FineAt(a, depth, k) <==> FineAt(a[1..], after, k - 1))
    ensures (forall k :: 0 <= k < |a[1..]| ==> FineAt(a[1..], after, k)) <==> forall k :: 1 <= k < |a| ==> FineAt(a, depth, k)
  {
    hide FineAt;
    if forall k :: 1 <= k < |a| ==> FineAt(a, depth, k) {
      forall k | 0 <= k < |a[1..]|
        ensures FineAt(a[1..], after, k)
      {
        assert FineAt(a, depth, k + 1);
      }
    }
  }

  function Join(actuals: seq<string>): string
    requires actuals != []
  {
    if |actuals| == 1 then actuals[0] else actuals[0] + "," + Join(actuals[1..])
  }

  predicate AllBalanced(actuals: seq<string>) { forall i :: 0 <= i < |actuals| ==> Balanced(actuals[i], 0) }

  /** A balanced actual extends to the character behind it. */
  lemma {:induction false} EndOfBalanced(s: string, index: nat, a: string, depth: nat)
    requires Balanced(a, depth) && index + |a| < |s| && s[index..index + |a|] == a
    requires s[index + |a|] == ',' || s[index + |a|] == ')'
    ensures ActualEnd(s, index, depth) == index + |a|
    decreases |a|
  {
    if a != "" {
      assert s[index] == s[index..index + |a|][0];
      assert s[index + 1..index + |a|] == s[index..index + |a|][1..];
      EndOfBalanced(s, index + 1, a[1..], DepthAfter(depth, a[0]));
    }
  }

  /** Actuals followed by `c` are split out exactly; if more are wanted, the split goes on behind them. */
  lemma {:induction false} SplitsExactly(s: string, index: nat, actuals: seq<string>, c: char, count: nat)
    requires 0 < |actuals| <= count && AllBalanced(actuals) && (c == ',' || c == ')')
    requires index <= |s| && Join(actuals) + [c] <= s[index..]
    ensures var behind := index + |Join(actuals)| + 1;
      SplitActuals(s, index, count) == Prefixed(actuals, SplitActuals(s, behind, count - |actuals|))
    decreases |actuals|
  {
    hide ActualEnd, Balanced, Join, SplitActuals, AllBalanced;
    var a, rest := actuals[0], actuals[1..];
    FirstActual(s, index, actuals, c);
    var e := index + |a|;
    SplitFirst(s, index, count);
    if |actuals| == 1 {
      assert actuals == [a];
    } else {
      RestBalanced(actuals);
      SplitsExactly(s, e + 1, rest, c, count - 1);
      Reassociate(a, rest, SplitActuals(s, e + 1 + |Join(rest)| + 1, count - |actuals|));
      assert [a] + rest == actuals;
    }
  }

  lemma RestBalanced(actuals: seq<string>)
    requires AllBalanced(actuals) && actuals != []
    ensures AllBalanced(actuals[1..])
  {
  }

  lemma SplitFirst(s: string, index: nat, count: nat)
    requires index <= |s| && 0 < count && ActualEnd(s, index, 0) < |s|
    ensures var e := ActualEnd(s, index, 0);
      SplitActuals(s, index, count) == Prefixed([s[index..e]], SplitActuals(s, e + 1, count - 1))
  {
    hide ActualEnd;
  }

  lemma FirstActual(s: string, index: nat, actuals: seq<string>, c: char)
    requires actuals != [] && AllBalanced(actuals) && (c == ',' || c == ')')
    requires index <= |s| && Join(actuals) + [c] <= s[index..]
    ensures var e := index + |actuals[0]|; e < |s| && ActualEnd(s, index, 0) == e && s[index..e] == actuals[0]
    ensures |actuals| == 1 ==> |Join(actuals)| == |actuals[0]|
    ensures |actuals| > 1 ==> Join(actuals[1..]) + [c] <= s[index + |actuals[0]| + 1..]
    ensures |actuals| > 1 ==> |Join(actuals)| == |actuals[0]| + 1 + |Join(actuals[1..])|
  {
    hide ActualEnd, Balanced;
    var a, all := actuals[0], Join(actuals) + [c];
    assert s[index..][..|a|] == all[..|a|] == a && s[index..][|a|] == all[|a|];
    EndOfBalanced(s, index, a, 0);
    if |actuals| > 1 {
      assert s[index + |a| + 1..] == s[index..][|a| + 1..] && all[|a| + 1..] == Join(actuals[1..]) + [c];
    }
  }

  lemma Reassociate(a: string, rest: seq<string>, split: Split)
    ensures Prefixed([a], Prefixed(rest, split)) == Prefixed([a] + rest, split)
  {
    match split
    case Unfinished =>
    case Split(more, _) => assert [a] + (rest + more) == [a] + rest + more;
  }

  /** The text of a call. */
  function Call(name: string, actuals: seq<string>): string
    requires actuals != []
  {
    name + "(" + Join(actuals) + ")"
  }

  predicate EndsWord(s: string) { s == "" || IsNotId(s[|s| - 1]) }

  lemma CallSplits(pre: string, name: string, actuals: seq<string>, post: string, count: nat)
    requires EndsWord(pre) && 0 < |actuals| <= count && AllBalanced(actuals)
    ensures var s := pre + Call(name, actuals) + post;
      var next, behind := |pre| + |name|, |pre| + |Call(name, actuals)|;
      SkipIsolatedWord(s, |pre|, name) == next && s[next] == '(' && s[behind - 1] == ')' && s[behind..] == post &&
      SplitActuals(s, next + 1, count) == Prefixed(actuals, SplitActuals(s, behind, count - |actuals|))
  {
    hide SplitActuals, Balanced, Join;
    var s := pre + Call(name, actuals) + post;
    var next := |pre| + |name|;
    assert s[next + 1..] == Join(actuals) + ")" + post;
    SplitsExactly(s, next + 1, actuals, ')', count);
  }

  lemma CallTidies(pre: string, name: string, params: seq<string>, body: string, block: bool, actuals: seq<string>,
                   post: string)
    requires EndsWord(pre) && 0 < |actuals| == |params| && AllBalanced(actuals)
    requires Plain(body) && !UsesLate(false, body, params) && AllUnmarked(actuals)
    ensures var text := pre + Call(name, actuals) + post;
      var template := Subst(false, body, params, Markers(|params|));
      CallResult(name, |params|, template, block, text, |pre|) ==
      Done(pre + Tidy(Subst(false, body, params, actuals), block) + post, |pre| + |Call(name, actuals)|, true)
  {
    hide Subst, Fill, SplitActuals, Balanced, Join, Tidy, UsesLate, AllUnmarked;
    CallSplits(pre, name, actuals, post, |params|);
    FillUnmarked(body, params, actuals);
    var text := pre + Call(name, actuals) + post;
    NothingSplit(text, |pre| + |Call(name, actuals)|, 0, "");
    assert text[..|pre|] == pre && actuals + [] == actuals;
  }

  /**
   * A call with as many actuals as the macro has parameters, none of which holds a marker of a later parameter, expands
   * to the body with the actuals substituted for the parameters, all at once. Only a block loses the blanks and semicolons
   * at its ends.
   */
  lemma CallExpands(pre: string, name: string, params: seq<string>, body: string, block: bool, actuals: seq<string>,
                    post: string)
    requires EndsWord(pre) && 0 < |actuals| == |params| && AllBalanced(actuals)
    requires Plain(body) && !UsesLate(false, body, params) && AllUnmarked(actuals)
    ensures var text := pre + Call(name, actuals) + post;
      var template := Subst(false, body, params, Markers(|params|));
      var expanded := Subst(false, body, params, actuals);
      exists expansion :: (if block then Stripped(expanded, expansion) else expansion == expanded) &&
        CallResult(name, |params|, template, block, text, |pre|) ==
        Done(pre + expansion + post, |pre| + |Call(name, actuals)|, true)
  {
    hide Subst, CallResult, Call, Tidy, UsesLate, AllUnmarked, AllBalanced, Stripped, Plain, Markers;
    CallTidies(pre, name, params, body, block, actuals, post);
    var expanded := Subst(false, body, params, actuals);
    TidyExpands(expanded, block);
    var expansion := Tidy(expanded, block);
    assert if block then Stripped(expanded, expansion) else expansion == expanded;
  }

  lemma {:induction false} EndBehind(s: string, at: nat, index: nat, depth: int)
    requires at + index <= |s|
    ensures ActualEnd(s, at + index, depth) == at + ActualEnd(s[at..], index, depth)
    decreases |s| - index
  {
    if at + index < |s| { EndBehind(s, at, index + 1, DepthAfter(depth, s[at + index])); }
  }

  /** What is split behind a position only depends on the text behind it. */
  lemma {:induction false} SplitBehind(s: string, at: nat, index: nat, count: nat)
    requires at + index <= |s|
    ensures SplitActuals(s, at + index, count) ==
      match SplitActuals(s[at..], index, count)
      case Unfinished => Unfinished
      case Split(actuals, end) => Split(actuals, at + end)
    decreases count
  {
    hide ActualEnd;
    if count > 0 {
      EndBehind(s, at, index, 0);
      var e := ActualEnd(s[at..], index, 0);
      if at + e < |s| {
        assert s[at..][index..e] == s[at + index..at + e];
        SplitBehind(s, at, e + 1, count - 1);
      }
    }
  }

  lemma {:induction false} JoinStarts(actuals: seq<string>, count: nat)
    requires 0 < count < |actuals|
    ensures Join(actuals[..count]) + "," <= Join(actuals)
  {
    if count > 1 {
      JoinStarts(actuals[1..], count - 1);
      assert actuals[..count][1..] == actuals[1..][..count - 1];
    }
  }

  /**
   * With another number of actuals there is an error, except where too few actuals are followed by a text that happens
   * to hold the missing ones and another closing parenthesis.
   */
  lemma WrongNumberOfActuals(pre: string, name: string, count: nat, template: string, block: bool,
                             actuals: seq<string>, post: string)
    requires EndsWord(pre) && 0 < |actuals| && 0 < count != |actuals| && AllBalanced(actuals)
    ensures var text := pre + Call(name, actuals) + post;
      var r := CallResult(name, count, template, block, text, |pre|);
      if |actuals| > count then r == TooManyArguments
      else
        var more := SplitActuals(post, 0, count - |actuals|);
        r.Done? <==> more.Split? && post[more.end - 1] == ')'
  {
    hide Fill, SplitActuals, Balanced, Join, Tidy;
    var text := pre + Call(name, actuals) + post;
    if |actuals| > count {
      TooMany(pre, name, count, actuals, post);
    } else {
      var behind := |pre| + |Call(name, actuals)|;
      CallSplits(pre, name, actuals, post, count);
      SplitBehind(text, behind, 0, count - |actuals|);
    }
  }

  lemma AllBalancedPrefix(actuals: seq<string>, count: nat)
    requires AllBalanced(actuals) && count <= |actuals|
    ensures AllBalanced(actuals[..count])
  {
    hide Balanced;
  }

  lemma TooMany(pre: string, name: string, count: nat, actuals: seq<string>, post: string)
    requires EndsWord(pre) && 0 < count < |actuals| && AllBalanced(actuals)
    ensures var s := pre + Call(name, actuals) + post;
      var next := |pre| + |name|;
      var split := SplitActuals(s, next + 1, count);
      SkipIsolatedWord(s, |pre|, name) == next && s[next] == '(' && split.Split? && s[split.end - 1] == ','
  {
    hide SplitActuals, Balanced, Join, AllBalanced;
    var s := pre + Call(name, actuals) + post;
    var next := |pre| + |name|;
    AllBalancedPrefix(actuals, count);
    var first := Join(actuals[..count]) + ",";
    JoinStarts(actuals, count);
    assert s[next + 1..] == Join(actuals) + ")" + post;
    assert first <= s[next + 1..];
    SplitsExactly(s, next + 1, actuals[..count], ',', count);
    NothingSplit(s, next + 1 + |first|, 0, "");
    assert s[next + 1..][|first| - 1] == first[|first| - 1];
  }

  /** One actual for two parameters is accepted where another closing parenthesis follows the call. */
  lemma TooFewExample()
    ensures CallResult("F", 2, "$0+$1", false, "F(a) b)", 0) == Done("a+ b", 7, true)
  {
    hide SplitActuals, Fill;
    var s := "F(a) b)";
    SplitExample();
    FilledExample();
    assert s[7..] == "" && s[..0] == "";
  }

  lemma SplitExample()
    ensures SplitActuals("F(a) b)", 2, 2) == Split(["a", " b"], 7)
  {
    var s := "F(a) b)";
    assert ActualEnd(s, 2, 0) == 3;
    assert ActualEnd(s, 4, 0) == ActualEnd(s, 5, 0) == ActualEnd(s, 6, 0) == 6;
    assert s[2..3] == "a" && s[4..6] == " b";
    assert SplitActuals(s, 4, 1) == Split([" b"], 7);
  }

  lemma FilledExample()
    ensures Fill("$0+$1", ["a", " b"], 2) == "a+ b"
  {
    hide Replace;
    assert Marker(0) == "$0" && Marker(1) == "$1";
    assert "$0+$1" == "$0" + "+$1" && "+$1" == ['+'] + "$1" && "$1" == ['$'] + "1";
    ReplaceHere("+$1", "$0", "a");
    assert "$0"[0] == "$1"[0] == '$' && "$0"[1] == '0' && "$1"[1] == '1';
    assert (['+'] + "$1")[0] == '+' && (['$'] + "1")[1] == '1' && (['a'] + "+$1")[0] == 'a';
    ReplaceLater('+', "$1", "$0", "a");
    ReplaceLater('$', "1", "$0", "a");
    ReplaceNothing("1", "$0", "a");
    assert "a+$1" == ['a'] + "+$1" && "$1" == "$1" + "";
    ReplaceLater('a', "+$1", "$1", " b");
    ReplaceLater('+', "$1", "$1", " b");
    ReplaceHere("", "$1", " b");
    ReplaceNothing("", "$1", " b");
    assert Fill("$0+$1", ["a", " b"], 0) == "$0+$1";
    assert Fill("$0+$1", ["a", " b"], 1) == Replace("$0+$1", "$0", "a") == "a+$1";
    assert Replace("$1", "$1", " b") == " b" + "" == " b";
    assert Replace("+$1", "$1", " b") == ['+'] + " b";
  }
}
