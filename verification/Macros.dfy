// Macros of the preprocessor: templates with `$i` in place of the parameters, and what their expansion amounts to.

module Macros {
  predicate IsNotId(c: char) {
    !('a' <= c <= 'z') && !('A' <= c <= 'Z') && !('0' <= c <= '9') && c != '_'
  }

  predicate AllId(s: string) { forall i :: 0 <= i < |s| ==> !IsNotId(s[i]) }

  predicate IsDigit(c: char) { '0' <= c <= '9' }

  predicate IsIdentifier(s: string) { s != "" && AllId(s) && !IsDigit(s[0]) }

  function Decimal(n: nat): (s: string)
    ensures s != "" && AllId(s) && IsDigit(s[0])
  {
    var d := ['0' + (n % 10) as char];
    if n < 10 then d else Decimal(n / 10) + d
  }

  predicate OnlyDigits(s: string) { forall i :: 0 <= i < |s| ==> IsDigit(s[i]) }

  /** The number that digits stand for. */
  function Number(s: string): nat
    requires OnlyDigits(s)
  {
    if s == "" then 0 else Number(s[..|s| - 1]) * 10 + (s[|s| - 1] as int - '0' as int)
  }

  /** Digits without leading zeros that stand for `n`. */
  predicate Numeral(s: string, n: nat) {
    s != "" && OnlyDigits(s) && Number(s) == n && (s[0] == '0' ==> |s| == 1)
  }

  lemma {:induction false} DecimalReads(n: nat)
    ensures Numeral(Decimal(n), n) && (Decimal(n)[0] == '0' ==> n == 0)
  {
    var s, digit := Decimal(n), ['0' + (n % 10) as char];
    assert digit[..0] == "" && Number(digit) == n % 10;
    if n >= 10 {
      DecimalReads(n / 10);
      assert s[..|s| - 1] == Decimal(n / 10) && s[|s| - 1] == digit[0];
    }
  }

  /** Different parameters have different markers. */
  lemma MarkersDiffer(i: nat, j: nat)
    requires Marker(i) == Marker(j)
    ensures i == j
  {
    hide Decimal;
    DecimalReads(i);
    DecimalReads(j);
    assert Marker(i)[1..] == Decimal(i) && Marker(j)[1..] == Decimal(j);
  }

  const LOWER := {'a', 'b', 'c', 'd', 'e', 'f', 'g', 'h', 'i', 'j', 'k', 'l', 'm', 'n', 'o', 'p', 'q', 'r', 's', 't',
    'u', 'v', 'w', 'x', 'y', 'z'}
  const UPPER := {'A', 'B', 'C', 'D', 'E', 'F', 'G', 'H', 'I', 'J', 'K', 'L', 'M', 'N', 'O', 'P', 'Q', 'R', 'S', 'T',
    'U', 'V', 'W', 'X', 'Y', 'Z'}
  const OTHERS := {'0', '1', '2', '3', '4', '5', '6', '7', '8', '9', '_'}

  /** The characters of names, one by one. */
  lemma IdentifierCharacters(c: char)
    ensures !IsNotId(c) <==> c in LOWER + UPPER + OTHERS
  {
    assert 'a' <= c <= 'z' <==> c in LOWER;
    assert 'A' <= c <= 'Z' <==> c in UPPER;
  }

  // ----- whole words -----

  /** The length of the run of identifier characters at the start of `s`. */
  function WordLength(s: string): (n: nat)
    ensures n <= |s| && AllId(s[..n]) && (n < |s| ==> IsNotId(s[n]))
  {
    if s == "" || IsNotId(s[0]) then 0 else 1 + WordLength(s[1..])
  }

  /** The value of the first name equal to the word, else the word itself. */
  function Lookup(word: string, names: seq<string>, values: seq<string>): string
    requires |names| == |values|
  {
    if names == [] then word
    else if names[0] == word then values[0]
    else Lookup(word, names[1..], values[1..])
  }

  /**
   * Replaces every whole word that is a name by its value, all at once. `inWord` tells whether `s` follows an identifier
   * character, so that it may start in the middle of a word.
   */
  function Subst(inWord: bool, s: string, names: seq<string>, values: seq<string>): string
    requires |names| == |values|
    decreases |s|
  {
    if s == "" then ""
    else if IsNotId(s[0]) then [s[0]] + Subst(false, s[1..], names, values)
    else if inWord then [s[0]] + Subst(true, s[1..], names, values)
    else Lookup(s[..WordLength(s)], names, values) + Subst(true, s[WordLength(s)..], names, values)
  }

  /** The character before `index` belongs to a word. */
  predicate After(s: string, index: nat)
    requires index <= |s|
  {
    index > 0 && !IsNotId(s[index - 1])
  }

  /** Inside a word nothing is replaced. */
  lemma {:induction false} Inside(s: string, n: nat, names: seq<string>, values: seq<string>)
    requires |names| == |values| && n <= |s| && AllId(s[..n])
    ensures Subst(true, s, names, values) == s[..n] + Subst(true, s[n..], names, values)
  {
    if n > 0 {
      assert s[..n][0] == s[0] && s[1..][..n - 1] == s[..n][1..] && s[1..][n - 1..] == s[n..];
      Inside(s[1..], n - 1, names, values);
    }
  }

  lemma {:induction false} WordIsLonger(s: string, n: nat)
    requires n <= |s| && AllId(s[..n])
    ensures n <= WordLength(s)
    ensures n == |s| || IsNotId(s[n]) ==> WordLength(s) == n
  {
    if n > 0 {
      assert s[..n][0] == s[0] && s[1..][..n - 1] == s[..n][1..];
      WordIsLonger(s[1..], n - 1);
    }
  }

  /** Where the word `arg` does not start, one character is kept. */
  lemma Kept(inWord: bool, s: string, arg: string, marker: string)
    requires s != "" && arg != "" && AllId(arg) && !(arg <= s)
    ensures Subst(inWord, s, [arg], [marker]) == [s[0]] + Subst(!IsNotId(s[0]), s[1..], [arg], [marker])
  {
    if !IsNotId(s[0]) && !inWord {
      var n := WordLength(s);
      assert Lookup(s[..n], [arg], [marker]) == s[..n];
      assert s[1..][..n - 1] == s[..n][1..] && s[1..][n - 1..] == s[n..];
      Inside(s[1..], n - 1, [arg], [marker]);
      assert s[..n] == [s[0]] + s[1..][..n - 1];
    }
  }

  lemma {:induction false} Untouched(s: string, arg: string, marker: string, from: nat, to: nat)
    requires from <= to <= |s| && arg != "" && AllId(arg) && forall i :: from <= i < to ==> !(arg <= s[i..])
    ensures Subst(After(s, from), s[from..], [arg], [marker]) ==
      s[from..to] + Subst(After(s, to), s[to..], [arg], [marker])
  {
    hide Subst, WordLength, Lookup, AllId;
    if from < to {
      var last := to - 1;
      assert !(arg <= s[last..]) && s[last..][1..] == s[to..];
      Kept(After(s, last), s[last..], arg, marker);
      Untouched(s, arg, marker, from, last);
      assert s[from..to] == s[from..last] + [s[last]];
    }
  }

  /** Where `arg` starts, it is replaced if it is a whole word and kept otherwise. */
  lemma AtOccurrence(inWord: bool, s: string, arg: string, marker: string)
    requires arg != "" && AllId(arg) && arg <= s
    ensures var n := |arg|;
      Subst(inWord, s, [arg], [marker]) ==
      (if !inWord && (n == |s| || IsNotId(s[n])) then marker else arg) + Subst(true, s[n..], [arg], [marker])
  {
    var n := |arg|;
    assert s[..n] == arg && s[0] == arg[0];
    if inWord {
      Inside(s, n, [arg], [marker]);
    } else if n == |s| || IsNotId(s[n]) {
      WordIsLonger(s, n);
    } else {
      InLongerWord(s, arg, marker);
    }
  }

  lemma InLongerWord(s: string, arg: string, marker: string)
    requires arg != "" && AllId(arg) && arg < s && !IsNotId(s[|arg|])
    ensures Subst(false, s, [arg], [marker]) == arg + Subst(true, s[|arg|..], [arg], [marker])
  {
    var n, m := |arg|, WordLength(s);
    assert s[..n] == arg && s[0] == arg[0];
    assert AllId(s[..n + 1]);
    WordIsLonger(s, n + 1);
    assert Lookup(s[..m], [arg], [marker]) == s[..m];
    Inside(s, m, [arg], [marker]);
    Inside(s, n, [arg], [marker]);
  }

  // ----- the code -----

  /** The index after the word at `index` if it stands alone there, else -1. */
  function SkipIsolatedWord(s: string, index: nat, word: string): int
    requires index + |word| <= |s|
  {
    var next := index + |word|;
    if (index == 0 || IsNotId(s[index - 1])) && (next == |s| || IsNotId(s[next])) then next else -1
  }

  /** `str.find`: the first position from `from` on where `word` stands in `s`, else -1. */
  function Find(s: string, word: string, from: nat): (r: int)
    ensures r >= 0 ==> from <= r && r + |word| <= |s| && word <= s[r..]
    ensures r >= 0 ==> forall i :: from <= i < r ==> !(word <= s[i..])
    ensures r < 0 ==> r == -1 && forall i :: from <= i <= |s| ==> !(word <= s[i..])
    decreases |s| - from
  {
    if from > |s| then -1
    else if word <= s[from..] then from
    else Find(s, word, from + 1)
  }

  function Marker(i: nat): string { "$" + Decimal(i) }

  /** `expression` is done up to `index`, and what is left to do behind it gives `goal`. */
  predicate DoneUpTo(goal: string, expression: string, index: int, arg: string, marker: string) {
    0 <= index <= |expression| &&
    goal == expression[..index] + Subst(After(expression, index), expression[index..], [arg], [marker])
  }

  lemma SkipTo(goal: string, expression: string, from: int, to: int, arg: string, marker: string)
    requires DoneUpTo(goal, expression, from, arg, marker) && from <= to <= |expression|
    requires arg != "" && AllId(arg) && forall i :: from <= i < to ==> !(arg <= expression[i..])
    ensures DoneUpTo(goal, expression, to, arg, marker)
  {
    hide Subst;
    Untouched(expression, arg, marker, from, to);
    assert expression[..from] + expression[from..to] == expression[..to];
  }

  lemma StepOver(goal: string, expression: string, index: int, arg: string, marker: string)
    requires DoneUpTo(goal, expression, index, arg, marker) && arg <= expression[index..]
    requires IsIdentifier(arg) && marker != "" && !IsNotId(marker[|marker| - 1])
    ensures var next := index + |arg|;
      if SkipIsolatedWord(expression, index, arg) == next then
        DoneUpTo(goal, expression[..index] + marker + expression[next..], index + |marker|, arg, marker)
      else DoneUpTo(goal, expression, next, arg, marker)
  {
    hide Subst;
    AtOccurrence(After(expression, index), expression[index..], arg, marker);
    var next := index + |arg|;
    var rest := expression[next..];
    assert expression[index..][|arg|..] == rest;
    var replaced := expression[..index] + marker + rest;
    assert replaced[..index + |marker|] == expression[..index] + marker && replaced[index + |marker|..] == rest;
    assert expression[..next] == expression[..index] + arg;
  }

  /** One pass of the loop over the parameters: whole words `arg` become the marker. */
  method ReplaceWord(body: string, arg: string, marker: string) returns (expression: string)
    requires IsIdentifier(arg) && marker != "" && !IsNotId(marker[|marker| - 1])
    ensures expression == Subst(false, body, [arg], [marker])
  {
    hide Subst, DoneUpTo, AllId, IsDigit, Find;
    ghost var goal := Subst(false, body, [arg], [marker]);
    expression := body;
    var index := Find(expression, arg, 0);
    ghost var done := 0;
    Unstarted(body, arg, marker);
    while index != -1 && index + |arg| <= |expression|
      invariant 0 <= done <= |expression| && index == Find(expression, arg, done)
      invariant DoneUpTo(goal, expression, done, arg, marker)
      decreases |expression| - done
    {
      SkipTo(goal, expression, done, index, arg, marker);
      StepOver(goal, expression, index, arg, marker);
      var next := SkipIsolatedWord(expression, index, arg);
      if next != -1 {
        expression := expression[..index] + marker + expression[next..];
        index := index + |marker|;
      } else {
        index := index + |arg|;
      }
      done := index;
      index := Find(expression, arg, index);
    }
    SkipTo(goal, expression, done, |expression|, arg, marker);
    Finished(goal, expression, arg, marker);
  }

  lemma Unstarted(body: string, arg: string, marker: string)
    ensures DoneUpTo(Subst(false, body, [arg], [marker]), body, 0, arg, marker)
  {
    hide Subst;
    assert body[0..] == body;
  }

  lemma Finished(goal: string, expression: string, arg: string, marker: string)
    requires DoneUpTo(goal, expression, |expression|, arg, marker)
    ensures goal == expression
  {
  }
}
