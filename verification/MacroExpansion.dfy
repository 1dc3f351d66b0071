// Templates of macros, and what replacing `$0`, `$1`, … one after another makes of them.

module MacroExpansion {
  import opened Macros

  predicate Plain(s: string) { '$' !in s }

  function Markers(n: nat): (ms: seq<string>)
    ensures |ms| == n && forall k :: 0 <= k < n ==> ms[k] == Marker(k)
  {
    seq(n, k requires 0 <= k < n => Marker(k))
  }

  predicate IsMarker(m: string) { |m| > 1 && m[0] == '$' && AllId(m[1..]) && IsDigit(m[1]) }

  /** A text that does not go on with a word. */
  predicate AtBoundary(s: string) { s == "" || IsNotId(s[0]) }

  lemma LookupHits(word: string, names: seq<string>, values: seq<string>, w: string, m: string)
    requires |names| == |values|
    ensures Lookup(word, names + [w], values + [m]) ==
      if word in names then Lookup(word, names, values) else Lookup(word, [w], [m])
    ensures word !in names ==> Lookup(word, names, values) == word
    ensures word in names ==> Lookup(word, names, values) in values
  {
    if names != [] {
      assert (names + [w])[1..] == names[1..] + [w] && (values + [m])[1..] == values[1..] + [m];
      LookupHits(word, names[1..], values[1..], w, m);
    }
  }

  lemma SubstKeepsBoundary(s: string, names: seq<string>, values: seq<string>)
    requires |names| == |values| && AtBoundary(s)
    ensures AtBoundary(Subst(true, s, names, values))
  {
  }

  /** A word before a boundary is looked up as a whole. */
  lemma SubstWord(word: string, rest: string, names: seq<string>, values: seq<string>)
    requires |names| == |values| && word != "" && AllId(word) && AtBoundary(rest)
    ensures Subst(false, word + rest, names, values) ==
      Lookup(word, names, values) + Subst(true, rest, names, values)
  {
    var s := word + rest;
    assert s[..|word|] == word && s[|word|..] == rest;
    WordIsLonger(s, |word|);
  }

  /** A marker contains no identifier, so later passes keep it. */
  lemma SubstMarker(marker: string, rest: string, w: string, m: string)
    requires IsMarker(marker) && IsIdentifier(w) && AtBoundary(rest)
    ensures Subst(false, marker + rest, [w], [m]) == marker + Subst(true, rest, [w], [m])
  {
    hide Subst, WordLength, AllId;
    var word := marker[1..];
    assert marker + rest == ['$'] + (word + rest) && marker == ['$'] + word;
    SubstSign('$', word + rest, [w], [m]);
    MarkerWord(marker);
    SubstWord(word, rest, [w], [m]);
    assert Lookup(word, [w], [m]) == word by { MarkerIsNoName(word, w); }
    assert ['$'] + (word + Subst(true, rest, [w], [m])) == ['$'] + word + Subst(true, rest, [w], [m]);
  }

  lemma MarkerWord(marker: string)
    requires IsMarker(marker)
    ensures marker[1..] != "" && AllId(marker[1..]) && IsDigit(marker[1..][0]) && marker[0] == '$'
  {
  }

  lemma MarkerIsNoName(word: string, w: string)
    requires word != "" && IsDigit(word[0]) && IsIdentifier(w)
    ensures word != w
  {
  }

  lemma SubstSign(c: char, s: string, names: seq<string>, values: seq<string>)
    requires |names| == |values| && IsNotId(c)
    ensures Subst(false, [c] + s, names, values) == [c] + Subst(false, s, names, values)
  {
    hide WordLength;
    assert ([c] + s)[1..] == s;
  }

  /** Two passes in a row are one pass with more names. */
  lemma {:induction false} Compose(inWord: bool, s: string, names: seq<string>, ms: seq<string>, w: string, m: string)
    requires |names| == |ms| && IsIdentifier(w) && forall k :: 0 <= k < |ms| ==> IsMarker(ms[k])
    ensures Subst(inWord, Subst(inWord, s, names, ms), [w], [m]) == Subst(inWord, s, names + [w], ms + [m])
    decreases |s|
  {
    if s == "" {
    } else if IsNotId(s[0]) || inWord {
      var next := !IsNotId(s[0]);
      Compose(next, s[1..], names, ms, w, m);
      assert ([s[0]] + Subst(next, s[1..], names, ms))[1..] == Subst(next, s[1..], names, ms);
    } else {
      ComposeWord(s, names, ms, w, m);
    }
  }

  lemma {:induction false} ComposeWord(s: string, names: seq<string>, ms: seq<string>, w: string, m: string)
    requires |names| == |ms| && IsIdentifier(w) && forall k :: 0 <= k < |ms| ==> IsMarker(ms[k])
    requires s != "" && !IsNotId(s[0])
    ensures Subst(false, Subst(false, s, names, ms), [w], [m]) == Subst(false, s, names + [w], ms + [m])
    decreases |s|, 0
  {
    var n := WordLength(s);
    var word, rest := s[..n], s[n..];
    var tail := Subst(true, rest, names, ms);
    Compose(true, rest, names, ms, w, m);
    SubstKeepsBoundary(rest, names, ms);
    LookupHits(word, names, ms, w, m);
    if word in names {
      SubstMarker(Lookup(word, names, ms), tail, w, m);
    } else {
      SubstWord(word, tail, [w], [m]);
    }
  }

  /** The template of a macro: the passes over the parameters amount to replacing all of them at once. */
  method GenerateTemplate(args: seq<string>, body: string) returns (count: nat, template: string)
    requires forall k :: 0 <= k < |args| ==> IsIdentifier(args[k])
    ensures count == |args| && template == Subst(false, body, args, Markers(|args|))
  {
    template := body;
    NoNames(false, body);
    var i := 0;
    while i < |args|
      invariant 0 <= i <= |args| && template == Subst(false, body, args[..i], Markers(i))
    {
      MarkersAre(i);
      Compose(false, body, args[..i], Markers(i), args[i], Marker(i));
      template := ReplaceWord(template, args[i], Marker(i));
      assert args[..i + 1] == args[..i] + [args[i]] && Markers(i + 1) == Markers(i) + [Marker(i)];
      i := i + 1;
    }
    assert args[..i] == args;
    count := |args|;
  }

  lemma NoNames(inWord: bool, s: string)
    ensures Subst(inWord, s, [], []) == s
    decreases |s|
  {
    if s != "" && !IsNotId(s[0]) && !inWord {
      NoNames(true, s[WordLength(s)..]);
    }
  }

  lemma MarkersAre(n: nat)
    ensures forall k :: 0 <= k < n ==> IsMarker(Markers(n)[k])
    ensures IsMarker(Marker(n)) && !IsNotId(Marker(n)[|Marker(n)| - 1])
  {
    forall k: nat
      ensures IsMarker(Marker(k))
    {
      assert Marker(k)[1..] == Decimal(k);
    }
  }

  // ----- filling in the actuals -----

  /** `str.replace`: all occurrences of the pattern, from left to right. */
  function Replace(s: string, pattern: string, value: string): string
    requires pattern != ""
    decreases |s|
  {
    if s == "" then ""
    else if pattern <= s then value + Replace(s[|pattern|..], pattern, value)
    else [s[0]] + Replace(s[1..], pattern, value)
  }

  /** The loop of the expansion: `$0`, `$1`, … replaced one after another. */
  function Fill(template: string, actuals: seq<string>, n: nat): string
    requires n <= |actuals|
  {
    if n == 0 then template else Replace(Fill(template, actuals, n - 1), Marker(n - 1), actuals[n - 1])
  }

  function Lead(k: nat): (d: nat)
    ensures d < 10 && d <= k
    ensures Decimal(k)[0] == '0' + d as char
  {
    if k < 10 then k else Lead(k / 10)
  }

  /** What the expansion puts in place of parameter `k`: from ten parameters on, the actual of the leading digit. */
  function Garbled(actuals: seq<string>, k: nat): string
    requires k < |actuals|
  {
    actuals[Lead(k)] + Decimal(k)[1..]
  }

  /** The texts in place of the parameters after `n` replacements. */
  function Stage(actuals: seq<string>, n: nat): (vs: seq<string>)
    ensures |vs| == |actuals|
    ensures forall k :: 0 <= k < |actuals| ==> vs[k] == if Lead(k) < n then Garbled(actuals, k) else Marker(k)
  {
    seq(|actuals|, k requires 0 <= k < |actuals| => if Lead(k) < n then Garbled(actuals, k) else Marker(k))
  }

  lemma {:induction false} ReplacePlain(p: string, x: string, pattern: string, value: string)
    requires Plain(p) && pattern != "" && pattern[0] == '$'
    ensures Replace(p + x, pattern, value) == p + Replace(x, pattern, value)
  {
    if p == "" {
      assert p + x == x;
    } else {
      assert (p + x)[1..] == p[1..] + x && (p + x)[0] != pattern[0];
      ReplacePlain(p[1..], x, pattern, value);
    }
  }

  /** No occurrence of a marker runs from `x` into a text that goes on with neither a word nor a `$`. */
  lemma {:induction false} ReplaceAcross(x: string, y: string, pattern: string, value: string)
    requires pattern != "" && pattern[0] == '$' && AllId(pattern[1..]) && AtBoundary(y) && (y != "" ==> y[0] != '$')
    ensures Replace(x + y, pattern, value) == Replace(x, pattern, value) + Replace(y, pattern, value)
    decreases |x|
  {
    if x == "" {
      assert x + y == y;
    } else if pattern <= x {
      assert (x + y)[|pattern|..] == x[|pattern|..] + y;
      ReplaceAcross(x[|pattern|..], y, pattern, value);
    } else {
      assert !(pattern <= x + y) by { NotAcross(x, y, pattern); }
      assert (x + y)[1..] == x[1..] + y;
      ReplaceAcross(x[1..], y, pattern, value);
    }
  }

  lemma NotAcross(x: string, y: string, pattern: string)
    requires x != "" && pattern != "" && AllId(pattern[1..]) && AtBoundary(y) && !(pattern <= x)
    ensures !(pattern <= x + y)
  {
    if |x| < |pattern| && y != "" {
      assert pattern[|x|] == pattern[1..][|x| - 1];
      assert (x + y)[|x|] == y[0];
    }
  }

  /** Replacing a marker in a substituted text replaces it in each of the values. */
  lemma {:induction false} ReplaceInSubst(inWord: bool, s: string, names: seq<string>, vs: seq<string>, ws: seq<string>,
                                          pattern: string, value: string)
    requires |names| == |vs| == |ws| && Plain(s) && pattern != "" && pattern[0] == '$' && AllId(pattern[1..])
    requires forall k :: 0 <= k < |vs| ==> ws[k] == Replace(vs[k], pattern, value)
    ensures Replace(Subst(inWord, s, names, vs), pattern, value) == Subst(inWord, s, names, ws)
    decreases |s|
  {
    if s == "" {
    } else if IsNotId(s[0]) || inWord {
      var next := !IsNotId(s[0]);
      ReplaceInSubst(next, s[1..], names, vs, ws, pattern, value);
      ReplacePlain([s[0]], Subst(next, s[1..], names, vs), pattern, value);
    } else {
      var n := WordLength(s);
      ReplaceInSubst(true, s[n..], names, vs, ws, pattern, value);
      SubstKeepsStart(s[n..], names, vs);
      ReplaceAcross(Lookup(s[..n], names, vs), Subst(true, s[n..], names, vs), pattern, value);
      LookupReplaced(s[..n], names, vs, ws, pattern, value);
    }
  }

  lemma SubstKeepsStart(s: string, names: seq<string>, values: seq<string>)
    requires |names| == |values| && AtBoundary(s)
    ensures var r := Subst(true, s, names, values); if s == "" then r == "" else r != "" && r[0] == s[0]
  {
  }

  lemma {:induction false} LookupReplaced(word: string, names: seq<string>, vs: seq<string>, ws: seq<string>,
                                          pattern: string, value: string)
    requires |names| == |vs| == |ws| && Plain(word) && pattern != "" && pattern[0] == '$'
    requires forall k :: 0 <= k < |vs| ==> ws[k] == Replace(vs[k], pattern, value)
    ensures Replace(Lookup(word, names, vs), pattern, value) == Lookup(word, names, ws)
  {
    if names == [] {
      ReplaceNothing(word, pattern, value);
    } else if names[0] != word {
      LookupReplaced(word, names[1..], vs[1..], ws[1..], pattern, value);
    }
  }

  lemma ReplaceNothing(p: string, pattern: string, value: string)
    requires Plain(p) && pattern != "" && pattern[0] == '$'
    ensures Replace(p, pattern, value) == p
  {
    ReplacePlain(p, "", pattern, value);
    assert p + "" == p;
  }

  /** What the first `n` replacements make of the marker of parameter `k`. */
  function Evolve(actuals: seq<string>, k: nat, n: nat): string
    requires n <= |actuals|
  {
    if n == 0 then Marker(k) else Replace(Evolve(actuals, k, n - 1), Marker(n - 1), actuals[n - 1])
  }

  function Evolved(actuals: seq<string>, n: nat): (vs: seq<string>)
    requires n <= |actuals|
    ensures |vs| == |actuals| && forall k :: 0 <= k < |vs| ==> vs[k] == Evolve(actuals, k, n)
  {
    seq(|actuals|, k requires 0 <= k < |actuals| => Evolve(actuals, k, n))
  }

  /** Whatever the actuals hold, each parameter is replaced by what the replacements make of its own marker. */
  lemma {:induction false} FillEvolves(body: string, params: seq<string>, actuals: seq<string>, n: nat)
    requires |params| == |actuals| && n <= |actuals| && Plain(body)
    ensures Fill(Subst(false, body, params, Markers(|params|)), actuals, n) ==
      Subst(false, body, params, Evolved(actuals, n))
  {
    hide Subst, Replace, Decimal;
    if n == 0 {
      assert Evolved(actuals, 0) == Markers(|params|);
    } else {
      FillEvolves(body, params, actuals, n - 1);
      MarkersAre(n - 1);
      ReplaceInSubst(false, body, params, Evolved(actuals, n - 1), Evolved(actuals, n), Marker(n - 1), actuals[n - 1]);
    }
  }

  lemma DecimalIsPlain(k: nat)
    ensures Plain(Decimal(k)) && Plain(Decimal(k)[1..])
  {
  }

  lemma MarkerReplaced(actuals: seq<string>, n: nat, k: nat)
    requires n < |actuals| && k < |actuals| && n <= Lead(k)
    ensures Replace(Marker(k), Marker(n), actuals[n]) == if Lead(k) == n then Garbled(actuals, k) else Marker(k)
  {
    hide Lead, Replace, Decimal, Plain;
    DecimalIsPlain(k);
    assert Marker(n) == ['$', '0' + n as char] by { OneDigit(n); }
    if Lead(k) == n {
      var rest := Decimal(k)[1..];
      assert Decimal(k) == [Decimal(k)[0]] + rest;
      assert Marker(k) == Marker(n) + rest;
      ReplaceHere(rest, Marker(n), actuals[n]);
      ReplaceNothing(rest, Marker(n), actuals[n]);
    } else {
      assert Marker(k) == ['$'] + Decimal(k);
      assert Marker(n)[1] == '0' + n as char && Marker(k)[1] == '0' + Lead(k) as char;
      ReplaceLater('$', Decimal(k), Marker(n), actuals[n]);
      ReplaceNothing(Decimal(k), Marker(n), actuals[n]);
    }
  }

  lemma OneDigit(n: nat)
    requires n < 10
    ensures Decimal(n) == ['0' + n as char]
  {
  }

  lemma ReplaceHere(x: string, pattern: string, value: string)
    requires pattern != ""
    ensures Replace(pattern + x, pattern, value) == value + Replace(x, pattern, value)
  {
    assert (pattern + x)[|pattern|..] == x;
  }

  lemma ReplaceLater(c: char, x: string, pattern: string, value: string)
    requires pattern != "" && !(pattern <= [c] + x)
    ensures Replace([c] + x, pattern, value) == [c] + Replace(x, pattern, value)
  {
    assert ([c] + x)[1..] == x;
  }

  /** Until the replacement for its leading digit a marker stays. */
  lemma {:induction false} MarkerStays(actuals: seq<string>, k: nat, n: nat)
    requires k < |actuals| && n <= Lead(k)
    ensures Evolve(actuals, k, n) == Marker(k)
  {
    hide Lead, Replace, Decimal;
    if n > 0 {
      MarkerStays(actuals, k, n - 1);
      MarkerReplaced(actuals, n - 1, k);
    }
  }

  /** The replacement for the leading digit of a marker puts in that actual, and the other digits stay. */
  lemma MarkerGoes(actuals: seq<string>, k: nat)
    requires k < |actuals|
    ensures Evolve(actuals, k, Lead(k) + 1) == Garbled(actuals, k)
  {
    MarkerStays(actuals, k, Lead(k));
    MarkerReplaced(actuals, Lead(k), k);
  }

  lemma GarbledIsPlain(actuals: seq<string>, k: nat)
    requires k < |actuals| && Plain(actuals[Lead(k)])
    ensures Plain(Garbled(actuals, k))
  {
    hide Decimal;
    DecimalIsPlain(k);
  }

  lemma {:induction false} PlainStage(actuals: seq<string>, k: nat, n: nat)
    requires k < |actuals| && n <= |actuals| && forall i :: 0 <= i < |actuals| ==> Plain(actuals[i])
    ensures Evolve(actuals, k, n) == Stage(actuals, n)[k]
  {
    hide Lead, Replace, Decimal, Plain, Garbled;
    if n <= Lead(k) {
      MarkerStays(actuals, k, n);
    } else if n == Lead(k) + 1 {
      MarkerGoes(actuals, k);
    } else {
      PlainStage(actuals, k, n - 1);
      GarbledIsPlain(actuals, k);
      ReplaceNothing(Garbled(actuals, k), Marker(n - 1), actuals[n - 1]);
    }
  }

  /** What the sequence of replacements comes to for actuals without `$`, for any number of parameters. */
  lemma FillIs(body: string, params: seq<string>, actuals: seq<string>, n: nat)
    requires |params| == |actuals| && n <= |actuals| && Plain(body)
    requires forall i :: 0 <= i < |actuals| ==> Plain(actuals[i])
    ensures Fill(Subst(false, body, params, Markers(|params|)), actuals, n) ==
      Subst(false, body, params, Stage(actuals, n))
  {
    hide Subst, Fill, Evolve, Plain;
    FillEvolves(body, params, actuals, n);
    forall k | 0 <= k < |actuals|
      ensures Evolved(actuals, n)[k] == Stage(actuals, n)[k]
    {
      PlainStage(actuals, k, n);
    }
    assert Evolved(actuals, n) == Stage(actuals, n);
  }

  function AllGarbled(actuals: seq<string>): (vs: seq<string>)
    ensures |vs| == |actuals| && forall k :: 0 <= k < |vs| ==> vs[k] == Garbled(actuals, k)
  {
    Stage(actuals, |actuals|)
  }

  // ----- when that is what the macro means -----

  function FirstIndex(word: string, names: seq<string>): (i: nat)
    ensures i <= |names|
  {
    if names == [] || names[0] == word then 0 else 1 + FirstIndex(word, names[1..])
  }

  lemma {:induction false} LookupAt(word: string, names: seq<string>, values: seq<string>)
    requires |names| == |values|
    ensures var i := FirstIndex(word, names); Lookup(word, names, values) == if i < |names| then values[i] else word
  {
    if names != [] && names[0] != word { LookupAt(word, names[1..], values[1..]); }
  }

  /** The text uses a parameter beyond the tenth. */
  predicate UsesLate(inWord: bool, s: string, names: seq<string>)
    decreases |s|
  {
    if s == "" then false
    else if IsNotId(s[0]) then UsesLate(false, s[1..], names)
    else if inWord then UsesLate(true, s[1..], names)
    else 10 <= FirstIndex(s[..WordLength(s)], names) < |names| || UsesLate(true, s[WordLength(s)..], names)
  }

  lemma {:induction false} EarlyAgrees(inWord: bool, s: string, names: seq<string>, vs: seq<string>, ws: seq<string>)
    requires |names| == |vs| == |ws| && !UsesLate(inWord, s, names)
    requires forall k :: 0 <= k < |vs| && k < 10 ==> vs[k] == ws[k]
    ensures Subst(inWord, s, names, vs) == Subst(inWord, s, names, ws)
    decreases |s|
  {
    if s == "" {
    } else if IsNotId(s[0]) || inWord {
      EarlyAgrees(!IsNotId(s[0]), s[1..], names, vs, ws);
    } else {
      var n := WordLength(s);
      EarlyAgrees(true, s[n..], names, vs, ws);
      LookupAt(s[..n], names, vs);
      LookupAt(s[..n], names, ws);
    }
  }

  /** With empty actuals a late parameter leaves the other digits of its number behind. */
  lemma {:induction false} LateIsLonger(inWord: bool, s: string, names: seq<string>, none: seq<string>)
    requires |names| == |none| && forall k :: 0 <= k < |none| ==> none[k] == ""
    ensures |Subst(inWord, s, names, AllGarbled(none))| >= |Subst(inWord, s, names, none)|
    ensures UsesLate(inWord, s, names) ==>
      |Subst(inWord, s, names, AllGarbled(none))| > |Subst(inWord, s, names, none)|
    decreases |s|
  {
    if s == "" {
    } else if IsNotId(s[0]) || inWord {
      LateIsLonger(!IsNotId(s[0]), s[1..], names, none);
    } else {
      var n := WordLength(s);
      LateIsLonger(true, s[n..], names, none);
      LookupAt(s[..n], names, none);
      LookupAt(s[..n], names, AllGarbled(none));
    }
  }

  /**
   * Replacing the markers one after another is the simultaneous substitution of the actuals for the parameters, for all
   * actuals, exactly when the body uses none of the parameters beyond the tenth.
   */
  lemma FillIsSimultaneous(body: string, params: seq<string>)
    requires Plain(body)
    ensures !UsesLate(false, body, params) <==>
      forall actuals: seq<string> :: |actuals| == |params| && (forall i :: 0 <= i < |actuals| ==> Plain(actuals[i])) ==>
        Fill(Subst(false, body, params, Markers(|params|)), actuals, |actuals|) == Subst(false, body, params, actuals)
  {
    hide Subst, Fill, UsesLate;
    if UsesLate(false, body, params) {
      var none := seq(|params|, _ => "");
      FillIs(body, params, none, |none|);
      LateIsLonger(false, body, params, none);
    } else {
      forall actuals: seq<string> | |actuals| == |params| && forall i :: 0 <= i < |actuals| ==> Plain(actuals[i])
        ensures Fill(Subst(false, body, params, Markers(|params|)), actuals, |actuals|) ==
          Subst(false, body, params, actuals)
      {
        PlainIsUnmarked(actuals);
        FillUnmarked(body, params, actuals);
      }
    }
  }

  // ----- actuals that hold a `$` -----

  predicate Contains(s: string, pattern: string) {
    exists i :: 0 <= i <= |s| && pattern <= s[i..]
  }

  lemma {:induction false} ReplaceAbsent(s: string, pattern: string, value: string)
    requires pattern != "" && !Contains(s, pattern)
    ensures Replace(s, pattern, value) == s
  {
    if s != "" {
      assert s[0..] == s;
      forall i | 0 <= i <= |s[1..]|
        ensures !(pattern <= s[1..][i..])
      {
        assert s[1..][i..] == s[i + 1..];
      }
      ReplaceAbsent(s[1..], pattern, value);
    }
  }

  /** Leaving out all occurrences makes a text shorter exactly if there are any. */
  lemma {:induction false} ReplaceShortens(s: string, pattern: string)
    requires pattern != ""
    ensures |Replace(s, pattern, "")| <= |s|
    ensures Contains(s, pattern) ==> |Replace(s, pattern, "")| < |s|
    decreases |s|
  {
    if s == "" {
    } else if pattern <= s {
      ReplaceShortens(s[|pattern|..], pattern);
    } else {
      ReplaceShortens(s[1..], pattern);
      if Contains(s, pattern) {
        var i :| 0 <= i <= |s| && pattern <= s[i..];
        assert s[0..] == s;
        assert s[1..][i - 1..] == s[i..];
      }
    }
  }

  /** Actual `k` holds no marker that is replaced after its own. */
  predicate Unmarked(a: string, k: nat, n: nat) {
    forall d: nat :: k < d < n ==> !Contains(a, Marker(d))
  }

  lemma EarlyMarker(actuals: seq<string>, k: nat)
    requires k < |actuals| && k < 10
    ensures Evolve(actuals, k, k + 1) == actuals[k]
  {
    hide Decimal, Replace;
    MarkerGoes(actuals, k);
    OneDigit(k);
    assert Decimal(k)[1..] == "";
  }

  lemma {:induction false} UnmarkedStays(actuals: seq<string>, k: nat, n: nat)
    requires k < |actuals| && k < 10 && k < n <= |actuals| && Unmarked(actuals[k], k, n)
    ensures Evolve(actuals, k, n) == actuals[k]
  {
    hide Decimal, Replace, Contains;
    if n == k + 1 {
      EarlyMarker(actuals, k);
    } else {
      UnmarkedStays(actuals, k, n - 1);
      ReplaceAbsent(actuals[k], Marker(n - 1), actuals[n - 1]);
    }
  }

  /** Where all later actuals are empty, a marker is lost. */
  lemma {:induction false} MarkedShrinks(actuals: seq<string>, k: nat, n: nat)
    requires k < |actuals| && k < 10 && k < n <= |actuals| && forall i :: k < i < |actuals| ==> actuals[i] == ""
    ensures |Evolve(actuals, k, n)| <= |actuals[k]|
    ensures !Unmarked(actuals[k], k, n) ==> |Evolve(actuals, k, n)| < |actuals[k]|
  {
    hide Decimal, Replace, Contains;
    if n == k + 1 {
      EarlyMarker(actuals, k);
    } else {
      MarkedShrinks(actuals, k, n - 1);
      ReplaceShortens(Evolve(actuals, k, n - 1), Marker(n - 1));
      if Unmarked(actuals[k], k, n - 1) { UnmarkedStays(actuals, k, n - 1); }
    }
  }

  /** One of the first ten actuals survives, whatever the others are, exactly if it holds no marker of a later parameter. */
  lemma ActualSurvives(a: string, k: nat, n: nat)
    requires k < n && k < 10
    ensures (forall actuals: seq<string> :: |actuals| == n && actuals[k] == a ==> Evolve(actuals, k, n) == a) <==>
      Unmarked(a, k, n)
  {
    hide Unmarked, Evolve;
    if Unmarked(a, k, n) {
      forall actuals: seq<string> | |actuals| == n && actuals[k] == a
        ensures Evolve(actuals, k, n) == a
      {
        UnmarkedStays(actuals, k, n);
      }
    } else {
      var actuals := seq(n, i => if i == k then a else "");
      MarkedShrinks(actuals, k, n);
    }
  }

  ghost predicate AllUnmarked(actuals: seq<string>) {
    forall k :: 0 <= k < |actuals| && k < 10 ==> Unmarked(actuals[k], k, |actuals|)
  }

  /** Actuals that all survive are substituted for the parameters all at once. */
  lemma FillUnmarked(body: string, params: seq<string>, actuals: seq<string>)
    requires |params| == |actuals| && Plain(body) && !UsesLate(false, body, params) && AllUnmarked(actuals)
    ensures Fill(Subst(false, body, params, Markers(|params|)), actuals, |actuals|) == Subst(false, body, params, actuals)
  {
    hide Subst, Fill, UsesLate, Unmarked, Evolve;
    var n := |actuals|;
    FillEvolves(body, params, actuals, n);
    forall k | 0 <= k < n && k < 10
      ensures Evolved(actuals, n)[k] == actuals[k]
    {
      UnmarkedStays(actuals, k, n);
    }
    EarlyAgrees(false, body, params, Evolved(actuals, n), actuals);
  }

  lemma PlainIsUnmarked(actuals: seq<string>)
    requires forall i :: 0 <= i < |actuals| ==> Plain(actuals[i])
    ensures AllUnmarked(actuals)
  {
    hide Decimal;
    forall k, d: nat | 0 <= k < |actuals| && k < d < |actuals|
      ensures !Contains(actuals[k], Marker(d))
    {
      PlainHoldsNone(actuals[k], Marker(d));
    }
  }

  lemma PlainHoldsNone(a: string, pattern: string)
    requires Plain(a) && pattern != "" && pattern[0] == '$'
    ensures !Contains(a, pattern)
  {
    forall i | 0 <= i <= |a|
      ensures !(pattern <= a[i..])
    {
      assert i < |a| ==> a[i..][0] == a[i];
    }
  }

  /** An actual that holds a `$` can be mistaken for a marker. */
  lemma DollarExample()
    ensures Fill(Subst(false, "a", ["a", "b"], Markers(2)), ["$1", "x"], 2) == "x" 
    ensures Subst(false, "a", ["a", "b"], ["$1", "x"]) == "$1"
  {
  }
}
