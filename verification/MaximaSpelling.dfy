// The tokens of Maxima's replies read off the text itself: no rule numbers, no token codes.

module MaximaSpelling {
  import opened ScannerAutomaton
  import opened LexicalRules
  import opened ParserTables
  import opened MaximaGrammar
  import opened MaximaLexer

  // ----- how symbols are spelled -----

  function LowerChar(c: char): char { if 'A' <= c <= 'Z' then (c as int + 32) as char else c }

  function Lowered(s: string): (l: string)
    ensures |l| == |s| && forall i :: 0 <= i < |s| ==> l[i] == LowerChar(s[i])
  {
    seq(|s|, i requires 0 <= i < |s| => LowerChar(s[i]))
  }

  /** The symbols that are always spelled alike, apart from case. */
  function Fixed(symbol: int): string {
    match symbol
    case 5 => "<="
    case 6 => ">="
    case 7 => "true"
    case 8 => "false"
    case 9 => "equal"
    case 10 => "floor"
    case 11 => "ceiling"
    case 12 => "if"
    case 13 => "then"
    case 14 => "else"
    case 18 => "or"
    case 19 => "and"
    case 20 => "="
    case 21 => "<"
    case 22 => ">"
    case 23 => "-"
    case 24 => "+"
    case 25 => "*"
    case 26 => "/"
    case 27 => "^"
    case 29 => "["
    case 30 => "]"
    case 31 => "("
    case 32 => ")"
    case 33 => ","
    case _ => ""
  }

  const KEYWORDS := {"true", "false", "equal", "floor", "ceiling", "if", "then", "else", "or", "and"}

  predicate Digit(c: char) { '0' <= c <= '9' }

  predicate Letter(c: char) { 'a' <= LowerChar(c) <= 'z' || c == '_' }

  predicate DigitText(s: string) { s != "" && forall i :: 0 <= i < |s| ==> Digit(s[i]) }

  predicate NameText(s: string) { s != "" && Letter(s[0]) && forall i :: 1 <= i < |s| ==> Letter(s[i]) || Digit(s[i]) }

  /** Digits, a point and digits. */
  predicate PointText(s: string, k: int) {
    0 <= k < |s| && s[k] == '.' && DigitText(s[..k]) && DigitText(s[k + 1..])
  }

  /** The same with a negative exponent from `m` on. */
  predicate ExponentText(s: string, k: int, m: nat) {
    m + 2 <= |s| && PointText(s[..m], k) && Lowered(s[m..m + 2]) == "e-" && DigitText(s[m + 2..])
  }

  ghost predicate FloatText(s: string) {
    (exists k :: PointText(s, k)) || exists k, m: nat :: ExponentText(s, k, m)
  }

  /** `(%o12) ` or `(%i12) ` with the blank behind it. */
  predicate PromptText(s: string, c: char) {
    5 < |s| && s[..2] == "(%" && LowerChar(s[2]) == c && DigitText(s[3..|s| - 2]) && s[|s| - 2..] == ") "
  }

  ghost predicate SpelledAs(symbol: int, s: string) {
    if symbol == IPROMPT then PromptText(s, 'i')
    else if symbol == OPROMPT then PromptText(s, 'o')
    else if symbol == 15 then NameText(s) && Lowered(s) !in KEYWORDS
    else if symbol == 16 then DigitText(s)
    else if symbol == 17 then FloatText(s)
    else s != "" && Lowered(s) == Fixed(symbol)
  }

  // ----- matching as spelling -----

  lemma TextSlice(text: seq<Byte>, i: int, j: int)
    requires 0 <= i <= j <= |text|
    ensures Text(text[i..j]) == Text(text)[i..j]
    ensures Text(text[..i]) == Text(text)[..i] && Text(text[i..]) == Text(text)[i..]
    ensures Text(text[..j]) == Text(text)[..j] && Text(text[j..]) == Text(text)[j..]
  {
  }

  lemma {:induction false} WordMatches(w: string, text: seq<Byte>)
    ensures Matches(Word(w), text) <==> Lowered(Text(text)) == w
  {
    if w != "" && text != [] {
      WordMatches(w[1..], text[1..]);
      TextSlice(text, 1, |text|);
      var l := Lowered(Text(text));
      assert Lowered(Text(text[1..])) == l[1..];
      assert l == [l[0]] + l[1..] && w == [w[0]] + w[1..];
      assert Word(w)[1..] == Word(w[1..]);
    }
  }

  lemma {:induction false} ManyMatches(cs: Chars, text: seq<Byte>)
    ensures Matches([Piece.Many(cs)], text) <==> forall i :: 0 <= i < |text| ==> Has(cs, text[i])
    decreases |text|
  {
    hide Has;
    assert [Piece.Many(cs)][1..] == [];
    if text != [] {
      ManyMatches(cs, text[1..]);
      assert forall i :: 0 <= i < |text| ==> text[i] == if i == 0 then text[0] else text[1..][i - 1];
    }
  }

  lemma SomeMatches(first: Chars, more: Chars, text: seq<Byte>)
    ensures Matches(Some(first, more), text) <==>
      text != [] && Has(first, text[0]) && forall i :: 1 <= i < |text| ==> Has(more, text[i])
  {
    hide Has;
    assert Some(first, more)[1..] == [Piece.Many(more)];
    if text != [] {
      ManyMatches(more, text[1..]);
      assert forall i :: 1 <= i < |text| ==> text[i] == text[1..][i - 1];
    }
  }

  lemma DigitsMatch(text: seq<Byte>)
    ensures Matches(Some(Digits, Digits), text) <==> DigitText(Text(text))
    ensures Pattern(17) == Some(Digits, Digits)
  {
    SomeMatches(Digits, Digits, text);
    assert forall i :: 0 <= i < |text| ==> (Digit(Text(text)[i]) <==> Has(Digits, text[i]));
  }

  lemma NameMatches(text: seq<Byte>)
    ensures Matches(Pattern(20), text) <==> NameText(Text(text))
  {
    SomeMatches(Letters, WordChars, text);
    var s := Text(text);
    assert text != [] ==> (Letter(s[0]) <==> Has(Letters, text[0]));
    assert forall i :: 0 <= i < |text| ==> (Letter(s[i]) || Digit(s[i]) <==> Has(WordChars, text[i]));
  }

  ghost predicate MatchAt(ps: seq<Piece>, qs: seq<Piece>, text: seq<Byte>, k: int) {
    0 <= k <= |text| && Matches(ps, text[..k]) && Matches(qs, text[k..])
  }

  lemma {:induction false} SplitsAt(ps: seq<Piece>, qs: seq<Piece>, text: seq<Byte>) returns (k: int)
    requires Matches(ps + qs, text)
    ensures MatchAt(ps, qs, text, k)
    decreases |ps|, |text|
  {
    hide Has;
    if ps == [] {
      k := 0;
      assert ps + qs == qs;
    } else {
      assert (ps + qs)[1..] == ps[1..] + qs;
      if ps[0].Many? && Matches((ps + qs)[1..], text) {
        k := SplitsAt(ps[1..], qs, text);
      } else {
        k := SplitsAt(if ps[0].One? then ps[1..] else ps, qs, text[1..]);
        k := k + 1;
        assert text[..k][1..] == text[1..][..k - 1] && text[1..][k - 1..] == text[k..];
      }
    }
  }

  lemma {:induction false} Joins(ps: seq<Piece>, qs: seq<Piece>, text: seq<Byte>, k: int)
    requires MatchAt(ps, qs, text, k)
    ensures Matches(ps + qs, text)
    decreases |ps|, |text|
  {
    hide Has;
    if ps == [] {
      assert ps + qs == qs && text[k..] == text;
    } else {
      assert (ps + qs)[1..] == ps[1..] + qs;
      if ps[0].Many? && Matches(ps[1..], text[..k]) {
        Joins(ps[1..], qs, text, k);
      } else {
        assert text[..k][1..] == text[1..][..k - 1] && text[1..][k - 1..] == text[k..];
        Joins(if ps[0].One? then ps[1..] else ps, qs, text[1..], k - 1);
      }
    }
  }

  lemma PointMatches(text: seq<Byte>)
    ensures Matches(Pattern(18), text) <==> exists k :: PointText(Text(text), k)
  {
    hide Matches, DigitText;
    var d := Some(Digits, Digits);
    if Matches(Pattern(18), text) {
      var k := PointAt(text);
    }
    if k :| PointText(Text(text), k) {
      PointJoins(text, k);
    }
  }

  lemma PointAt(text: seq<Byte>) returns (k: int)
    requires Matches(Pattern(18), text)
    ensures PointText(Text(text), k)
  {
    hide Matches, DigitText;
    var d := Some(Digits, Digits);
    var j := SplitsAt(d + Word("."), d, text);
    k := SplitsAt(d, Word("."), text[..j]);
    assert text[..j][..k] == text[..k] && text[..j][k..] == text[k..j];
    TextSlice(text, k, j);
    WordMatches(".", text[k..j]);
    DigitsMatch(text[..k]);
    DigitsMatch(text[j..]);
    assert |Lowered(Text(text[k..j]))| == 1 && Lowered(Text(text[k..j]))[0] == '.';
  }

  lemma PointJoins(text: seq<Byte>, k: int)
    requires PointText(Text(text), k)
    ensures Matches(Pattern(18), text)
  {
    hide Matches, DigitText;
    var d := Some(Digits, Digits);
    TextSlice(text, k, k + 1);
    DigitsMatch(text[..k]);
    DigitsMatch(text[k + 1..]);
    WordMatches(".", text[k..k + 1]);
    var front := text[..k + 1];
    assert front[..k] == text[..k] && front[k..] == text[k..k + 1];
    Joins(d, Word("."), front, k);
    Joins(d + Word("."), d, text, k + 1);
  }

  lemma FloatMatches(text: seq<Byte>)
    ensures Matches(Pattern(18), text) || Matches(Pattern(19), text) <==> FloatText(Text(text))
  {
    hide Matches, DigitText, PointText, Lowered;
    PointMatches(text);
    if Matches(Pattern(19), text) {
      var k, m := ExponentAt(text);
    }
    if k, m: nat :| ExponentText(Text(text), k, m) {
      ExponentJoins(text, k, m);
    }
  }

  lemma ExponentAt(text: seq<Byte>) returns (k: int, m: nat)
    requires Matches(Pattern(19), text)
    ensures ExponentText(Text(text), k, m)
  {
    hide Matches, DigitText, PointText, Lowered;
    var d := Some(Digits, Digits);
    var j := SplitsAt(Pattern(18) + Word("e-"), d, text);
    var front := text[..j];
    m := SplitsAt(Pattern(18), Word("e-"), front);
    assert front[..m] == text[..m] && front[m..] == text[m..j];
    TextSlice(text, m, j);
    WordMatches("e-", text[m..j]);
    DigitsMatch(text[j..]);
    PointMatches(text[..m]);
    k :| PointText(Text(text[..m]), k);
  }

  lemma ExponentJoins(text: seq<Byte>, k: int, m: nat)
    requires ExponentText(Text(text), k, m)
    ensures Matches(Pattern(19), text)
  {
    hide Matches, DigitText, PointText, Lowered;
    var d := Some(Digits, Digits);
    TextSlice(text, m, m + 2);
    PointMatches(text[..m]);
    DigitsMatch(text[m + 2..]);
    WordMatches("e-", text[m..m + 2]);
    var front := text[..m + 2];
    assert front[..m] == text[..m] && front[m..] == text[m..m + 2];
    Joins(Pattern(18), Word("e-"), front, m);
    Joins(Pattern(18) + Word("e-"), d, text, m + 2);
  }

  lemma PromptMatches(text: seq<Byte>, c: char)
    requires c == 'i' || c == 'o'
    ensures Matches(Pattern(if c == 'o' then 21 else 22), text) <==> PromptText(Text(text), c)
  {
    hide Matches, DigitText;
    if Matches(Pattern(if c == 'o' then 21 else 22), text) { PromptAt(text, c); }
    if PromptText(Text(text), c) { PromptJoins(text, c); }
  }

  lemma PromptAt(text: seq<Byte>, c: char)
    requires c == 'i' || c == 'o'
    requires Matches(Word(['(', '%', c]) + Some(Digits, Digits) + Word(") "), text)
    ensures PromptText(Text(text), c)
  {
    hide Matches, DigitText, Lowered, Word;
    var d := Some(Digits, Digits);
    var w := Word(['(', '%', c]);
    var j := SplitsAt(w + d, Word(") "), text);
    var front := text[..j];
    var k := SplitsAt(w, d, front);
    assert front[..k] == text[..k] && front[k..] == text[k..j];
    TextSlice(text, k, j);
    WordMatches(['(', '%', c], text[..k]);
    DigitsMatch(text[k..j]);
    WordMatches(") ", text[j..]);
    var s := Text(text);
    ThreeLowered(s[..k], c);
    TwoLowered(s[j..]);
    NotEmpty(s[3..j]);
  }

  lemma ThreeLowered(s: string, c: char)
    requires Lowered(s) == ['(', '%', c]
    ensures |s| == 3 && s[..2] == "(%" && LowerChar(s[2]) == c
  {
    assert LowerChar(s[0]) == '(' && LowerChar(s[1]) == '%' && LowerChar(s[2]) == c;
  }

  lemma TwoLowered(s: string)
    requires Lowered(s) == ") "
    ensures s == ") "
  {
    assert |s| == 2 && LowerChar(s[0]) == ')' && LowerChar(s[1]) == ' ';
  }

  lemma NotEmpty(s: string)
    requires DigitText(s)
    ensures s != ""
  {
  }

  lemma PromptJoins(text: seq<Byte>, c: char)
    requires PromptText(Text(text), c)
    ensures Matches(Word(['(', '%', c]) + Some(Digits, Digits) + Word(") "), text)
  {
    hide Matches, DigitText;
    var d := Some(Digits, Digits);
    var w := Word(['(', '%', c]);
    var j := |text| - 2;
    TextSlice(text, 3, j);
    var s := Text(text);
    assert s[..3] == s[..2] + [s[2]];
    WordMatches(['(', '%', c], text[..3]);
    DigitsMatch(text[3..j]);
    WordMatches(") ", text[j..]);
    var front := text[..j];
    assert front[..3] == text[..3] && front[3..] == text[3..j];
    Joins(w, d, front, 3);
    Joins(w + d, Word(") "), text, j);
  }

  // ----- rules as spellings -----

  /** The first rule matches, and no rule before it does. */
  lemma {:induction false} FirstRuleIs(start: int, text: seq<Byte>, from: nat)
    requires 1 <= from
    ensures var r := FirstRule(start, text, from);
      (r == 0 || (from <= r <= RULES && Applies(start, r) && Matches(Pattern(r), text))) &&
      forall q :: from <= q <= RULES && (r == 0 || q < r) && Applies(start, q) ==> !Matches(Pattern(q), text)
    decreases RULES + 1 - from
  {
    hide Matches, Pattern, Applies;
    if from <= RULES && !(Applies(start, from) && Matches(Pattern(from), text)) { FirstRuleIs(start, text, from + 1); }
  }

  predicate Blank(c: char) { c == ' ' || c == '\r' || c == '\n' || c == '\t' }

  predicate BlankText(s: string) { s != "" && forall i :: 0 <= i < |s| ==> Blank(s[i]) }

  /** A word or an operator that the scanner looks for by its letters. */
  function FixedOf(r: int): string
    requires 4 <= r <= 15
  {
    match r
    case 4 => "<="
    case 5 => ">="
    case 6 => "true"
    case 7 => "false"
    case 8 => "equal"
    case 9 => "ceiling"
    case 10 => "floor"
    case 11 => "if"
    case 12 => "then"
    case 13 => "else"
    case 14 => "and"
    case _ => "or"
  }

  function SymbolOf(r: int, text: seq<Byte>): int
    requires text != []
  {
    Translate(Code(r, text))
  }

  lemma WordRule(r: int, text: seq<Byte>)
    requires 4 <= r <= 15 && text != []
    ensures Matches(Pattern(r), text) <==> Lowered(Text(text)) == FixedOf(r)
  {
    hide Matches, Lowered, Word;
    WordMatches(FixedOf(r), text);
  }

  lemma WordSymbol(r: int, text: seq<Byte>)
    requires 4 <= r <= 15 && text != []
    ensures Fixed(SymbolOf(r, text)) == FixedOf(r) != "" && SymbolOf(r, text) > 4 && !(15 <= SymbolOf(r, text) <= 17)
  {
  }

  lemma MarkRule(text: seq<Byte>)
    requires text != []
    ensures Matches(Pattern(16), text) <==> |text| == 1 && IsMark(text[0])
  {
    if |text| == 1 { assert text[1..] == []; }
  }

  lemma BlankRule(text: seq<Byte>)
    ensures Matches(Pattern(3), text) <==> BlankText(Text(text))
  {
    SomeMatches(Blanks, Blanks, text);
    assert forall i :: 0 <= i < |text| ==> (Blank(Text(text)[i]) <==> Has(Blanks, text[i]));
  }

  lemma MarkSymbol(text: seq<Byte>)
    requires |text| == 1 && IsMark(text[0]) && text[0] != '\n' as int
    ensures SpelledAs(SymbolOf(16, text), Text(text))
  {
    var l := Lowered(Text(text));
    assert l == [text[0] as char];
  }

  /** A rule that returns a token returns the symbol that the text spells. */
  lemma RuleSpells(text: seq<Byte>)
    requires text != [] && 4 <= FirstRule(OUTPUT_START, text) <= 22
    ensures Code(FirstRule(OUTPUT_START, text), text) != 0
    ensures SpelledAs(SymbolOf(FirstRule(OUTPUT_START, text), text), Text(text))
  {
    hide Matches, Pattern, FirstRule, NameText, DigitText, FloatText, PromptText, Fixed, FixedOf, SymbolOf;
    var r := FirstRule(OUTPUT_START, text);
    FirstRuleIs(OUTPUT_START, text, 1);
    if r <= 15 {
      WordRule(r, text);
      WordSymbol(r, text);
    } else if r == 16 {
      MarkRule(text);
      BlankRule(text);
      MarkSymbol(text);
    } else if r == 17 {
      DigitsMatch(text);
    } else if r == 18 || r == 19 {
      FloatMatches(text);
    } else if r == 20 {
      NoKeyword(text);
    } else {
      PromptMatches(text, if r == 21 then 'o' else 'i');
    }
    SymbolsOfTheRest(text);
  }

  lemma SymbolsOfTheRest(text: seq<Byte>)
    requires text != []
    ensures SymbolOf(17, text) == 16 && SymbolOf(18, text) == SymbolOf(19, text) == 17 && SymbolOf(20, text) == 15
    ensures SymbolOf(21, text) == OPROMPT && SymbolOf(22, text) == IPROMPT
  {
  }

  lemma NoKeyword(text: seq<Byte>)
    requires text != [] && FirstRule(OUTPUT_START, text) == 20
    ensures NameText(Text(text)) && Lowered(Text(text)) !in KEYWORDS
  {
    hide Matches, Pattern, FirstRule, NameText;
    FirstRuleIs(OUTPUT_START, text, 1);
    NameMatches(text);
    forall r | 6 <= r <= 15
      ensures Lowered(Text(text)) != FixedOf(r)
    {
      WordRule(r, text);
    }
    assert FixedOf(6) == "true" && FixedOf(7) == "false" && FixedOf(8) == "equal" && FixedOf(9) == "ceiling";
    assert FixedOf(10) == "floor" && FixedOf(11) == "if" && FixedOf(12) == "then" && FixedOf(13) == "else";
    assert FixedOf(14) == "and" && FixedOf(15) == "or";
  }

  // ----- spellings as rules -----

  /** What a fixed spelling looks like. */
  predicate FixedShape(w: string) {
    w != "" && (w[0] == '(' ==> |w| == 1) && !Digit(w[0]) && !Blank(w[0]) && (Letter(w[0]) ==> w in KEYWORDS) &&
    if |w| == 1 then w[0] as int < 256 && IsMark(w[0] as int) && LowerChar(w[0]) == w[0]
    else exists r :: 4 <= r <= 15 && FixedOf(r) == w
  }

  lemma FixedLooks(symbol: int)
    requires Fixed(symbol) != ""
    ensures FixedShape(Fixed(symbol))
  {
    assert FixedOf(4) == "<=" && FixedOf(5) == ">=" && FixedOf(6) == "true" && FixedOf(7) == "false";
    assert FixedOf(8) == "equal" && FixedOf(9) == "ceiling" && FixedOf(10) == "floor" && FixedOf(11) == "if";
    assert FixedOf(12) == "then" && FixedOf(13) == "else" && FixedOf(14) == "and" && FixedOf(15) == "or";
  }

  lemma FixedOnce(a: int, b: int)
    requires Fixed(a) == Fixed(b) != ""
    ensures a == b
  {
  }

  predicate Varies(symbol: int) { symbol == IPROMPT || symbol == OPROMPT || 15 <= symbol <= 17 }

  lemma DigitAt(s: string, i: int)
    requires DigitText(s) && 0 <= i < |s|
    ensures Digit(s[i])
  {
  }

  /** A float starts with a digit and holds a point. */
  lemma FloatLooks(s: string)
    requires FloatText(s)
    ensures s != "" && Digit(s[0]) && exists k :: 0 <= k < |s| && s[k] == '.'
  {
    hide Lowered, DigitText;
    if k :| PointText(s, k) {
      NotEmpty(s[..k]);
      DigitAt(s[..k], 0);
    } else {
      var k, m: nat :| ExponentText(s, k, m);
      NotEmpty(s[..m][..k]);
      DigitAt(s[..m][..k], 0);
      assert s[k] == '.';
    }
  }

  /** What the first character tells of the kinds of spelling. */
  lemma Looks(symbol: int, s: string)
    requires SpelledAs(symbol, s)
    ensures s != "" && !Blank(s[0])
    ensures symbol == IPROMPT || symbol == OPROMPT ==> s[0] == '(' && |s| > 5
    ensures symbol == 15 ==> Letter(s[0])
    ensures symbol == 16 || symbol == 17 ==> Digit(s[0])
    ensures !Varies(symbol) ==> FixedShape(Lowered(s)) && Lowered(s) == Fixed(symbol)
    ensures !Varies(symbol) ==> (s[0] == '(' ==> |s| == 1) && !Digit(s[0]) && (Letter(s[0]) ==> Lowered(s) in KEYWORDS)
  {
    hide Fixed, FixedShape, FloatText, KEYWORDS;
    if symbol == 17 {
      FloatLooks(s);
    } else if !Varies(symbol) {
      FixedLooks(symbol);
      FixedStart(s);
    } else if symbol <= 4 {
      assert s[..2][0] == '(';
    }
  }

  lemma FixedStart(s: string)
    requires s != "" && FixedShape(Lowered(s))
    ensures !Blank(s[0]) && (s[0] == '(' ==> |s| == 1) && !Digit(s[0]) && (Letter(s[0]) ==> Lowered(s) in KEYWORDS)
  {
    hide KEYWORDS;
    assert Lowered(s)[0] == LowerChar(s[0]);
  }

  /** No text spells two symbols. */
  lemma OneSymbol(a: int, b: int, s: string)
    requires SpelledAs(a, s) && SpelledAs(b, s)
    ensures a == b
  {
    hide Fixed, FixedShape, FloatText, KEYWORDS, NameText, Lowered;
    Looks(a, s);
    Looks(b, s);
    if a == 17 || b == 17 { FloatLooks(s); }
    if !Varies(a) && !Varies(b) { FixedOnce(a, b); }
  }

  lemma SpellingMatches(symbol: int, text: seq<Byte>) returns (r: int)
    requires SpelledAs(symbol, Text(text))
    ensures text != [] && 4 <= r <= 22 && Matches(Pattern(r), text)
  {
    hide Matches, Pattern, Fixed, FixedOf, FloatText, NameText, DigitText, PromptText;
    Looks(symbol, Text(text));
    r := 16;
    if symbol == IPROMPT || symbol == OPROMPT {
      r := if symbol == IPROMPT then 22 else 21;
      PromptMatches(text, if symbol == IPROMPT then 'i' else 'o');
    } else if symbol == 15 {
      r := 20;
      NameMatches(text);
    } else if symbol == 16 {
      r := 17;
      DigitsMatch(text);
    } else if symbol == 17 {
      FloatMatches(text);
      r := if Matches(Pattern(18), text) then 18 else 19;
    } else {
      r := FixedMatches(text);
    }
  }

  lemma FixedMatches(text: seq<Byte>) returns (r: int)
    requires text != [] && FixedShape(Lowered(Text(text)))
    ensures 4 <= r <= 16 && Matches(Pattern(r), text)
  {
    hide Matches, Pattern, FixedOf, KEYWORDS;
    var w := Lowered(Text(text));
    if |w| == 1 {
      r := 16;
      MarkRule(text);
      assert w[0] == LowerChar(text[0] as char);
    } else {
      r :| 4 <= r <= 15 && FixedOf(r) == w;
      WordRule(r, text);
    }
  }

  /** In the output condition the first rule that matches the spelling of a symbol returns that symbol. */
  lemma SpelledIsToken(symbol: int, text: seq<Byte>)
    requires SpelledAs(symbol, Text(text))
    ensures text != [] && 4 <= FirstRule(OUTPUT_START, text) <= 22
    ensures SymbolOf(FirstRule(OUTPUT_START, text), text) == symbol
  {
    hide Matches, Pattern, FirstRule, SpelledAs, SymbolOf;
    var q := SpellingMatches(symbol, text);
    FirstRuleIs(OUTPUT_START, text, 1);
    Looks(symbol, Text(text));
    BlankRule(text);
    RuleSpells(text);
    OneSymbol(symbol, SymbolOf(FirstRule(OUTPUT_START, text), text), Text(text));
  }

  // ----- the tokens of a text -----

  /** What is a token: between the prompts of an output everything that spells a symbol, elsewhere only prompts. */
  ghost predicate Lexeme(output: bool, s: string) {
    PromptText(s, 'i') || PromptText(s, 'o') || (output && exists symbol :: SpelledAs(symbol, s))
  }

  /** No token longer than `m` begins here. */
  ghost predicate NoLexeme(output: bool, s: string, m: nat) {
    forall k :: m < k <= |s| ==> !Lexeme(output, s[..k])
  }

  /** The first `n` characters are passed over: blanks in an output, elsewhere all that begins no prompt. */
  ghost predicate Skipped(output: bool, s: string, n: nat) {
    n <= |s| && forall i :: 0 <= i < n ==> if output then Blank(s[i]) else NoLexeme(false, s[i..], 0)
  }

  /** Behind `n` characters passed over follows the text `t`, and no longer text that is a token. */
  ghost predicate TokenAt(output: bool, s: string, n: nat, t: string) {
    Skipped(output, s, n) && t <= s[n..] && Lexeme(output, t) && NoLexeme(output, s[n..], |t|)
  }

  ghost predicate FirstToken(output: bool, s: string, t: string) { exists n: nat :: TokenAt(output, s, n, t) }

  /** Nothing more is a token: the text ends or goes on with what spells no symbol. */
  ghost predicate Last(output: bool, s: string, n: nat, complete: bool) {
    Skipped(output, s, n) && (complete <==> n == |s|) && (complete || (output && !Blank(s[n]) && NoLexeme(output, s[n..], 0)))
  }

  predicate OutputAfter(output: bool, t: string) { PromptText(t, 'o') || (output && !PromptText(t, 'i')) }

  /** A text read from left to right, its longest tokens first, said without rules, conditions or codes. */
  ghost predicate Cuts(output: bool, s: string, texts: seq<string>, complete: bool)
    decreases |texts|, 1
  {
    if texts == [] then exists n: nat :: Last(output, s, n, complete)
    else exists n: nat :: CutsAt(output, s, n, texts, complete)
  }

  /** The first token stands behind `n` characters. */
  ghost predicate CutsAt(output: bool, s: string, n: nat, texts: seq<string>, complete: bool)
    requires texts != []
    decreases |texts|, 0
  {
    TokenAt(output, s, n, texts[0]) && Cuts(OutputAfter(output, texts[0]), s[n + |texts[0]|..], texts[1..], complete)
  }

  function Texts(ts: seq<Token>): (ss: seq<string>)
    ensures |ss| == |ts| && forall i :: 0 <= i < |ts| ==> ss[i] == ts[i].text
  {
    seq(|ts|, i requires 0 <= i < |ts| => ts[i].text)
  }

  /** Every token carries the symbol that its text spells. */
  ghost predicate Spelled(ts: seq<Token>) {
    forall i :: 0 <= i < |ts| ==> SpelledAs(ts[i].Symbol(), ts[i].text)
  }

  function StartOf(output: bool): int { if output then OUTPUT_START else INITIAL_START }

  /** A prompt is told from all other spellings by its rule. */
  lemma PromptRule(output: bool, text: seq<Byte>, c: char)
    requires (c == 'i' || c == 'o') && PromptText(Text(text), c)
    ensures FirstRule(StartOf(output), text) == if c == 'o' then 21 else 22
  {
    hide Matches, Pattern, FirstRule, PromptText, SymbolOf;
    var symbol := if c == 'o' then OPROMPT else IPROMPT;
    assert SpelledAs(symbol, Text(text));
    SpelledIsToken(symbol, text);
    RuleSpells(text);
    PromptSymbol(FirstRule(OUTPUT_START, text), text);
    if !output {
      InitialPrompt(text, c);
    }
  }

  lemma PromptSymbol(r: int, text: seq<Byte>)
    requires text != [] && 4 <= r <= 22
    requires Code(r, text) != 0
    ensures SymbolOf(r, text) == OPROMPT <==> r == 21
    ensures SymbolOf(r, text) == IPROMPT <==> r == 22
  {
  }

  lemma InitialPrompt(text: seq<Byte>, c: char)
    requires (c == 'i' || c == 'o') && PromptText(Text(text), c)
    ensures FirstRule(INITIAL_START, text) == if c == 'o' then 21 else 22
  {
    hide Matches, FirstRule, FirstRule, DigitText;
    FirstRuleIs(INITIAL_START, text, 1);
    PromptMatches(text, c);
    SomeMatches(NoParens, NoParens, text);
    assert Text(text)[..2][0] == '(';
    assert text[1..] != [];
    OneMatches(NoNewline, text);
    if c == 'i' {
      PromptMatches(text, 'o');
    }
  }

  lemma OneMatches(cs: Chars, text: seq<Byte>)
    ensures Matches([Piece.One(cs)], text) <==> |text| == 1 && Has(cs, text[0])
  {
    hide Has;
    assert [Piece.One(cs)][1..] == [];
    if text != [] { assert Matches([], text[1..]) <==> text[1..] == []; }
  }

  lemma {:induction false} LongestIs(start: int, bytes: seq<Byte>, n: nat)
    requires n <= |bytes|
    ensures var m := LongestMatch(start, bytes, n);
      (m == 0 || FirstRule(start, bytes[..m]) != 0) && forall k :: m < k <= n ==> FirstRule(start, bytes[..k]) == 0
  {
    hide FirstRule;
    if n > 0 { LongestIs(start, bytes, n - 1); }
  }

  lemma LexemeHasRule(output: bool, text: seq<Byte>)
    requires Lexeme(output, Text(text))
    ensures text != [] && 4 <= FirstRule(StartOf(output), text) <= 22
  {
    hide FirstRule, PromptText, SpelledAs;
    if PromptText(Text(text), 'i') {
      PromptRule(output, text, 'i');
      SpelledNotEmpty(IPROMPT, text);
    } else if PromptText(Text(text), 'o') {
      PromptRule(output, text, 'o');
      SpelledNotEmpty(OPROMPT, text);
    } else {
      var symbol :| SpelledAs(symbol, Text(text));
      SpelledIsToken(symbol, text);
    }
  }

  lemma SpelledNotEmpty(symbol: int, text: seq<Byte>)
    requires (symbol == IPROMPT && PromptText(Text(text), 'i')) || (symbol == OPROMPT && PromptText(Text(text), 'o'))
    ensures text != [] && text[0] == '(' as int && |text| > 5
  {
    assert Text(text)[..2][0] == '(';
  }

  lemma OutputStep(bytes: seq<Byte>, m: nat, r: int)
    requires bytes != [] && m == LongestMatch(OUTPUT_START, bytes, |bytes|) && r == FirstRule(OUTPUT_START, bytes[..m])
    ensures m > 0 && 3 <= r <= 23
    ensures r == 3 ==> Skipped(true, Text(bytes), m)
    ensures 4 <= r <= 22 ==> TokenAt(true, Text(bytes), 0, Text(bytes[..m]))
    ensures r == 23 ==> Last(true, Text(bytes), 0, false)
  {
    hide FirstRule, SpelledAs, Lexeme, NoLexeme, LongestMatch, SymbolOf, BlankText, Skipped, Last;
    var text, s := bytes[..m], Text(bytes);
    LongestIs(OUTPUT_START, bytes, |bytes|);
    OneByte(bytes[..1]);
    OutputRules(text);
    TextSlice(bytes, 0, m);
    LongestStops(true, bytes, m);
    SkipBlanks(s, m);
    if 4 <= r <= 22 {
      RuleSpells(text);
      SpelledLexeme(SymbolOf(r, text), s[..m]);
      assert s[0..] == s;
    } else if r == 23 {
      NoToken(text);
      NoTokenIsLast(s);
    }
  }

  lemma SkipBlanks(s: string, m: nat)
    requires m <= |s|
    ensures Skipped(true, s, 0) && (BlankText(s[..m]) ==> Skipped(true, s, m))
  {
    hide NoLexeme;
    assert forall i :: 0 <= i < m ==> s[i] == s[..m][i];
  }

  lemma NoTokenIsLast(s: string)
    requires s != "" && !BlankText(s[..1]) && !Lexeme(true, s[..1]) && NoLexeme(true, s, 1)
    ensures Last(true, s, 0, false)
  {
    hide Lexeme;
    assert s[0..] == s;
  }

  lemma OneByte(text: seq<Byte>)
    requires |text| == 1
    ensures FirstRule(OUTPUT_START, text) != 0 && FirstRule(INITIAL_START, text) != 0
  {
    hide Matches, FirstRule;
    FirstRuleIs(OUTPUT_START, text, 1);
    FirstRuleIs(INITIAL_START, text, 1);
    BlankRule(text);
    SomeMatches(NoParens, NoParens, text);
    OneMatches(NoNewline, text);
    assert if text[0] == '\n' as int then Matches(Pattern(3), text) && Matches(Pattern(1), text) else Matches(Pattern(2), text);
    assert Pattern(23) == Pattern(2);
  }

  /** In the output condition blanks come first, and what no other rule matches is a single character. */
  lemma OutputRules(text: seq<Byte>)
    requires text != []
    ensures var r := FirstRule(OUTPUT_START, text);
      (r == 0 || 3 <= r <= 23) && (r == 3 <==> BlankText(Text(text))) && (r == 23 ==> |text| == 1)
  {
    hide Matches, FirstRule, BlankText;
    FirstRuleIs(OUTPUT_START, text, 1);
    BlankRule(text);
    OneMatches(NoNewline, text);
    assert Pattern(23) == [Piece.One(NoNewline)];
  }

  lemma NoToken(text: seq<Byte>)
    requires text != [] && FirstRule(OUTPUT_START, text) == 23
    ensures !Lexeme(true, Text(text))
  {
    hide FirstRule, Lexeme;
    if Lexeme(true, Text(text)) { LexemeHasRule(true, text); }
  }

  /** Behind the longest match no longer token begins. */
  lemma LongestStops(output: bool, bytes: seq<Byte>, m: nat)
    requires m == LongestMatch(StartOf(output), bytes, |bytes|)
    ensures NoLexeme(output, Text(bytes), m)
  {
    hide FirstRule, Lexeme, LongestMatch;
    LongestIs(StartOf(output), bytes, |bytes|);
    var s := Text(bytes);
    forall k | m < k <= |s|
      ensures !Lexeme(output, s[..k])
    {
      TextSlice(bytes, 0, k);
      if Lexeme(output, s[..k]) { LexemeHasRule(output, bytes[..k]); }
    }
  }

  lemma SpelledLexeme(symbol: int, s: string)
    requires SpelledAs(symbol, s)
    ensures Lexeme(true, s)
  {
  }

  lemma InitialStep(bytes: seq<Byte>, m: nat, r: int)
    requires bytes != [] && m == LongestMatch(INITIAL_START, bytes, |bytes|) && r == FirstRule(INITIAL_START, bytes[..m])
    ensures m > 0 && r in {1, 2, 21, 22}
    ensures r <= 2 ==> Skipped(false, Text(bytes), m)
    ensures r == 21 || r == 22 ==> TokenAt(false, Text(bytes), 0, Text(bytes[..m]))
  {
    hide Matches, FirstRule, PromptText, SpelledAs, NoLexeme, LongestMatch;
    LongestIs(INITIAL_START, bytes, |bytes|);
    OneByte(bytes[..1]);
    InitialRules(bytes[..m]);
    if r <= 2 {
      InitialSkips(bytes, m, r);
    } else {
      TextSlice(bytes, 0, m);
      assert Text(bytes)[0..] == Text(bytes);
      LongestStops(false, bytes, m);
    }
  }

  lemma InitialRules(text: seq<Byte>)
    requires text != []
    ensures var r := FirstRule(INITIAL_START, text);
      r in {0, 1, 2, 21, 22} && (r == 1 ==> forall i :: 0 <= i < |text| ==> text[i] != '(' as int) && (r == 2 ==> |text| == 1)
    ensures FirstRule(INITIAL_START, text) == 21 ==> PromptText(Text(text), 'o')
    ensures FirstRule(INITIAL_START, text) == 22 ==> PromptText(Text(text), 'i')
  {
    hide Matches, FirstRule, PromptText, Pattern;
    FirstRuleIs(INITIAL_START, text, 1);
    OneMatches(NoNewline, text);
    PromptMatches(text, 'o');
    PromptMatches(text, 'i');
    SameRest();
    NoParenRule(text);
  }

  lemma SameRest()
    ensures Pattern(23) == Pattern(2) == [Piece.One(NoNewline)]
  {
  }

  lemma NoParenRule(text: seq<Byte>)
    ensures Matches(Pattern(1), text) ==> forall i :: 0 <= i < |text| ==> text[i] != '(' as int
  {
    hide Matches;
    SomeMatches(NoParens, NoParens, text);
  }

  lemma InitialSkips(bytes: seq<Byte>, m: nat, r: int)
    requires bytes != [] && m == LongestMatch(INITIAL_START, bytes, |bytes|) && r == FirstRule(INITIAL_START, bytes[..m])
    requires m > 0 && (r == 1 || r == 2)
    ensures Skipped(false, Text(bytes), m)
  {
    hide Matches, FirstRule, Lexeme, LongestMatch;
    var s := Text(bytes);
    InitialRules(bytes[..m]);
    LongestStops(false, bytes, m);
    LongestIs(INITIAL_START, bytes, |bytes|);
    forall i | 0 <= i < m
      ensures NoLexeme(false, s[i..], 0)
    {
      forall k | 0 < k <= |s[i..]|
        ensures !Lexeme(false, s[i..][..k])
      {
        assert s[i..][..k][0] == s[i] && s[i] as int == bytes[..m][i];
        assert r == 2 ==> s[i..][..k] == s[..k];
        if Lexeme(false, s[i..][..k]) { LexemeStart(s[i..][..k]); }
      }
    }
  }

  lemma LexemeStart(s: string)
    requires Lexeme(false, s)
    ensures |s| > 5 && s[0] == '('
  {
    assert s[..2][0] == '(';
  }

  lemma LastGrows(output: bool, s: string, m: nat, n: nat, complete: bool)
    requires Skipped(output, s, m) && Last(output, s[m..], n, complete)
    ensures Last(output, s, m + n, complete)
  {
    hide Lexeme, NoLexeme;
    LongerGap(output, s, m, n);
    assert s[m..][n..] == s[m + n..];
  }

  lemma NextGrows(output: bool, s: string, m: nat, n: nat, t: string)
    requires Skipped(output, s, m) && TokenAt(output, s[m..], n, t)
    ensures TokenAt(output, s, m + n, t) && s[m..][n + |t|..] == s[m + n + |t|..]
  {
    hide Lexeme, NoLexeme;
    LongerGap(output, s, m, n);
    assert s[m..][n..] == s[m + n..];
  }

  lemma NextFits(output: bool, s: string, n: nat, t: string)
    requires TokenAt(output, s, n, t)
    ensures n + |t| <= |s|
  {
  }

  /** Characters passed over join the gap before the next token. */
  lemma GapGrows(output: bool, s: string, m: nat, texts: seq<string>, complete: bool)
    requires Skipped(output, s, m) && Cuts(output, s[m..], texts, complete)
    ensures Cuts(output, s, texts, complete)
  {
    hide TokenAt, Last, OutputAfter;
    if texts == [] {
      var n: nat :| Last(output, s[m..], n, complete);
      LastGrows(output, s, m, n, complete);
    } else {
      var t := texts[0];
      var n: nat :| CutsAt(output, s[m..], n, texts, complete);
      NextGrows(output, s, m, n, t);
      NextFits(output, s, m + n, t);
      assert CutsAt(output, s, m + n, texts, complete);
    }
  }

  lemma LongerGap(output: bool, s: string, m: nat, n: nat)
    requires Skipped(output, s, m) && Skipped(output, s[m..], n)
    ensures Skipped(output, s, m + n)
  {
    hide NoLexeme;
    forall i | m <= i < m + n
      ensures if output then Blank(s[i]) else NoLexeme(false, s[i..], 0)
    {
      assert s[i] == s[m..][i - m] && s[i..] == s[m..][i - m..];
    }
  }

  lemma TokenFirst(output: bool, s: string, t: string, texts: seq<string>, complete: bool)
    requires TokenAt(output, s, 0, t) && Cuts(OutputAfter(output, t), s[|t|..], texts, complete)
    ensures Cuts(output, s, [t] + texts, complete)
  {
    hide Lexeme, NoLexeme, Skipped, OutputAfter;
    var all := [t] + texts;
    assert all[0] == t && all[1..] == texts && s[0 + |t|..] == s[|t|..];
    assert CutsAt(output, s, 0, all, complete);
  }

  /** The tokens of a stream are the longest tokens of its text, and each carries the symbol that it spells. */
  lemma {:induction false} TokensAreCut(output: bool, bytes: seq<Byte>)
    ensures var scan := Tokens(StartOf(output), bytes);
      Cuts(output, Text(bytes), Texts(scan.tokens), scan.complete) && Spelled(scan.tokens)
    decreases |bytes|
  {
    hide FirstRule, LongestMatch, Text, Code, StartAfter, TokenAt, Skipped, Last, SpelledAs, Spelled, Cuts, Texts, OutputAfter, Translate;
    var start, s := StartOf(output), Text(bytes);
    if bytes == [] {
      NothingLeft(output, s);
    } else {
      var m := LongestMatch(start, bytes, |bytes|);
      var r := FirstRule(start, bytes[..m]);
      if output { OutputStep(bytes, m, r); } else { InitialStep(bytes, m, r); }
      TextSlice(bytes, 0, m);
      TextSlice(bytes, m, |bytes|);
      ConditionAfter(output, bytes[..m]);
      if r == 23 {
        NothingFits(output, s);
      } else {
        var t, next := Text(bytes[..m]), if r == 21 then true else if r == 22 then false else output;
        TokensAreCut(next, bytes[m..]);
        var rest := Tokens(StartOf(next), bytes[m..]);
        if r <= 3 {
          GapGrows(output, s, m, Texts(rest.tokens), rest.complete);
        } else {
          TokenFirst(output, s, t, Texts(rest.tokens), rest.complete);
          SpelledFirst(Token(Code(r, bytes[..m]), t), rest.tokens);
        }
      }
    }
  }

  lemma SpelledFirst(token: Token, ts: seq<Token>)
    requires SpelledAs(Translate(token.code), token.text) && Spelled(ts)
    ensures Spelled([token] + ts) && Texts([token] + ts) == [token.text] + Texts(ts)
  {
    hide SpelledAs, Translate;
  }

  lemma NothingLeft(output: bool, s: string)
    requires s == ""
    ensures Cuts(output, s, [], true) && Texts([]) == [] && Spelled([])
  {
    assert Last(output, s, 0, true);
  }

  lemma NothingFits(output: bool, s: string)
    requires Last(output, s, 0, false)
    ensures Cuts(output, s, [], false) && Texts([]) == [] && Spelled([])
  {
  }

  /** Which rules return a token, and which condition they leave. */
  lemma ConditionAfter(output: bool, text: seq<Byte>)
    requires text != []
    ensures var r := FirstRule(StartOf(output), text);
      1 <= r <= 3 ==> Code(r, text) == 0 && StartAfter(StartOf(output), r) == StartOf(output)
    ensures var r := FirstRule(StartOf(output), text);
      4 <= r <= 22 && (output || 21 <= r) ==>
        Code(r, text) != 0 && SpelledAs(Translate(Code(r, text)), Text(text)) &&
        StartAfter(StartOf(output), r) == StartOf(OutputAfter(output, Text(text))) &&
        OutputAfter(output, Text(text)) == (if r == 21 then true else if r == 22 then false else output)
  {
    hide FirstRule, SpelledAs, PromptText, DigitText;
    var r := FirstRule(StartOf(output), text);
    if 4 <= r <= 22 && (output || 21 <= r) {
      if output { RuleSpells(text); } else { InitialRules(text); PromptIsSpelling(text); }
      if PromptText(Text(text), 'o') { PromptRule(output, text, 'o'); }
      if PromptText(Text(text), 'i') { PromptRule(output, text, 'i'); }
      PromptOfSymbol(r, text);
    }
  }

  lemma PromptIsSpelling(text: seq<Byte>)
    ensures PromptText(Text(text), 'o') ==> SpelledAs(OPROMPT, Text(text))
    ensures PromptText(Text(text), 'i') ==> SpelledAs(IPROMPT, Text(text))
  {
  }

  lemma PromptOfSymbol(r: int, text: seq<Byte>)
    requires text != [] && (r == 21 || r == 22 ==> SpelledAs(SymbolOf(r, text), Text(text)))
    ensures r == 21 ==> PromptText(Text(text), 'o')
    ensures r == 22 ==> PromptText(Text(text), 'i')
  {
  }

  lemma LexemeLooks(output: bool, t: string)
    requires Lexeme(output, t)
    ensures t != "" && !Blank(t[0])
  {
    hide SpelledAs, PromptText;
    if PromptText(t, 'i') {
      PromptLooks(t, 'i');
    } else if PromptText(t, 'o') {
      PromptLooks(t, 'o');
    } else {
      var symbol :| SpelledAs(symbol, t);
      Looks(symbol, t);
    }
  }

  lemma PromptLooks(t: string, c: char)
    requires PromptText(t, c)
    ensures t != "" && !Blank(t[0])
  {
    assert t[..2][0] == '(';
  }

  lemma SkippedHasNoNext(output: bool, s: string, n: nat, t: string, m: nat)
    requires TokenAt(output, s, n, t) && Skipped(output, s, m)
    ensures m <= n
  {
    hide Lexeme;
    LexemeLooks(output, t);
    assert s[n..][..|t|] == t && s[n] == t[0];
    if !output { LexemeOnlyPrompt(t); }
  }

  lemma LexemeOnlyPrompt(t: string)
    requires Lexeme(false, t)
    ensures PromptText(t, 'i') || PromptText(t, 'o')
  {
  }

  lemma NextOnce(output: bool, s: string, n: nat, t: string, m: nat, u: string)
    requires TokenAt(output, s, n, t) && TokenAt(output, s, m, u)
    ensures n == m && t == u
  {
    hide Lexeme;
    SkippedHasNoNext(output, s, n, t, m);
    SkippedHasNoNext(output, s, m, u, n);
    assert s[n..][..|t|] == t && s[n..][..|u|] == u;
  }

  lemma NextIsNotLast(output: bool, s: string, n: nat, t: string, m: nat, complete: bool)
    requires TokenAt(output, s, n, t)
    ensures !Last(output, s, m, complete)
  {
    hide Lexeme, NoLexeme;
    if Last(output, s, m, complete) {
      SkippedHasNoNext(output, s, n, t, m);
      LexemeLooks(output, t);
      if m == n { NoLexemeHere(output, s[n..], t); }
    }
  }

  lemma NoLexemeHere(output: bool, s: string, t: string)
    requires t <= s && t != "" && Lexeme(output, t)
    ensures !NoLexeme(output, s, 0)
  {
    assert s[..|t|] == t;
  }

  /** A text can be cut in one way only. */
  lemma {:induction false} CutsOnce(output: bool, s: string, a: seq<string>, b: seq<string>, c: bool, d: bool)
    requires Cuts(output, s, a, c) && Cuts(output, s, b, d)
    ensures a == b && c == d
    decreases |a|
  {
    hide TokenAt, Last, OutputAfter;
    if a == [] {
      var n: nat :| Last(output, s, n, c);
      if b == [] {
        var m: nat :| Last(output, s, m, d);
        LastOnce(output, s, n, c, m, d);
      } else {
        var m: nat :| CutsAt(output, s, m, b, d);
        NextIsNotLast(output, s, m, b[0], n, c);
      }
    } else {
      var n: nat :| CutsAt(output, s, n, a, c);
      if b == [] {
        var m: nat :| Last(output, s, m, d);
        NextIsNotLast(output, s, n, a[0], m, d);
      } else {
        var m: nat :| CutsAt(output, s, m, b, d);
        NextOnce(output, s, n, a[0], m, b[0]);
        NextFits(output, s, n, a[0]);
        CutsOnce(OutputAfter(output, a[0]), s[n + |a[0]|..], a[1..], b[1..], c, d);
        assert a == [a[0]] + a[1..] && b == [b[0]] + b[1..];
      }
    }
  }

  lemma LastOnce(output: bool, s: string, n: nat, c: bool, m: nat, d: bool)
    requires Last(output, s, n, c) && Last(output, s, m, d)
    ensures c == d
  {
    hide Lexeme, NoLexeme;
  }
}
