// The tokens of a formula read off its text: each is the longest text of a token where it stands, and no text is lost.

module FormulaTokens {
  import opened FormulaSyntax

  const KEYWORDS := {"true", "false", "equal", "ceiling", "floor", "and", "or", "if", "then", "else"}

  function OperatorText(op: Op): string {
    match op
    case Plus => "+"
    case Minus => "-"
    case Times => "*"
    case Divide => "/"
    case Equal => "="
    case Less => "<"
    case Greater => ">"
    case Power => "^"
    case AtMost => "<="
    case AtLeast => ">="
    case And => "and"
    case Or => "or"
  }

  /** What a token looks like in a formula. */
  function TokenText(t: Token): string {
    match t
    case IDENT(name) => name
    case INTEGER(digits) => digits
    case FLOAT(text) => text
    case BOOL_T => "true"
    case BOOL_F => "false"
    case STR_EQUAL => "equal"
    case STR_CEILING => "ceiling"
    case STR_FLOOR => "floor"
    case IF => "if"
    case THEN => "then"
    case ELSE => "else"
    case OPERATOR(op) => OperatorText(op)
    case LPAREN => "("
    case RPAREN => ")"
    case COMMA => ","
    case LBRACKET => "["
    case RBRACKET => "]"
  }

  predicate IsWord(s: string) { s != "" && IsLetter(s[0]) && forall i :: 0 <= i < |s| ==> IsIdChar(s[i]) }

  /** Names are words that are no keywords, numbers consist of digits, and floats of digits around a point. */
  ghost predicate Proper(t: Token) {
    match t
    case IDENT(name) => IsWord(name) && name !in KEYWORDS
    case INTEGER(digits) => IsNumber(digits)
    case FLOAT(text) => IsFloatText(text)
    case _ => true
  }

  lemma WordIsToken(word: string)
    requires IsWord(word)
    ensures TokenText(Reserved(word)) == word && Proper(Reserved(word))
  {
  }

  lemma LiteralIsToken(c: char)
    requires Literal(c).Some?
    ensures TokenText(Literal(c).value) == [c] && Proper(Literal(c).value)
  {
  }

  /** Where a token is scanned, its text stands. */
  lemma ScanFinds(s: string)
    requires s != "" && Scan(s).Some?
    ensures var (n, t) := Scan(s).value; Proper(t) && TokenText(t) == s[..n]
  {
    hide Reserved, Literal, KEYWORDS, IsLetter, IsDigit, IsFloatText;
    if IsLetter(s[0]) {
      WordFound(s);
    } else if IsDigit(s[0]) {
      NumberFound(s);
    } else if Literal(s[0]).Some? {
      LiteralIsToken(s[0]);
    }
  }

  lemma WordFound(s: string)
    requires s != "" && IsLetter(s[0])
    ensures var word := s[..Span(s, IsIdChar)]; TokenText(Reserved(word)) == word && Proper(Reserved(word))
  {
    hide Reserved;
    WordIsToken(s[..Span(s, IsIdChar)]);
  }

  lemma NumberFound(s: string)
    requires s != "" && !IsLetter(s[0]) && IsDigit(s[0])
    ensures Scan(s).Some?
    ensures var (n, t) := Scan(s).value; Proper(t) && TokenText(t) == s[..n]
  {
    hide Reserved, Literal, KEYWORDS, IsFloatText;
    var n := Span(s, IsDigit);
    if n + 1 < |s| && s[n] == '.' && IsDigit(s[n + 1]) { FloatFound(s, n); }
  }

  lemma FloatFound(s: string, n: nat)
    requires 0 < n == Span(s, IsDigit) && n + 1 < |s| && s[n] == '.' && IsDigit(s[n + 1])
    ensures IsFloatText(s[..n + 1 + Span(s[n + 1..], IsDigit)])
  {
    var more := Span(s[n + 1..], IsDigit);
    var text := s[..n + 1 + more];
    assert text[..n] == s[..n] && text[n + 1..] == s[n + 1..][..more];
    assert more > 0 && text[n] == '.';
    assert IsNumber(text[..n]) && IsNumber(text[n + 1..]);
  }

  /** A run of characters reaches at least as far as any prefix made of them. */
  lemma {:induction false} SpanReaches(s: string, p: char -> bool, n: nat)
    requires n <= |s| && forall i :: 0 <= i < n ==> p(s[i])
    ensures n <= Span(s, p)
  {
    if n > 0 { SpanReaches(s[1..], p, n - 1); }
  }

  predicate StartsWord(t: Token) {
    !t.INTEGER? && !t.FLOAT? && !t.LPAREN? && !t.RPAREN? && !t.COMMA? && !t.LBRACKET? && !t.RBRACKET? &&
    (t.OPERATOR? ==> t.op == And || t.op == Or)
  }

  predicate IsSign(t: Token) { !StartsWord(t) && !t.INTEGER? && !t.FLOAT? }

  lemma WordLooks(t: Token)
    requires Proper(t) && StartsWord(t)
    ensures IsWord(TokenText(t)) && Reserved(TokenText(t)) == t
  {
  }

  lemma NumberLooks(t: Token)
    requires Proper(t) && (t.INTEGER? || t.FLOAT?)
    ensures TokenText(t) != "" && IsDigit(TokenText(t)[0])
  {
    if t.FLOAT? {
      var n :| 0 < n < |t.text| - 1 && t.text[n] == '.' && IsNumber(t.text[..n]) && IsNumber(t.text[n + 1..]);
      assert IsDigit(t.text[..n][0]);
    }
  }

  lemma SignLooks(t: Token)
    requires IsSign(t)
    ensures var text := TokenText(t);
      text != "" && !IsLetter(text[0]) && !IsDigit(text[0]) && |text| <= 2 &&
      if |text| == 1 then Literal(text[0]) == Some(t)
      else if t == OPERATOR(AtMost) then text == "<=" else text == ">=" && t == OPERATOR(AtLeast)
  {
  }

  /** No longer text is that of a token, and no other token has the same text. */
  lemma ScanLongest(s: string, t: Token)
    requires s != "" && Proper(t) && TokenText(t) <= s
    ensures Scan(s).Some?
    ensures var (n, u) := Scan(s).value; |TokenText(t)| < n || (|TokenText(t)| == n && u == t)
  {
    hide Reserved, Literal, KEYWORDS, Proper, TokenText;
    var text := TokenText(t);
    assert forall i :: 0 <= i < |text| ==> s[i] == text[i];
    if StartsWord(t) {
      WordLooks(t);
      SpanReaches(s, IsIdChar, |text|);
      assert s[..|text|] == text;
      return;
    }
    if t.INTEGER? || t.FLOAT? {
      NumberLooks(t);
      NumberLongest(s, t);
      return;
    }
    SignLooks(t);
    if |text| == 2 {
      assert s[..2] == text;
    } else {
      assert 1 < |s| ==> s[..2][0] == s[0];
    }
  }

  lemma NumberLongest(s: string, t: Token)
    requires s != "" && Proper(t) && (t.INTEGER? || t.FLOAT?) && TokenText(t) <= s && IsDigit(s[0])
    ensures Scan(s).Some?
    ensures var (n, u) := Scan(s).value; |TokenText(t)| < n || (|TokenText(t)| == n && u == t)
  {
    hide Reserved, Literal, KEYWORDS, IsFloatText;
    var text := TokenText(t);
    if t.INTEGER? {
      assert forall i :: 0 <= i < |text| ==> s[i] == text[i];
      SpanReaches(s, IsDigit, |text|);
      assert s[..|text|] == text;
    } else {
      var n := FloatReaches(s, text);
      assert s[..|text|] == text;
    }
  }

  /** Where a float stands, the digits end at its point, and those behind the point reach its end. */
  lemma FloatReaches(s: string, text: string) returns (n: nat)
    requires IsFloatText(text) && text <= s
    ensures n + 1 < |text| && Span(s, IsDigit) == n && s[n] == '.' && IsDigit(s[n + 1])
    ensures |text| <= n + 1 + Span(s[n + 1..], IsDigit)
  {
    hide Span;
    n :| 0 < n < |text| - 1 && text[n] == '.' && IsNumber(text[..n]) && IsNumber(text[n + 1..]);
    DigitsBefore(s, text, n);
    var part, rest := text[n + 1..], s[n + 1..];
    assert part == rest[..|part|] && s[n + 1] == part[0];
    assert forall i :: 0 <= i < |part| ==> rest[i] == part[i];
    SpanReaches(rest, IsDigit, |part|);
  }

  lemma DigitsBefore(s: string, text: string, n: nat)
    requires text <= s && n < |text| && text[n] == '.' && IsNumber(text[..n])
    ensures s[n] == '.' && Span(s, IsDigit) == n
  {
    assert forall i :: 0 <= i < n ==> s[i] == text[..n][i];
    SpanReaches(s, IsDigit, n);
  }

  // ----- a whole text -----

  function NoSpace(s: string): string {
    if s == "" then "" else (if IsSpace(s[0]) then "" else [s[0]]) + NoSpace(s[1..])
  }

  function AllText(ts: seq<Token>): string { if ts == [] then "" else TokenText(ts[0]) + AllText(ts[1..]) }

  lemma {:induction false} NoSpaceSplits(a: string, b: string)
    ensures NoSpace(a + b) == NoSpace(a) + NoSpace(b)
  {
    if a == "" {
      assert a + b == b;
    } else {
      assert (a + b)[1..] == a[1..] + b;
      NoSpaceSplits(a[1..], b);
    }
  }

  lemma {:induction false} NothingToDrop(s: string)
    requires forall i :: 0 <= i < |s| ==> !IsSpace(s[i])
    ensures NoSpace(s) == s
  {
    if s != "" { NothingToDrop(s[1..]); }
  }

  lemma TokenHasNoSpace(t: Token)
    requires Proper(t)
    ensures forall i :: 0 <= i < |TokenText(t)| ==> !IsSpace(TokenText(t)[i])
  {
    if t.FLOAT? {
      var n :| 0 < n < |t.text| - 1 && t.text[n] == '.' && IsNumber(t.text[..n]) && IsNumber(t.text[n + 1..]);
      forall i | 0 <= i < |t.text|
        ensures !IsSpace(t.text[i])
      {
        if i < n { assert t.text[i] == t.text[..n][i]; } else if i > n { assert t.text[i] == t.text[n + 1..][i - n - 1]; }
      }
    }
  }

  /** The tokens of a text, written one after another, are the text without its white space. */
  lemma {:induction false} LexKeepsText(s: string)
    requires Lex(s).Some?
    ensures AllText(Lex(s).value) == NoSpace(s) && forall i :: 0 <= i < |Lex(s).value| ==> Proper(Lex(s).value[i])
    decreases |s|
  {
    hide Scan, TokenText, Proper;
    if s != "" {
      if IsSpace(s[0]) {
        LexKeepsText(s[1..]);
      } else {
        var (n, t) := Scan(s).value;
        ScanFinds(s);
        LexKeepsText(s[n..]);
        TokenHasNoSpace(t);
        NothingToDrop(s[..n]);
        NoSpaceSplits(s[..n], s[n..]);
        assert s == s[..n] + s[n..];
        var rest := Lex(s[n..]).value;
        assert Lex(s).value == [t] + rest && ([t] + rest)[1..] == rest;
      }
    }
  }
}
