// Formulas of the learning compiler: how they print and how their text is cut into tokens.

module FormulaSyntax {

  datatype Option<+T> = None | Some(value: T)

  datatype Op = Plus | Minus | Times | Divide | Equal | Less | Greater | Power | AtMost | AtLeast | And | Or

  /** A float is kept as the text Python prints for it. */
  datatype Formula =
    | Variable(ident: string)
    | Integer(value: int)
    | Bool(b: bool)
    | Float(text: string)
    | Binop(op: Op, left: Formula, right: Formula)
    | If(cond: Formula, thenClause: Formula, elseClause: Option<Formula>)

  datatype Token =
    | IDENT(name: string)
    | INTEGER(digits: string)
    | FLOAT(text: string)
    | BOOL_T | BOOL_F | STR_EQUAL | STR_CEILING | STR_FLOOR | IF | THEN | ELSE
    | OPERATOR(op: Op)
    | LPAREN | RPAREN | COMMA | LBRACKET | RBRACKET

  // ----- characters -----

  predicate IsDigit(c: char) { '0' <= c <= '9' }

  predicate IsLetter(c: char) { 'a' <= c <= 'z' || 'A' <= c <= 'Z' || c == '_' }

  predicate IsIdChar(c: char) { IsLetter(c) || IsDigit(c) }

  predicate IsSpace(c: char) { c == ' ' || c == '\r' || c == '\n' || c == '\t' }

  // ----- printing -----

  function Digit(d: nat): char
    requires d < 10
  {
    '0' + d as char
  }

  function Decimal(n: nat): (s: string)
    ensures s != [] && forall i :: 0 <= i < |s| ==> IsDigit(s[i])
  {
    if n < 10 then [Digit(n)] else Decimal(n / 10) + [Digit(n % 10)]
  }

  function PrintOp(op: Op): string {
    match op
    case Plus => "+"
    case Minus => "-"
    case Times => "*"
    case Divide => "/"
    case Equal => "="
    case Less => "<"
    case Greater => ">"
    case Power => "^"
    case AtMost => "<="
    case AtLeast => ">="
    case And => "and"
    case Or => "or"
  }

  /** The text of a formula: only binary operations are put in parentheses. */
  function Print(f: Formula): string {
    match f
    case Variable(ident) => ident
    case Integer(v) => if v < 0 then "-" + Decimal(-v) else Decimal(v)
    case Bool(b) => if b then "true" else "false"
    case Float(text) => text
    case Binop(op, l, r) => "(" + Print(l) + " " + PrintOp(op) + " " + Print(r) + ")"
    case If(c, t, None) => "if " + Print(c) + " then " + Print(t)
    case If(c, t, Some(e)) => "if " + Print(c) + " then " + Print(t) + " else " + Print(e)
  }

  // ----- reading tokens -----

  function Value(digits: string): nat
    requires forall i :: 0 <= i < |digits| ==> IsDigit(digits[i])
  {
    if digits == [] then 0
    else
      assert IsDigit(digits[|digits| - 1]);
      Value(digits[..|digits| - 1]) * 10 + (digits[|digits| - 1] as nat - '0' as nat)
  }

  predicate IsNumber(s: string) { s != [] && forall i :: 0 <= i < |s| ==> IsDigit(s[i]) }

  /** The length of the longest prefix whose characters all satisfy `p`. */
  function Span(s: string, p: char -> bool): (n: nat)
    ensures n <= |s| && (forall i :: 0 <= i < n ==> p(s[i])) && (n < |s| ==> !p(s[n]))
  {
    if s == [] || !p(s[0]) then 0 else 1 + Span(s[1..], p)
  }

  function Reserved(word: string): Token {
    if word == "true" then BOOL_T
    else if word == "false" then BOOL_F
    else if word == "equal" then STR_EQUAL
    else if word == "ceiling" then STR_CEILING
    else if word == "floor" then STR_FLOOR
    else if word == "and" then OPERATOR(And)
    else if word == "or" then OPERATOR(Or)
    else if word == "if" then IF
    else if word == "then" then THEN
    else if word == "else" then ELSE
    else IDENT(word)
  }

  function Literal(c: char): Option<Token> {
    if c == '=' then Some(OPERATOR(Equal))
    else if c == '<' then Some(OPERATOR(Less))
    else if c == '>' then Some(OPERATOR(Greater))
    else if c == '*' then Some(OPERATOR(Times))
    else if c == '/' then Some(OPERATOR(Divide))
    else if c == '^' then Some(OPERATOR(Power))
    else if c == '+' then Some(OPERATOR(Plus))
    else if c == '-' then Some(OPERATOR(Minus))
    else if c == '(' then Some(LPAREN)
    else if c == ')' then Some(RPAREN)
    else if c == ',' then Some(COMMA)
    else if c == '[' then Some(LBRACKET)
    else if c == ']' then Some(RBRACKET)
    else None
  }

  /** The length and token at the start of a text that is not empty and does not start with white space. */
  function Scan(s: string): (r: Option<(nat, Token)>)
    requires s != []
    ensures r.Some? ==> 0 < r.value.0 <= |s|
  {
    if IsLetter(s[0]) then
      var n := Span(s, IsIdChar);
      Some((n, Reserved(s[..n])))
    else if IsDigit(s[0]) then
      var n := Span(s, IsDigit);
      if n + 1 < |s| && s[n] == '.' && IsDigit(s[n + 1]) then
        var m := n + 1 + Span(s[n + 1..], IsDigit);
        Some((m, FLOAT(s[..m])))
      else
        Some((n, INTEGER(s[..n])))
    else if 1 < |s| && s[..2] == "<=" then Some((2, OPERATOR(AtMost)))
    else if 1 < |s| && s[..2] == ">=" then Some((2, OPERATOR(AtLeast)))
    else match Literal(s[0])
      case None => None
      case Some(t) => Some((1, t))
  }

  /** All tokens of a text; a character that starts no token stops the program. */
  function Lex(s: string): Option<seq<Token>>
    decreases |s|
  {
    if s == [] then Some([])
    else if IsSpace(s[0]) then Lex(s[1..])
    else match Scan(s)
      case None => None
      case Some((n, t)) => Prepend([t], Lex(s[n..]))
  }

  function Prepend(ts: seq<Token>, rest: Option<seq<Token>>): Option<seq<Token>> {
    match rest
    case None => None
    case Some(us) => Some(ts + us)
  }

  // ----- the tokens of a printed formula -----

  function Tokens(f: Formula): seq<Token> {
    match f
    case Variable(ident) => [IDENT(ident)]
    case Integer(v) => if v < 0 then [OPERATOR(Minus), INTEGER(Decimal(-v))] else [INTEGER(Decimal(v))]
    case Bool(b) => [if b then BOOL_T else BOOL_F]
    case Float(text) => [FLOAT(text)]
    case Binop(op, l, r) => [LPAREN] + Tokens(l) + [OPERATOR(op)] + Tokens(r) + [RPAREN]
    case If(c, t, None) => [IF] + Tokens(c) + [THEN] + Tokens(t)
    case If(c, t, Some(e)) => [IF] + Tokens(c) + [THEN] + Tokens(t) + [ELSE] + Tokens(e)
  }

  predicate IsName(s: string) {
    s != [] && IsLetter(s[0]) && (forall i :: 0 <= i < |s| ==> IsIdChar(s[i])) && Reserved(s) == IDENT(s)
  }

  ghost predicate IsFloatText(s: string) {
    exists n :: 0 < n < |s| - 1 && s[n] == '.' && IsNumber(s[..n]) && IsNumber(s[n + 1..])
  }

  /** Names are unreserved identifiers, and floats print without sign or exponent. */
  ghost predicate Legible(f: Formula) {
    match f
    case Variable(ident) => IsName(ident)
    case Integer(_) => true
    case Bool(_) => true
    case Float(text) => IsFloatText(text)
    case Binop(_, l, r) => Legible(l) && Legible(r)
    case If(c, t, e) => Legible(c) && Legible(t) && (e.Some? ==> Legible(e.value))
  }

  /** A text that cannot extend the token before it. */
  predicate Breaks(rest: string) { rest == [] || rest[0] == ' ' || rest[0] == ')' }

  /** In front of `rest`, the text reads as the tokens. */
  predicate Reads(text: string, ts: seq<Token>, rest: string) {
    Lex(text + rest) == Prepend(ts, Lex(rest))
  }

  lemma ReadsChain(a: string, ts: seq<Token>, b: string, us: seq<Token>, rest: string)
    requires Reads(a, ts, b + rest) && Reads(b, us, rest)
    ensures Reads(a + b, ts + us, rest)
  {
    hide Lex;
    assert a + b + rest == a + (b + rest);
    if Lex(rest).Some? { assert ts + us + Lex(rest).value == ts + (us + Lex(rest).value); }
  }

  lemma SpanOf(s: string, rest: string, p: char -> bool)
    requires forall i :: 0 <= i < |s| ==> p(s[i])
    requires rest == [] || !p(rest[0])
    ensures Span(s + rest, p) == |s|
  {
    if s == [] {
      assert s + rest == rest;
    } else {
      assert (s + rest)[1..] == s[1..] + rest;
      SpanOf(s[1..], rest, p);
    }
  }

  lemma LexSpace(rest: string)
    ensures Reads(" ", [], rest)
  {
    assert (" " + rest)[1..] == rest;
    if Lex(rest).Some? { assert [] + Lex(rest).value == Lex(rest).value; }
  }

  lemma LexOne(word: string, rest: string, t: Token)
    requires word != [] && !IsSpace(word[0])
    requires Scan(word + rest) == Some((|word|, t))
    ensures Reads(word, [t], rest)
  {
    hide Scan;
    assert (word + rest)[0] == word[0];
    assert (word + rest)[|word|..] == rest;
  }

  lemma LexWord(word: string, rest: string)
    requires word != [] && IsLetter(word[0]) && forall i :: 0 <= i < |word| ==> IsIdChar(word[i])
    requires Breaks(rest)
    ensures Reads(word, [Reserved(word)], rest)
  {
    hide Lex, Reserved;
    SpanOf(word, rest, IsIdChar);
    assert (word + rest)[..|word|] == word;
    LexOne(word, rest, Reserved(word));
  }

  lemma LexNumber(digits: string, rest: string)
    requires IsNumber(digits) && Breaks(rest)
    ensures Reads(digits, [INTEGER(digits)], rest)
  {
    hide Lex, Span;
    SpanOf(digits, rest, IsDigit);
    assert (digits + rest)[..|digits|] == digits;
    if rest != [] { assert (digits + rest)[|digits|] == rest[0]; }
    LexOne(digits, rest, INTEGER(digits));
  }

  lemma LexFloat(text: string, rest: string)
    requires IsFloatText(text) && Breaks(rest)
    ensures Reads(text, [FLOAT(text)], rest)
  {
    hide Lex, Scan;
    var n :| 0 < n < |text| - 1 && text[n] == '.' && IsNumber(text[..n]) && IsNumber(text[n + 1..]);
    ScanFloat(text[..n], text[n + 1..], rest);
    assert text == text[..n] + "." + text[n + 1..];
    assert text[0] == text[..n][0] && IsDigit(text[..n][0]);
    LexOne(text, rest, FLOAT(text));
  }

  lemma ScanFloat(whole: string, part: string, rest: string)
    requires IsNumber(whole) && IsNumber(part) && Breaks(rest)
    ensures Scan(whole + "." + part + rest) == Some((|whole| + 1 + |part|, FLOAT(whole + "." + part)))
  {
    hide Span, Literal;
    var s := whole + "." + part + rest;
    assert s == whole + ("." + part + rest);
    SpanOf(whole, "." + part + rest, IsDigit);
    assert s[|whole| + 1..] == part + rest;
    SpanOf(part, rest, IsDigit);
    assert s[0] == whole[0] && s[|whole|] == '.' && s[|whole| + 1] == part[0];
    assert s[..|whole| + 1 + |part|] == whole + "." + part;
  }

  lemma LexOperator(op: Op, rest: string)
    requires Breaks(rest) && rest != []
    ensures Reads(PrintOp(op), [OPERATOR(op)], rest)
  {
    if op == And || op == Or {
      LexWord(PrintOp(op), rest);
    } else {
      var s := PrintOp(op) + rest;
      assert s[0] == PrintOp(op)[0];
      assert |PrintOp(op)| == 2 ==> s[..2] == PrintOp(op);
      assert |PrintOp(op)| == 1 ==> s[1] == rest[0] && s[..2][1] == rest[0];
      LexOne(PrintOp(op), rest, OPERATOR(op));
    }
  }

  lemma LexSign(c: char, rest: string)
    requires c == '(' || c == ')' || c == '-'
    ensures Reads([c], [Literal(c).value], rest)
  {
    hide Lex;
    var s := [c] + rest;
    assert s[0] == c;
    assert 1 < |s| ==> s[..2][0] == c;
    LexOne([c], rest, Literal(c).value);
  }

  /** A printed formula reads as its tokens, in front of any text that does not run into it. */
  lemma LexPrint(f: Formula, rest: string)
    requires Legible(f) && Breaks(rest)
    ensures Reads(Print(f), Tokens(f), rest)
  {
    hide Reads, Decimal;
    match f
    case Variable(ident) => LexWord(ident, rest);
    case Integer(v) =>
      if v < 0 { LexNegative(Decimal(-v), rest); } else { LexNumber(Decimal(v), rest); }
    case Bool(b) => LexWord(Print(f), rest);
    case Float(text) => LexFloat(text, rest);
    case Binop(op, l, r) =>
      LexPrint(l, " " + PrintOp(op) + " " + Print(r) + ")" + rest);
      LexPrint(r, ")" + rest);
      LexBinop(op, Print(l), Tokens(l), Print(r), Tokens(r), rest);
    case If(c, t, None) =>
      LexPrint(c, " then " + Print(t) + rest);
      LexPrint(t, rest);
      LexIf(Print(c), Tokens(c), Print(t), Tokens(t), rest);
    case If(c, t, Some(e)) =>
      LexPrint(c, " then " + Print(t) + (" else " + Print(e) + rest));
      LexPrint(t, " else " + Print(e) + rest);
      LexPrint(e, rest);
      LexIfElse(Print(c), Tokens(c), Print(t), Tokens(t), Print(e), Tokens(e), rest);
  }

  lemma LexNegative(digits: string, rest: string)
    requires IsNumber(digits) && Breaks(rest)
    ensures Reads("-" + digits, [OPERATOR(Minus), INTEGER(digits)], rest)
  {
    hide Reads;
    LexNumber(digits, rest);
    LexSign('-', digits + rest);
    ReadsChain("-", [OPERATOR(Minus)], digits, [INTEGER(digits)], rest);
    assert [OPERATOR(Minus)] + [INTEGER(digits)] == [OPERATOR(Minus), INTEGER(digits)];
  }

  lemma LexBinop(op: Op, l: string, ls: seq<Token>, r: string, rs: seq<Token>, rest: string)
    requires Reads(l, ls, " " + PrintOp(op) + " " + r + ")" + rest) && Reads(r, rs, ")" + rest)
    ensures Reads("(" + l + " " + PrintOp(op) + " " + r + ")", [LPAREN] + ls + [OPERATOR(op)] + rs + [RPAREN], rest)
  {
    hide Reads, PrintOp;
    LexSign(')', rest);
    ReadsChain(r, rs, ")", [RPAREN], rest);
    var right := r + ")";
    LexSpace(right + rest);
    ReadsChain(" ", [], right, rs + [RPAREN], rest);
    assert [] + (rs + [RPAREN]) == rs + [RPAREN];
    LexOperator(op, " " + right + rest);
    ReadsChain(PrintOp(op), [OPERATOR(op)], " " + right, rs + [RPAREN], rest);
    var middle, ms := PrintOp(op) + (" " + right), [OPERATOR(op)] + (rs + [RPAREN]);
    LexSpace(middle + rest);
    ReadsChain(" ", [], middle, ms, rest);
    assert [] + ms == ms;
    assert " " + middle + rest == " " + PrintOp(op) + " " + r + ")" + rest;
    ReadsChain(l, ls, " " + middle, ms, rest);
    LexSign('(', l + (" " + middle) + rest);
    ReadsChain("(", [LPAREN], l + (" " + middle), ls + ms, rest);
    assert "(" + (l + (" " + middle)) == "(" + l + " " + PrintOp(op) + " " + r + ")";
    assert [LPAREN] + (ls + ms) == [LPAREN] + ls + [OPERATOR(op)] + rs + [RPAREN];
  }

  /** A keyword between spaces, then a phrase. */
  lemma LexKeyword(word: string, t: Token, a: string, ts: seq<Token>, rest: string)
    requires (word == "then" && t == THEN) || (word == "else" && t == ELSE)
    requires Reads(a, ts, rest)
    ensures Reads(" " + word + " " + a, [t] + ts, rest)
  {
    hide Reads;
    LexSpace(a + rest);
    ReadsChain(" ", [], a, ts, rest);
    assert [] + ts == ts;
    LexWord(word, " " + a + rest);
    ReadsChain(word, [t], " " + a, ts, rest);
    LexSpace(word + (" " + a) + rest);
    ReadsChain(" ", [], word + (" " + a), [t] + ts, rest);
    assert [] + ([t] + ts) == [t] + ts;
    assert " " + (word + (" " + a)) == " " + word + " " + a;
  }

  lemma LexIf(c: string, cs: seq<Token>, t: string, ts: seq<Token>, rest: string)
    requires Reads(c, cs, " then " + t + rest) && Reads(t, ts, rest)
    ensures Reads("if " + c + " then " + t, [IF] + cs + [THEN] + ts, rest)
  {
    hide Reads;
    LexKeyword("then", THEN, t, ts, rest);
    var tail := " then " + t;
    assert " " + "then" + " " + t == tail;
    ReadsChain(c, cs, tail, [THEN] + ts, rest);
    LexSpace(c + tail + rest);
    ReadsChain(" ", [], c + tail, cs + ([THEN] + ts), rest);
    assert [] + (cs + ([THEN] + ts)) == cs + ([THEN] + ts);
    LexWord("if", " " + (c + tail) + rest);
    ReadsChain("if", [IF], " " + (c + tail), cs + ([THEN] + ts), rest);
    assert "if" + (" " + (c + tail)) == "if " + c + " then " + t;
    assert [IF] + (cs + ([THEN] + ts)) == [IF] + cs + [THEN] + ts;
  }

  lemma LexIfElse(c: string, cs: seq<Token>, t: string, ts: seq<Token>, e: string, es: seq<Token>, rest: string)
    requires Reads(c, cs, " then " + t + (" else " + e + rest)) && Reads(t, ts, " else " + e + rest)
    requires Reads(e, es, rest)
    ensures Reads("if " + c + " then " + t + " else " + e, [IF] + cs + [THEN] + ts + [ELSE] + es, rest)
  {
    hide Reads;
    var tail := " else " + e;
    LexIf(c, cs, t, ts, tail + rest);
    LexKeyword("else", ELSE, e, es, rest);
    assert " " + "else" + " " + e == tail;
    ReadsChain("if " + c + " then " + t, [IF] + cs + [THEN] + ts, tail, [ELSE] + es, rest);
    assert [IF] + cs + [THEN] + ts + ([ELSE] + es) == [IF] + cs + [THEN] + ts + [ELSE] + es;
    assert "if " + c + " then " + t + tail == "if " + c + " then " + t + " else " + e;
  }

  /** The text of a legible formula reads as exactly its tokens. */
  lemma PrintedTokens(f: Formula)
    requires Legible(f)
    ensures Lex(Print(f)) == Some(Tokens(f))
  {
    LexPrint(f, "");
    assert Print(f) + "" == Print(f) && Tokens(f) + [] == Tokens(f);
  }
}
