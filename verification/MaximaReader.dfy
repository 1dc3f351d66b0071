// From the bytes of Maxima's answer to its formulas.

module MaximaReader {
  import opened MaximaGrammar
  import opened MaximaCompleteness
  import opened MaximaMeaning
  import opened MaximaLexer
  import opened MaximaScan
  import ScannerAutomaton
  import MaximaParser
  import ParserTables
  import LexicalRules
  import opened MaximaSpelling

  datatype Answer = Formulas(formulas: seq<Formula>) | Rejected | TooDeep

  // ----- formulas and texts as words -----

  function OpWords(op: Op): seq<string> {
    match op
    case Plus => ["+"]
    case Minus => ["-"]
    case Times => ["*"]
    case Divide => ["/"]
    case Equal => []
    case Less => ["<"]
    case Greater => [">"]
    case Power => ["^"]
    case AtMost => ["<="]
    case AtLeast => [">="]
    case And => ["and"]
    case Or => ["or"]
  }

  /** A formula read from left to right, without grouping signs and `=`. */
  function FormulaWords(f: Formula): seq<string> {
    match f
    case Variable(name) => [name]
    case Zero => []
    case IntegerLiteral(digits) => [digits]
    case BoolLiteral(b) => [if b then "true" else "false"]
    case FloatLiteral(digits) => [digits]
    case Binop(op, l, r) => FormulaWords(l) + OpWords(op) + FormulaWords(r)
    case IfThen(c, t) => ["if"] + FormulaWords(c) + ["then"] + FormulaWords(t)
    case IfThenElse(c, t, e) => ["if"] + FormulaWords(c) + ["then"] + FormulaWords(t) + ["else"] + FormulaWords(e)
  }

  function ListWords(fs: seq<Formula>): seq<string> {
    if fs == [] then [] else ListWords(fs[..|fs| - 1]) + FormulaWords(fs[|fs| - 1])
  }

  /** Texts that leave nothing in a formula: grouping signs, separators, equality and rounding. */
  const SILENT := {"(", ")", "[", "]", ",", "=", "equal", "floor", "ceiling"}

  function TextWord(s: string): seq<string> {
    if Lowered(s) in SILENT || PromptText(s, 'i') || PromptText(s, 'o') then []
    else if Lowered(s) in KEYWORDS then [Lowered(s)]
    else [s]
  }

  function TextWords(texts: seq<string>): seq<string> {
    if texts == [] then [] else TextWord(texts[0]) + TextWords(texts[1..])
  }

  function MarkWord(m: Mark): string { if IsName(m.symbol) then m.text else Fixed(m.symbol) }

  function MarkWords(ms: seq<Mark>): seq<string> {
    if ms == [] then [] else [MarkWord(ms[0])] + MarkWords(ms[1..])
  }

  lemma MarkWordsAppend(a: seq<Mark>, b: seq<Mark>)
    ensures MarkWords(a + b) == MarkWords(a) + MarkWords(b)
  {
    hide MarkWord;
    if a == [] {
      assert a + b == b;
    } else {
      assert (a + b)[1..] == a[1..] + b;
      MarkWordsAppend(a[1..], b);
    }
  }

  lemma OneWord(m: Mark)
    ensures MarkWords([m]) == [MarkWord(m)]
  {
    assert [m][1..] == [];
  }

  lemma OpAsWords(op: Op)
    ensures MarkWords(OpMarks(op)) == OpWords(op)
  {
    if OpMarks(op) != [] { OneWord(OpMarks(op)[0]); }
  }

  lemma {:induction false} FormulaAsWords(f: Formula)
    ensures MarkWords(FormulaMarks(f)) == FormulaWords(f)
  {
    hide MarkWords, OpMarks, OpWords;
    match f
    case Binop(op, l, r) =>
      FormulaAsWords(l);
      FormulaAsWords(r);
      OpAsWords(op);
      MarkWordsAppend(FormulaMarks(l), OpMarks(op));
      MarkWordsAppend(FormulaMarks(l) + OpMarks(op), FormulaMarks(r));
    case IfThen(c, t) =>
      FormulaAsWords(c);
      FormulaAsWords(t);
      IfAsWords(c, t);
    case IfThenElse(c, t, e) =>
      FormulaAsWords(c);
      FormulaAsWords(t);
      IfAsWords(c, t);
      FormulaAsWords(e);
      var front := [Mark(12, "")] + FormulaMarks(c) + [Mark(13, "")] + FormulaMarks(t);
      OneWord(Mark(14, ""));
      MarkWordsAppend(front, [Mark(14, "")]);
      MarkWordsAppend(front + [Mark(14, "")], FormulaMarks(e));
    case Variable(name) => OneWord(Mark(15, name));
    case IntegerLiteral(digits) => OneWord(Mark(16, digits));
    case FloatLiteral(digits) => OneWord(Mark(17, digits));
    case BoolLiteral(b) => OneWord(Mark(if b then 7 else 8, ""));
    case Zero => NoWords();
  }

  lemma NoWords()
    ensures MarkWords([]) == []
  {
  }

  lemma IfAsWords(c: Formula, t: Formula)
    requires MarkWords(FormulaMarks(c)) == FormulaWords(c) && MarkWords(FormulaMarks(t)) == FormulaWords(t)
    ensures MarkWords([Mark(12, "")] + FormulaMarks(c) + [Mark(13, "")] + FormulaMarks(t)) ==
      ["if"] + FormulaWords(c) + ["then"] + FormulaWords(t)
  {
    hide MarkWords;
    OneWord(Mark(12, ""));
    OneWord(Mark(13, ""));
    MarkWordsAppend([Mark(12, "")], FormulaMarks(c));
    MarkWordsAppend([Mark(12, "")] + FormulaMarks(c), [Mark(13, "")]);
    MarkWordsAppend([Mark(12, "")] + FormulaMarks(c) + [Mark(13, "")], FormulaMarks(t));
  }

  lemma {:induction false} ListAsWords(fs: seq<Formula>)
    ensures MarkWords(ListMarks(fs)) == ListWords(fs)
  {
    hide FormulaMarks, FormulaWords;
    if fs != [] {
      var n := |fs| - 1;
      ListAsWords(fs[..n]);
      FormulaAsWords(fs[n]);
      MarkWordsAppend(ListMarks(fs[..n]), FormulaMarks(fs[n]));
    }
  }

  /** The mark of a token is the word that its text stands for. */
  lemma TokenAsWord(symbol: int, s: string)
    requires SpelledAs(symbol, s)
    ensures MarkWords(SymbolMarks(symbol, s)) == TextWord(s)
  {
    hide Lowered, PromptText, NameText, FloatText, DigitText, MarkWords, FixedShape, KEYWORDS;
    Looks(symbol, s);
    NoWords();
    if SymbolMarks(symbol, s) != [] { OneWord(SymbolMarks(symbol, s)[0]); }
    WordOfText(symbol, s);
  }

  lemma WordOfText(symbol: int, s: string)
    requires SpelledAs(symbol, s)
    ensures TextWord(s) == if IsName(symbol) then [s] else if IsWord(symbol) then [Fixed(symbol)] else []
  {
    hide NameText, FloatText, DigitText, PromptText, FixedShape, Lowered;
    Looks(symbol, s);
    if PromptText(s, 'i') {
      OneSymbol(symbol, IPROMPT, s);
    } else if PromptText(s, 'o') {
      OneSymbol(symbol, OPROMPT, s);
    } else if Varies(symbol) {
      NotSilent(symbol, s);
    } else {
      OperatorText(symbol, s);
    }
  }

  /** Names and numbers are neither keywords nor silent. */
  lemma NotSilent(symbol: int, s: string)
    requires SpelledAs(symbol, s) && IsName(symbol)
    ensures Lowered(s) !in SILENT && Lowered(s) !in KEYWORDS
  {
    hide FloatText;
    Looks(symbol, s);
    var l := Lowered(s);
    assert l[0] == LowerChar(s[0]);
    if l in SILENT || l in KEYWORDS { WordStarts(l); }
  }

  lemma WordStarts(w: string)
    requires w in SILENT || w in KEYWORDS
    ensures w != "" && !Digit(w[0]) && (Letter(w[0]) ==> w in KEYWORDS) && (w in KEYWORDS ==> Letter(w[0]))
  {
  }

  lemma OperatorText(symbol: int, s: string)
    requires !Varies(symbol) && s != "" && Lowered(s) == Fixed(symbol)
    ensures if Lowered(s) in SILENT then !IsWord(symbol)
      else IsWord(symbol) && (if Lowered(s) in KEYWORDS then Lowered(s) else s) == Fixed(symbol)
  {
    hide Lowered;
    if Lowered(s) !in KEYWORDS {
      SignsHaveNoCase(symbol);
      assert forall i :: 0 <= i < |s| ==> Lowered(s)[i] == LowerChar(s[i]);
      assert s == Lowered(s);
    }
  }

  lemma SignsHaveNoCase(symbol: int)
    requires Fixed(symbol) !in KEYWORDS
    ensures forall c: char, i :: 0 <= i < |Fixed(symbol)| && LowerChar(c) == Fixed(symbol)[i] ==> c == Fixed(symbol)[i]
  {
  }

  lemma {:induction false} TokensAsWords(ts: seq<Token>)
    requires Spelled(ts)
    ensures MarkWords(TextMarks(ts)) == TextWords(Texts(ts))
  {
    hide SymbolMarks, TextWord, Token.Symbol, SpelledAs;
    if ts != [] {
      TokensAsWords(ts[1..]);
      TokenAsWord(ts[0].Symbol(), ts[0].text);
      MarkWordsAppend(SymbolMarks(ts[0].Symbol(), ts[0].text), TextMarks(ts[1..]));
      assert Texts(ts)[1..] == Texts(ts[1..]);
    }
  }

  /** The answer starts with the reply of this derivation; the lexical rules alone say what its tokens are. */
  ghost predicate Answers(t: Tree, bytes: seq<ScannerAutomaton.Byte>) {
    Reply(t, Tokens(ScannerAutomaton.INITIAL_START, bytes).tokens)
  }

  /** The texts up to the first input prompt. */
  predicate UpToPrompt(texts: seq<string>, n: nat) {
    0 < n <= |texts| && PromptText(texts[n - 1], 'i') && forall i :: 0 <= i < n - 1 ==> !PromptText(texts[i], 'i')
  }

  /** Said on the characters alone: read in order, the formulas are the words of the answer up to its first input prompt. */
  ghost predicate ReadsAs(bytes: seq<ScannerAutomaton.Byte>, fs: seq<Formula>) {
    exists texts, complete, n: nat ::
      Cuts(false, Text(bytes), texts, complete) && UpToPrompt(texts, n) && ListWords(fs) == TextWords(texts[..n])
  }

  lemma ReadsAsWritten(bytes: seq<ScannerAutomaton.Byte>, fs: seq<Formula>, read: nat)
    requires var ts := Tokens(ScannerAutomaton.INITIAL_START, bytes).tokens;
      0 < read <= |ts| && ListMarks(fs) == TextMarks(ts[..read]) && ts[read - 1].Symbol() == IPROMPT &&
      forall i :: 0 <= i < read - 1 ==> ts[i].Symbol() != IPROMPT
    ensures ReadsAs(bytes, fs)
  {
    hide Tokens, Cuts, SpelledAs, Token.Symbol, PromptText;
    var scan := Tokens(ScannerAutomaton.INITIAL_START, bytes);
    var texts := Texts(scan.tokens);
    TokensAreCut(false, bytes);
    TokensAsWords(scan.tokens[..read]);
    ListAsWords(fs);
    assert Texts(scan.tokens[..read]) == texts[..read];
    forall i | 0 <= i < read
      ensures PromptText(texts[i], 'i') <==> scan.tokens[i].Symbol() == IPROMPT
    {
      PromptSpelling(scan.tokens[i].Symbol(), texts[i]);
    }
    assert UpToPrompt(texts, read);
  }

  lemma PromptSpelling(symbol: int, s: string)
    requires SpelledAs(symbol, s)
    ensures PromptText(s, 'i') <==> symbol == IPROMPT
  {
    hide PromptText, FixedShape, NameText, FloatText, DigitText;
    if PromptText(s, 'i') { OneSymbol(symbol, IPROMPT, s); }
  }

  /**
   * `readFormulaFromMaxima`. The formulas are read exactly if the answer starts with a reply that the stacks have room for,
   * and they are what its only derivation means. The model cuts off all tokens before it parses; the program cuts them off
   * as the parser asks for them, which makes no difference for a reply, since nothing behind it is asked for.
   */
  method ReadFormulas(bytes: seq<ScannerAutomaton.Byte>) returns (answer: Answer)
    ensures answer.Formulas? <==> exists t :: Answers(t, bytes) && StacksSuffice(t)
    ensures answer.Formulas? ==> forall t :: Answers(t, bytes) ==> Denotes(t) == Many(answer.formulas)
    ensures answer.Formulas? ==> exists t :: Answers(t, bytes) && ListMarks(answer.formulas) == TextMarks(Yield(t))
    ensures answer.Formulas? ==> ReadsAs(bytes, answer.formulas)
    ensures answer.TooDeep? ==> ParserTables.YYMAXDEPTH - 2 <= |bytes|
  {
    hide Derivation, Denotes, Yield, TextMarks, ListMarks, StacksSuffice, Tokens, Fills, ReadsAs, Token.Symbol;
    var scan := ScanFile(bytes);
    var out, read := MaximaParser.Outcome.SyntaxError, 0;
    out, read := ParseReply(scan.tokens);
    FewTokens(ScannerAutomaton.INITIAL_START, bytes);
    if out.Parsed? { ReadsAsWritten(bytes, out.formulas, read); }
    answer := match out case Parsed(fs) => Formulas(fs) case SyntaxError => Rejected case MemoryExhausted => TooDeep;
  }

  /** Every token takes at least one byte. */
  lemma {:induction false} FewTokens(start: int, bytes: seq<ScannerAutomaton.Byte>)
    ensures |Tokens(start, bytes).tokens| <= |bytes|
    decreases |bytes|
  {
    if bytes != [] {
      var m := LongestMatch(start, bytes, |bytes|);
      if m > 0 { FewTokens(StartAfter(start, LexicalRules.FirstRule(start, bytes[..m])), bytes[m..]); }
    }
  }
}
