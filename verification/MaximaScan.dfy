// The scanner of Maxima's replies computes the tokens that the lexical rules give, and that the text spells.

module MaximaScan {
  import opened ScannerAutomaton
  import opened LexicalRules
  import opened Scanner
  import opened MaximaGrammar
  import opened MaximaLexer
  import opened MaximaSpelling

  function Prepend(t: Token, rest: Scan): Scan { rest.(tokens := [t] + rest.tokens) }

  /** What one match contributes to the tokens. */
  lemma TokensByMatch(start: int, bytes: seq<Byte>, m: int, r: int)
    requires Longest(start, bytes, m) && r == Rule(start, bytes[..m])
    ensures 0 < r <= UNHANDLED_RULE && 0 < m <= |bytes|
    ensures var rest := Tokens(StartAfter(start, r), bytes[m..]);
      Tokens(start, bytes) ==
      if r == UNHANDLED_RULE then Scan([], false)
      else if Code(r, bytes[..m]) == 0 then rest
      else Prepend(Token(Code(r, bytes[..m]), Text(bytes[..m])), rest)
  {
    hide Rule, FirstRule, LongestMatch, Code, StartAfter, Text;
    MatchIsLongest(start, bytes, m, |bytes|);
    FirstRuleRange(start, bytes[..m], 1);
  }

  lemma EndScansToNothing(start: int)
    requires IsStart(start)
    ensures Tokens(start, []) == Scan([], true) && EofAction(start) > END_OF_BUFFER
  {
  }

  /** What a call of the scanner returns. */
  datatype Found = Returned(token: Token) | AtEnd | Unhandled

  /** One call of the scanner: it matches until a rule returns a token. */
  method NextToken(s: MaximaScanner) returns (found: Found)
    requires s.Ready()
    modifies s, s.buf
    ensures s.Ready() && (s.buf == old(s.buf) || fresh(s.buf))
    ensures found.Returned? ==> |s.Remaining()| < |old(s.Remaining())|
    ensures old(Tokens(s.start, s.Remaining())) ==
      match found
      case Returned(t) => Prepend(t, Tokens(s.start, s.Remaining()))
      case AtEnd => Scan([], true)
      case Unhandled => Scan([], false)
    ensures found.Returned? ==> SpelledAs(found.token.Symbol(), found.token.text)
    ensures found.Returned? ==> FirstToken(old(s.start) == OUTPUT_START, Text(old(s.Remaining())), found.token.text)
  {
    hide FirstToken, SpelledAs, Longest, Rule, FirstRule, LongestMatch, Code, Text, Tokens;
    while true
      invariant s.Ready() && (s.buf == old(s.buf) || fresh(s.buf))
      invariant |s.Remaining()| <= |old(s.Remaining())|
      invariant Tokens(s.start, s.Remaining()) == old(Tokens(s.start, s.Remaining()))
      decreases |s.Remaining()|
    {
      ghost var ahead := s.Remaining();
      var act, m := s.Match();
      if ahead == [] { EndScansToNothing(s.start); } else { TokensByMatch(s.start, ahead, m, act); }
      if act > END_OF_BUFFER {
        return AtEnd;
      }
      if act == UNHANDLED_RULE {
        return Unhandled;
      }
      var bytes := s.buf[s.text..s.cp];
      assert bytes == ahead[..m] && s.Remaining() == ahead[m..];
      s.SetStart(StartAfter(s.start, act));
      if Code(act, bytes) != 0 {
        FirstTokenIs(old(s.start), old(s.Remaining()), Token(Code(act, bytes), Text(bytes)), Tokens(s.start, s.Remaining()));
        return Returned(Token(Code(act, bytes), Text(bytes)));
      }
    }
  }

  /** The first token of a text spells its symbol and stands behind nothing but what is passed over. */
  lemma FirstTokenIs(start: int, bytes: seq<Byte>, t: Token, rest: Scan)
    requires IsStart(start) && Tokens(start, bytes) == Prepend(t, rest)
    ensures SpelledAs(t.Symbol(), t.text) && FirstToken(start == OUTPUT_START, Text(bytes), t.text)
  {
    hide Tokens, Text, SpelledAs, TokenAt;
    var output := start == OUTPUT_START;
    TokensAreCut(output, bytes);
    var tokens := Tokens(start, bytes).tokens;
    assert tokens[0] == t;
    var n: nat :| CutsAt(output, Text(bytes), n, Texts(tokens), Tokens(start, bytes).complete);
  }

  function After(tokens: seq<Token>, rest: Scan): Scan { rest.(tokens := tokens + rest.tokens) }

  lemma OneMore(tokens: seq<Token>, t: Token, rest: Scan)
    ensures After(tokens, Prepend(t, rest)) == After(tokens + [t], rest)
  {
    assert tokens + ([t] + rest.tokens) == tokens + [t] + rest.tokens;
  }

  /** Scans a whole file. How its bytes arrive makes no difference to the tokens. */
  method ScanFile(file: seq<Byte>) returns (scan: Scan)
    ensures scan == Tokens(INITIAL_START, file)
    ensures Cuts(false, Text(file), Texts(scan.tokens), scan.complete) && Spelled(scan.tokens)
  {
    hide Tokens, MaximaScanner.Ready, Cuts, Spelled, Texts, Text;
    TokensAreCut(false, file);
    var s := new MaximaScanner(file);
    var tokens: seq<Token> := [];
    while true
      invariant s.Ready() && fresh(s) && fresh(s.buf)
      invariant Tokens(INITIAL_START, file) == After(tokens, Tokens(s.start, s.Remaining()))
      decreases |s.Remaining()|
    {
      var found := NextToken(s);
      match found {
        case Returned(t) =>
          OneMore(tokens, t, Tokens(s.start, s.Remaining()));
          tokens := tokens + [t];
        case AtEnd => return Scan(tokens, true);
        case Unhandled => return Scan(tokens, false);
      }
    }
  }
}
