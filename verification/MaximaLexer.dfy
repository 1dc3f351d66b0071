// The tokens of a whole byte stream, said in terms of the lexical rules alone.

module MaximaLexer {
  import opened ScannerAutomaton
  import opened LexicalRules
  import opened ScannerRules
  import opened MaximaGrammar

  const UNHANDLED_RULE := 23

  /** The tokens of a stream, and whether all of it could be scanned. */
  datatype Scan = Scan(tokens: seq<Token>, complete: bool)

  /** The token code that the action of a rule returns; 0 for the rules that return none. */
  function Code(r: int, text: seq<Byte>): int
    requires text != []
  {
    match r
    case 4 => 260
    case 5 => 261
    case 6 => 262
    case 7 => 263
    case 8 => 264
    case 9 => 266
    case 10 => 265
    case 11 => 267
    case 12 => 268
    case 13 => 269
    case 14 => 274
    case 15 => 273
    case 16 => text[0]
    case 17 => 271
    case 18 => 272
    case 19 => 272
    case 20 => 270
    case 21 => 259
    case 22 => 258
    case _ => 0
  }

  function Text(bytes: seq<Byte>): (s: string)
    ensures |s| == |bytes| && forall i :: 0 <= i < |bytes| ==> s[i] as int == bytes[i]
  {
    seq(|bytes|, i requires 0 <= i < |bytes| => bytes[i] as char)
  }

  /** The start condition that the action of a rule leaves. */
  function StartAfter(start: int, r: int): int {
    if r == 21 then OUTPUT_START else if r == 22 then INITIAL_START else start
  }

  /** The length of the longest prefix of the first `n` bytes that some rule matches; 0 if there is none. */
  function LongestMatch(start: int, bytes: seq<Byte>, n: nat): (m: nat)
    requires n <= |bytes|
    ensures m <= n
  {
    if n == 0 || FirstRule(start, bytes[..n]) != 0 then n else LongestMatch(start, bytes, n - 1)
  }

  /** The tokens of a stream by the lexical rules: at every point the longest match, and of its rules the first. */
  function Tokens(start: int, bytes: seq<Byte>): Scan
    decreases |bytes|
  {
    if bytes == [] then Scan([], true)
    else
      var m := LongestMatch(start, bytes, |bytes|);
      var r := FirstRule(start, bytes[..m]);
      if m == 0 || r == UNHANDLED_RULE then Scan([], false)
      else
        var rest := Tokens(StartAfter(start, r), bytes[m..]);
        if Code(r, bytes[..m]) == 0 then rest
        else rest.(tokens := [Token(Code(r, bytes[..m]), Text(bytes[..m]))] + rest.tokens)
  }

  /** The scanner's longest match is the longest match by the rules. */
  lemma {:induction false} MatchIsLongest(start: int, bytes: seq<Byte>, m: int, n: nat)
    requires Longest(start, bytes, m) && m <= n <= |bytes|
    ensures LongestMatch(start, bytes, n) == m && Rule(start, bytes[..m]) == FirstRule(start, bytes[..m])
    decreases n
  {
    hide Rule, FirstRule;
    TablesImplementRules(start, bytes[..m]);
    TablesImplementRules(start, bytes[..n]);
    if n > m { MatchIsLongest(start, bytes, m, n - 1); }
  }

  lemma FirstRuleRange(start: int, text: seq<Byte>, from: nat)
    requires 1 <= from
    ensures 0 <= FirstRule(start, text, from) <= RULES
    decreases RULES + 1 - from
  {
    hide Matches, Pattern;
    if from <= RULES { FirstRuleRange(start, text, from + 1); }
  }
}
