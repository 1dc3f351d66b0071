// The lexical rules of Maxima's replies, and what it means for a text to match one.

module LexicalRules {
  import opened ScannerAutomaton

  /** A set of characters; letters stand for both cases. */
  datatype Chars = Only(c: char) | Digits | Letters | WordChars | Blanks | Marks | NoParens | NoNewline

  /** One character of a set, or any number of them. */
  datatype Piece = One(chars: Chars) | Many(chars: Chars)

  const RULES := 23

  predicate Has(cs: Chars, b: Byte) {
    match cs
    case Only(c) => Lower(b) == c as int
    case Digits => IsDigit(b)
    case Letters => IsLetter(b)
    case WordChars => IsDigit(b) || IsLetter(b)
    case Blanks => b == ' ' as int || b == '\r' as int || b == '\n' as int || b == '\t' as int
    case Marks => IsMark(b)
    case NoParens => b != '(' as int && b != ')' as int
    case NoNewline => b != '\n' as int
  }

  function Lower(b: Byte): Byte { if 'A' as int <= b <= 'Z' as int then b + 32 else b }

  predicate IsDigit(b: Byte) { '0' as int <= b <= '9' as int }

  predicate IsLetter(b: Byte) { 'a' as int <= Lower(b) <= 'z' as int || b == '_' as int }

  predicate IsMark(b: Byte) {
    b == '=' as int || b == '<' as int || b == '>' as int || b == ',' as int || b == '*' as int || b == '/' as int ||
    b == '(' as int || b == ')' as int || b == '[' as int || b == ']' as int || b == '\n' as int || b == '^' as int ||
    b == '+' as int || b == '-' as int
  }

  function Word(w: string): (ps: seq<Piece>)
    ensures |ps| == |w| && forall i :: 0 <= i < |w| ==> ps[i] == One(Only(w[i]))
  {
    if w == "" then [] else [One(Only(w[0]))] + Word(w[1..])
  }

  function Some(first: Chars, more: Chars): seq<Piece> { [One(first), Many(more)] }

  function Pattern(r: int): seq<Piece> {
    match r
    case 1 => Some(NoParens, NoParens)
    case 2 => [One(NoNewline)]
    case 3 => Some(Blanks, Blanks)
    case 4 => Word("<=")
    case 5 => Word(">=")
    case 6 => Word("true")
    case 7 => Word("false")
    case 8 => Word("equal")
    case 9 => Word("ceiling")
    case 10 => Word("floor")
    case 11 => Word("if")
    case 12 => Word("then")
    case 13 => Word("else")
    case 14 => Word("and")
    case 15 => Word("or")
    case 16 => [One(Marks)]
    case 17 => Some(Digits, Digits)
    case 18 => Some(Digits, Digits) + Word(".") + Some(Digits, Digits)
    case 19 => Some(Digits, Digits) + Word(".") + Some(Digits, Digits) + Word("e-") + Some(Digits, Digits)
    case 20 => Some(Letters, WordChars)
    case 21 => Word("(%o") + Some(Digits, Digits) + Word(") ")
    case 22 => Word("(%i") + Some(Digits, Digits) + Word(") ")
    case 23 => [One(NoNewline)]
    case _ => []
  }

  /** The text is spelled by the pieces. */
  predicate Matches(ps: seq<Piece>, text: seq<Byte>)
    decreases |ps|, |text|
  {
    if ps == [] then text == []
    else if ps[0].One? then text != [] && Has(ps[0].chars, text[0]) && Matches(ps[1..], text[1..])
    else Matches(ps[1..], text) || (text != [] && Has(ps[0].chars, text[0]) && Matches(ps, text[1..]))
  }

  /** Rules 1 and 2 belong to the initial condition, rules 3 to 20 to the output condition, the others to both. */
  predicate Applies(start: int, r: int) {
    1 <= r <= RULES && (r <= 2 ==> start == INITIAL_START) && (3 <= r <= 20 ==> start == OUTPUT_START)
  }

  /** The first rule from `r` on that applies and matches; 0 for none. */
  function FirstRule(start: int, text: seq<Byte>, r: nat := 1): int
    decreases RULES + 1 - r
  {
    if r > RULES then 0
    else if Applies(start, r) && Matches(Pattern(r), text) then r
    else FirstRule(start, text, r + 1)
  }
}
