// The packed tables implement the lexical rules: a text leads to an accepting state exactly when a rule matches it.

module ScannerRules {
  import opened TableRows
  import opened ScannerTables
  import opened ScannerAutomaton
  import opened LexicalRules

  // ----- positions in patterns -----

  /** How the rules 4 to 15 are spelled. */
  function Spelling(r: int): string {
    if r < 10 then
      if r < 7 then (if r < 5 then "<=" else if r < 6 then ">=" else "true")
      else if r < 8 then "false" else if r < 9 then "equal" else "ceiling"
    else if r < 13 then (if r < 11 then "floor" else if r < 12 then "if" else "then")
    else if r < 14 then "else" else if r < 15 then "and" else "or"
  }

  function Size(r: int): int {
    if r < 4 then (if r == 2 then 1 else 2)
    else if r < 16 then |Spelling(r)|
    else if r < 20 then (if r < 17 then 1 else if r < 18 then 2 else if r < 19 then 5 else 9)
    else if r < 21 then 2 else if r < 23 then 7 else 1
  }

  predicate IsRule(r: int) { 1 <= r <= RULES }

  /** The pieces of the patterns, in a form that is looked up quickly. */
  function PieceOf(r: int, p: int): Piece
    requires IsRule(r) && 0 <= p < Size(r)
  {
    if r < 4 then
      if r == 2 then One(NoNewline)
      else if p == 0 then One(if r == 1 then NoParens else Blanks) else Many(if r == 1 then NoParens else Blanks)
    else if r < 16 then One(Only(Spelling(r)[p]))
    else if r < 20 then
      if r == 16 then One(Marks)
      else if p == 0 || p == 3 || p == 7 then One(Digits)
      else if p == 1 || p == 4 || p == 8 then Many(Digits)
      else One(Only(if p == 2 then '.' else if p == 5 then 'e' else '-'))
    else if r < 21 then (if p == 0 then One(Letters) else Many(WordChars))
    else if r < 23 then
      if p < 3 then One(Only(if p == 0 then '(' else if p == 1 then '%' else if r == 21 then 'o' else 'i'))
      else if p == 3 then One(Digits)
      else if p == 4 then Many(Digits)
      else One(Only(if p == 5 then ')' else ' '))
    else One(NoNewline)
  }

  lemma PiecesAreThePattern(r: int)
    requires IsRule(r)
    ensures Size(r) == |Pattern(r)| < 10
    ensures forall p :: 0 <= p < Size(r) ==> Pattern(r)[p] == PieceOf(r, p)
  {
    if 18 <= r <= 19 {
      PiecesOfFloats(r);
    } else if 21 <= r <= 22 {
      PiecesOfPrompts(r);
    } else {
      PiecesOfWords(r);
    }
  }

  lemma PiecesOfWords(r: int)
    requires IsRule(r) && r != 18 && r != 19 && r != 21 && r != 22
    ensures Size(r) == |Pattern(r)| < 10
    ensures forall p :: 0 <= p < Size(r) ==> Pattern(r)[p] == PieceOf(r, p)
  {
  }

  lemma PiecesOfFloats(r: int)
    requires 18 <= r <= 19
    ensures Size(r) == |Pattern(r)| < 10
    ensures forall p :: 0 <= p < Size(r) ==> Pattern(r)[p] == PieceOf(r, p)
  {
  }

  lemma PiecesOfPrompts(r: int)
    requires 21 <= r <= 22
    ensures Size(r) == |Pattern(r)| < 10
    ensures forall p :: 0 <= p < Size(r) ==> Pattern(r)[p] == PieceOf(r, p)
  {
  }

  predicate IsItem(k: int) { IsRule(k / 10) && k % 10 <= Size(k / 10) }

  /** The item after one more byte; 0 if the pattern cannot go on. */
  function Next(k: int, b: Byte): int {
    var r, p := k / 10, k % 10;
    if !(IsRule(r) && p < Size(r)) then 0
    else if Has(PieceOf(r, p).chars, b) then (if PieceOf(r, p).One? then k + 1 else k)
    else if PieceOf(r, p).Many? && p + 1 < Size(r) && Has(PieceOf(r, p + 1).chars, b) then k + 2
    else 0
  }

  /** The pattern may end here. */
  predicate Final(k: int) {
    var r, p := k / 10, k % 10;
    IsRule(r) && (p == Size(r) || (p == Size(r) - 1 && PieceOf(r, p).Many?))
  }

  /** The only character that leads on from an item, if there is only one. */
  function Want(k: int): (c: int) {
    var r, p := k / 10, k % 10;
    if IsRule(r) && p < Size(r) && PieceOf(r, p).One? && PieceOf(r, p).chars.Only? then PieceOf(r, p).chars.c as int
    else 0
  }

  // ----- items of states -----

  /** Rules are grouped so that a text keeps at most one rule of a group alive. */
  function Group(r: int): int {
    if r == 2 || r == 16 || r == 17 || r == 20 then 0
    else if r == 10 || r == 12 || r == 13 || r == 19 || r == 22 then 2
    else if r == 23 then 3
    else 1
  }

  /** The item of group 0 that state `s` stands for, as 10 times the rule plus the position in its pattern; 0 for none. */
  function ItemA(s: int): int {
    if s < 10 then Row(s, 0, 0, 0, 0, 0, 0, 21, 0, 21, 21) else
    if s < 20 then Row(s - 10, 0, 0, 161, 161, 161, 171, 161, 161, 201, 201) else
    if s < 30 then Row(s - 20, 201, 201, 201, 201, 201, 201, 0, 0, 0, 0) else
    if s < 40 then Row(s - 30, 171, 0, 0, 201, 201, 201, 201, 201, 201, 201) else
    if s < 50 then Row(s - 40, 201, 201, 201, 201, 0, 0, 0, 201, 201, 201) else
    if s < 60 then Row(s - 50, 201, 201, 201, 201, 201, 0, 0, 0, 201, 201) else
    if s < 70 then Row(s - 60, 201, 201, 201, 201, 201, 0, 0, 0, 201, 201) else
    Row(s - 70, 201, 201, 0, 0, 0, 201, 201, 0, 0, 0)
  }

  /** The item of group 1. */
  function ItemB(s: int): int {
    if s < 10 then Row(s, 0, 0, 0, 0, 0, 0, 11, 11, 211, 0) else
    if s < 20 then Row(s - 10, 0, 31, 31, 211, 0, 181, 41, 51, 141, 0) else
    if s < 30 then Row(s - 20, 91, 81, 71, 111, 151, 61, 11, 212, 31, 183) else
    if s < 40 then Row(s - 30, 181, 42, 52, 0, 142, 92, 0, 82, 72, 0) else
    if s < 50 then Row(s - 40, 112, 152, 0, 62, 0, 213, 184, 143, 93, 0) else
    if s < 60 then Row(s - 50, 83, 73, 0, 0, 63, 0, 214, 0, 94, 0) else
    if s < 70 then Row(s - 60, 84, 74, 0, 0, 64, 0, 216, 0, 95, 85) else
    Row(s - 70, 75, 0, 0, 217, 0, 96, 97, 0, 0, 0)
  }

  /** The item of group 2. */
  function ItemC(s: int): int {
    if s < 10 then Row(s, 0, 0, 0, 0, 0, 0, 0, 0, 221, 0) else
    if s < 20 then Row(s - 10, 0, 0, 0, 221, 0, 191, 0, 0, 0, 0) else
    if s < 30 then Row(s - 20, 0, 131, 101, 0, 0, 121, 0, 222, 0, 193) else
    if s < 40 then Row(s - 30, 191, 0, 0, 0, 0, 0, 132, 0, 0, 102) else
    if s < 50 then Row(s - 40, 0, 0, 122, 0, 223, 0, 194, 0, 0, 133) else
    if s < 60 then Row(s - 50, 0, 0, 103, 123, 0, 224, 0, 196, 0, 134) else
    if s < 70 then Row(s - 60, 0, 0, 104, 124, 0, 226, 0, 197, 0, 0) else
    Row(s - 70, 0, 105, 227, 0, 198, 0, 0, 0, 0, 0)
  }

  /** The item of group 3. */
  function ItemD(s: int): int {
    if s < 10 then Row(s, 0, 0, 0, 0, 0, 0, 231, 0, 231, 231) else
    if s < 20 then Row(s - 10, 231, 231, 0, 231, 231, 231, 231, 231, 231, 231) else
    if s < 30 then Row(s - 20, 231, 231, 231, 231, 231, 231, 0, 0, 0, 0) else
    if s < 40 then Row(s - 30, 0, 0, 0, 0, 0, 0, 0, 0, 0, 0) else
    if s < 50 then Row(s - 40, 0, 0, 0, 0, 0, 0, 0, 0, 0, 0) else
    if s < 60 then Row(s - 50, 0, 0, 0, 0, 0, 0, 0, 0, 0, 0) else
    if s < 70 then Row(s - 60, 0, 0, 0, 0, 0, 0, 0, 0, 0, 0) else
    Row(s - 70, 0, 0, 0, 0, 0, 0, 0, 0, 0, 0)
  }


  function Item(g: int, s: int): int {
    if g < 2 then (if g < 1 then ItemA(s) else ItemB(s)) else if g < 3 then ItemC(s) else ItemD(s)
  }

  // ----- bytes of one class are alike -----

  /** A byte of each class. */
  function Member(c: int): (b: Byte)
    requires 1 <= c <= 47
    ensures ClassOf(b) == c
  {
    if c < 10 then Row(c, 0, 0, 9, 10, 32, 37, 40, 41, 42, 45) else
    if c < 20 then Row(c - 10, 46, 48, 60, 61, 62, 65, 98, 67, 68, 69) else
    if c < 30 then Row(c - 20, 70, 71, 72, 73, 76, 78, 79, 81, 82, 83) else
    if c < 40 then Row(c - 30, 84, 85, 97, 99, 100, 101, 102, 103, 104, 105) else
    Row(c - 40, 108, 110, 111, 113, 114, 115, 116, 117, 0, 0)
  }

  predicate Shared(c: int) { c == 1 || c == 2 || c == 8 || c == 11 || c == 16 }

  lemma Alone(b: Byte)
    requires !Shared(ClassOf(b))
    ensures Member(ClassOf(b)) == b
  {
  }

  lemma SharedAlike(b: Byte, cs: Chars)
    requires Shared(ClassOf(b)) && !cs.Only?
    ensures Has(cs, b) == Has(cs, Member(ClassOf(b)))
  {
  }

  /** A character that shares its class with no other. */
  predicate Single(c: char) {
    c < 128 as char && !Shared(ClassOf(c as int)) && ('a' <= c <= 'z' ==> !Shared(ClassOf(c as int - 32)))
  }

  lemma SpelledSingly(r: int, p: int)
    requires IsRule(r) && 0 <= p < Size(r) && PieceOf(r, p).chars.Only?
    ensures Single(PieceOf(r, p).chars.c)
  {
  }

  lemma Alike(b: Byte, cs: Chars)
    requires cs.Only? ==> Single(cs.c)
    ensures Has(cs, b) == Has(cs, Member(ClassOf(b)))
  {
    hide Member, YyEc;
    if !Shared(ClassOf(b)) { Alone(b); } else if !cs.Only? { SharedAlike(b, cs); }
  }

  lemma NextAlike(k: int, b: Byte)
    ensures Next(k, b) == Next(k, Member(ClassOf(b)))
  {
    hide PieceOf, Size, Has, Member, YyEc;
    var r, p := k / 10, k % 10;
    if IsRule(r) && p < Size(r) {
      PieceAlike(r, p, b);
      if p + 1 < Size(r) { PieceAlike(r, p + 1, b); }
    }
  }

  lemma PieceAlike(r: int, p: int, b: Byte)
    requires IsRule(r) && 0 <= p < Size(r)
    ensures Has(PieceOf(r, p).chars, b) == Has(PieceOf(r, p).chars, Member(ClassOf(b)))
  {
    hide PieceOf, Size, Has, Member, YyEc, Single;
    if PieceOf(r, p).chars.Only? { SpelledSingly(r, p); }
    Alike(b, PieceOf(r, p).chars);
  }

  // ----- one step of the tables -----

  predicate Inner(s: int) { 6 <= s < JAM }

  predicate IsWordClass(c: int) { c == 11 || c >= 15 }

  predicate IsParenClass(c: int) { c == 6 || c == 7 }

  /** Where the defaults of a state lead. */
  function Otherwise(d: int, c: int): int {
    if d == 80 then (if IsWordClass(c) then 33 else JAM)
    else if d == 79 then (if IsParenClass(c) then JAM else 26)
    else JAM
  }

  lemma StepShape(s: int, c: int)
    requires Inner(s) && 1 <= c <= 47
    ensures Step(s, c) == if YyChk(YyBase(s) + c) == s then YyNxt(YyBase(s) + c) else Otherwise(YyDef(s), c)
  {
    if YyChk(YyBase(s) + c) != s { OtherwiseShape(YyDef(s), c); }
  }

  lemma OtherwiseShape(d: int, c: int)
    requires d in {JAM, 79, 80} && 1 <= c <= 47
    ensures Step(d, if d >= TEMPLATES then YyMeta(c) else c) == Otherwise(d, c)
  {
    hide YyMeta;
    MetaShape(c);
  }

  lemma MetaShape(c: int)
    requires 1 <= c <= 47
    ensures YyMeta(c) == if IsWordClass(c) then 3 else if IsParenClass(c) then 2 else 1
  {
  }

  /** Entry `i` of the tables belongs to state `s` and class `c`, and is not one of the start states'. */
  predicate IsEntry(i: int, s: int, c: int) {
    0 <= i <= 208 && s == YyChk(i) && c == i - YyBase(s) && Inner(s) && 1 <= c <= 47
  }

  // The table entries, in bands that are quick to check.

  lemma EntryAFirst(i: int, s: int, c: int)
    requires IsEntry(i, s, c) && i < 70
    ensures ItemA(YyNxt(i)) == Next(ItemA(s), Member(c))
  {
  }

  lemma EntryASecond(i: int, s: int, c: int)
    requires IsEntry(i, s, c) && 70 <= i < 90
    ensures ItemA(YyNxt(i)) == Next(ItemA(s), Member(c))
  {
  }

  lemma EntryAThird(i: int, s: int, c: int)
    requires IsEntry(i, s, c) && 90 <= i < 105
    ensures ItemA(YyNxt(i)) == Next(ItemA(s), Member(c))
  {
  }

  lemma EntryAFourth(i: int, s: int, c: int)
    requires IsEntry(i, s, c) && 105 <= i < 115
    ensures ItemA(YyNxt(i)) == Next(ItemA(s), Member(c))
  {
  }

  lemma EntryAFifth(i: int, s: int, c: int)
    requires IsEntry(i, s, c) && 115 <= i < 135
    ensures ItemA(YyNxt(i)) == Next(ItemA(s), Member(c))
  {
  }

  lemma EntryASixth(i: int, s: int, c: int)
    requires IsEntry(i, s, c) && 135 <= i
    ensures ItemA(YyNxt(i)) == Next(ItemA(s), Member(c))
  {
  }

  lemma EntryA(i: int, s: int, c: int)
    requires IsEntry(i, s, c)
    ensures ItemA(YyNxt(i)) == Next(ItemA(s), Member(c))
  {
    hide IsEntry, YyNxt, ItemA, Next, Member;
    if i < 70 {
      EntryAFirst(i, s, c);
    } else if i < 90 {
      EntryASecond(i, s, c);
    } else if i < 105 {
      EntryAThird(i, s, c);
    } else if i < 115 {
      EntryAFourth(i, s, c);
    } else if i < 135 {
      EntryAFifth(i, s, c);
    } else {
      EntryASixth(i, s, c);
    }
  }

  lemma EntryBFirst(i: int, s: int, c: int)
    requires IsEntry(i, s, c) && i < 60
    ensures ItemB(YyNxt(i)) == Next(ItemB(s), Member(c))
  {
  }

  lemma EntryBSecond(i: int, s: int, c: int)
    requires IsEntry(i, s, c) && 60 <= i < 70
    ensures ItemB(YyNxt(i)) == Next(ItemB(s), Member(c))
  {
  }

  lemma EntryBThird(i: int, s: int, c: int)
    requires IsEntry(i, s, c) && 70 <= i < 80
    ensures ItemB(YyNxt(i)) == Next(ItemB(s), Member(c))
  {
  }

  lemma EntryBFourth(i: int, s: int, c: int)
    requires IsEntry(i, s, c) && 80 <= i < 90
    ensures ItemB(YyNxt(i)) == Next(ItemB(s), Member(c))
  {
  }

  lemma EntryBFifth(i: int, s: int, c: int)
    requires IsEntry(i, s, c) && 90 <= i < 100
    ensures ItemB(YyNxt(i)) == Next(ItemB(s), Member(c))
  {
  }

  lemma EntryBSixth(i: int, s: int, c: int)
    requires IsEntry(i, s, c) && 100 <= i < 108
    ensures ItemB(YyNxt(i)) == Next(ItemB(s), Member(c))
  {
  }

  lemma EntryBSeventh(i: int, s: int, c: int)
    requires IsEntry(i, s, c) && 108 <= i < 115
    ensures ItemB(YyNxt(i)) == Next(ItemB(s), Member(c))
  {
  }

  lemma EntryBEighth(i: int, s: int, c: int)
    requires IsEntry(i, s, c) && 115 <= i < 122
    ensures ItemB(YyNxt(i)) == Next(ItemB(s), Member(c))
  {
  }

  lemma EntryBNinth(i: int, s: int, c: int)
    requires IsEntry(i, s, c) && 122 <= i < 130
    ensures ItemB(YyNxt(i)) == Next(ItemB(s), Member(c))
  {
  }

  lemma EntryBTenth(i: int, s: int, c: int)
    requires IsEntry(i, s, c) && 130 <= i < 138
    ensures ItemB(YyNxt(i)) == Next(ItemB(s), Member(c))
  {
  }

  lemma EntryBEleventh(i: int, s: int, c: int)
    requires IsEntry(i, s, c) && 138 <= i < 150
    ensures ItemB(YyNxt(i)) == Next(ItemB(s), Member(c))
  {
  }

  lemma EntryBTwelfth(i: int, s: int, c: int)
    requires IsEntry(i, s, c) && 150 <= i
    ensures ItemB(YyNxt(i)) == Next(ItemB(s), Member(c))
  {
  }

  lemma EntryB(i: int, s: int, c: int)
    requires IsEntry(i, s, c)
    ensures ItemB(YyNxt(i)) == Next(ItemB(s), Member(c))
  {
    hide IsEntry, YyNxt, ItemB, Next, Member;
    if i < 60 {
      EntryBFirst(i, s, c);
    } else if i < 70 {
      EntryBSecond(i, s, c);
    } else if i < 80 {
      EntryBThird(i, s, c);
    } else if i < 90 {
      EntryBFourth(i, s, c);
    } else if i < 100 {
      EntryBFifth(i, s, c);
    } else if i < 108 {
      EntryBSixth(i, s, c);
    } else if i < 115 {
      EntryBSeventh(i, s, c);
    } else if i < 122 {
      EntryBEighth(i, s, c);
    } else if i < 130 {
      EntryBNinth(i, s, c);
    } else if i < 138 {
      EntryBTenth(i, s, c);
    } else if i < 150 {
      EntryBEleventh(i, s, c);
    } else {
      EntryBTwelfth(i, s, c);
    }
  }

  lemma EntryCFirst(i: int, s: int, c: int)
    requires IsEntry(i, s, c) && i < 75
    ensures ItemC(YyNxt(i)) == Next(ItemC(s), Member(c))
  {
  }

  lemma EntryCSecond(i: int, s: int, c: int)
    requires IsEntry(i, s, c) && 75 <= i < 90
    ensures ItemC(YyNxt(i)) == Next(ItemC(s), Member(c))
  {
  }

  lemma EntryCThird(i: int, s: int, c: int)
    requires IsEntry(i, s, c) && 90 <= i < 100
    ensures ItemC(YyNxt(i)) == Next(ItemC(s), Member(c))
  {
  }

  lemma EntryCFourth(i: int, s: int, c: int)
    requires IsEntry(i, s, c) && 100 <= i < 112
    ensures ItemC(YyNxt(i)) == Next(ItemC(s), Member(c))
  {
  }

  lemma EntryCFifth(i: int, s: int, c: int)
    requires IsEntry(i, s, c) && 112 <= i < 120
    ensures ItemC(YyNxt(i)) == Next(ItemC(s), Member(c))
  {
  }

  lemma EntryCSixth(i: int, s: int, c: int)
    requires IsEntry(i, s, c) && 120 <= i < 128
    ensures ItemC(YyNxt(i)) == Next(ItemC(s), Member(c))
  {
  }

  lemma EntryCSeventh(i: int, s: int, c: int)
    requires IsEntry(i, s, c) && 128 <= i < 140
    ensures ItemC(YyNxt(i)) == Next(ItemC(s), Member(c))
  {
  }

  lemma EntryCEighth(i: int, s: int, c: int)
    requires IsEntry(i, s, c) && 140 <= i
    ensures ItemC(YyNxt(i)) == Next(ItemC(s), Member(c))
  {
  }

  lemma EntryC(i: int, s: int, c: int)
    requires IsEntry(i, s, c)
    ensures ItemC(YyNxt(i)) == Next(ItemC(s), Member(c))
  {
    hide IsEntry, YyNxt, ItemC, Next, Member;
    if i < 75 {
      EntryCFirst(i, s, c);
    } else if i < 90 {
      EntryCSecond(i, s, c);
    } else if i < 100 {
      EntryCThird(i, s, c);
    } else if i < 112 {
      EntryCFourth(i, s, c);
    } else if i < 120 {
      EntryCFifth(i, s, c);
    } else if i < 128 {
      EntryCSixth(i, s, c);
    } else if i < 140 {
      EntryCSeventh(i, s, c);
    } else {
      EntryCEighth(i, s, c);
    }
  }

  lemma EntryD(i: int, s: int, c: int)
    requires IsEntry(i, s, c)
    ensures ItemD(YyNxt(i)) == Next(ItemD(s), Member(c))
  {
  }

  // The other classes: nothing a pattern waits for.

  predicate IsGap(s: int, c: int) { Inner(s) && 1 <= c <= 47 && YyChk(YyBase(s) + c) != s }

  lemma GapAFirst(s: int, c: int)
    requires IsGap(s, c) && s < 30
    ensures ItemA(Otherwise(YyDef(s), c)) == Next(ItemA(s), Member(c))
  {
  }

  lemma GapASecond(s: int, c: int)
    requires IsGap(s, c) && 30 <= s < 45
    ensures ItemA(Otherwise(YyDef(s), c)) == Next(ItemA(s), Member(c))
  {
  }

  lemma GapAThird(s: int, c: int)
    requires IsGap(s, c) && 45 <= s
    ensures ItemA(Otherwise(YyDef(s), c)) == Next(ItemA(s), Member(c))
  {
  }

  lemma GapA(s: int, c: int)
    requires IsGap(s, c)
    ensures ItemA(Otherwise(YyDef(s), c)) == Next(ItemA(s), Member(c))
  {
    hide IsGap, ItemA, Otherwise, YyDef, Next, Member;
    if s < 30 {
      GapAFirst(s, c);
    } else if s < 45 {
      GapASecond(s, c);
    } else {
      GapAThird(s, c);
    }
  }

  lemma GapB(s: int, c: int)
    requires IsGap(s, c)
    ensures ItemB(Otherwise(YyDef(s), c)) == Next(ItemB(s), Member(c))
  {
    hide YyChk, YyBase, YyDef, Otherwise, ItemB, Member, Next, Want;
    var k := ItemB(s);
    ItemKind(1, s);
    if IsPlain(k) {
      PlainStateB(s);
      GapBPlain(s, c);
    } else {
      if Want(k) != 0 {
        WantB(s, Want(k));
        if Want(k) >= 97 { WantBUpper(s, Want(k)); }
        Unwanted(s, k, c);
      }
      GapIsDead(s, c);
    }
  }

  lemma GapC(s: int, c: int)
    requires IsGap(s, c)
    ensures ItemC(Otherwise(YyDef(s), c)) == Next(ItemC(s), Member(c))
  {
    hide YyChk, YyBase, YyDef, Otherwise, ItemC, Member, Next, Want;
    var k := ItemC(s);
    ItemKind(2, s);
    if IsPlain(k) {
      PlainStateC(s);
      GapCPlain(s, c);
    } else {
      if Want(k) != 0 {
        WantC(s, Want(k));
        if Want(k) >= 97 { WantCUpper(s, Want(k)); }
        Unwanted(s, k, c);
      }
      GapIsDead(s, c);
    }
  }

  lemma GapD(s: int, c: int)
    requires IsGap(s, c)
    ensures ItemD(Otherwise(YyDef(s), c)) == Next(ItemD(s), Member(c))
  {
  }

  /** Items that wait for a set of characters. */
  predicate IsPlain(k: int) {
    k == 11 || k == 31 || k == 181 || k == 183 || k == 184 || k == 191 || k == 193 || k == 194 || k == 197 || k == 198 ||
    k == 213 || k == 214 || k == 223 || k == 224
  }

  lemma ItemKind(g: int, s: int)
    requires Inner(s) && 1 <= g <= 2
    ensures IsPlain(Item(g, s)) || Want(Item(g, s)) != 0 || forall b :: Next(Item(g, s), b) == 0
  {
    hide ItemB, ItemC;
    InnerItem(g, s);
    CodeKind(Item(g, s));
  }

  /** An item of group 1 or 2. */
  predicate MayFollow(k: int) {
    k == 0 || (0 <= k < 240 && 0 < k % 10 && IsItem(k) && 1 <= Group(k / 10) <= 2)
  }

  lemma InnerItem(g: int, s: int)
    requires Inner(s) && 1 <= g <= 2
    ensures MayFollow(Item(g, s))
  {
    hide MayFollow;
    if g == 1 { InnerItemB(s); } else { InnerItemC(s); }
  }

  lemma InnerItemBFirst(s: int)
    requires Inner(s) && s < 30
    ensures MayFollow(ItemB(s))
  {
  }

  lemma InnerItemBSecond(s: int)
    requires Inner(s) && 30 <= s < 50
    ensures MayFollow(ItemB(s))
  {
  }

  lemma InnerItemBThird(s: int)
    requires Inner(s) && 50 <= s
    ensures MayFollow(ItemB(s))
  {
  }

  lemma InnerItemB(s: int)
    requires Inner(s)
    ensures MayFollow(ItemB(s))
  {
    hide Inner, MayFollow, ItemB;
    if s < 30 {
      InnerItemBFirst(s);
    } else if s < 50 {
      InnerItemBSecond(s);
    } else {
      InnerItemBThird(s);
    }
  }

  lemma InnerItemCFirst(s: int)
    requires Inner(s) && s < 30
    ensures MayFollow(ItemC(s))
  {
  }

  lemma InnerItemCSecond(s: int)
    requires Inner(s) && 30 <= s < 50
    ensures MayFollow(ItemC(s))
  {
  }

  lemma InnerItemCThird(s: int)
    requires Inner(s) && 50 <= s
    ensures MayFollow(ItemC(s))
  {
  }

  lemma InnerItemC(s: int)
    requires Inner(s)
    ensures MayFollow(ItemC(s))
  {
    hide Inner, MayFollow, ItemC;
    if s < 30 {
      InnerItemCFirst(s);
    } else if s < 50 {
      InnerItemCSecond(s);
    } else {
      InnerItemCThird(s);
    }
  }

  lemma CodeKind(k: int)
    requires MayFollow(k)
    ensures IsPlain(k) || Want(k) != 0 || forall b :: Next(k, b) == 0
  {
  }

  lemma Unwanted(s: int, k: int, c: int)
    requires IsGap(s, c) && Want(k) != 0 && YyChk(YyBase(s) + YyEc(Want(k))) == s
    requires Want(k) >= 97 ==> Want(k) < 123 && YyChk(YyBase(s) + YyEc(Want(k) - 32)) == s
    ensures Next(k, Member(c)) == 0
  {
    hide YyChk, YyBase, YyEc, Member, Want, Next;
    Wanted(k, Member(c));
  }

  lemma Wanted(k: int, b: Byte)
    requires Want(k) != 0
    ensures Next(k, b) == if Lower(b) == Want(k) then k + 1 else 0
  {
    hide PieceOf, Size;
  }

  lemma GapIsDead(s: int, c: int)
    requires IsGap(s, c)
    ensures ItemC(Otherwise(YyDef(s), c)) == 0
    ensures !IsPlain(ItemB(s)) ==> ItemB(Otherwise(YyDef(s), c)) == 0
  {
  }

  predicate IsPlainStateB(s: int) {
    s == 6 || s == 7 || s == 11 || s == 12 || s == 15 ||
    s == 26 || s == 28 || s == 29 || s == 30 || s == 45 || s == 46 || s == 56
  }

  lemma PlainStateB(s: int)
    requires Inner(s) && IsPlain(ItemB(s))
    ensures IsPlainStateB(s)
  {
  }

  lemma GapBPlainFirst(s: int, c: int)
    requires IsGap(s, c) && IsPlainStateB(s) && s < 12
    ensures ItemB(Otherwise(YyDef(s), c)) == Next(ItemB(s), Member(c))
  {
  }

  lemma GapBPlainSecond(s: int, c: int)
    requires IsGap(s, c) && IsPlainStateB(s) && 12 <= s < 30
    ensures ItemB(Otherwise(YyDef(s), c)) == Next(ItemB(s), Member(c))
  {
  }

  lemma GapBPlainThird(s: int, c: int)
    requires IsGap(s, c) && IsPlainStateB(s) && 30 <= s < 45
    ensures ItemB(Otherwise(YyDef(s), c)) == Next(ItemB(s), Member(c))
  {
  }

  lemma GapBPlainFourth(s: int, c: int)
    requires IsGap(s, c) && IsPlainStateB(s) && 45 <= s
    ensures ItemB(Otherwise(YyDef(s), c)) == Next(ItemB(s), Member(c))
  {
  }

  lemma GapBPlain(s: int, c: int)
    requires IsGap(s, c) && IsPlainStateB(s)
    ensures ItemB(Otherwise(YyDef(s), c)) == Next(ItemB(s), Member(c))
  {
    hide IsGap, IsPlainStateB, ItemB, Otherwise, YyDef, Next, Member;
    if s < 12 {
      GapBPlainFirst(s, c);
    } else if s < 30 {
      GapBPlainSecond(s, c);
    } else if s < 45 {
      GapBPlainThird(s, c);
    } else {
      GapBPlainFourth(s, c);
    }
  }

  lemma WantBFirst(s: int, w: int)
    requires Inner(s) && w == Want(ItemB(s)) != 0 && s < 30
    ensures YyChk(YyBase(s) + YyEc(w)) == s
  {
  }

  lemma WantBSecond(s: int, w: int)
    requires Inner(s) && w == Want(ItemB(s)) != 0 && 30 <= s < 45
    ensures YyChk(YyBase(s) + YyEc(w)) == s
  {
  }

  lemma WantBThird(s: int, w: int)
    requires Inner(s) && w == Want(ItemB(s)) != 0 && 45 <= s < 60
    ensures YyChk(YyBase(s) + YyEc(w)) == s
  {
  }

  lemma WantBFourth(s: int, w: int)
    requires Inner(s) && w == Want(ItemB(s)) != 0 && 60 <= s
    ensures YyChk(YyBase(s) + YyEc(w)) == s
  {
  }

  lemma WantB(s: int, w: int)
    requires Inner(s) && w == Want(ItemB(s)) != 0
    ensures YyChk(YyBase(s) + YyEc(w)) == s
  {
    hide Inner, Want, ItemB, YyChk, YyBase, YyEc;
    if s < 30 {
      WantBFirst(s, w);
    } else if s < 45 {
      WantBSecond(s, w);
    } else if s < 60 {
      WantBThird(s, w);
    } else {
      WantBFourth(s, w);
    }
  }

  lemma WantBUpperFirst(s: int, w: int)
    requires Inner(s) && w == Want(ItemB(s)) >= 97 && s < 30
    ensures w < 123 && YyChk(YyBase(s) + YyEc(w - 32)) == s
  {
  }

  lemma WantBUpperSecond(s: int, w: int)
    requires Inner(s) && w == Want(ItemB(s)) >= 97 && 30 <= s < 45
    ensures w < 123 && YyChk(YyBase(s) + YyEc(w - 32)) == s
  {
  }

  lemma WantBUpperThird(s: int, w: int)
    requires Inner(s) && w == Want(ItemB(s)) >= 97 && 45 <= s < 60
    ensures w < 123 && YyChk(YyBase(s) + YyEc(w - 32)) == s
  {
  }

  lemma WantBUpperFourth(s: int, w: int)
    requires Inner(s) && w == Want(ItemB(s)) >= 97 && 60 <= s
    ensures w < 123 && YyChk(YyBase(s) + YyEc(w - 32)) == s
  {
  }

  lemma WantBUpper(s: int, w: int)
    requires Inner(s) && w == Want(ItemB(s)) >= 97
    ensures w < 123 && YyChk(YyBase(s) + YyEc(w - 32)) == s
  {
    hide Inner, Want, ItemB, YyChk, YyBase, YyEc;
    if s < 30 {
      WantBUpperFirst(s, w);
    } else if s < 45 {
      WantBUpperSecond(s, w);
    } else if s < 60 {
      WantBUpperThird(s, w);
    } else {
      WantBUpperFourth(s, w);
    }
  }

  predicate IsPlainStateC(s: int) {
    s == 15 || s == 29 || s == 30 || s == 44 || s == 46 || s == 55 || s == 67 || s == 74
  }

  lemma PlainStateC(s: int)
    requires Inner(s) && IsPlain(ItemC(s))
    ensures IsPlainStateC(s)
  {
  }

  lemma GapCPlainFirst(s: int, c: int)
    requires IsGap(s, c) && IsPlainStateC(s) && s < 30
    ensures ItemC(Otherwise(YyDef(s), c)) == Next(ItemC(s), Member(c))
  {
  }

  lemma GapCPlainSecond(s: int, c: int)
    requires IsGap(s, c) && IsPlainStateC(s) && 30 <= s < 50
    ensures ItemC(Otherwise(YyDef(s), c)) == Next(ItemC(s), Member(c))
  {
  }

  lemma GapCPlainThird(s: int, c: int)
    requires IsGap(s, c) && IsPlainStateC(s) && 50 <= s
    ensures ItemC(Otherwise(YyDef(s), c)) == Next(ItemC(s), Member(c))
  {
  }

  lemma GapCPlain(s: int, c: int)
    requires IsGap(s, c) && IsPlainStateC(s)
    ensures ItemC(Otherwise(YyDef(s), c)) == Next(ItemC(s), Member(c))
  {
    hide IsGap, IsPlainStateC, ItemC, Otherwise, YyDef, Next, Member;
    if s < 30 {
      GapCPlainFirst(s, c);
    } else if s < 50 {
      GapCPlainSecond(s, c);
    } else {
      GapCPlainThird(s, c);
    }
  }

  lemma WantCFirst(s: int, w: int)
    requires Inner(s) && w == Want(ItemC(s)) != 0 && s < 40
    ensures YyChk(YyBase(s) + YyEc(w)) == s
  {
  }

  lemma WantCSecond(s: int, w: int)
    requires Inner(s) && w == Want(ItemC(s)) != 0 && 40 <= s < 58
    ensures YyChk(YyBase(s) + YyEc(w)) == s
  {
  }

  lemma WantCThird(s: int, w: int)
    requires Inner(s) && w == Want(ItemC(s)) != 0 && 58 <= s
    ensures YyChk(YyBase(s) + YyEc(w)) == s
  {
  }

  lemma WantC(s: int, w: int)
    requires Inner(s) && w == Want(ItemC(s)) != 0
    ensures YyChk(YyBase(s) + YyEc(w)) == s
  {
    hide Inner, Want, ItemC, YyChk, YyBase, YyEc;
    if s < 40 {
      WantCFirst(s, w);
    } else if s < 58 {
      WantCSecond(s, w);
    } else {
      WantCThird(s, w);
    }
  }

  lemma WantCUpperFirst(s: int, w: int)
    requires Inner(s) && w == Want(ItemC(s)) >= 97 && s < 40
    ensures w < 123 && YyChk(YyBase(s) + YyEc(w - 32)) == s
  {
  }

  lemma WantCUpperSecond(s: int, w: int)
    requires Inner(s) && w == Want(ItemC(s)) >= 97 && 40 <= s < 58
    ensures w < 123 && YyChk(YyBase(s) + YyEc(w - 32)) == s
  {
  }

  lemma WantCUpperThird(s: int, w: int)
    requires Inner(s) && w == Want(ItemC(s)) >= 97 && 58 <= s
    ensures w < 123 && YyChk(YyBase(s) + YyEc(w - 32)) == s
  {
  }

  lemma WantCUpper(s: int, w: int)
    requires Inner(s) && w == Want(ItemC(s)) >= 97
    ensures w < 123 && YyChk(YyBase(s) + YyEc(w - 32)) == s
  {
    hide Inner, Want, ItemC, YyChk, YyBase, YyEc;
    if s < 40 {
      WantCUpperFirst(s, w);
    } else if s < 58 {
      WantCUpperSecond(s, w);
    } else {
      WantCUpperThird(s, w);
    }
  }

  /** The tables move every item of a state over the byte read. */
  lemma ItemStep(g: int, s: int, b: Byte)
    requires (Inner(s) || s == JAM) && 0 <= g <= 3
    ensures Item(g, Step(s, ClassOf(b))) == Next(Item(g, s), b)
  {
    hide Next, ClassOf, YyChk, YyBase, YyNxt, YyDef, Member, Otherwise, ItemA, ItemB, ItemC, ItemD, Step;
    var c := ClassOf(b);
    NextAlike(Item(g, s), b);
    if s == JAM {
      Jammed(g, b);
    } else {
      StepShape(s, c);
      if YyChk(YyBase(s) + c) == s { EntryItem(g, s, c); } else { GapItem(g, s, c); }
    }
  }

  lemma EntryItem(g: int, s: int, c: int)
    requires 0 <= g <= 3 && Inner(s) && 1 <= c <= 47 && YyChk(YyBase(s) + c) == s
    ensures Item(g, YyNxt(YyBase(s) + c)) == Next(Item(g, s), Member(c))
  {
    hide Next, YyChk, YyBase, YyNxt, Member, ItemA, ItemB, ItemC, ItemD;
    var i := YyBase(s) + c;
    BaseRange(s);
    match g {
      case 0 => EntryA(i, s, c);
      case 1 => EntryB(i, s, c);
      case 2 => EntryC(i, s, c);
      case 3 => EntryD(i, s, c);
    }
  }

  lemma GapItem(g: int, s: int, c: int)
    requires 0 <= g <= 3 && IsGap(s, c)
    ensures Item(g, Otherwise(YyDef(s), c)) == Next(Item(g, s), Member(c))
  {
    hide Next, YyDef, Otherwise, Member, IsGap, ItemA, ItemB, ItemC, ItemD;
    match g {
      case 0 => GapA(s, c);
      case 1 => GapB(s, c);
      case 2 => GapC(s, c);
      case 3 => GapD(s, c);
    }
  }

  lemma BaseRange(s: int)
    requires IsState(s)
    ensures 0 <= YyBase(s) <= 161
  {
  }

  lemma Jammed(g: int, b: Byte)
    ensures Item(g, JAM) == 0 && Next(0, b) == 0 && Step(JAM, ClassOf(b)) == JAM
  {
    hide ClassOf;
    StepJams(JAM, ClassOf(b));
  }

  // ----- the first byte -----

  /** The state after the first byte. */
  function FirstState(start: int, c: int): int {
    if start == OUTPUT_START then YyNxt(9 + c)
    else if c == 3 then 7 else if c == 6 then 8 else if c == 7 then 9 else 6
  }

  lemma StartShape(start: int, c: int)
    requires IsStart(start) && 1 <= c <= 47
    ensures Step(start, c) == FirstState(start, c) && Inner(FirstState(start, c))
  {
  }

  lemma ItemFromOutputFirst(g: int, c: int, k: int)
    requires 1 <= c <= 47 && 0 <= g <= 3 && k == Item(g, FirstState(OUTPUT_START, c)) != 0 && c < 12
    ensures Applies(OUTPUT_START, k / 10) && Group(k / 10) == g && k == Next(10 * (k / 10), Member(c))
  {
  }

  lemma ItemFromOutputSecond(g: int, c: int, k: int)
    requires 1 <= c <= 47 && 0 <= g <= 3 && k == Item(g, FirstState(OUTPUT_START, c)) != 0 && 12 <= c < 18
    ensures Applies(OUTPUT_START, k / 10) && Group(k / 10) == g && k == Next(10 * (k / 10), Member(c))
  {
  }

  lemma ItemFromOutputThird(g: int, c: int, k: int)
    requires 1 <= c <= 47 && 0 <= g <= 3 && k == Item(g, FirstState(OUTPUT_START, c)) != 0 && 18 <= c < 24
    ensures Applies(OUTPUT_START, k / 10) && Group(k / 10) == g && k == Next(10 * (k / 10), Member(c))
  {
  }

  lemma ItemFromOutputFourth(g: int, c: int, k: int)
    requires 1 <= c <= 47 && 0 <= g <= 3 && k == Item(g, FirstState(OUTPUT_START, c)) != 0 && 24 <= c < 36
    ensures Applies(OUTPUT_START, k / 10) && Group(k / 10) == g && k == Next(10 * (k / 10), Member(c))
  {
  }

  lemma ItemFromOutputFifth(g: int, c: int, k: int)
    requires 1 <= c <= 47 && 0 <= g <= 3 && k == Item(g, FirstState(OUTPUT_START, c)) != 0 && 36 <= c
    ensures Applies(OUTPUT_START, k / 10) && Group(k / 10) == g && k == Next(10 * (k / 10), Member(c))
  {
  }

  lemma ItemFromOutput(g: int, c: int, k: int)
    requires 1 <= c <= 47 && 0 <= g <= 3 && k == Item(g, FirstState(OUTPUT_START, c)) != 0
    ensures Applies(OUTPUT_START, k / 10) && Group(k / 10) == g && k == Next(10 * (k / 10), Member(c))
  {
    hide Item, FirstState, Applies, Group, Next, Member;
    if c < 12 {
      ItemFromOutputFirst(g, c, k);
    } else if c < 18 {
      ItemFromOutputSecond(g, c, k);
    } else if c < 24 {
      ItemFromOutputThird(g, c, k);
    } else if c < 36 {
      ItemFromOutputFourth(g, c, k);
    } else {
      ItemFromOutputFifth(g, c, k);
    }
  }

  lemma ItemFromInitial(g: int, c: int, k: int)
    requires 1 <= c <= 47 && 0 <= g <= 3 && k == Item(g, FirstState(INITIAL_START, c)) != 0
    ensures Applies(INITIAL_START, k / 10) && Group(k / 10) == g && k == Next(10 * (k / 10), Member(c))
  {
  }

  lemma ItemFromStart(g: int, start: int, c: int, k: int)
    requires IsStart(start) && 1 <= c <= 47 && 0 <= g <= 3 && k == Item(g, FirstState(start, c)) != 0
    ensures Applies(start, k / 10) && Group(k / 10) == g && k == Next(10 * (k / 10), Member(c))
  {
    hide Item, FirstState, Applies, Group, Next, Member;
    if start == OUTPUT_START { ItemFromOutput(g, c, k); } else { ItemFromInitial(g, c, k); }
  }

  lemma ItemInOutputFirst(r: int, c: int)
    requires 1 <= c <= 47 && Applies(OUTPUT_START, r) && Next(10 * r, Member(c)) != 0 && r < 6
    ensures Item(Group(r), FirstState(OUTPUT_START, c)) / 10 == r
  {
  }

  lemma ItemInOutputSecond(r: int, c: int)
    requires 1 <= c <= 47 && Applies(OUTPUT_START, r) && Next(10 * r, Member(c)) != 0 && 6 <= r < 9
    ensures Item(Group(r), FirstState(OUTPUT_START, c)) / 10 == r
  {
  }

  lemma ItemInOutputThird(r: int, c: int)
    requires 1 <= c <= 47 && Applies(OUTPUT_START, r) && Next(10 * r, Member(c)) != 0 && 9 <= r < 12
    ensures Item(Group(r), FirstState(OUTPUT_START, c)) / 10 == r
  {
  }

  lemma ItemInOutputFourth(r: int, c: int)
    requires 1 <= c <= 47 && Applies(OUTPUT_START, r) && Next(10 * r, Member(c)) != 0 && 12 <= r < 16
    ensures Item(Group(r), FirstState(OUTPUT_START, c)) / 10 == r
  {
  }

  lemma ItemInOutputFifth(r: int, c: int)
    requires 1 <= c <= 47 && Applies(OUTPUT_START, r) && Next(10 * r, Member(c)) != 0 && 16 <= r < 18
    ensures Item(Group(r), FirstState(OUTPUT_START, c)) / 10 == r
  {
  }

  lemma ItemInOutputSixth(r: int, c: int)
    requires 1 <= c <= 47 && Applies(OUTPUT_START, r) && Next(10 * r, Member(c)) != 0 && 18 <= r < 20
    ensures Item(Group(r), FirstState(OUTPUT_START, c)) / 10 == r
  {
  }

  lemma ItemInOutputSeventh(r: int, c: int)
    requires 1 <= c <= 47 && Applies(OUTPUT_START, r) && Next(10 * r, Member(c)) != 0 && 20 <= r < 22
    ensures Item(Group(r), FirstState(OUTPUT_START, c)) / 10 == r
  {
  }

  lemma ItemInOutputEighth(r: int, c: int)
    requires 1 <= c <= 47 && Applies(OUTPUT_START, r) && Next(10 * r, Member(c)) != 0 && 22 <= r
    ensures Item(Group(r), FirstState(OUTPUT_START, c)) / 10 == r
  {
  }

  lemma ItemInOutput(r: int, c: int)
    requires 1 <= c <= 47 && Applies(OUTPUT_START, r) && Next(10 * r, Member(c)) != 0
    ensures Item(Group(r), FirstState(OUTPUT_START, c)) / 10 == r
  {
    hide Applies, Next, Member, Item, Group, FirstState;
    if r < 6 {
      ItemInOutputFirst(r, c);
    } else if r < 9 {
      ItemInOutputSecond(r, c);
    } else if r < 12 {
      ItemInOutputThird(r, c);
    } else if r < 16 {
      ItemInOutputFourth(r, c);
    } else if r < 18 {
      ItemInOutputFifth(r, c);
    } else if r < 20 {
      ItemInOutputSixth(r, c);
    } else if r < 22 {
      ItemInOutputSeventh(r, c);
    } else {
      ItemInOutputEighth(r, c);
    }
  }

  lemma ItemInInitial(r: int, c: int)
    requires 1 <= c <= 47 && Applies(INITIAL_START, r) && Next(10 * r, Member(c)) != 0
    ensures Item(Group(r), FirstState(INITIAL_START, c)) / 10 == r
  {
  }

  lemma ItemIsThere(r: int, start: int, c: int)
    requires IsStart(start) && 1 <= c <= 47 && Applies(start, r) && Next(10 * r, Member(c)) != 0
    ensures Item(Group(r), FirstState(start, c)) / 10 == r
  {
    hide Applies, Next, Member, Item, Group, FirstState;
    if start == OUTPUT_START { ItemInOutput(r, c); } else { ItemInInitial(r, c); }
  }

  // ----- texts -----

  /** The item of rule `r` among those of state `s`. */
  function At(s: int, r: int): int {
    var k := Item(Group(r), s);
    if k / 10 == r then k else 0
  }

  /** The item after a text. */
  function Feed(k: int, text: seq<Byte>): int {
    if text == [] then k else Next(Feed(k, text[..|text| - 1]), text[|text| - 1])
  }

  lemma NextKeepsRule(k: int, b: Byte)
    ensures Next(k, b) == 0 || (Next(k, b) / 10 == k / 10 && IsRule(k / 10) && 0 < Next(k, b) % 10 <= Size(k / 10))
  {
    hide Has, PieceOf;
    if IsRule(k / 10) { SizeFits(k / 10); }
  }

  lemma SizeFits(r: int)
    requires IsRule(r)
    ensures 0 < Size(r) < 10 && PieceOf(r, 0).One?
  {
  }

  lemma FirstItem(start: int, b: Byte, r: int)
    requires IsStart(start) && Applies(start, r)
    ensures At(Step(start, ClassOf(b)), r) == Next(10 * r, b)
  {
    hide ItemA, ItemB, ItemC, ItemD, Member, ClassOf, Next, Group, FirstState;
    var c := ClassOf(b);
    StartShape(start, c);
    NextAlike(10 * r, b);
    GroupRange(r);
    var k := Item(Group(r), FirstState(start, c));
    if k / 10 == r { ItemFromStart(Group(r), start, c, k); }
    if Next(10 * r, Member(c)) != 0 { ItemIsThere(r, start, c); }
  }

  lemma GroupRange(r: int)
    ensures 0 <= Group(r) <= 3
  {
  }

  /** After the first byte a scan never comes back to a start state. */
  lemma StaysInner(s: int, b: Byte)
    requires Inner(s) || s == JAM
    ensures Inner(Step(s, ClassOf(b))) || Step(s, ClassOf(b)) == JAM
  {
    hide YyChk, YyBase, YyNxt, YyDef, ClassOf, Step;
    var c := ClassOf(b);
    if s == JAM {
      Jammed(0, b);
    } else {
      StepShape(s, c);
      BaseRange(s);
      NotBackToStart(YyBase(s) + c, s, c);
    }
  }

  lemma NotBackToStart(i: int, s: int, c: int)
    requires 0 <= i <= 208 && Inner(s) && 1 <= c <= 47 && i == YyBase(s) + c
    ensures YyChk(i) == s ==> Inner(YyNxt(i)) || YyNxt(i) == JAM
  {
  }

  lemma {:induction false} RunsInside(start: int, text: seq<Byte>)
    requires IsStart(start) && text != []
    ensures Inner(Run(start, text)) || Run(start, text) == JAM
  {
    hide ClassOf, Step, IsStart, FirstState;
    var n := |text| - 1;
    assert text == text[..n] + [text[n]];
    RunGrows(start, text[..n], text[n]);
    if n == 0 {
      assert text[..n] == [];
      StartShape(start, ClassOf(text[n]));
    } else {
      RunsInside(start, text[..n]);
      StaysInner(Run(start, text[..n]), text[n]);
    }
  }

  /** The state after a text holds, for every rule, the item that the text leads the rule's pattern to. */
  lemma {:induction false} Tracks(start: int, text: seq<Byte>, r: int)
    requires IsStart(start) && Applies(start, r) && text != []
    ensures At(Run(start, text), r) == Feed(10 * r, text)
  {
    hide ItemA, ItemB, ItemC, ItemD, ClassOf, Next, Step, Group, IsStart;
    var n := |text| - 1;
    var w, b := text[..n], text[n];
    assert text == w + [b];
    RunGrows(start, w, b);
    if n == 0 {
      assert w == [];
      FirstItem(start, b, r);
    } else {
      Tracks(start, w, r);
      RunsInside(start, w);
      var s := Run(start, w);
      GroupRange(r);
      ItemStep(Group(r), s, b);
      NextKeepsRule(Item(Group(r), s), b);
      NextOfNone(b);
    }
  }

  lemma NextOfNone(b: Byte)
    ensures Next(0, b) == 0
  {
  }

  lemma {:induction false} NothingElse(start: int, text: seq<Byte>, g: int)
    requires IsStart(start) && text != [] && 0 <= g <= 3 && Item(g, Run(start, text)) != 0
    ensures Applies(start, Item(g, Run(start, text)) / 10) && Group(Item(g, Run(start, text)) / 10) == g
  {
    hide ItemA, ItemB, ItemC, ItemD, ClassOf, Next, Step, Group, IsStart, Applies, FirstState;
    var n := |text| - 1;
    var w, b := text[..n], text[n];
    assert text == w + [b];
    RunGrows(start, w, b);
    if n == 0 {
      assert w == [];
      StartShape(start, ClassOf(b));
      ItemFromStart(g, start, ClassOf(b), Item(g, FirstState(start, ClassOf(b))));
    } else {
      RunsInside(start, w);
      var s := Run(start, w);
      ItemStep(g, s, b);
      NextKeepsRule(Item(g, s), b);
      NextOfNone(b);
      NothingElse(start, w, g);
    }
  }

  // ----- patterns -----

  /** What is left of a pattern at an item. */
  function Rest(k: int): seq<Piece>
    requires IsItem(k) && |Pattern(k / 10)| == Size(k / 10)
  {
    Pattern(k / 10)[k % 10..]
  }

  lemma {:induction false} FeedFront(k: int, b: Byte, text: seq<Byte>)
    ensures Feed(k, [b] + text) == Feed(Next(k, b), text)
  {
    hide Next;
    var all := [b] + text;
    if text == [] {
      assert all[..0] == [];
    } else {
      var n := |text| - 1;
      FeedFront(k, b, text[..n]);
      assert all[..|all| - 1] == [b] + text[..n];
    }
  }

  lemma {:induction false} FeedNone(text: seq<Byte>)
    ensures Feed(0, text) == 0
  {
    if text != [] {
      FeedNone(text[..|text| - 1]);
      NextOfNone(text[|text| - 1]);
    }
  }

  /** After a repeated piece comes nothing, or one character that the piece does not contain. */
  lemma Deterministic(r: int, p: int, b: Byte)
    requires IsRule(r) && 0 <= p < Size(r) - 1 && PieceOf(r, p).Many?
    ensures PieceOf(r, p + 1).One? && !(Has(PieceOf(r, p).chars, b) && Has(PieceOf(r, p + 1).chars, b))
  {
  }

  /** A pattern matches a text exactly when the text leads it to an item where it may end. */
  lemma {:induction false} Spells(k: int, text: seq<Byte>)
    requires IsItem(k) && |Pattern(k / 10)| == Size(k / 10)
    ensures Matches(Rest(k), text) <==> Final(Feed(k, text))
    decreases |text|
  {
    hide Pattern, PieceOf, Size, Has;
    var r, p := k / 10, k % 10;
    PiecesAreThePattern(r);
    var rest := Rest(k);
    if p < Size(r) - 1 {
      assert rest[1..] == Pattern(r)[p + 1..];
      if PieceOf(r, p).Many? { Deterministic(r, p, if text == [] then 0 else text[0]); }
    }
    if text != [] {
      var b, t := text[0], text[1..];
      assert text == [b] + t;
      FeedFront(k, b, t);
      FeedNone(t);
      NextKeepsRule(k, b);
      if Next(k, b) != 0 { Spells(Next(k, b), t); }
    }
  }

  lemma RuleMatches(start: int, text: seq<Byte>, r: int)
    requires IsStart(start) && Applies(start, r)
    ensures text == [] ==> !Matches(Pattern(r), text)
    ensures text != [] ==> (Matches(Pattern(r), text) <==> Final(At(Run(start, text), r)))
  {
    hide Size, PieceOf, Matches, At, Run, Pattern;
    PiecesAreThePattern(r);
    SizeFits(r);
    Spells(10 * r, text);
    assert Rest(10 * r) == Pattern(r);
    if text != [] { Tracks(start, text, r); }
  }

  // ----- what is accepted -----

  lemma AcceptsFinal(s: int, g: int)
    requires Inner(s) && 0 <= g <= 3 && Final(Item(g, s))
    ensures 0 < YyAccept(s) <= Item(g, s) / 10
  {
  }

  lemma AcceptsOnlyFinal(s: int)
    requires Inner(s) && YyAccept(s) != 0
    ensures var k := Item(Group(YyAccept(s)), s); k / 10 == YyAccept(s) && Final(k)
  {
  }

  lemma JamHoldsNothing(r: int)
    requires IsRule(r)
    ensures At(JAM, r) == 0 && !Final(0) && YyAccept(JAM) == 0
  {
  }

  lemma StartsAccept(start: int)
    requires IsStart(start)
    ensures YyAccept(start) == 0 && Run(start, []) == start
  {
  }

  /** The rule the tables accept a text with is the first rule of the start condition whose pattern matches the text. */
  lemma TablesImplementRules(start: int, text: seq<Byte>)
    requires IsStart(start)
    ensures Rule(start, text) == FirstRule(start, text)
  {
    hide YyAccept, Run, FirstRule, Final, Item, Matches, Pattern, Group, IsStart;
    var s, a := Run(start, text), Rule(start, text);
    if text == [] {
      StartsAccept(start);
    } else {
      RunsInside(start, text);
      if a != 0 {
        JamHoldsNothing(1);
        AcceptsOnlyFinal(s);
        GroupRange(a);
        AcceptedApplies(start, text);
        RuleMatches(start, text, a);
      }
    }
    forall r | Applies(start, r) && Matches(Pattern(r), text)
      ensures a != 0 && a <= r
    {
      RuleMatches(start, text, r);
      JamHoldsNothing(r);
      GroupRange(r);
      AcceptsFinal(s, Group(r));
    }
    FirstRuleIs(start, text, 1, a);
  }

  lemma AcceptedApplies(start: int, text: seq<Byte>)
    requires IsStart(start) && text != [] && Rule(start, text) != 0 && Inner(Run(start, text))
    ensures Applies(start, Rule(start, text))
  {
    hide YyAccept, Run, Final, Item, Group, IsStart;
    var s := Run(start, text);
    AcceptsOnlyFinal(s);
    GroupRange(YyAccept(s));
    NoRuleZero(Item(Group(YyAccept(s)), s));
    NothingElse(start, text, Group(YyAccept(s)));
  }

  lemma NoRuleZero(k: int)
    requires Final(k)
    ensures k != 0
  {
  }

  lemma {:induction false} FirstRuleIs(start: int, text: seq<Byte>, from: nat, a: int)
    requires 1 <= from && (a == 0 || from <= a) && (a != 0 ==> Applies(start, a) && Matches(Pattern(a), text))
    requires forall r :: from <= r && Applies(start, r) && Matches(Pattern(r), text) ==> a != 0 && a <= r
    ensures FirstRule(start, text, from) == a
    decreases RULES + 1 - from
  {
    hide Matches, Pattern;
    if from <= RULES && from != a { FirstRuleIs(start, text, from + 1, a); }
  }
}
