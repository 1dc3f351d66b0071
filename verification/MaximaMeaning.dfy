// What a parsed reply tells about the text: it ends at the first input prompt, and its formulas keep every operand
// and operator of the text in the order in which they were written.

module MaximaMeaning {
  import opened ParserTables
  import opened MaximaGrammar
  import opened MaximaPrecedence
  import opened MaximaCompleteness
  import opened MaximaParser

  // ----- where a reply ends -----

  predicate Inside(symbol: int) {
    symbol != IPROMPT && symbol != OPROMPT && !(34 <= symbol <= OUTPUT_PROMPT)
  }

  ghost predicate NoPrompt(ts: seq<Token>) {
    forall i :: 0 <= i < |ts| ==> ts[i].Symbol() != IPROMPT && ts[i].Symbol() != OPROMPT
  }

  lemma RulesStayInside(r: int)
    requires 6 <= r <= 42
    ensures forall i :: 0 <= i < |Rhs(r)| ==> Inside(Rhs(r)[i])
  {
  }

  lemma InnerHasNoPrompt(t: Tree)
    requires Derivation(t) && Inside(t.Symbol())
    ensures NoPrompt(Yield(t))
    decreases t, 1
  {
    match t
    case Leaf(_) =>
    case Node(r, kids) =>
      RulesStayInside(r);
      InnersHaveNoPrompt(kids);
  }

  lemma InnersHaveNoPrompt(ts: seq<Tree>)
    requires Derivations(ts) && forall i :: 0 <= i < |ts| ==> Inside(Symbols(ts)[i])
    ensures NoPrompt(Yields(ts))
    decreases ts, 0
  {
    if ts != [] {
      assert Inside(Symbols(ts)[0]);
      InnerHasNoPrompt(ts[0]);
      forall i | 0 <= i < |ts[1..]|
        ensures Inside(Symbols(ts[1..])[i])
      {
        assert Symbols(ts)[i + 1] == ts[i + 1].Symbol();
      }
      InnersHaveNoPrompt(ts[1..]);
    }
  }

  lemma YieldsShort(ts: seq<Tree>)
    ensures |ts| == 1 ==> Yields(ts) == Yield(ts[0])
    ensures |ts| == 3 ==> Yields(ts) == Yield(ts[0]) + Yield(ts[1]) + Yield(ts[2])
    ensures |ts| == 3 && Derivations(ts) ==> Derivation(ts[0]) && Derivation(ts[1]) && Derivation(ts[2])
  {
    hide Derivation;
    if |ts| == 3 {
      assert ts[1..] == [ts[1], ts[2]] && ts[1..][1..] == [ts[2]];
      assert Yields([ts[2]]) == Yield(ts[2]) + Yields([]);
      if Derivations(ts) { assert Derivations(ts[1..]) && Derivations(ts[1..][1..]); }
    }
  }

  lemma PromptYield(t: Tree, symbol: int)
    requires Derivation(t) && t.Symbol() == symbol && (symbol == INPUT_PROMPT || symbol == OUTPUT_PROMPT)
    ensures |Yield(t)| == 1 && Yield(t)[0].Symbol() == (if symbol == INPUT_PROMPT then IPROMPT else OPROMPT)
  {
    match t
    case Leaf(_) =>
    case Node(r, kids) =>
      assert r == 4 || r == 5;
      assert Symbols(kids)[0] == kids[0].Symbol() == Rhs(r)[0];
      YieldsShort(kids);
      assert kids[0].Leaf? by { if kids[0].Node? { assert YyR1(kids[0].rule) >= 34; } }
  }

  /** A reply is closed by its first input prompt. */
  lemma ReplyEndsAtFirstPrompt(t: Tree)
    requires Derivation(t) && t.Symbol() == START
    ensures var y := Yield(t);
      y != [] && y[|y| - 1].Symbol() == IPROMPT &&
      forall i :: 0 <= i < |y| - 1 ==> y[i].Symbol() != IPROMPT
  {
    match t
    case Leaf(_) =>
    case Node(r, kids) =>
      assert r == 2 || r == 3;
      YieldsShort(kids);
      assert forall i :: 0 <= i < |kids| ==> kids[i].Symbol() == Symbols(kids)[i];
      if r == 2 { ShortReply(kids[0]); } else { LongReply(kids[0], kids[1], kids[2]); }
  }

  ghost predicate OneLastPrompt(y: seq<Token>) {
    y != [] && y[|y| - 1].Symbol() == IPROMPT && forall i :: 0 <= i < |y| - 1 ==> y[i].Symbol() != IPROMPT
  }

  lemma ShortReply(t: Tree)
    requires Derivation(t) && t.Symbol() == INPUT_PROMPT
    ensures OneLastPrompt(Yield(t))
  {
    hide Derivation, Token.Symbol;
    PromptYield(t, INPUT_PROMPT);
  }

  lemma LongReply(t: Tree, u: Tree, v: Tree)
    requires Derivation(t) && t.Symbol() == OUTPUT_PROMPT && Derivation(u) && u.Symbol() == OUTPUT_CONTENT
    requires Derivation(v) && v.Symbol() == INPUT_PROMPT
    ensures OneLastPrompt(Yield(t) + Yield(u) + Yield(v))
  {
    hide Derivation, Token.Symbol, Tree.Symbol;
    PromptYield(t, OUTPUT_PROMPT);
    InnerHasNoPrompt(u);
    PromptYield(v, INPUT_PROMPT);
  }

  // ----- what the formulas keep of the text -----

  /** One operand or operator of the text. Grouping signs, separators and `=` leave no mark. */
  datatype Mark = Mark(symbol: int, text: string)

  predicate IsName(symbol: int) { symbol == 15 || symbol == 16 || symbol == 17 }

  predicate IsWord(symbol: int) {
    5 <= symbol <= 8 || 12 <= symbol <= 14 || symbol == 18 || symbol == 19 || 21 <= symbol <= 27
  }

  function SymbolMarks(symbol: int, text: string): seq<Mark> {
    if IsName(symbol) then [Mark(symbol, text)] else if IsWord(symbol) then [Mark(symbol, "")] else []
  }

  function TextMarks(ts: seq<Token>): seq<Mark> {
    if ts == [] then [] else SymbolMarks(ts[0].Symbol(), ts[0].text) + TextMarks(ts[1..])
  }

  function OpMarks(op: Op): seq<Mark> {
    match op
    case Plus => [Mark(24, "")]
    case Minus => [Mark(23, "")]
    case Times => [Mark(25, "")]
    case Divide => [Mark(26, "")]
    case Equal => []
    case Less => [Mark(21, "")]
    case Greater => [Mark(22, "")]
    case Power => [Mark(27, "")]
    case AtMost => [Mark(5, "")]
    case AtLeast => [Mark(6, "")]
    case And => [Mark(19, "")]
    case Or => [Mark(18, "")]
  }

  /** The marks of a formula read from left to right. */
  function FormulaMarks(f: Formula): seq<Mark> {
    match f
    case Variable(name) => [Mark(15, name)]
    case Zero => []
    case IntegerLiteral(digits) => [Mark(16, digits)]
    case BoolLiteral(b) => [Mark(if b then 7 else 8, "")]
    case FloatLiteral(digits) => [Mark(17, digits)]
    case Binop(op, l, r) => FormulaMarks(l) + OpMarks(op) + FormulaMarks(r)
    case IfThen(c, t) => [Mark(12, "")] + FormulaMarks(c) + [Mark(13, "")] + FormulaMarks(t)
    case IfThenElse(c, t, e) =>
      [Mark(12, "")] + FormulaMarks(c) + [Mark(13, "")] + FormulaMarks(t) + [Mark(14, "")] + FormulaMarks(e)
  }

  function ListMarks(fs: seq<Formula>): seq<Mark> {
    if fs == [] then [] else ListMarks(fs[..|fs| - 1]) + FormulaMarks(fs[|fs| - 1])
  }

  function ValueMarks(symbol: int, v: Value): seq<Mark> {
    match v
    case Str(text) => SymbolMarks(symbol, text)
    case Int(digits) => [Mark(16, digits)]
    case Bool(b) => [Mark(if b then 7 else 8, "")]
    case Float(digits) => [Mark(17, digits)]
    case One(f) => FormulaMarks(f)
    case Many(fs) => ListMarks(fs)
    case Unset => []
  }

  lemma TextMarksAppend(a: seq<Token>, b: seq<Token>)
    ensures TextMarks(a + b) == TextMarks(a) + TextMarks(b)
  {
    if a == [] {
      assert a + b == b;
    } else {
      assert (a + b)[1..] == a[1..] + b;
      TextMarksAppend(a[1..], b);
    }
  }

  function MarksAt(symbols: seq<int>, vs: seq<Value>, i: nat): seq<Mark>
    requires i < |symbols| == |vs|
  {
    ValueMarks(symbols[i], vs[i])
  }

  /** The marks of the first `n` values. */
  function JoinMarks(symbols: seq<int>, vs: seq<Value>, n: nat): seq<Mark>
    requires n <= |symbols| == |vs|
  {
    if n == 0 then [] else JoinMarks(symbols, vs, n - 1) + MarksAt(symbols, vs, n - 1)
  }

  lemma JoinFirst(symbols: seq<int>, vs: seq<Value>, n: nat)
    requires n < |symbols| == |vs|
    ensures JoinMarks(symbols, vs, n + 1) == MarksAt(symbols, vs, 0) + JoinMarks(symbols[1..], vs[1..], n)
  {
    if n > 0 { JoinFirst(symbols, vs, n - 1); }
  }

  /** Every operand and operator a derivation's tokens hold stands in its value, in the same order. */
  lemma ValueKeepsText(t: Tree)
    requires Derivation(t)
    ensures TextMarks(Yield(t)) == ValueMarks(t.Symbol(), Denotes(t))
    decreases t, 1
  {
    match t
    case Leaf(tok) =>
      assert [tok][1..] == [];
    case Node(r, kids) =>
      ValuesKeepText(kids);
      DenoteMarkers(kids);
      ActionKeepsMarks(r, Denote(kids));
  }

  lemma ValuesKeepText(ts: seq<Tree>)
    requires Derivations(ts)
    ensures TextMarks(Yields(ts)) == JoinMarks(Symbols(ts), Denote(ts), |ts|)
    decreases ts, 0
  {
    if ts != [] {
      ValueKeepsText(ts[0]);
      ValuesKeepText(ts[1..]);
      TextMarksAppend(Yield(ts[0]), Yields(ts[1..]));
      JoinFirst(Symbols(ts), Denote(ts), |ts| - 1);
    }
  }

  lemma JoinShort(symbols: seq<int>, vs: seq<Value>)
    requires |symbols| == |vs| <= 3
    ensures |vs| == 0 ==> JoinMarks(symbols, vs, |vs|) == []
    ensures |vs| == 1 ==> JoinMarks(symbols, vs, |vs|) == MarksAt(symbols, vs, 0)
    ensures |vs| == 2 ==> JoinMarks(symbols, vs, |vs|) == MarksAt(symbols, vs, 0) + MarksAt(symbols, vs, 1)
    ensures |vs| == 3 ==>
      JoinMarks(symbols, vs, |vs|) == MarksAt(symbols, vs, 0) + MarksAt(symbols, vs, 1) + MarksAt(symbols, vs, 2)
  {
    JoinStart(symbols, vs);
    if |vs| == 3 { assert JoinMarks(symbols, vs, 3) == JoinMarks(symbols, vs, 2) + MarksAt(symbols, vs, 2); }
  }

  lemma JoinStart(symbols: seq<int>, vs: seq<Value>)
    requires |symbols| == |vs|
    ensures 1 <= |vs| ==> JoinMarks(symbols, vs, 1) == MarksAt(symbols, vs, 0)
    ensures 2 <= |vs| ==> JoinMarks(symbols, vs, 2) == MarksAt(symbols, vs, 0) + MarksAt(symbols, vs, 1)
  {
    if 1 <= |vs| { assert JoinMarks(symbols, vs, 1) == JoinMarks(symbols, vs, 0) + MarksAt(symbols, vs, 0); }
    if 2 <= |vs| { assert JoinMarks(symbols, vs, 2) == JoinMarks(symbols, vs, 1) + MarksAt(symbols, vs, 1); }
  }

  lemma JoinStep(symbols: seq<int>, vs: seq<Value>, n: nat)
    requires n < |symbols| == |vs|
    ensures JoinMarks(symbols, vs, n + 1) == JoinMarks(symbols, vs, n) + MarksAt(symbols, vs, n)
  {
  }

  /** The value of an empty list marker is Unset. */
  ghost predicate MarkersUnset(symbols: seq<int>, vs: seq<Value>) {
    |symbols| == |vs| && forall i :: 0 <= i < |vs| && symbols[i] == NIL ==> vs[i] == Unset
  }

  lemma DenoteMarkers(ts: seq<Tree>)
    requires Derivations(ts)
    ensures MarkersUnset(Symbols(ts), Denote(ts))
  {
    if ts != [] {
      DenoteMarkers(ts[1..]);
      if ts[0].Symbol() == NIL { OnlyEmptyRule(ts[0]); }
    }
  }

  lemma OnlyEmptyRule(t: Tree)
    requires Derivation(t) && t.Symbol() == NIL
    ensures Denotes(t) == Unset
  {
    assert t.Node? && t.rule == 38;
  }

  lemma ActionKeepsMarks(r: int, vs: seq<Value>)
    requires 2 <= r <= 42 && HaveKinds(Rhs(r), vs) && MarkersUnset(Rhs(r), vs)
    ensures JoinMarks(Rhs(r), vs, |vs|) == ValueMarks(YyR1(r), Action(r, vs, Unset))
  {
    hide Rhs, YyR1, Action, HaveKinds, MarkersUnset, JoinMarks, ValueMarks;
    if r == 16 {
      IfKeepsMarks(vs);
    } else if r == 17 {
      IfElseKeepsMarks(vs);
    } else if r == 8 || r == 31 || r == 32 {
      CallKeepsMarks(r, vs);
    } else if r == 30 {
      EqualKeepsMarks(vs);
    } else if 18 <= r <= 29 {
      InfixKeepsMarks(r, vs);
    } else if r == 35 {
      ListKeepsMarks(vs);
    } else if r == 6 || r == 34 {
      OneKeepsMarks(r, vs);
    } else if r == 33 {
      NegationKeepsMarks(vs);
    } else if r == 3 || r == 7 || r == 13 {
      BracketsKeepMarks(r, vs);
    } else {
      ShortActionKeepsMarks(r, vs);
    }
  }

  lemma LengthsAgree(symbols: seq<int>, vs: seq<Value>)
    requires HaveKinds(symbols, vs)
    ensures |symbols| == |vs|
  {
  }

  lemma KindAt(symbols: seq<int>, vs: seq<Value>, i: nat)
    requires HaveKinds(symbols, vs) && i < |symbols|
    ensures |symbols| == |vs| && HasKind(symbols[i], vs[i])
  {
  }

  lemma UnsetAt(symbols: seq<int>, vs: seq<Value>, i: nat)
    requires MarkersUnset(symbols, vs) && i < |symbols| && symbols[i] == NIL
    ensures |symbols| == |vs| && vs[i] == Unset
  {
  }

  /** Rules with at most one symbol: the value of the symbol is kept or wrapped. */
  lemma ShortParts(r: int, vs: seq<Value>)
    requires r == 2 || 4 <= r <= 15 || 36 <= r <= 42
    requires r != 6 && r != 7 && r != 8 && r != 13 && HaveKinds(Rhs(r), vs) && MarkersUnset(Rhs(r), vs)
    ensures |Rhs(r)| == |vs| == (if r == 38 then 0 else 1)
    ensures r != 38 ==> MarksAt(Rhs(r), vs, 0) == ValueMarks(YyR1(r), Action(r, vs, Unset))
    ensures r == 38 ==> Action(r, vs, Unset) == Unset
  {
    hide HaveKinds, MarkersUnset;
    var rhs := Rhs(r);
    LengthsAgree(rhs, vs);
    if r != 38 { KindAt(rhs, vs, 0); }
    if r == 36 { UnsetAt(rhs, vs, 0); }
  }

  lemma ShortActionKeepsMarks(r: int, vs: seq<Value>)
    requires r == 2 || 4 <= r <= 15 || 36 <= r <= 42
    requires r != 6 && r != 7 && r != 8 && r != 13 && HaveKinds(Rhs(r), vs) && MarkersUnset(Rhs(r), vs)
    ensures JoinMarks(Rhs(r), vs, |vs|) == ValueMarks(YyR1(r), Action(r, vs, Unset))
  {
    hide JoinMarks, HaveKinds, MarkersUnset, MarksAt, Rhs, YyR1, Action;
    ShortParts(r, vs);
    JoinShort(Rhs(r), vs);
  }

  lemma BracketsKeepMarks(r: int, vs: seq<Value>)
    requires (r == 3 || r == 7 || r == 13) && HaveKinds(Rhs(r), vs)
    ensures JoinMarks(Rhs(r), vs, |vs|) == ValueMarks(YyR1(r), Action(r, vs, Unset))
  {
    hide JoinMarks, HaveKinds, FormulaMarks, ListMarks;
    var rhs := Rhs(r);
    assert |rhs| == 3;
    KindAt(rhs, vs, 0);
    KindAt(rhs, vs, 1);
    KindAt(rhs, vs, 2);
    JoinShort(rhs, vs);
    assert MarksAt(rhs, vs, 0) == [] && MarksAt(rhs, vs, 2) == [];
  }

  function OpOf(r: int): Op
    requires 18 <= r <= 29
  {
    match r
    case 18 => Plus
    case 19 => Minus
    case 20 => Times
    case 21 => Divide
    case 22 => Equal
    case 23 => Less
    case 24 => Greater
    case 25 => Power
    case 26 => AtMost
    case 27 => AtLeast
    case 28 => And
    case _ => Or
  }

  lemma InfixAction(r: int, vs: seq<Value>)
    requires 18 <= r <= 29 && HaveKinds(Rhs(r), vs)
    ensures |Rhs(r)| == |vs| == 3 && vs[0].One? && vs[1].Str? && vs[2].One?
    ensures Rhs(r)[0] == 39 && Rhs(r)[2] == 39
    ensures Action(r, vs, Unset) == One(Binop(OpOf(r), vs[0].formula, vs[2].formula))
  {
    hide HaveKinds;
    var rhs := Rhs(r);
    assert |rhs| == 3 && rhs[0] == 39 && rhs[2] == 39;
    KindAt(rhs, vs, 0);
    KindAt(rhs, vs, 1);
    KindAt(rhs, vs, 2);
  }

  lemma InfixMark(r: int, text: string)
    requires 18 <= r <= 29
    ensures |Rhs(r)| == 3 && SymbolMarks(Rhs(r)[1], text) == OpMarks(OpOf(r))
  {
  }

  lemma InfixKeepsMarks(r: int, vs: seq<Value>)
    requires 18 <= r <= 29 && HaveKinds(Rhs(r), vs)
    ensures JoinMarks(Rhs(r), vs, |vs|) == ValueMarks(YyR1(r), Action(r, vs, Unset))
  {
    hide HaveKinds, Rhs, OpOf, YyR1, Action, OpMarks, SymbolMarks, JoinMarks;
    InfixAction(r, vs);
    InfixMark(r, vs[1].str);
    JoinShort(Rhs(r), vs);
  }

  lemma ListKeepsMarks(vs: seq<Value>)
    requires HaveKinds(Rhs(35), vs)
    ensures JoinMarks(Rhs(35), vs, |vs|) == ValueMarks(YyR1(35), Action(35, vs, Unset))
  {
    hide HaveKinds, JoinMarks, ListMarks, FormulaMarks;
    var rhs := Rhs(35);
    KindAt(rhs, vs, 0);
    KindAt(rhs, vs, 1);
    KindAt(rhs, vs, 2);
    JoinShort(rhs, vs);
    assert MarksAt(rhs, vs, 1) == [];
    AppendMarks(vs[0].formulas, vs[2].formula);
  }

  lemma OneKeepsMarks(r: int, vs: seq<Value>)
    requires (r == 6 || r == 34) && HaveKinds(Rhs(r), vs)
    ensures JoinMarks(Rhs(r), vs, |vs|) == ValueMarks(YyR1(r), Action(r, vs, Unset))
  {
    hide HaveKinds, JoinMarks, ListMarks, FormulaMarks;
    var rhs := Rhs(r);
    KindAt(rhs, vs, 0);
    JoinShort(rhs, vs);
    AppendMarks([], vs[0].formula);
    assert [] + [vs[0].formula] == [vs[0].formula];
  }

  lemma AppendMarks(fs: seq<Formula>, f: Formula)
    ensures ListMarks([]) == []
    ensures ListMarks(fs + [f]) == ListMarks(fs) + FormulaMarks(f)
  {
    assert (fs + [f])[..|fs|] == fs;
  }

  lemma NegationParts(vs: seq<Value>)
    requires HaveKinds(Rhs(33), vs)
    ensures |Rhs(33)| == |vs| == 2 && vs[1].One? && Action(33, vs, Unset) == One(Binop(Minus, Zero, vs[1].formula))
    ensures MarksAt(Rhs(33), vs, 0) == OpMarks(Minus) && MarksAt(Rhs(33), vs, 1) == FormulaMarks(vs[1].formula)
  {
    hide HaveKinds, FormulaMarks;
    KindAt(Rhs(33), vs, 0);
    KindAt(Rhs(33), vs, 1);
  }

  lemma NegationKeepsMarks(vs: seq<Value>)
    requires HaveKinds(Rhs(33), vs)
    ensures JoinMarks(Rhs(33), vs, |vs|) == ValueMarks(YyR1(33), Action(33, vs, Unset))
  {
    hide HaveKinds, JoinMarks, Rhs, YyR1, Action, MarksAt, OpMarks;
    NegationParts(vs);
    JoinShort(Rhs(33), vs);
    var f := vs[1].formula;
    assert FormulaMarks(Zero) == [];
    assert FormulaMarks(Binop(Minus, Zero, f)) == FormulaMarks(Zero) + OpMarks(Minus) + FormulaMarks(f);
  }

  lemma IfParts(r: int, vs: seq<Value>)
    requires (r == 16 || r == 17) && HaveKinds(Rhs(r), vs)
    ensures |Rhs(r)| == |vs| == (if r == 16 then 4 else 6) && vs[1].One? && vs[3].One?
    ensures MarksAt(Rhs(r), vs, 0) == [Mark(12, "")] && MarksAt(Rhs(r), vs, 1) == FormulaMarks(vs[1].formula)
    ensures MarksAt(Rhs(r), vs, 2) == [Mark(13, "")] && MarksAt(Rhs(r), vs, 3) == FormulaMarks(vs[3].formula)
  {
    hide HaveKinds, FormulaMarks;
    KindAt(Rhs(r), vs, 0);
    KindAt(Rhs(r), vs, 1);
    KindAt(Rhs(r), vs, 2);
    KindAt(Rhs(r), vs, 3);
  }

  lemma ElseParts(vs: seq<Value>)
    requires HaveKinds(Rhs(17), vs)
    ensures |Rhs(17)| == |vs| == 6 && vs[1].One? && vs[3].One? && vs[5].One?
    ensures Action(17, vs, Unset) == One(IfThenElse(vs[1].formula, vs[3].formula, vs[5].formula))
    ensures MarksAt(Rhs(17), vs, 4) == [Mark(14, "")] && MarksAt(Rhs(17), vs, 5) == FormulaMarks(vs[5].formula)
  {
    hide HaveKinds, FormulaMarks;
    KindAt(Rhs(17), vs, 1);
    KindAt(Rhs(17), vs, 3);
    KindAt(Rhs(17), vs, 4);
    KindAt(Rhs(17), vs, 5);
  }

  lemma IfMarks(r: int, vs: seq<Value>)
    requires (r == 16 || r == 17) && HaveKinds(Rhs(r), vs)
    ensures 4 <= |Rhs(r)| == |vs| && vs[1].One? && vs[3].One?
    ensures JoinMarks(Rhs(r), vs, 4) ==
      [Mark(12, "")] + FormulaMarks(vs[1].formula) + [Mark(13, "")] + FormulaMarks(vs[3].formula)
  {
    hide JoinMarks, FormulaMarks, HaveKinds, Rhs, MarksAt;
    IfParts(r, vs);
    JoinStart(Rhs(r), vs);
    JoinStep(Rhs(r), vs, 2);
    JoinStep(Rhs(r), vs, 3);
  }

  lemma IfKeepsMarks(vs: seq<Value>)
    requires HaveKinds(Rhs(16), vs)
    ensures JoinMarks(Rhs(16), vs, |vs|) == ValueMarks(YyR1(16), Action(16, vs, Unset))
  {
    hide JoinMarks, HaveKinds, Rhs, YyR1, MarksAt;
    IfParts(16, vs);
    IfMarks(16, vs);
  }

  lemma IfElseKeepsMarks(vs: seq<Value>)
    requires HaveKinds(Rhs(17), vs)
    ensures JoinMarks(Rhs(17), vs, |vs|) == ValueMarks(YyR1(17), Action(17, vs, Unset))
  {
    hide JoinMarks, HaveKinds, Rhs, YyR1, MarksAt, Action;
    IfMarks(17, vs);
    ElseParts(vs);
    JoinStep(Rhs(17), vs, 4);
    JoinStep(Rhs(17), vs, 5);
  }

  lemma CallParts(r: int, vs: seq<Value>)
    requires (r == 8 || r == 31 || r == 32) && HaveKinds(Rhs(r), vs)
    ensures |Rhs(r)| == |vs| == (if r == 8 then 5 else 4) && Action(r, vs, Unset) == vs[2]
    ensures MarksAt(Rhs(r), vs, 0) == [] && MarksAt(Rhs(r), vs, 1) == [] && MarksAt(Rhs(r), vs, 3) == []
    ensures MarksAt(Rhs(r), vs, 2) == ValueMarks(YyR1(r), vs[2])
    ensures r == 8 ==> MarksAt(Rhs(r), vs, 4) == []
  {
    hide HaveKinds, FormulaMarks, ListMarks;
    KindAt(Rhs(r), vs, 0);
    KindAt(Rhs(r), vs, 1);
    KindAt(Rhs(r), vs, 2);
    KindAt(Rhs(r), vs, 3);
    if r == 8 { KindAt(Rhs(r), vs, 4); }
  }

  lemma CallKeepsMarks(r: int, vs: seq<Value>)
    requires (r == 8 || r == 31 || r == 32) && HaveKinds(Rhs(r), vs)
    ensures JoinMarks(Rhs(r), vs, |vs|) == ValueMarks(YyR1(r), Action(r, vs, Unset))
  {
    hide JoinMarks, HaveKinds, MarksAt, Rhs, YyR1, Action, ValueMarks;
    CallParts(r, vs);
    var rhs := Rhs(r);
    JoinStart(rhs, vs);
    assert JoinMarks(rhs, vs, 2) == [];
    JoinStep(rhs, vs, 2);
    JoinStep(rhs, vs, 3);
    if r == 8 { JoinStep(rhs, vs, 4); }
  }

  lemma EqualParts(vs: seq<Value>)
    requires HaveKinds(Rhs(30), vs)
    ensures |Rhs(30)| == |vs| == 6 && vs[2].One? && vs[4].One?
    ensures Action(30, vs, Unset) == One(Binop(Equal, vs[2].formula, vs[4].formula))
    ensures MarksAt(Rhs(30), vs, 0) == [] && MarksAt(Rhs(30), vs, 1) == []
    ensures MarksAt(Rhs(30), vs, 2) == FormulaMarks(vs[2].formula) && MarksAt(Rhs(30), vs, 3) == []
    ensures MarksAt(Rhs(30), vs, 4) == FormulaMarks(vs[4].formula) && MarksAt(Rhs(30), vs, 5) == []
  {
    hide HaveKinds, FormulaMarks;
    KindAt(Rhs(30), vs, 0);
    KindAt(Rhs(30), vs, 1);
    KindAt(Rhs(30), vs, 2);
    KindAt(Rhs(30), vs, 3);
    KindAt(Rhs(30), vs, 4);
    KindAt(Rhs(30), vs, 5);
  }

  lemma EqualKeepsMarks(vs: seq<Value>)
    requires HaveKinds(Rhs(30), vs)
    ensures JoinMarks(Rhs(30), vs, |vs|) == ValueMarks(YyR1(30), Action(30, vs, Unset))
  {
    hide JoinMarks, HaveKinds, Rhs, YyR1, Action, MarksAt, FormulaMarks;
    EqualParts(vs);
    EqualMarks(vs[2].formula, vs[4].formula);
    var rhs := Rhs(30);
    JoinStart(rhs, vs);
    assert JoinMarks(rhs, vs, 2) == [];
    JoinStep(rhs, vs, 2);
    assert JoinMarks(rhs, vs, 3) == FormulaMarks(vs[2].formula);
    JoinStep(rhs, vs, 3);
    assert JoinMarks(rhs, vs, 4) == FormulaMarks(vs[2].formula);
    JoinStep(rhs, vs, 4);
    JoinStep(rhs, vs, 5);
  }

  lemma EqualMarks(l: Formula, r: Formula)
    ensures FormulaMarks(Binop(Equal, l, r)) == FormulaMarks(l) + FormulaMarks(r)
  {
    assert FormulaMarks(Binop(Equal, l, r)) == FormulaMarks(l) + [] + FormulaMarks(r);
  }

  /**
   * The parser as its callers see it. It succeeds exactly when the tokens start with a reply, that is with what some
   * derivation derives that respects the precedence table, for which the stacks suffice; they suffice for every input of
   * fewer than YYMAXDEPTH - 2 tokens. The formulas are the meaning of that derivation and hold the operands and operators
   * of the reply in order, and the parser has read up to the first input prompt and no further.
   */
  method ParseReply(tokens: seq<Token>) returns (out: Outcome, read: nat)
    ensures read <= |tokens|
    ensures out.Parsed? <==> exists t :: Reply(t, tokens) && StacksSuffice(t)
    ensures out.MemoryExhausted? <==> Fills(Config([0], [], tokens))
    ensures |tokens| < YYMAXDEPTH - 2 ==> !out.MemoryExhausted? && forall t :: Reply(t, tokens) ==> StacksSuffice(t)
    ensures out.Parsed? ==> forall t :: Reply(t, tokens) ==> Yield(t) == tokens[..read] && Denotes(t) == Many(out.formulas)
    ensures out.Parsed? ==> ListMarks(out.formulas) == TextMarks(tokens[..read])
    ensures out.Parsed? ==> 0 < read && tokens[read - 1].Symbol() == IPROMPT
    ensures out.Parsed? ==> forall i :: 0 <= i < read - 1 ==> tokens[i].Symbol() != IPROMPT
  {
    hide Derivation, Respects, Denotes, Yield, TextMarks, ListMarks, Translate, Tree.Symbol, Fills, StacksSuffice;
    ghost var tree;
    out, read, tree := Parse(tokens);
    if out.Parsed? {
      assert Yield(tree) == tokens[..read];
      ReplyEndsAtFirstPrompt(tree);
      ValueKeepsText(tree);
    }
  }
}
