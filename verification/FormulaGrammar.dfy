// The grammar of formulas and its precedence table, and that the parser finds exactly the derivations they allow.

module FormulaGrammar {
  import opened FormulaSyntax
  import opened FormulaParser

  // ----- derivations -----

  /** A derivation of Formula; each case is a rule of the grammar. */
  datatype Tree =
    | Atom(token: Token)
    | Paren(inner: Tree)
    | Floor(inner: Tree)
    | Ceiling(inner: Tree)
    | EqualCall(left: Tree, right: Tree)
    | Opposite(inner: Tree)
    | Binary(left: Tree, op: Op, right: Tree)
    | IfThen(cond: Tree, thn: Tree)
    | IfElse(cond: Tree, thn: Tree, els: Tree)

  function AtomValue(t: Token): Option<Formula> {
    match t
    case IDENT(name) => Some(Variable(name))
    case INTEGER(digits) => if IsNumber(digits) then Some(Integer(FormulaSyntax.Value(digits))) else None
    case FLOAT(text) => Some(Float(text))
    case BOOL_T => Some(Bool(true))
    case BOOL_F => Some(Bool(false))
    case _ => None
  }

  predicate Derives(t: Tree) {
    match t
    case Atom(token) => AtomValue(token).Some?
    case Paren(inner) => Derives(inner)
    case Floor(inner) => Derives(inner)
    case Ceiling(inner) => Derives(inner)
    case EqualCall(l, r) => Derives(l) && Derives(r)
    case Opposite(inner) => Derives(inner)
    case Binary(l, _, r) => Derives(l) && Derives(r)
    case IfThen(c, t) => Derives(c) && Derives(t)
    case IfElse(c, t, e) => Derives(c) && Derives(t) && Derives(e)
  }

  /** The tokens that a derivation derives. */
  function Yield(t: Tree): seq<Token> {
    match t
    case Atom(token) => [token]
    case Paren(inner) => [LPAREN] + (Yield(inner) + [RPAREN])
    case Floor(inner) => [STR_FLOOR, LPAREN] + (Yield(inner) + [RPAREN])
    case Ceiling(inner) => [STR_CEILING, LPAREN] + (Yield(inner) + [RPAREN])
    case EqualCall(l, r) => [STR_EQUAL, LPAREN] + (Yield(l) + ([COMMA] + (Yield(r) + [RPAREN])))
    case Opposite(inner) => [OPERATOR(Op.Minus)] + Yield(inner)
    case Binary(l, op, r) => Yield(l) + ([OPERATOR(op)] + Yield(r))
    case IfThen(c, t) => [IF] + (Yield(c) + ([THEN] + Yield(t)))
    case IfElse(c, t, e) => [IF] + (Yield(c) + ([THEN] + (Yield(t) + ([ELSE] + Yield(e)))))
  }

  /** What the semantic actions make of a derivation. */
  function Meaning(t: Tree): Formula
    requires Derives(t)
  {
    match t
    case Atom(token) => AtomValue(token).value
    case Paren(inner) => Meaning(inner)
    case Floor(inner) => Meaning(inner)
    case Ceiling(inner) => Meaning(inner)
    case EqualCall(l, r) => Binop(Equal, Meaning(l), Meaning(r))
    case Opposite(inner) => Binop(Op.Minus, Integer(0), Meaning(inner))
    case Binary(l, op, r) => Binop(op, Meaning(l), Meaning(r))
    case IfThen(c, t) => If(Meaning(c), Meaning(t), None)
    case IfElse(c, t, e) => If(Meaning(c), Meaning(t), Some(Meaning(e)))
  }

  // ----- what the precedence table says of them -----

  /** A rule whose last operand stands at the right edge of a phrase. */
  datatype Edge = OpEdge(level: nat) | ThenEdge | ElseEdge

  function EdgeLevel(e: Edge): nat { if e.OpEdge? then e.level else IF_LEVEL }

  function Tails(t: Tree): set<Edge> {
    match t
    case Opposite(inner) => {OpEdge(OpLevel(Op.Minus))} + Tails(inner)
    case Binary(_, op, r) => {OpEdge(OpLevel(op))} + Tails(r)
    case IfThen(_, t) => {ThenEdge} + Tails(t)
    case IfElse(_, _, e) => {ElseEdge} + Tails(e)
    case _ => {}
  }

  /** The table completes the rule before this token; only infix operators and `else` could go on with its operand. */
  predicate EndsBefore(e: Edge, next: Option<Token>) {
    match next
    case Some(OPERATOR(op)) => Resolve(EdgeLevel(e), OpLevel(op)) == DoReduce
    case Some(ELSE) => e == ThenEdge ==> Resolve(IF_LEVEL, IF_LEVEL) == DoReduce
    case _ => true
  }

  predicate Complete(t: Tree, next: Option<Token>) { forall e | e in Tails(t) :: EndsBefore(e, next) }

  /** The table lets an infix phrase at the root go on where the rule expects its last operand. */
  predicate HeadFits(e: Edge, t: Tree) { t.Binary? ==> Resolve(EdgeLevel(e), OpLevel(t.op)) == DoShift }

  /** The derivation groups its operands the way the precedence table asks. */
  predicate Respects(t: Tree) {
    match t
    case Atom(_) => true
    case Paren(inner) => Respects(inner)
    case Floor(inner) => Respects(inner)
    case Ceiling(inner) => Respects(inner)
    case EqualCall(l, r) => Respects(l) && Respects(r)
    case Opposite(inner) => Respects(inner) && HeadFits(OpEdge(OpLevel(Op.Minus)), inner)
    case Binary(l, op, r) =>
      Respects(l) && Respects(r) && Complete(l, Some(OPERATOR(op))) && HeadFits(OpEdge(OpLevel(op)), r)
    case IfThen(c, t) => Respects(c) && Respects(t) && HeadFits(ThenEdge, t)
    case IfElse(c, t, e) =>
      Respects(c) && Respects(t) && Respects(e) && HeadFits(ThenEdge, t) && Complete(t, Some(ELSE)) && HeadFits(ElseEdge, e)
  }

  // ----- the parser finds every such derivation -----

  function EdgeOf(fr: Frame): Edge
    requires Ends(fr)
  {
    if fr.Then? then ThenEdge else if fr.Else? then ElseEdge else OpEdge(Level(fr))
  }

  predicate FitsOn(stack: seq<Frame>, t: Tree) {
    stack != [] && Ends(stack[|stack| - 1]) ==> HeadFits(EdgeOf(stack[|stack| - 1]), t)
  }

  lemma EdgeReduces(fr: Frame, next: Option<Token>)
    requires Ends(fr)
    ensures AfterOperand(fr, next) == DoReduce <==> EndsBefore(EdgeOf(fr), next)
  {
  }

  /** A completed last operand completes its rule. */
  lemma Completes(stack: seq<Frame>, fr: Frame, f: Formula, ts: seq<Token>)
    requires Ends(fr) && EndsBefore(EdgeOf(fr), First(ts))
    ensures Continue(stack + [fr], f, ts) == Continue(stack, Build(fr, f), ts)
  {
    EdgeReduces(fr, First(ts));
    assert (stack + [fr])[..|stack|] == stack;
  }

  /** The left operand of an infix phrase that fits somewhere fits there too. */
  lemma LeftFits(stack: seq<Frame>, l: Tree, op: Op, r: Tree)
    requires FitsOn(stack, Binary(l, op, r)) && Complete(l, Some(OPERATOR(op)))
    ensures FitsOn(stack, l)
  {
    if l.Binary? { assert OpEdge(OpLevel(l.op)) in Tails(l); }
  }

  lemma ShiftsOperator(stack: seq<Frame>, l: Tree, op: Op, r: Tree, f: Formula, ts: seq<Token>)
    requires FitsOn(stack, Binary(l, op, r))
    ensures Continue(stack, f, [OPERATOR(op)] + ts) == Operand(stack + [Infix(f, op)], ts)
  {
    hide Operand;
    assert ([OPERATOR(op)] + ts)[1..] == ts;
    if stack == [] { assert stack + [Infix(f, op)] == [Infix(f, op)]; }
  }

  /** A derivation that fits on the stack and is complete before what follows is parsed to its meaning. */
  lemma {:induction false} Parses(stack: seq<Frame>, t: Tree, rest: seq<Token>)
    requires Derives(t) && Respects(t) && FitsOn(stack, t) && Complete(t, First(rest))
    ensures Operand(stack, Yield(t) + rest) == Continue(stack, Meaning(t), rest)
    decreases t, 1
  {
    hide Operand, Continue, AfterOperand;
    match t
    case Atom(token) => ParsesAtom(stack, token, rest);
    case Paren(inner) => ParsesParen(stack, inner, rest);
    case Floor(inner) => ParsesIgnored(stack, STR_FLOOR, inner, rest);
    case Ceiling(inner) => ParsesIgnored(stack, STR_CEILING, inner, rest);
    case EqualCall(l, r) => ParsesEqual(stack, l, r, rest);
    case Opposite(inner) =>
      assert Yield(t) + rest == [OPERATOR(Op.Minus)] + (Yield(inner) + rest);
      StartMinus(stack, Yield(inner) + rest);
      OnTop(stack, Negation, inner);
      Parses(stack + [Negation], inner, rest);
      Completes(stack, Negation, Meaning(inner), rest);
    case Binary(l, op, r) => ParsesBinary(stack, l, op, r, rest);
    case IfThen(c, b) => ParsesIfThen(stack, c, b, rest);
    case IfElse(c, b, e) => ParsesIfElse(stack, c, b, e, rest);
  }

  lemma OnTop(stack: seq<Frame>, fr: Frame, t: Tree)
    requires Ends(fr) ==> HeadFits(EdgeOf(fr), t)
    ensures FitsOn(stack + [fr], t)
  {
  }

  lemma ParsesAtom(stack: seq<Frame>, token: Token, rest: seq<Token>)
    requires AtomValue(token).Some?
    ensures Operand(stack, [token] + rest) == Continue(stack, AtomValue(token).value, rest)
  {
    hide Continue;
    assert ([token] + rest)[1..] == rest;
  }

  lemma StartMinus(stack: seq<Frame>, ts: seq<Token>)
    ensures Operand(stack, [OPERATOR(Op.Minus)] + ts) == Operand(stack + [Negation], ts)
  {
    assert ([OPERATOR(Op.Minus)] + ts)[1..] == ts;
  }

  lemma StartOther(stack: seq<Frame>, ts: seq<Token>)
    ensures Operand(stack, [LPAREN] + ts) == Operand(stack + [Group], ts)
    ensures Operand(stack, [IF] + ts) == Operand(stack + [Cond], ts)
  {
    assert ([LPAREN] + ts)[1..] == ts && ([IF] + ts)[1..] == ts;
  }

  lemma StartCall(stack: seq<Frame>, name: Token, ts: seq<Token>)
    requires name == STR_FLOOR || name == STR_CEILING || name == STR_EQUAL
    ensures Operand(stack, [name, LPAREN] + ts) == Operand(stack + [if name == STR_EQUAL then EqualFirst else Ignored], ts)
  {
    var all := [name, LPAREN] + ts;
    assert all[1..] == [LPAREN] + ts && all[2..] == ts;
  }

  lemma Closes(stack: seq<Frame>, fr: Frame, f: Formula, ts: seq<Token>)
    requires fr.Group? || fr.Ignored? || fr.EqualSecond?
    ensures Continue(stack + [fr], f, [RPAREN] + ts) ==
      Continue(stack, if fr.EqualSecond? then Binop(Equal, fr.left, f) else f, ts)
  {
    hide Operand;
    assert ([RPAREN] + ts)[1..] == ts && (stack + [fr])[..|stack|] == stack;
  }

  lemma GoesOn(stack: seq<Frame>, fr: Frame, f: Formula, t: Token, ts: seq<Token>)
    requires (fr.EqualFirst? && t == COMMA) || (fr.Cond? && t == THEN) || (fr.Then? && t == ELSE)
    ensures Continue(stack + [fr], f, [t] + ts) ==
      Operand(stack + [if fr.EqualFirst? then EqualSecond(f) else if fr.Cond? then Then(f) else Else(fr.cond, f)], ts)
  {
    hide Operand;
    assert ([t] + ts)[1..] == ts && (stack + [fr])[..|stack|] == stack;
  }

  lemma ParsesParen(stack: seq<Frame>, inner: Tree, rest: seq<Token>)
    requires Derives(inner) && Respects(inner)
    ensures Operand(stack, Yield(Paren(inner)) + rest) == Continue(stack, Meaning(inner), rest)
    decreases inner, 2
  {
    hide Operand, Continue, AfterOperand;
    assert Yield(Paren(inner)) + rest == [LPAREN] + (Yield(inner) + ([RPAREN] + rest));
    StartOther(stack, Yield(inner) + ([RPAREN] + rest));
    Parses(stack + [Group], inner, [RPAREN] + rest);
    Closes(stack, Group, Meaning(inner), rest);
  }

  lemma ParsesIgnored(stack: seq<Frame>, name: Token, inner: Tree, rest: seq<Token>)
    requires Derives(inner) && Respects(inner) && (name == STR_FLOOR || name == STR_CEILING)
    ensures Operand(stack, [name, LPAREN] + (Yield(inner) + [RPAREN]) + rest) == Continue(stack, Meaning(inner), rest)
    decreases inner, 2
  {
    hide Operand, Continue, AfterOperand;
    assert [name, LPAREN] + (Yield(inner) + [RPAREN]) + rest == [name, LPAREN] + (Yield(inner) + ([RPAREN] + rest));
    StartCall(stack, name, Yield(inner) + ([RPAREN] + rest));
    Parses(stack + [Ignored], inner, [RPAREN] + rest);
    Closes(stack, Ignored, Meaning(inner), rest);
  }

  lemma ParsesEqual(stack: seq<Frame>, l: Tree, r: Tree, rest: seq<Token>)
    requires Derives(l) && Derives(r) && Respects(l) && Respects(r)
    ensures Operand(stack, Yield(EqualCall(l, r)) + rest) == Continue(stack, Meaning(EqualCall(l, r)), rest)
    decreases EqualCall(l, r), 0
  {
    hide Operand, Continue, AfterOperand;
    var second := Yield(r) + ([RPAREN] + rest);
    assert Yield(EqualCall(l, r)) + rest == [STR_EQUAL, LPAREN] + (Yield(l) + ([COMMA] + second));
    StartCall(stack, STR_EQUAL, Yield(l) + ([COMMA] + second));
    Parses(stack + [EqualFirst], l, [COMMA] + second);
    GoesOn(stack, EqualFirst, Meaning(l), COMMA, second);
    Parses(stack + [EqualSecond(Meaning(l))], r, [RPAREN] + rest);
    Closes(stack, EqualSecond(Meaning(l)), Meaning(r), rest);
  }

  lemma ParsesBinary(stack: seq<Frame>, l: Tree, op: Op, r: Tree, rest: seq<Token>)
    requires var t := Binary(l, op, r); Derives(t) && Respects(t) && FitsOn(stack, t) && Complete(t, First(rest))
    ensures var t := Binary(l, op, r); Operand(stack, Yield(t) + rest) == Continue(stack, Meaning(t), rest)
    decreases Binary(l, op, r), 0
  {
    hide Operand, Continue, AfterOperand;
    var t := Binary(l, op, r);
    var second := Yield(r) + rest;
    var fr := Infix(Meaning(l), op);
    assert Yield(t) + rest == Yield(l) + ([OPERATOR(op)] + second);
    LeftFits(stack, l, op, r);
    Parses(stack, l, [OPERATOR(op)] + second);
    ShiftsOperator(stack, l, op, r, Meaning(l), second);
    OnTop(stack, fr, r);
    Parses(stack + [fr], r, rest);
    Completes(stack, fr, Meaning(r), rest);
  }

  lemma YieldOfIf(c: seq<Token>, b: seq<Token>, rest: seq<Token>)
    ensures [IF] + (c + ([THEN] + b)) + rest == [IF] + (c + ([THEN] + (b + rest)))
  {
  }

  lemma ParsesIfThen(stack: seq<Frame>, c: Tree, b: Tree, rest: seq<Token>)
    requires var t := IfThen(c, b); Derives(t) && Respects(t) && Complete(t, First(rest))
    ensures var t := IfThen(c, b); Operand(stack, Yield(t) + rest) == Continue(stack, Meaning(t), rest)
    decreases IfThen(c, b), 0
  {
    hide Operand, Continue, AfterOperand, Resolve;
    var second, fr := Yield(b) + rest, Then(Meaning(c));
    YieldOfIf(Yield(c), Yield(b), rest);
    StartOther(stack, Yield(c) + ([THEN] + second));
    Parses(stack + [Cond], c, [THEN] + second);
    GoesOn(stack, Cond, Meaning(c), THEN, second);
    OnTop(stack, fr, b);
    Parses(stack + [fr], b, rest);
    Completes(stack, fr, Meaning(b), rest);
  }

  lemma IfElseIs(c: Tree, b: Tree, e: Tree, next: Option<Token>)
    requires var t := IfElse(c, b, e); Derives(t) && Respects(t) && Complete(t, next)
    ensures Derives(c) && Derives(b) && Derives(e) && Respects(c) && Respects(b) && Respects(e)
    ensures Complete(c, Some(THEN)) && HeadFits(ThenEdge, b) && Complete(b, Some(ELSE)) && HeadFits(ElseEdge, e)
    ensures Complete(e, next) && EndsBefore(ElseEdge, next)
    ensures var t := IfElse(c, b, e);
      Yield(t) == [IF] + (Yield(c) + ([THEN] + (Yield(b) + ([ELSE] + Yield(e))))) &&
      Meaning(t) == If(Meaning(c), Meaning(b), Some(Meaning(e)))
  {
    hide Resolve;
    assert ElseEdge in Tails(IfElse(c, b, e));
  }

  lemma ParsesIfElse(stack: seq<Frame>, c: Tree, b: Tree, e: Tree, rest: seq<Token>)
    requires var t := IfElse(c, b, e); Derives(t) && Respects(t) && Complete(t, First(rest))
    ensures var t := IfElse(c, b, e); Operand(stack, Yield(t) + rest) == Continue(stack, Meaning(t), rest)
    decreases IfElse(c, b, e), 0
  {
    hide Operand, Continue, AfterOperand, Resolve, EndsBefore, HeadFits, Yield, Meaning, Respects, Derives, Tails;
    IfElseIs(c, b, e, First(rest));
    var third, fr := Yield(e) + rest, Else(Meaning(c), Meaning(b));
    var second := Yield(b) + ([ELSE] + third);
    YieldOfIf(Yield(c), Yield(b) + ([ELSE] + Yield(e)), rest);
    assert Yield(b) + ([ELSE] + Yield(e)) + rest == second;
    StartOther(stack, Yield(c) + ([THEN] + second));
    Parses(stack + [Cond], c, [THEN] + second);
    GoesOn(stack, Cond, Meaning(c), THEN, second);
    OnTop(stack, Then(Meaning(c)), b);
    Parses(stack + [Then(Meaning(c))], b, [ELSE] + third);
    GoesOn(stack, Then(Meaning(c)), Meaning(b), ELSE, third);
    OnTop(stack, fr, e);
    Parses(stack + [fr], e, rest);
    Completes(stack, fr, Meaning(e), rest);
  }

  // ----- whatever it parses has such a derivation -----

  /** A frame with the derivations of its operands in place of their meanings. */
  datatype Item =
    | GroupItem
    | FloorItem
    | CeilingItem
    | EqualFirstItem
    | EqualSecondItem(left: Tree)
    | MinusItem
    | InfixItem(left: Tree, op: Op)
    | CondItem
    | ThenItem(cond: Tree)
    | ElseItem(cond: Tree, thn: Tree)

  predicate Sound(t: Tree) { Derives(t) && Respects(t) }

  predicate SoundItem(item: Item) {
    match item
    case EqualSecondItem(l) => Sound(l)
    case InfixItem(l, op) => Sound(l) && Complete(l, Some(OPERATOR(op)))
    case ThenItem(c) => Sound(c)
    case ElseItem(c, t) => Sound(c) && Sound(t) && HeadFits(ThenEdge, t) && Complete(t, Some(ELSE))
    case _ => true
  }

  function Erase(item: Item): Frame
    requires SoundItem(item)
  {
    match item
    case GroupItem => Group
    case FloorItem => Ignored
    case CeilingItem => Ignored
    case EqualFirstItem => EqualFirst
    case EqualSecondItem(l) => EqualSecond(Meaning(l))
    case MinusItem => Negation
    case InfixItem(l, op) => Infix(Meaning(l), op)
    case CondItem => Cond
    case ThenItem(c) => Then(Meaning(c))
    case ElseItem(c, t) => Else(Meaning(c), Meaning(t))
  }

  function Text(item: Item): seq<Token> {
    match item
    case GroupItem => [LPAREN]
    case FloorItem => [STR_FLOOR, LPAREN]
    case CeilingItem => [STR_CEILING, LPAREN]
    case EqualFirstItem => [STR_EQUAL, LPAREN]
    case EqualSecondItem(l) => [STR_EQUAL, LPAREN] + (Yield(l) + [COMMA])
    case MinusItem => [OPERATOR(Op.Minus)]
    case InfixItem(l, op) => Yield(l) + [OPERATOR(op)]
    case CondItem => [IF]
    case ThenItem(c) => [IF] + (Yield(c) + [THEN])
    case ElseItem(c, t) => [IF] + (Yield(c) + ([THEN] + (Yield(t) + [ELSE])))
  }

  function Texts(items: seq<Item>): seq<Token> {
    if items == [] then [] else Texts(items[..|items| - 1]) + Text(items[|items| - 1])
  }

  ghost predicate AllSound(items: seq<Item>) { forall i :: 0 <= i < |items| ==> SoundItem(items[i]) }

  /** The operator of an item goes on where the item below expects its operand. */
  predicate Rests(below: Item, item: Item)
    requires SoundItem(below)
  {
    item.InfixItem? && Ends(Erase(below)) ==> Resolve(EdgeLevel(EdgeOf(Erase(below))), OpLevel(item.op)) == DoShift
  }

  ghost predicate Good(items: seq<Item>) {
    AllSound(items) && forall i, j :: 0 <= i && j == i + 1 < |items| ==> Rests(items[i], items[j])
  }

  ghost function Frames(items: seq<Item>): (frames: seq<Frame>)
    requires Good(items)
    ensures |frames| == |items| && forall i :: 0 <= i < |items| ==> frames[i] == Erase(items[i])
  {
    seq(|items|, i requires 0 <= i < |items| => Erase(items[i]))
  }

  lemma PushGood(items: seq<Item>, item: Item)
    requires Good(items) && SoundItem(item) && (items != [] ==> Rests(items[|items| - 1], item))
    ensures Good(items + [item])
  {
    hide SoundItem, Rests;
    var all := items + [item];
    assert forall i :: 0 <= i < |items| ==> all[i] == items[i];
    forall i | 0 <= i < |all|
      ensures SoundItem(all[i])
    {
    }
    forall i, j | 0 <= i && j == i + 1 < |all|
      ensures Rests(all[i], all[j])
    {
      if j < |items| { assert Rests(items[i], items[j]); }
    }
  }

  lemma PushItem(items: seq<Item>, item: Item)
    requires Good(items) && SoundItem(item) && (items != [] ==> Rests(items[|items| - 1], item))
    ensures Good(items + [item]) && Frames(items + [item]) == Frames(items) + [Erase(item)]
    ensures Texts(items + [item]) == Texts(items) + Text(item)
  {
    hide SoundItem, Erase, Text, Texts, Rests, Good, Frames;
    PushGood(items, item);
    PushTexts(items, item);
    PushFrames(items, item);
  }

  lemma PushFrames(items: seq<Item>, item: Item)
    requires Good(items) && Good(items + [item]) && SoundItem(item)
    ensures Frames(items + [item]) == Frames(items) + [Erase(item)]
  {
    hide SoundItem, Erase, Good, Texts;
    var all := items + [item];
    forall i | 0 <= i < |all|
      ensures Frames(all)[i] == (Frames(items) + [Erase(item)])[i]
    {
      assert all[i] == if i < |items| then items[i] else item;
    }
  }

  lemma PushTexts(items: seq<Item>, item: Item)
    ensures Texts(items + [item]) == Texts(items) + Text(item)
  {
    hide Text;
    assert (items + [item])[..|items|] == items;
  }

  lemma PopItem(items: seq<Item>)
    requires Good(items) && items != []
    ensures var n := |items| - 1;
      Good(items[..n]) && Frames(items[..n]) == Frames(items)[..n] && Texts(items) == Texts(items[..n]) + Text(items[n])
  {
    hide SoundItem, Erase, Text, Rests;
    var n := |items| - 1;
    assert Frames(items[..n]) == Frames(items)[..n];
  }

  /** The phrase that an item and its last operand make. */
  function Finish(item: Item, u: Tree): Tree
    requires SoundItem(item) && Ends(Erase(item))
  {
    match item
    case MinusItem => Opposite(u)
    case InfixItem(l, op) => Binary(l, op, u)
    case ThenItem(c) => IfThen(c, u)
    case ElseItem(c, t) => IfElse(c, t, u)
  }

  lemma Finished(item: Item, u: Tree, next: Option<Token>)
    requires SoundItem(item) && Ends(Erase(item)) && Sound(u) && HeadFits(EdgeOf(Erase(item)), u) && Complete(u, next)
    requires EndsBefore(EdgeOf(Erase(item)), next)
    ensures var t := Finish(item, u);
      Sound(t) && Meaning(t) == Build(Erase(item), Meaning(u)) && Complete(t, next) && Yield(t) == Text(item) + Yield(u)
  {
    hide Resolve, EndsBefore, Yield, Text;
    FinishedText(item, u);
  }

  lemma FinishedText(item: Item, u: Tree)
    requires SoundItem(item) && Ends(Erase(item))
    ensures Yield(Finish(item, u)) == Text(item) + Yield(u)
  {
    hide SoundItem;
    if item.InfixItem? {
      var l := Yield(item.left);
      assert l + ([OPERATOR(item.op)] + Yield(u)) == l + [OPERATOR(item.op)] + Yield(u);
    } else if item.ThenItem? {
      assert [IF] + (Yield(item.cond) + ([THEN] + Yield(u))) == [IF] + (Yield(item.cond) + [THEN]) + Yield(u);
    } else if item.ElseItem? {
      var c, t := Yield(item.cond), Yield(item.thn);
      assert [IF] + (c + ([THEN] + (t + ([ELSE] + Yield(u))))) == [IF] + (c + ([THEN] + (t + [ELSE]))) + Yield(u);
    }
  }

  lemma FinishedFits(items: seq<Item>, u: Tree)
    requires Good(items) && items != [] && Ends(Erase(items[|items| - 1]))
    ensures Good(items[..|items| - 1]) && FitsOn(Frames(items[..|items| - 1]), Finish(items[|items| - 1], u))
  {
    var n := |items| - 1;
    PopItem(items);
    if 0 < n { assert Rests(items[n - 1], items[n]); }
  }

  /** What an operand can start with. */
  lemma OperandStarts(stack: seq<Frame>, ts: seq<Token>, f: Formula)
    requires Operand(stack, ts) == Some(f)
    ensures ts != []
    ensures AtomValue(ts[0]).Some? ==> Continue(stack, AtomValue(ts[0]).value, ts[1..]) == Some(f)
    ensures AtomValue(ts[0]).None? ==>
      Starts(ts) && Operand(stack + [Erase(Starter(ts[0]))], ts[|Text(Starter(ts[0]))|..]) == Some(f)
  {
    hide Continue;
  }

  lemma AtomIs(token: Token)
    requires AtomValue(token).Some?
    ensures Sound(Atom(token)) && Meaning(Atom(token)) == AtomValue(token).value && Yield(Atom(token)) == [token]
    ensures Tails(Atom(token)) == {}
  {
  }

  /** The item that a token starts. */
  function Starter(t: Token): (item: Item)
    ensures SoundItem(item) && !item.InfixItem? && Text(item) != []
  {
    match t
    case LPAREN => GroupItem
    case OPERATOR(_) => MinusItem
    case STR_FLOOR => FloorItem
    case STR_CEILING => CeilingItem
    case STR_EQUAL => EqualFirstItem
    case _ => CondItem
  }

  predicate Starts(ts: seq<Token>) { ts != [] && Text(Starter(ts[0])) <= ts }

  lemma SoundOperand(items: seq<Item>, ts: seq<Token>, f: Formula) returns (t: Tree)
    requires Good(items) && Operand(Frames(items), ts) == Some(f)
    ensures Sound(t) && Meaning(t) == f && Yield(t) == Texts(items) + ts
    decreases |ts|, |items|, 0
  {
    hide Operand, Continue, Good, Frames, Starter, AllSound, Texts, Text, Yield, Meaning, Tails, Erase, AtomValue, Derives,
      Respects, SoundItem;
    OperandStarts(Frames(items), ts, f);
    if AtomValue(ts[0]).Some? {
      AtomIs(ts[0]);
      assert ts == [ts[0]] + ts[1..];
      assert Texts(items) + [ts[0]] + ts[1..] == Texts(items) + ts;
      t := SoundContinue(items, Atom(ts[0]), ts[1..], f);
    } else {
      var item := Starter(ts[0]);
      var k := |Text(item)|;
      assert ts == Text(item) + ts[k..];
      assert Texts(items) + Text(item) + ts[k..] == Texts(items) + ts;
      t := SoundPush(items, item, ts[k..], f);
    }
  }

  lemma SoundPush(items: seq<Item>, item: Item, ts: seq<Token>, f: Formula) returns (t: Tree)
    requires Good(items) && SoundItem(item) && (items != [] ==> Rests(items[|items| - 1], item))
    requires Operand(Frames(items) + [Erase(item)], ts) == Some(f)
    ensures Sound(t) && Meaning(t) == f && Yield(t) == Texts(items) + Text(item) + ts
    decreases |ts|, |items| + 1, 1
  {
    hide Operand, Good, Frames;
    PushItem(items, item);
    t := SoundOperand(items + [item], ts, f);
  }

  lemma SoundContinue(items: seq<Item>, u: Tree, ts: seq<Token>, f: Formula) returns (t: Tree)
    requires Good(items) && Sound(u) && FitsOn(Frames(items), u) && Complete(u, First(ts))
    requires Continue(Frames(items), Meaning(u), ts) == Some(f)
    ensures Sound(t) && Meaning(t) == f && Yield(t) == Texts(items) + Yield(u) + ts
    decreases |ts|, |items|, 2
  {
    hide Operand, Good, Frames, AllSound, AfterOperand, EndsBefore;
    if items == [] {
      NoItems(items);
      if ts == [] {
        t := u;
      } else {
        FirstOperator(u, ts);
        EmptyStackShifts(Meaning(u), ts);
        t := SoundPush(items, InfixItem(u, ts[0].op), ts[1..], f);
        assert ts == [ts[0]] + ts[1..];
      }
    } else {
      LastItem(items);
      var top := items[|items| - 1];
      if AfterOperand(Erase(top), First(ts)) == DoReduce {
        t := SoundReduce(items, u, ts, f);
      } else if ts[0].OPERATOR? {
        t := SoundOperator(items, u, ts, f);
      } else {
        t := SoundShift(items, u, ts, f);
      }
    }
  }

  lemma NoItems(items: seq<Item>)
    requires items == [] && Good(items)
    ensures Frames(items) == [] && Texts(items) == []
  {
  }

  lemma EmptyStackShifts(f: Formula, ts: seq<Token>)
    requires ts != [] && Continue([], f, ts).Some?
    ensures ts[0].OPERATOR? && Continue([], f, ts) == Operand([] + [Infix(f, ts[0].op)], ts[1..])
  {
    hide Operand;
    if ts[0].OPERATOR? { assert [] + [Infix(f, ts[0].op)] == [Infix(f, ts[0].op)]; }
  }

  lemma FirstOperator(u: Tree, ts: seq<Token>)
    requires Complete(u, First(ts)) && ts != [] && ts[0].OPERATOR? && Sound(u)
    ensures SoundItem(InfixItem(u, ts[0].op))
  {
  }

  lemma LastItem(items: seq<Item>)
    requires Good(items) && items != []
    ensures var n := |items| - 1;
      SoundItem(items[n]) && |Frames(items)| == n + 1 && Frames(items)[n] == Erase(items[n])
  {
  }

  lemma SoundReduce(items: seq<Item>, u: Tree, ts: seq<Token>, f: Formula) returns (t: Tree)
    requires Good(items) && Sound(u) && FitsOn(Frames(items), u) && Complete(u, First(ts)) && items != []
    requires AfterOperand(Erase(items[|items| - 1]), First(ts)) == DoReduce
    requires Continue(Frames(items), Meaning(u), ts) == Some(f)
    ensures Sound(t) && Meaning(t) == f && Yield(t) == Texts(items) + Yield(u) + ts
    decreases |ts|, |items|, 1
  {
    hide Operand, Good, Frames, AfterOperand, EndsBefore, Yield, Text;
    LastItem(items);
    PopItem(items);
    var n := |items| - 1;
    EdgeReduces(Erase(items[n]), First(ts));
    Finished(items[n], u, First(ts));
    FinishedFits(items, u);
    t := SoundContinue(items[..n], Finish(items[n], u), ts, f);
    assert Texts(items[..n]) + (Text(items[n]) + Yield(u)) + ts == Texts(items) + Yield(u) + ts;
  }

  lemma OperatorRests(top: Item, u: Tree, ts: seq<Token>)
    requires SoundItem(top) && ts != [] && ts[0].OPERATOR? && AfterOperand(Erase(top), First(ts)) == DoShift
    ensures Rests(top, InfixItem(u, ts[0].op))
  {
    hide Resolve;
  }

  lemma OperatorShifts(frames: seq<Frame>, f: Formula, ts: seq<Token>)
    requires frames != [] && ts != [] && ts[0].OPERATOR?
    requires AfterOperand(frames[|frames| - 1], First(ts)) == DoShift
    ensures Continue(frames, f, ts) == Operand(frames + [Infix(f, ts[0].op)], ts[1..])
  {
    hide Operand, AfterOperand;
  }

  lemma SoundOperator(items: seq<Item>, u: Tree, ts: seq<Token>, f: Formula) returns (t: Tree)
    requires Good(items) && Sound(u) && Complete(u, First(ts)) && items != [] && ts != [] && ts[0].OPERATOR?
    requires AfterOperand(Erase(items[|items| - 1]), First(ts)) == DoShift
    requires Continue(Frames(items), Meaning(u), ts) == Some(f)
    ensures Sound(t) && Meaning(t) == f && Yield(t) == Texts(items) + Yield(u) + ts
    decreases |ts|, |items|, 1
  {
    hide Operand, Continue, AfterOperand, Rests, Good, Frames, Yield, Texts, Meaning, Derives, Respects, Complete, Resolve;
    LastItem(items);
    FirstOperator(u, ts);
    OperatorRests(items[|items| - 1], u, ts);
    OperatorShifts(Frames(items), Meaning(u), ts);
    t := SoundPush(items, InfixItem(u, ts[0].op), ts[1..], f);
    assert ts == [ts[0]] + ts[1..];
    assert Texts(items) + (Yield(u) + [ts[0]]) + ts[1..] == Texts(items) + Yield(u) + ([ts[0]] + ts[1..]);
  }

  /** The phrase that a closing parenthesis ends. */
  function Closed(item: Item, u: Tree): Tree {
    match item
    case FloorItem => Floor(u)
    case CeilingItem => Ceiling(u)
    case EqualSecondItem(l) => EqualCall(l, u)
    case _ => Paren(u)
  }

  predicate ClosesPhrase(item: Item) { item.GroupItem? || item.FloorItem? || item.CeilingItem? || item.EqualSecondItem? }

  lemma ClosedIs(item: Item, u: Tree)
    requires SoundItem(item) && ClosesPhrase(item) && Sound(u)
    ensures var t := Closed(item, u);
      Sound(t) && Tails(t) == {} && !t.Binary? && Yield(t) == Text(item) + Yield(u) + [RPAREN] &&
      Meaning(t) == if item.EqualSecondItem? then Binop(Equal, Meaning(item.left), Meaning(u)) else Meaning(u)
  {
    hide Yield, Text;
    ClosedText(item, u);
  }

  lemma ClosedText(item: Item, u: Tree)
    requires ClosesPhrase(item)
    ensures Yield(Closed(item, u)) == Text(item) + Yield(u) + [RPAREN]
  {
    var y := Yield(u);
    if item.EqualSecondItem? {
      var z := Yield(item.left);
      assert [STR_EQUAL, LPAREN] + (z + ([COMMA] + (y + [RPAREN]))) == [STR_EQUAL, LPAREN] + (z + [COMMA]) + y + [RPAREN];
    }
  }

  /** The item that goes on behind an operand, and the token between. */
  function Opened(item: Item, u: Tree): (next: Item)
    ensures !next.InfixItem?
  {
    match item
    case ThenItem(c) => ElseItem(c, u)
    case EqualFirstItem => EqualSecondItem(u)
    case _ => ThenItem(u)
  }

  function Opener(item: Item): Token { if item.ThenItem? then ELSE else if item.EqualFirstItem? then COMMA else THEN }

  lemma OpenedIs(item: Item, u: Tree)
    requires SoundItem(item) && (item.CondItem? || item.ThenItem? || item.EqualFirstItem?) && Sound(u)
    requires item.ThenItem? ==> HeadFits(ThenEdge, u) && Complete(u, Some(ELSE))
    ensures SoundItem(Opened(item, u)) && Text(Opened(item, u)) == Text(item) + Yield(u) + [Opener(item)]
  {
    OpenedText(item, u);
    hide Text, Yield;
  }

  lemma OpenedText(item: Item, u: Tree)
    requires item.CondItem? || item.ThenItem? || item.EqualFirstItem?
    ensures Text(Opened(item, u)) == Text(item) + Yield(u) + [Opener(item)]
  {
    hide Yield;
    var y := Yield(u);
    match item
    case ThenItem(c) =>
      var z := Yield(c);
      assert [IF] + (z + ([THEN] + (y + [ELSE]))) == [IF] + (z + [THEN]) + y + [ELSE];
    case EqualFirstItem => assert [STR_EQUAL, LPAREN] + (y + [COMMA]) == [STR_EQUAL, LPAREN] + y + [COMMA];
    case CondItem => assert [IF] + (y + [THEN]) == [IF] + y + [THEN];
  }

  /** What a token other than an operator does behind an operand, if it does not complete a rule. */
  lemma ContinueShifts(frames: seq<Frame>, item: Item, u: Tree, ts: seq<Token>, f: Formula)
    requires frames != [] && SoundItem(item) && Sound(u) && frames[|frames| - 1] == Erase(item)
    requires ts != [] && !ts[0].OPERATOR? && AfterOperand(Erase(item), First(ts)) == DoShift
    requires Continue(frames, Meaning(u), ts) == Some(f)
    ensures var below := frames[..|frames| - 1];
      if ClosesPhrase(item) then
        ts[0] == RPAREN && Continue(below, Meaning(Closed(item, u)), ts[1..]) == Some(f)
      else
        (item.CondItem? || item.ThenItem? || item.EqualFirstItem?) && ts[0] == Opener(item) &&
        (SoundItem(Opened(item, u)) ==> Operand(below + [Erase(Opened(item, u))], ts[1..]) == Some(f))
  {
    hide Operand;
  }

  /** A token other than an operator closes a phrase or goes on with another operand. */
  lemma SoundShift(items: seq<Item>, u: Tree, ts: seq<Token>, f: Formula) returns (t: Tree)
    requires Good(items) && Sound(u) && FitsOn(Frames(items), u) && Complete(u, First(ts)) && items != []
    requires AfterOperand(Erase(items[|items| - 1]), First(ts)) == DoShift && ts != [] && !ts[0].OPERATOR?
    requires Continue(Frames(items), Meaning(u), ts) == Some(f)
    ensures Sound(t) && Meaning(t) == f && Yield(t) == Texts(items) + Yield(u) + ts
    decreases |ts|, |items|, 1
  {
    hide Operand, Continue, Good, Frames, Yield, Text, Closed, Opened, AfterOperand, AllSound, Meaning, Derives,
      Respects, Resolve;
    LastItem(items);
    PopItem(items);
    var n := |items| - 1;
    var item, below, later := items[n], items[..n], ts[1..];
    ContinueShifts(Frames(items), item, u, ts, f);
    assert ts == [ts[0]] + later;
    if ClosesPhrase(item) {
      ClosedIs(item, u);
      t := SoundContinue(below, Closed(item, u), later, f);
      assert Texts(below) + (Text(item) + Yield(u) + [ts[0]]) + later == Texts(items) + Yield(u) + ts;
    } else {
      OpenedIs(item, u);
      t := SoundPush(below, Opened(item, u), later, f);
      assert Texts(below) + (Text(item) + Yield(u) + [ts[0]]) + later == Texts(items) + Yield(u) + ts;
    }
  }

  /**
   * The parser accepts exactly what some derivation derives that respects the precedence table, and gives its meaning: the
   * table leaves no two meanings to choose from.
   */
  lemma ParserFindsDerivations(ts: seq<Token>)
    ensures forall f :: Operand([], ts) == Some(f) <==> exists t :: Sound(t) && Yield(t) == ts && Meaning(t) == f
    ensures forall t, u :: Sound(t) && Sound(u) && Yield(t) == Yield(u) == ts ==> Meaning(t) == Meaning(u)
  {
    hide Derives, Respects, Meaning, Yield, Operand;
    forall t | Sound(t) && Yield(t) == ts
      ensures Operand([], ts) == Some(Meaning(t))
    {
      ParsesWhole(t);
    }
    forall f | Operand([], ts) == Some(f)
      ensures exists t :: Sound(t) && Yield(t) == ts && Meaning(t) == f
    {
      NoItems([]);
      var t := SoundOperand([], ts, f);
      assert [] + ts == ts;
    }
  }

  lemma ParsesWhole(t: Tree)
    requires Sound(t)
    ensures Operand([], Yield(t)) == Some(Meaning(t))
  {
    hide Operand;
    Parses([], t, []);
    assert Yield(t) + [] == Yield(t);
  }
}
