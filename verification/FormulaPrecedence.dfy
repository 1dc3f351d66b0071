// How operators group, said of the parser by classes of operators, without levels.

module FormulaPrecedence {
  import opened FormulaSyntax
  import opened FormulaParser
  import opened FormulaGrammar

  // ----- the classes of operators, from the loosest to the tightest -----

  predicate IsLogical(op: Op) { op == And || op == Or }
  predicate IsComparison(op: Op) { op == Equal || op == Less || op == Greater || op == AtMost || op == AtLeast }
  predicate IsSum(op: Op) { op == Op.Plus || op == Op.Minus }
  predicate IsProduct(op: Op) { op == Times || op == Divide }
  predicate IsArithmetic(op: Op) { IsSum(op) || IsProduct(op) || op == Power }

  /** `q` binds tighter than `p`. */
  predicate Tighter(q: Op, p: Op) {
    (IsLogical(p) && !IsLogical(q)) || (IsComparison(p) && IsArithmetic(q)) ||
    (IsSum(p) && (IsProduct(q) || q == Power)) || (IsProduct(p) && q == Power)
  }

  /** What `x p y q z` means: the tighter operator first, of one class the left one, and comparisons do not associate. */
  function Grouped(x: Formula, p: Op, y: Formula, q: Op, z: Formula): Option<Formula> {
    if IsComparison(p) && IsComparison(q) then None
    else if Tighter(q, p) then Some(Binop(p, x, Binop(q, y, z)))
    else Some(Binop(q, Binop(p, x, y), z))
  }

  function Negated(x: Formula): Formula { Binop(Op.Minus, Integer(0), x) }

  /** A token that is an operand by itself. */
  predicate Stands(t: Token, x: Formula) { AtomValue(t) == Some(x) }

  lemma ResolvesByClass(p: Op, q: Op)
    ensures Resolve(OpLevel(p), OpLevel(q)) ==
      if IsComparison(p) && IsComparison(q) then Conflict else if Tighter(q, p) then DoShift else DoReduce
    ensures Resolve(IF_LEVEL, OpLevel(q)) == (if IsArithmetic(q) then DoShift else DoReduce)
  {
  }

  // ----- steps of the parser -----

  lemma TakesAtom(stack: seq<Frame>, t: Token, x: Formula, rest: seq<Token>)
    requires Stands(t, x)
    ensures Operand(stack, [t] + rest) == Continue(stack, x, rest)
  {
    ParsesAtom(stack, t, rest);
  }

  lemma EndsWith(stack: seq<Frame>, fr: Frame, x: Formula)
    requires Ends(fr)
    ensures Continue(stack + [fr], x, []) == Continue(stack, Build(fr, x), [])
  {
    Completes(stack, fr, x, []);
  }

  lemma Done(x: Formula)
    ensures Continue([], x, []) == Some(x)
  {
  }

  /** An operator behind the operand of a rule: it goes on with the operand, ends the rule or is refused. */
  lemma Meets(stack: seq<Frame>, fr: Frame, x: Formula, q: Op, rest: seq<Token>)
    requires Ends(fr)
    ensures Continue(stack + [fr], x, [OPERATOR(q)] + rest) ==
      match Resolve(Level(fr), OpLevel(q))
      case DoShift => Operand(stack + [fr] + [Infix(x, q)], rest)
      case DoReduce => Continue(stack, Build(fr, x), [OPERATOR(q)] + rest)
      case Conflict => None
  {
    assert (stack + [fr])[..|stack|] == stack && ([OPERATOR(q)] + rest)[1..] == rest;
  }

  /** Behind the last operator comes the last operand, which ends all open rules. */
  lemma LastOperand(stack: seq<Frame>, x: Formula, q: Op, c: Token, z: Formula)
    requires Stands(c, z)
    ensures Operand(stack + [Infix(x, q)], [c]) == Continue(stack, Binop(q, x, z), [])
  {
    assert [c] == [c] + [];
    TakesAtom(stack + [Infix(x, q)], c, z, []);
    EndsWith(stack, Infix(x, q), z);
  }

  lemma {:induction false} SecondOperator(x: Formula, p: Op, y: Formula, q: Op, c: Token, z: Formula)
    requires Stands(c, z)
    ensures Continue([Infix(x, p)], y, [OPERATOR(q), c]) == Grouped(x, p, y, q, z)
  {
    hide Operand, Continue;
    assert [] + [Infix(x, p)] == [Infix(x, p)] && [OPERATOR(q)] + [c] == [OPERATOR(q), c];
    Meets([], Infix(x, p), y, q, [c]);
    ResolvesByClass(p, q);
    StartsInfix(Binop(p, x, y), q, [c]);
    LastOperand([Infix(x, p)], y, q, c, z);
    EndsWith([], Infix(x, p), Binop(q, y, z));
    LastOperand([], Binop(p, x, y), q, c, z);
    Done(Binop(p, x, Binop(q, y, z)));
    Done(Binop(q, Binop(p, x, y), z));
    assert [] + [Infix(Binop(p, x, y), q)] == [Infix(Binop(p, x, y), q)];
  }

  lemma StartsInfix(x: Formula, q: Op, rest: seq<Token>)
    ensures Continue([], x, [OPERATOR(q)] + rest) == Operand([Infix(x, q)], rest)
  {
    assert ([OPERATOR(q)] + rest)[1..] == rest;
  }

  // ----- two infix operators, and a minus sign -----

  /** `a p b q c`. */
  lemma TwoOperators(a: Token, x: Formula, p: Op, b: Token, y: Formula, q: Op, c: Token, z: Formula)
    requires Stands(a, x) && Stands(b, y) && Stands(c, z)
    ensures Operand([], [a, OPERATOR(p), b, OPERATOR(q), c]) == Grouped(x, p, y, q, z)
  {
    hide Operand, Continue;
    var rest := [b, OPERATOR(q), c];
    assert [a, OPERATOR(p), b, OPERATOR(q), c] == [a] + ([OPERATOR(p)] + rest) && rest == [b] + [OPERATOR(q), c];
    TakesAtom([], a, x, [OPERATOR(p)] + rest);
    StartsInfix(x, p, rest);
    TakesAtom([Infix(x, p)], b, y, [OPERATOR(q), c]);
    SecondOperator(x, p, y, q, c, z);
  }

  lemma Signed(stack: seq<Frame>, b: Token, y: Formula, q: Op, c: Token, z: Formula)
    requires Stands(b, y) && Stands(c, z)
    ensures Operand(stack, [OPERATOR(Op.Minus), b, OPERATOR(q), c]) ==
      if Tighter(q, Op.Minus) then Continue(stack, Negated(Binop(q, y, z)), [])
      else Continue(stack, Negated(y), [OPERATOR(q), c])
  {
    hide Operand, Continue;
    var rest := [OPERATOR(q)] + [c];
    assert [OPERATOR(Op.Minus), b, OPERATOR(q), c] == [OPERATOR(Op.Minus)] + ([b] + rest) && rest == [OPERATOR(q), c];
    StartMinus(stack, [b] + rest);
    TakesAtom(stack + [Negation], b, y, rest);
    Meets(stack, Negation, y, q, [c]);
    ResolvesByClass(Op.Minus, q);
    LastOperand(stack + [Negation], y, q, c, z);
    EndsWith(stack, Negation, Binop(q, y, z));
  }

  /** `- b q c`: the sign binds as an infix minus does. */
  lemma MinusFirst(b: Token, y: Formula, q: Op, c: Token, z: Formula)
    requires Stands(b, y) && Stands(c, z)
    ensures Operand([], [OPERATOR(Op.Minus), b, OPERATOR(q), c]) ==
      if IsProduct(q) || q == Power then Some(Negated(Binop(q, y, z))) else Some(Binop(q, Negated(y), z))
  {
    hide Operand, Continue;
    Signed([], b, y, q, c, z);
    Done(Negated(Binop(q, y, z)));
    assert [OPERATOR(q)] + [c] == [OPERATOR(q), c] && [] + [Infix(Negated(y), q)] == [Infix(Negated(y), q)];
    StartsInfix(Negated(y), q, [c]);
    LastOperand([], Negated(y), q, c, z);
    Done(Binop(q, Negated(y), z));
  }

  /** `a p - b q c`. */
  lemma MinusSecond(a: Token, x: Formula, p: Op, b: Token, y: Formula, q: Op, c: Token, z: Formula)
    requires Stands(a, x) && Stands(b, y) && Stands(c, z)
    ensures Operand([], [a, OPERATOR(p), OPERATOR(Op.Minus), b, OPERATOR(q), c]) ==
      if IsProduct(q) || q == Power then Some(Binop(p, x, Negated(Binop(q, y, z))))
      else Grouped(x, p, Negated(y), q, z)
  {
    hide Operand, Continue;
    var rest := [OPERATOR(Op.Minus), b, OPERATOR(q), c];
    assert [a, OPERATOR(p), OPERATOR(Op.Minus), b, OPERATOR(q), c] == [a] + ([OPERATOR(p)] + rest);
    TakesAtom([], a, x, [OPERATOR(p)] + rest);
    StartsInfix(x, p, rest);
    Signed([Infix(x, p)], b, y, q, c, z);
    SecondOperator(x, p, Negated(y), q, c, z);
    assert [] + [Infix(x, p)] == [Infix(x, p)];
    EndsWith([], Infix(x, p), Negated(Binop(q, y, z)));
    Done(Binop(p, x, Negated(Binop(q, y, z))));
  }

  // ----- conditions -----

  lemma Opens(stack: seq<Frame>, a: Token, x: Formula, rest: seq<Token>)
    requires Stands(a, x)
    ensures Operand(stack, [IF, a, THEN] + rest) == Operand(stack + [Then(x)], rest)
  {
    hide Operand, Continue;
    assert [IF, a, THEN] + rest == [IF] + ([a] + ([THEN] + rest));
    StartOther(stack, [a] + ([THEN] + rest));
    TakesAtom(stack + [Cond], a, x, [THEN] + rest);
    GoesOn(stack, Cond, x, THEN, rest);
  }

  /** The last operand of an `if`, with an operator behind it. */
  lemma Branch(stack: seq<Frame>, fr: Frame, b: Token, y: Formula, q: Op, c: Token, z: Formula)
    requires (fr.Then? || fr.Else?) && Stands(b, y) && Stands(c, z)
    ensures Operand(stack + [fr], [b, OPERATOR(q), c]) ==
      if IsArithmetic(q) then Continue(stack, Build(fr, Binop(q, y, z)), [])
      else Continue(stack, Build(fr, y), [OPERATOR(q), c])
  {
    hide Operand, Continue;
    var rest := [OPERATOR(q)] + [c];
    assert [b, OPERATOR(q), c] == [b] + rest && rest == [OPERATOR(q), c];
    TakesAtom(stack + [fr], b, y, rest);
    Meets(stack, fr, y, q, [c]);
    ResolvesByClass(q, q);
    LastOperand(stack + [fr], y, q, c, z);
    EndsWith(stack, fr, Binop(q, y, z));
  }

  /** `if a then b q c`: arithmetic belongs to the branch, comparisons and logic take the whole `if` as an operand. */
  lemma IfOperator(a: Token, x: Formula, b: Token, y: Formula, q: Op, c: Token, z: Formula)
    requires Stands(a, x) && Stands(b, y) && Stands(c, z)
    ensures Operand([], [IF, a, THEN, b, OPERATOR(q), c]) ==
      Some(if IsArithmetic(q) then If(x, Binop(q, y, z), None) else Binop(q, If(x, y, None), z))
  {
    hide Operand, Continue;
    assert [IF, a, THEN, b, OPERATOR(q), c] == [IF, a, THEN] + [b, OPERATOR(q), c] && [] + [Then(x)] == [Then(x)];
    Opens([], a, x, [b, OPERATOR(q), c]);
    Branch([], Then(x), b, y, q, c, z);
    AfterIf(If(x, y, None), q, c, z);
    Done(If(x, Binop(q, y, z), None));
  }

  lemma AfterIf(x: Formula, q: Op, c: Token, z: Formula)
    requires Stands(c, z)
    ensures Continue([], x, [OPERATOR(q), c]) == Some(Binop(q, x, z))
  {
    hide Operand, Continue;
    assert [OPERATOR(q)] + [c] == [OPERATOR(q), c] && [] + [Infix(x, q)] == [Infix(x, q)];
    StartsInfix(x, q, [c]);
    LastOperand([], x, q, c, z);
    Done(Binop(q, x, z));
  }

  lemma Alternative(stack: seq<Frame>, x: Formula, b: Token, y: Formula, rest: seq<Token>)
    requires Stands(b, y)
    ensures Operand(stack + [Then(x)], [b, ELSE] + rest) == Operand(stack + [Else(x, y)], rest)
  {
    hide Operand, Continue;
    assert [b, ELSE] + rest == [b] + ([ELSE] + rest);
    TakesAtom(stack + [Then(x)], b, y, [ELSE] + rest);
    GoesOn(stack, Then(x), y, ELSE, rest);
  }

  /** `if a then b else c q d`. */
  lemma ElseOperator(a: Token, x: Formula, b: Token, y: Formula, c: Token, z: Formula, q: Op, d: Token, w: Formula)
    requires Stands(a, x) && Stands(b, y) && Stands(c, z) && Stands(d, w)
    ensures Operand([], [IF, a, THEN, b, ELSE, c, OPERATOR(q), d]) ==
      Some(if IsArithmetic(q) then If(x, y, Some(Binop(q, z, w))) else Binop(q, If(x, y, Some(z)), w))
  {
    hide Operand, Continue;
    var rest := [c, OPERATOR(q), d];
    assert [IF, a, THEN, b, ELSE, c, OPERATOR(q), d] == [IF, a, THEN] + ([b, ELSE] + rest);
    Opens([], a, x, [b, ELSE] + rest);
    Alternative([], x, b, y, rest);
    assert [] + [Then(x)] == [Then(x)] && [] + [Else(x, y)] == [Else(x, y)];
    Branch([], Else(x, y), c, z, q, d, w);
    AfterIf(If(x, y, Some(z)), q, d, w);
    Done(If(x, y, Some(Binop(q, z, w))));
  }

  /** `if a then if b then c else d`: `else` belongs to the `if` before it. */
  lemma DanglingElse(a: Token, x: Formula, b: Token, y: Formula, c: Token, z: Formula, d: Token, w: Formula)
    requires Stands(a, x) && Stands(b, y) && Stands(c, z) && Stands(d, w)
    ensures Operand([], [IF, a, THEN, IF, b, THEN, c, ELSE, d]) == Some(If(x, If(y, z, Some(w)), None))
  {
    hide Operand, Continue;
    var rest := [c, ELSE] + [d];
    assert [IF, a, THEN, IF, b, THEN, c, ELSE, d] == [IF, a, THEN] + ([IF, b, THEN] + rest);
    Opens([], a, x, [IF, b, THEN] + rest);
    assert [] + [Then(x)] == [Then(x)];
    Opens([Then(x)], b, y, rest);
    Alternative([Then(x)], y, c, z, [d]);
    assert [d] == [d] + [];
    TakesAtom([Then(x)] + [Else(y, z)], d, w, []);
    EndsWith([Then(x)], Else(y, z), w);
    EndsWith([], Then(x), If(y, z, Some(w)));
    Done(If(x, If(y, z, Some(w)), None));
  }

  /** `if a p b then c`: the condition takes every operator. */
  lemma ConditionOperator(a: Token, x: Formula, p: Op, b: Token, y: Formula, c: Token, z: Formula)
    requires Stands(a, x) && Stands(b, y) && Stands(c, z)
    ensures Operand([], [IF, a, OPERATOR(p), b, THEN, c]) == Some(If(Binop(p, x, y), z, None))
  {
    hide Operand, Continue;
    var rest := [b] + ([THEN] + [c]);
    assert [IF, a, OPERATOR(p), b, THEN, c] == [IF] + ([a] + ([OPERATOR(p)] + rest));
    StartOther([], [a] + ([OPERATOR(p)] + rest));
    assert [] + [Cond] == [Cond] && [] + [Then(Binop(p, x, y))] == [Then(Binop(p, x, y))];
    TakesAtom([Cond], a, x, [OPERATOR(p)] + rest);
    InCondition(x, p, rest);
    TakesAtom([Cond] + [Infix(x, p)], b, y, [THEN] + [c]);
    BeforeThen([Cond], x, p, y, [c]);
    GoesOn([], Cond, Binop(p, x, y), THEN, [c]);
    assert [c] == [c] + [];
    TakesAtom([Then(Binop(p, x, y))], c, z, []);
    EndsWith([], Then(Binop(p, x, y)), z);
    Done(If(Binop(p, x, y), z, None));
  }

  lemma InCondition(x: Formula, p: Op, rest: seq<Token>)
    ensures Continue([Cond], x, [OPERATOR(p)] + rest) == Operand([Cond] + [Infix(x, p)], rest)
  {
    hide Operand;
    assert ([OPERATOR(p)] + rest)[1..] == rest;
  }

  lemma BeforeThen(stack: seq<Frame>, x: Formula, p: Op, y: Formula, rest: seq<Token>)
    ensures Continue(stack + [Infix(x, p)], y, [THEN] + rest) == Continue(stack, Binop(p, x, y), [THEN] + rest)
  {
    hide Operand;
    assert (stack + [Infix(x, p)])[..|stack|] == stack;
  }

  /** `if a then b p c else d`: the branch takes arithmetic, other operators leave no `if` for the `else`. */
  lemma BranchOperator(a: Token, x: Formula, b: Token, y: Formula, p: Op, c: Token, z: Formula, d: Token, w: Formula)
    requires Stands(a, x) && Stands(b, y) && Stands(c, z) && Stands(d, w)
    ensures Operand([], [IF, a, THEN, b, OPERATOR(p), c, ELSE, d]) ==
      if IsArithmetic(p) then Some(If(x, Binop(p, y, z), Some(w))) else None
  {
    hide Operand, Continue;
    var tail := [ELSE] + [d];
    var rest := [OPERATOR(p)] + ([c] + tail);
    assert [IF, a, THEN, b, OPERATOR(p), c, ELSE, d] == [IF, a, THEN] + ([b] + rest);
    Opens([], a, x, [b] + rest);
    assert [] + [Then(x)] == [Then(x)];
    TakesAtom([Then(x)], b, y, rest);
    Meets([], Then(x), y, p, [c] + tail);
    ResolvesByClass(p, p);
    if IsArithmetic(p) { InBranch(x, y, p, c, z, d, w); } else { BehindBranch(If(x, y, None), p, c, z, d); }
  }

  lemma InBranch(x: Formula, y: Formula, p: Op, c: Token, z: Formula, d: Token, w: Formula)
    requires Stands(c, z) && Stands(d, w)
    ensures Operand([Then(x)] + [Infix(y, p)], [c] + ([ELSE] + [d])) == Some(If(x, Binop(p, y, z), Some(w)))
  {
    hide Operand, Continue;
    TakesAtom([Then(x)] + [Infix(y, p)], c, z, [ELSE] + [d]);
    BeforeElse([Then(x)], y, p, z, [d]);
    assert [d] == [d] + [] && [] + [Then(x)] == [Then(x)] && [] + [Else(x, Binop(p, y, z))] == [Else(x, Binop(p, y, z))];
    GoesOn([], Then(x), Binop(p, y, z), ELSE, [d]);
    TakesAtom([Else(x, Binop(p, y, z))], d, w, []);
    EndsWith([], Else(x, Binop(p, y, z)), w);
    Done(If(x, Binop(p, y, z), Some(w)));
  }

  lemma BehindBranch(x: Formula, p: Op, c: Token, z: Formula, d: Token)
    requires Stands(c, z)
    ensures Continue([], x, [OPERATOR(p)] + ([c] + ([ELSE] + [d]))) == None
  {
    hide Operand, Continue;
    var tail := [ELSE] + [d];
    StartsInfix(x, p, [c] + tail);
    assert [] + [Infix(x, p)] == [Infix(x, p)];
    TakesAtom([Infix(x, p)], c, z, tail);
    BeforeElse([], x, p, z, [d]);
    NoIfForElse(Binop(p, x, z), [d]);
  }

  lemma NoIfForElse(x: Formula, rest: seq<Token>)
    ensures Continue([], x, [ELSE] + rest) == None
  {
  }

  lemma BeforeElse(stack: seq<Frame>, x: Formula, p: Op, y: Formula, rest: seq<Token>)
    ensures Continue(stack + [Infix(x, p)], y, [ELSE] + rest) == Continue(stack, Binop(p, x, y), [ELSE] + rest)
  {
    hide Operand;
    assert (stack + [Infix(x, p)])[..|stack|] == stack;
  }

  /** `a p if b then c q d`: an `if` may be the last operand of any operator. */
  lemma OperatorIf(a: Token, x: Formula, p: Op, b: Token, y: Formula, c: Token, z: Formula, q: Op, d: Token, w: Formula)
    requires Stands(a, x) && Stands(b, y) && Stands(c, z) && Stands(d, w)
    ensures Operand([], [a, OPERATOR(p), IF, b, THEN, c, OPERATOR(q), d]) ==
      if IsArithmetic(q) then Some(Binop(p, x, If(y, Binop(q, z, w), None)))
      else Grouped(x, p, If(y, z, None), q, w)
  {
    hide Operand, Continue, Grouped;
    var branch := [c, OPERATOR(q), d];
    var rest := [IF, b, THEN] + branch;
    assert [a, OPERATOR(p), IF, b, THEN, c, OPERATOR(q), d] == [a] + ([OPERATOR(p)] + rest);
    TakesAtom([], a, x, [OPERATOR(p)] + rest);
    StartsInfix(x, p, rest);
    Opens([Infix(x, p)], b, y, branch);
    Branch([Infix(x, p)], Then(y), c, z, q, d, w);
    SecondOperator(x, p, If(y, z, None), q, d, w);
    assert [] + [Infix(x, p)] == [Infix(x, p)];
    EndsWith([], Infix(x, p), If(y, Binop(q, z, w), None));
    Done(Binop(p, x, If(y, Binop(q, z, w), None)));
  }
}
