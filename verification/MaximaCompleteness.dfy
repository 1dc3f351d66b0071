// Every derivation that respects the precedence table is the one that the automaton builds from its tokens.

module MaximaCompleteness {
  import opened TableRows
  import opened ParserTables
  import opened MaximaGrammar
  import opened MaximaPrecedence
  import opened MaximaAutomaton
  import opened MaximaStack

  // ----- the automaton as a machine on values -----

  datatype Config = Config(states: seq<int>, trees: seq<Tree>, rest: seq<Token>) {
    ghost predicate Shaped() { |states| == |trees| + 1 }

    function Top(): int
      requires |states| == |trees| + 1
    {
      states[|trees|]
    }
  }

  /** The symbol that comes next; 0 at the end. */
  function Look(rest: seq<Token>): int { if rest == [] then 0 else rest[0].Symbol() }

  /** The driver's choice, which some states make without looking ahead. */
  function Choose(s: int, look: int): Move { if YyPact(s) == YYPACT_NINF then Default(s) else Decide(s, look) }

  /** The machine can go on: it shifts, or it reduces by a rule that does not end the parse. */
  ghost predicate Going(c: Config) {
    c.Shaped() &&
    match Choose(c.Top(), Look(c.rest))
    case Shift(_) => c.rest != []
    case Reduce(r) => r != 2 && r != 3 && 0 <= YyR2(r) <= |c.trees|
    case Fail => false
  }

  function Next(c: Config): Config
    requires Going(c)
  {
    var n := |c.trees|;
    match Choose(c.Top(), Look(c.rest))
    case Shift(q) => Config(c.states + [q], c.trees + [Leaf(c.rest[0])], c.rest[1..])
    case Reduce(r) =>
      var k := n - YyR2(r);
      Config(c.states[..k + 1] + [Goto(c.states[k], YyR1(r))], c.trees[..k] + [Node(r, c.trees[k..])], c.rest)
  }

  ghost predicate Reaches(c: Config, d: Config, n: nat)
    decreases n
  {
    if n == 0 then c == d else Going(c) && Reaches(Next(c), d, n - 1)
  }

  lemma {:induction false} ReachesOn(c: Config, d: Config, e: Config, m: nat, n: nat)
    requires Reaches(c, d, m) && Reaches(d, e, n)
    ensures Reaches(c, e, m + n)
    decreases m
  {
    hide Going, Next;
    if m > 0 { ReachesOn(Next(c), d, e, m - 1, n); }
  }

  function Max(a: int, b: int): int { if a < b then b else a }

  /** The most symbols on the stack during the next `n` steps. */
  ghost function Peak(c: Config, n: nat): nat
    decreases n
  {
    if n == 0 || !Going(c) then |c.trees| else Max(|c.trees|, Peak(Next(c), n - 1))
  }

  lemma {:induction false} PeakOn(c: Config, d: Config, m: nat, n: nat)
    requires Reaches(c, d, m)
    ensures Peak(c, m + n) == Max(Peak(c, m), Peak(d, n)) && |c.trees| <= Peak(c, m)
    decreases m
  {
    hide Going, Next;
    if m > 0 { PeakOn(Next(c), d, m - 1, n); }
  }

  /** How many symbols the stack holds at most, above those already there, while a derivation is recognised. */
  function Height(t: Tree): nat
    decreases t, 1
  {
    match t
    case Leaf(_) => 1
    case Node(_, kids) => Max(1, Heights(kids))
  }

  function Heights(ts: seq<Tree>): (h: nat)
    ensures |ts| <= h
    decreases ts, 0
  {
    if ts == [] then 0 else Max(Height(ts[0]), 1 + Heights(ts[1..]))
  }

  // ----- what the tables offer -----

  /** The state that follows `s` once symbol `x` has been recognised. */
  function Follow(s: int, x: int): int {
    if x >= YYNTOKENS then Goto(s, x) else if Decide(s, x).Shift? then Decide(s, x).target else 0
  }

  /** State `s` accepts symbol `x` next. */
  predicate Accepts(s: int, x: int) {
    if x >= YYNTOKENS then Starts(s, x) else YyPact(s) != YYPACT_NINF && Decide(s, x).Shift?
  }

  /** The states above `p` after the first `i` symbols of a right side. */
  function Along(p: int, rhs: seq<int>, i: nat): (ss: seq<int>)
    requires i <= |rhs|
    ensures |ss| == i + 1 && ss[0] == p
  {
    if i == 0 then [p]
    else
      var ss := Along(p, rhs, i - 1);
      ss + [Follow(ss[i - 1], rhs[i - 1])]
  }

  /** A derivation of `a` can begin in state `p`. */
  predicate Begins(p: int, a: int) { if a == START then p == 0 else Starts(p, a) }

  /** What may follow a phrase that is not a formula. */
  predicate Ends(a: int, b: int) {
    if a == OUTPUT_CONTENT then b == IPROMPT
    else if a == OPT_FORMULA_LIST || a == NIL then b == CLOSE
    else if a == FORMULA_LIST then b == COMMA || b == CLOSE
    else true
  }

  const CLOSE := 30
  const COMMA := 33

  /** State `s` has completed a right side, which the next token `b` may follow. */
  predicate Completed(s: int, b: int) {
    IsState(s) && 2 <= YyDefact(s) && 0 <= b < YYNTOKENS && Ends(YyR1(YyDefact(s)), b) &&
    (RuleOperator(YyDefact(s)) != 0 ==> EndsBefore(RuleOperator(YyDefact(s)), b))
  }

  lemma EndReducesFirst(s: int, b: int)
    requires Completed(s, b) && s < 20
    ensures Choose(s, b) == Reduce(YyDefact(s))
  {
  }

  lemma EndReducesSecond(s: int, b: int)
    requires Completed(s, b) && 20 <= s < 33
    ensures Choose(s, b) == Reduce(YyDefact(s))
  {
  }

  lemma EndReducesThird(s: int, b: int)
    requires Completed(s, b) && 33 <= s < 50
    ensures Choose(s, b) == Reduce(YyDefact(s))
  {
  }

  lemma EndReducesFourth(s: int, b: int)
    requires Completed(s, b) && 50 <= s < 62
    ensures Choose(s, b) == Reduce(YyDefact(s))
  {
  }

  lemma EndReducesFifth(s: int, b: int)
    requires Completed(s, b) && 62 <= s < 73
    ensures Choose(s, b) == Reduce(YyDefact(s))
  {
  }

  lemma EndReducesSixth(s: int, b: int)
    requires Completed(s, b) && 73 <= s
    ensures Choose(s, b) == Reduce(YyDefact(s))
  {
  }

  /** A completed right side is reduced, whatever may follow it. */
  lemma EndReduces(s: int, b: int)
    requires Completed(s, b)
    ensures Choose(s, b) == Reduce(YyDefact(s))
  {
    hide Completed, Choose;
    if s < 20 {
      EndReducesFirst(s, b);
    } else if s < 33 {
      EndReducesSecond(s, b);
    } else if s < 50 {
      EndReducesThird(s, b);
    } else if s < 62 {
      EndReducesFourth(s, b);
    } else if s < 73 {
      EndReducesFifth(s, b);
    } else {
      EndReducesSixth(s, b);
    }
  }

  /** The state after `i` symbols of the right side of `r`; for the left operand of an infix rule it varies. */
  function Station(r: int, i: int): int {
    if r < 10 then
      if r < 6 then
        (if r == 2 then 4 else if r == 3 then Row(i, 0, 5, 19, 37, 0, 0, 0, 0, 0, 0) else if r == 4 then 1 else 2)
      else if r == 6 then 20
      else if r == 7 then Row(i, 0, 17, 34, 56, 0, 0, 0, 0, 0, 0)
      else if r == 8 then Row(i, 0, 17, 31, 54, 74, 78, 0, 0, 0, 0)
      else 13
    else if r < 18 then
      if r < 13 then r + 13
      else if r == 13 then Row(i, 0, 18, 36, 57, 0, 0, 0, 0, 0, 0)
      else if r < 16 then 36 - r
      else Row(i, 0, 12, 29, 53, 73, 77, 80, 0, 0, 0)
    else if r < 30 then
      (if i < 2 then 0 else OperatorState(Rhs(r)[1]) + if i == 2 then 0 else 20)
    else if r < 33 then
      (if r == 30 then Row(i, 0, 9, 26, 50, 70, 76, 79, 0, 0, 0)
       else if r == 31 then Row(i, 0, 10, 27, 51, 71, 0, 0, 0, 0, 0)
       else Row(i, 0, 11, 28, 52, 72, 0, 0, 0, 0, 0))
    else if r < 38 then
      (if r == 33 then Row(i, 0, 16, 30, 0, 0, 0, 0, 0, 0, 0)
       else if r == 34 then 32
       else if r == 35 then Row(i, 0, 33, 55, 75, 0, 0, 0, 0, 0, 0)
       else if r == 36 then 35 else 33)
    else if r == 39 then 14 else if r == 40 then 7 else if r == 41 then 8 else 15
  }

  /** The state after an infix operator. */
  function OperatorState(b: int): int {
    if b == 5 then 38 else if b == 6 then 39 else if 18 <= b <= 27 then b + 22 else 0
  }

  /** A state entered on a formula. */
  predicate BehindFormula(q: int) { IsState(q) && YyStos(q) == FORMULA }

  lemma BehindOperand(p: int)
    requires FormulaStarts(p)
    ensures BehindFormula(Goto(p, FORMULA)) && LeftOperator(Goto(p, FORMULA)) == OperandOf(p)
  {
  }

  lemma OperatorShiftsFirst(q: int, b: int)
    requires BehindFormula(q) && IsInfix(b) && BindsTighter(LeftOperator(q), b) && q < 30
    ensures Accepts(q, b) && Follow(q, b) == OperatorState(b)
  {
  }

  lemma OperatorShiftsSecond(q: int, b: int)
    requires BehindFormula(q) && IsInfix(b) && BindsTighter(LeftOperator(q), b) && 30 <= q < 50
    ensures Accepts(q, b) && Follow(q, b) == OperatorState(b)
  {
  }

  lemma OperatorShiftsThird(q: int, b: int)
    requires BehindFormula(q) && IsInfix(b) && BindsTighter(LeftOperator(q), b) && 50 <= q < 58
    ensures Accepts(q, b) && Follow(q, b) == OperatorState(b)
  {
  }

  lemma OperatorShiftsFourth(q: int, b: int)
    requires BehindFormula(q) && IsInfix(b) && BindsTighter(LeftOperator(q), b) && 58 <= q < 61
    ensures Accepts(q, b) && Follow(q, b) == OperatorState(b)
  {
  }

  lemma OperatorShiftsFifth(q: int, b: int)
    requires BehindFormula(q) && IsInfix(b) && BindsTighter(LeftOperator(q), b) && 61 <= q < 64
    ensures Accepts(q, b) && Follow(q, b) == OperatorState(b)
  {
  }

  lemma OperatorShiftsSixth(q: int, b: int)
    requires BehindFormula(q) && IsInfix(b) && BindsTighter(LeftOperator(q), b) && 64 <= q < 67
    ensures Accepts(q, b) && Follow(q, b) == OperatorState(b)
  {
  }

  lemma OperatorShiftsSeventh(q: int, b: int)
    requires BehindFormula(q) && IsInfix(b) && BindsTighter(LeftOperator(q), b) && 67 <= q < 70
    ensures Accepts(q, b) && Follow(q, b) == OperatorState(b)
  {
  }

  lemma OperatorShiftsEighth(q: int, b: int)
    requires BehindFormula(q) && IsInfix(b) && BindsTighter(LeftOperator(q), b) && 70 <= q < 76
    ensures Accepts(q, b) && Follow(q, b) == OperatorState(b)
  {
  }

  lemma OperatorShiftsNinth(q: int, b: int)
    requires BehindFormula(q) && IsInfix(b) && BindsTighter(LeftOperator(q), b) && 76 <= q
    ensures Accepts(q, b) && Follow(q, b) == OperatorState(b)
  {
  }

  lemma OperatorShifts(q: int, b: int)
    requires BehindFormula(q) && IsInfix(b) && BindsTighter(LeftOperator(q), b)
    ensures Accepts(q, b) && Follow(q, b) == OperatorState(b)
  {
    hide BehindFormula, IsInfix, BindsTighter, LeftOperator, Accepts, Follow, OperatorState;
    if q < 30 {
      OperatorShiftsFirst(q, b);
    } else if q < 50 {
      OperatorShiftsSecond(q, b);
    } else if q < 58 {
      OperatorShiftsThird(q, b);
    } else if q < 61 {
      OperatorShiftsFourth(q, b);
    } else if q < 64 {
      OperatorShiftsFifth(q, b);
    } else if q < 67 {
      OperatorShiftsSixth(q, b);
    } else if q < 70 {
      OperatorShiftsSeventh(q, b);
    } else if q < 76 {
      OperatorShiftsEighth(q, b);
    } else {
      OperatorShiftsNinth(q, b);
    }
  }

  lemma ShiftsInfix(p: int, b: int)
    requires FormulaStarts(p) && IsInfix(b) && BindsTighter(OperandOf(p), b)
    ensures Accepts(Goto(p, FORMULA), b) && Follow(Goto(p, FORMULA), b) == OperatorState(b)
  {
    hide FormulaStarts, Goto, Accepts, Follow, OperatorState, IsInfix, BindsTighter;
    BehindOperand(p);
    OperatorShifts(Goto(p, FORMULA), b);
  }

  /** The operator of which the formula after symbol `x` is an operand, 0 for none. */
  function Guard(x: int): int { if IsInfix(x) || x == THEN || x == ELSE then x else 0 }

  /** State `s`, entered on `before`, accepts `x` next. */
  predicate Onward(s: int, before: int, x: int) {
    Accepts(s, x) && (x == FORMULA ==> OperandOf(s) == Guard(before))
  }

  /** The states along the right side of `r`, from where its left side begins to where it is reduced. */
  ghost predicate Leads(p: int, r: int) {
    var rhs := Rhs(r);
    var ss := Along(p, rhs, |rhs|);
    (rhs != [] ==> Accepts(p, rhs[0])) && (forall i :: 0 < i < |rhs| ==> Onward(ss[i], rhs[i - 1], rhs[i])) &&
    IsState(ss[|rhs|]) && YyDefact(ss[|rhs|]) == r
  }

  lemma AlongSteps(p: int, rhs: seq<int>, n: nat)
    requires n <= |rhs|
    ensures forall i :: 0 <= i < n ==> Along(p, rhs, n)[i + 1] == Follow(Along(p, rhs, n)[i], rhs[i])
    ensures forall i :: 0 <= i <= n ==> Along(p, rhs, n)[..i + 1] == Along(p, rhs, i)
  {
    hide Follow;
    if n > 0 { AlongSteps(p, rhs, n - 1); }
  }

  predicate Ready(p: int, r: int) {
    2 <= r <= 42 && Begins(p, YyR1(r)) && (18 <= r <= 29 ==> BindsTighter(OperandOf(p), Rhs(r)[1]))
  }

  lemma EntersFirst(p: int, r: int)
    requires Ready(p, r) && Rhs(r) != [] && !(18 <= r <= 29) && r < 6
    ensures Accepts(p, Rhs(r)[0]) && Follow(p, Rhs(r)[0]) == Station(r, 1)
  {
  }

  lemma EntersSecond(p: int, r: int)
    requires Ready(p, r) && Rhs(r) != [] && !(18 <= r <= 29) && 6 <= r < 8
    ensures Accepts(p, Rhs(r)[0]) && Follow(p, Rhs(r)[0]) == Station(r, 1)
  {
  }

  lemma EntersThird(p: int, r: int)
    requires Ready(p, r) && Rhs(r) != [] && !(18 <= r <= 29) && 8 <= r < 10
    ensures Accepts(p, Rhs(r)[0]) && Follow(p, Rhs(r)[0]) == Station(r, 1)
  {
  }

  lemma EntersFourth(p: int, r: int)
    requires Ready(p, r) && Rhs(r) != [] && !(18 <= r <= 29) && 10 <= r < 12
    ensures Accepts(p, Rhs(r)[0]) && Follow(p, Rhs(r)[0]) == Station(r, 1)
  {
    hide Decide, YyPact, YyDefact, YyTable;
  }

  lemma EntersFifth(p: int, r: int)
    requires Ready(p, r) && Rhs(r) != [] && !(18 <= r <= 29) && 12 <= r < 14
    ensures Accepts(p, Rhs(r)[0]) && Follow(p, Rhs(r)[0]) == Station(r, 1)
  {
  }

  lemma EntersSixth(p: int, r: int)
    requires Ready(p, r) && Rhs(r) != [] && !(18 <= r <= 29) && 14 <= r < 16
    ensures Accepts(p, Rhs(r)[0]) && Follow(p, Rhs(r)[0]) == Station(r, 1)
  {
    hide Decide, YyPact, YyDefact, YyTable;
  }

  lemma EntersSeventh(p: int, r: int)
    requires Ready(p, r) && Rhs(r) != [] && !(18 <= r <= 29) && 16 <= r < 31
    ensures Accepts(p, Rhs(r)[0]) && Follow(p, Rhs(r)[0]) == Station(r, 1)
  {
  }

  lemma EntersEighth(p: int, r: int)
    requires Ready(p, r) && Rhs(r) != [] && !(18 <= r <= 29) && 31 <= r < 32
    ensures Accepts(p, Rhs(r)[0]) && Follow(p, Rhs(r)[0]) == Station(r, 1)
  {
  }

  lemma EntersNinth(p: int, r: int)
    requires Ready(p, r) && Rhs(r) != [] && !(18 <= r <= 29) && 32 <= r < 33
    ensures Accepts(p, Rhs(r)[0]) && Follow(p, Rhs(r)[0]) == Station(r, 1)
  {
  }

  lemma EntersTenth(p: int, r: int)
    requires Ready(p, r) && Rhs(r) != [] && !(18 <= r <= 29) && 33 <= r < 34
    ensures Accepts(p, Rhs(r)[0]) && Follow(p, Rhs(r)[0]) == Station(r, 1)
  {
  }

  lemma EntersEleventh(p: int, r: int)
    requires Ready(p, r) && Rhs(r) != [] && !(18 <= r <= 29) && 34 <= r < 36
    ensures Accepts(p, Rhs(r)[0]) && Follow(p, Rhs(r)[0]) == Station(r, 1)
  {
    hide Decide, YyPact, YyDefact, YyTable;
  }

  lemma EntersTwelfth(p: int, r: int)
    requires Ready(p, r) && Rhs(r) != [] && !(18 <= r <= 29) && 36 <= r < 39
    ensures Accepts(p, Rhs(r)[0]) && Follow(p, Rhs(r)[0]) == Station(r, 1)
  {
    hide Decide, YyPact, YyDefact, YyTable;
  }

  lemma EntersThirteenth(p: int, r: int)
    requires Ready(p, r) && Rhs(r) != [] && !(18 <= r <= 29) && 39 <= r < 40
    ensures Accepts(p, Rhs(r)[0]) && Follow(p, Rhs(r)[0]) == Station(r, 1)
  {
  }

  lemma EntersFourteenth(p: int, r: int)
    requires Ready(p, r) && Rhs(r) != [] && !(18 <= r <= 29) && 40 <= r < 41
    ensures Accepts(p, Rhs(r)[0]) && Follow(p, Rhs(r)[0]) == Station(r, 1)
  {
  }

  lemma EntersFifteenth(p: int, r: int)
    requires Ready(p, r) && Rhs(r) != [] && !(18 <= r <= 29) && 41 <= r < 42
    ensures Accepts(p, Rhs(r)[0]) && Follow(p, Rhs(r)[0]) == Station(r, 1)
  {
  }

  lemma EntersSixteenth(p: int, r: int)
    requires Ready(p, r) && Rhs(r) != [] && !(18 <= r <= 29) && 42 <= r
    ensures Accepts(p, Rhs(r)[0]) && Follow(p, Rhs(r)[0]) == Station(r, 1)
  {
  }

  lemma Enters(p: int, r: int)
    requires Ready(p, r) && Rhs(r) != [] && !(18 <= r <= 29)
    ensures Accepts(p, Rhs(r)[0]) && Follow(p, Rhs(r)[0]) == Station(r, 1)
  {
    hide Ready, Accepts, Follow, Station;
    if r < 6 {
      EntersFirst(p, r);
    } else if r < 8 {
      EntersSecond(p, r);
    } else if r < 10 {
      EntersThird(p, r);
    } else if r < 12 {
      EntersFourth(p, r);
    } else if r < 14 {
      EntersFifth(p, r);
    } else if r < 16 {
      EntersSixth(p, r);
    } else if r < 31 {
      EntersSeventh(p, r);
    } else if r < 32 {
      EntersEighth(p, r);
    } else if r < 33 {
      EntersNinth(p, r);
    } else if r < 34 {
      EntersTenth(p, r);
    } else if r < 36 {
      EntersEleventh(p, r);
    } else if r < 39 {
      EntersTwelfth(p, r);
    } else if r < 40 {
      EntersThirteenth(p, r);
    } else if r < 41 {
      EntersFourteenth(p, r);
    } else if r < 42 {
      EntersFifteenth(p, r);
    } else {
      EntersSixteenth(p, r);
    }
  }

  lemma WalksFirst(r: int, i: int)
    requires 2 <= r <= 42 && 0 < i < |Rhs(r)| && (18 <= r <= 29 ==> i == 2) && r < 8
    ensures Onward(Station(r, i), Rhs(r)[i - 1], Rhs(r)[i]) && Follow(Station(r, i), Rhs(r)[i]) == Station(r, i + 1)
  {
  }

  lemma WalksSecond(r: int, i: int)
    requires 2 <= r <= 42 && 0 < i < |Rhs(r)| && (18 <= r <= 29 ==> i == 2) && 8 <= r < 13
    ensures Onward(Station(r, i), Rhs(r)[i - 1], Rhs(r)[i]) && Follow(Station(r, i), Rhs(r)[i]) == Station(r, i + 1)
  {
  }

  lemma WalksThird(r: int, i: int)
    requires 2 <= r <= 42 && 0 < i < |Rhs(r)| && (18 <= r <= 29 ==> i == 2) && 13 <= r < 17
    ensures Onward(Station(r, i), Rhs(r)[i - 1], Rhs(r)[i]) && Follow(Station(r, i), Rhs(r)[i]) == Station(r, i + 1)
  {
  }

  lemma WalksFourth(r: int, i: int)
    requires 2 <= r <= 42 && 0 < i < |Rhs(r)| && (18 <= r <= 29 ==> i == 2) && 17 <= r < 18
    ensures Onward(Station(r, i), Rhs(r)[i - 1], Rhs(r)[i]) && Follow(Station(r, i), Rhs(r)[i]) == Station(r, i + 1)
  {
  }

  lemma WalksFifth(r: int, i: int)
    requires 2 <= r <= 42 && 0 < i < |Rhs(r)| && (18 <= r <= 29 ==> i == 2) && 18 <= r < 20
    ensures Onward(Station(r, i), Rhs(r)[i - 1], Rhs(r)[i]) && Follow(Station(r, i), Rhs(r)[i]) == Station(r, i + 1)
  {
  }

  lemma WalksSixth(r: int, i: int)
    requires 2 <= r <= 42 && 0 < i < |Rhs(r)| && (18 <= r <= 29 ==> i == 2) && 20 <= r < 22
    ensures Onward(Station(r, i), Rhs(r)[i - 1], Rhs(r)[i]) && Follow(Station(r, i), Rhs(r)[i]) == Station(r, i + 1)
  {
  }

  lemma WalksSeventh(r: int, i: int)
    requires 2 <= r <= 42 && 0 < i < |Rhs(r)| && (18 <= r <= 29 ==> i == 2) && 22 <= r < 24
    ensures Onward(Station(r, i), Rhs(r)[i - 1], Rhs(r)[i]) && Follow(Station(r, i), Rhs(r)[i]) == Station(r, i + 1)
  {
  }

  lemma WalksEighth(r: int, i: int)
    requires 2 <= r <= 42 && 0 < i < |Rhs(r)| && (18 <= r <= 29 ==> i == 2) && 24 <= r < 26
    ensures Onward(Station(r, i), Rhs(r)[i - 1], Rhs(r)[i]) && Follow(Station(r, i), Rhs(r)[i]) == Station(r, i + 1)
  {
  }

  lemma WalksNinth(r: int, i: int)
    requires 2 <= r <= 42 && 0 < i < |Rhs(r)| && (18 <= r <= 29 ==> i == 2) && 26 <= r < 28
    ensures Onward(Station(r, i), Rhs(r)[i - 1], Rhs(r)[i]) && Follow(Station(r, i), Rhs(r)[i]) == Station(r, i + 1)
  {
  }

  lemma WalksTenth(r: int, i: int)
    requires 2 <= r <= 42 && 0 < i < |Rhs(r)| && (18 <= r <= 29 ==> i == 2) && 28 <= r < 30
    ensures Onward(Station(r, i), Rhs(r)[i - 1], Rhs(r)[i]) && Follow(Station(r, i), Rhs(r)[i]) == Station(r, i + 1)
  {
  }

  lemma WalksEleventh(r: int, i: int)
    requires 2 <= r <= 42 && 0 < i < |Rhs(r)| && (18 <= r <= 29 ==> i == 2) && 30 <= r < 31
    ensures Onward(Station(r, i), Rhs(r)[i - 1], Rhs(r)[i]) && Follow(Station(r, i), Rhs(r)[i]) == Station(r, i + 1)
  {
  }

  lemma WalksTwelfth(r: int, i: int)
    requires 2 <= r <= 42 && 0 < i < |Rhs(r)| && (18 <= r <= 29 ==> i == 2) && 31 <= r < 32
    ensures Onward(Station(r, i), Rhs(r)[i - 1], Rhs(r)[i]) && Follow(Station(r, i), Rhs(r)[i]) == Station(r, i + 1)
  {
  }

  lemma WalksThirteenth(r: int, i: int)
    requires 2 <= r <= 42 && 0 < i < |Rhs(r)| && (18 <= r <= 29 ==> i == 2) && 32 <= r < 33
    ensures Onward(Station(r, i), Rhs(r)[i - 1], Rhs(r)[i]) && Follow(Station(r, i), Rhs(r)[i]) == Station(r, i + 1)
  {
  }

  lemma WalksFourteenth(r: int, i: int)
    requires 2 <= r <= 42 && 0 < i < |Rhs(r)| && (18 <= r <= 29 ==> i == 2) && 33 <= r < 35
    ensures Onward(Station(r, i), Rhs(r)[i - 1], Rhs(r)[i]) && Follow(Station(r, i), Rhs(r)[i]) == Station(r, i + 1)
  {
  }

  lemma WalksFifteenth(r: int, i: int)
    requires 2 <= r <= 42 && 0 < i < |Rhs(r)| && (18 <= r <= 29 ==> i == 2) && 35 <= r
    ensures Onward(Station(r, i), Rhs(r)[i - 1], Rhs(r)[i]) && Follow(Station(r, i), Rhs(r)[i]) == Station(r, i + 1)
  {
  }

  lemma Walks(r: int, i: int)
    requires 2 <= r <= 42 && 0 < i < |Rhs(r)| && (18 <= r <= 29 ==> i == 2)
    ensures Onward(Station(r, i), Rhs(r)[i - 1], Rhs(r)[i]) && Follow(Station(r, i), Rhs(r)[i]) == Station(r, i + 1)
  {
    hide Onward, Station, Follow;
    if r < 8 {
      WalksFirst(r, i);
    } else if r < 13 {
      WalksSecond(r, i);
    } else if r < 17 {
      WalksThird(r, i);
    } else if r < 18 {
      WalksFourth(r, i);
    } else if r < 20 {
      WalksFifth(r, i);
    } else if r < 22 {
      WalksSixth(r, i);
    } else if r < 24 {
      WalksSeventh(r, i);
    } else if r < 26 {
      WalksEighth(r, i);
    } else if r < 28 {
      WalksNinth(r, i);
    } else if r < 30 {
      WalksTenth(r, i);
    } else if r < 31 {
      WalksEleventh(r, i);
    } else if r < 32 {
      WalksTwelfth(r, i);
    } else if r < 33 {
      WalksThirteenth(r, i);
    } else if r < 35 {
      WalksFourteenth(r, i);
    } else {
      WalksFifteenth(r, i);
    }
  }

  lemma CompletesFirst(p: int, r: int)
    requires Ready(p, r) && r < 18
    ensures var s := if Rhs(r) == [] then p else Station(r, |Rhs(r)|); IsState(s) && YyDefact(s) == r
  {
  }

  lemma CompletesSecond(p: int, r: int)
    requires Ready(p, r) && 18 <= r < 30
    ensures var s := if Rhs(r) == [] then p else Station(r, |Rhs(r)|); IsState(s) && YyDefact(s) == r
  {
  }

  lemma CompletesThird(p: int, r: int)
    requires Ready(p, r) && 30 <= r
    ensures var s := if Rhs(r) == [] then p else Station(r, |Rhs(r)|); IsState(s) && YyDefact(s) == r
  {
  }

  lemma Completes(p: int, r: int)
    requires Ready(p, r)
    ensures var s := if Rhs(r) == [] then p else Station(r, |Rhs(r)|); IsState(s) && YyDefact(s) == r
  {
    hide Ready, Station, IsState, YyDefact;
    if r < 18 {
      CompletesFirst(p, r);
    } else if r < 30 {
      CompletesSecond(p, r);
    } else {
      CompletesThird(p, r);
    }
  }

  lemma EntersInfix(p: int, r: int)
    requires Ready(p, r) && 18 <= r <= 29
    ensures |Rhs(r)| == 3 && Rhs(r)[0] == FORMULA && Accepts(p, FORMULA) && IsInfix(Rhs(r)[1])
    ensures Onward(Goto(p, FORMULA), FORMULA, Rhs(r)[1]) && Follow(Goto(p, FORMULA), Rhs(r)[1]) == Station(r, 2)
  {
    hide Goto, Decide;
    ShiftsInfix(p, Rhs(r)[1]);
  }

  lemma {:induction false} OnStations(p: int, r: int, i: nat)
    requires Ready(p, r) && i <= |Rhs(r)| && (if 18 <= r <= 29 then 2 <= i else 1 <= i)
    ensures Along(p, Rhs(r), i)[i] == Station(r, i)
  {
    hide Accepts, Follow, Onward, YyDefact, Station, Begins, BindsTighter, Rhs;
    var rhs := Rhs(r);
    if 18 <= r <= 29 { EntersInfix(p, r); }
    if i == 1 {
      assert Along(p, rhs, 0) == [p];
      Enters(p, r);
    } else if 18 <= r <= 29 && i == 2 {
      assert Along(p, rhs, 1)[1] == Follow(p, rhs[0]);
      GotoFollows(p, FORMULA);
    } else {
      OnStations(p, r, i - 1);
      Walks(r, i - 1);
    }
  }

  lemma GotoFollows(p: int, a: int)
    requires a >= YYNTOKENS
    ensures Follow(p, a) == Goto(p, a)
  {
  }

  /** Where a derivation by `r` begins, the automaton can follow its right side to the state that reduces it. */
  lemma Path(p: int, r: int)
    requires Ready(p, r)
    ensures Leads(p, r)
  {
    hide Accepts, Follow, Onward, IsState, YyDefact, Station, Begins, BindsTighter, Rhs;
    var rhs := Rhs(r);
    var ss := Along(p, rhs, |rhs|);
    AlongSteps(p, rhs, |rhs|);
    Completes(p, r);
    if 18 <= r <= 29 { EntersInfix(p, r); GotoFollows(p, FORMULA); } else if rhs != [] { Enters(p, r); }
    forall i | 0 < i < |rhs|
      ensures Onward(ss[i], rhs[i - 1], rhs[i])
    {
      assert ss[i] == Along(p, rhs, i)[i];
      if 18 <= r <= 29 && i == 1 {
        assert ss[1] == Follow(ss[0], rhs[0]);
      } else {
        OnStations(p, r, i);
        Walks(r, i);
      }
    }
    if rhs != [] { OnStations(p, r, |rhs|); }
  }

  // ----- the machine follows a derivation -----

  /** The context in which the machine recognises the tree: the state below it and the symbol behind it. */
  ghost predicate Welcome(p: int, t: Tree, b: int) {
    Begins(p, t.Symbol()) && 0 <= b < YYNTOKENS && Ends(t.Symbol(), b) && BindsTighter(OperandOf(p), Head(t)) &&
    CompleteBefore(t, b)
  }

  /** Before a symbol that is neither an infix operator nor `else` every phrase is complete. */
  lemma CloserCompletes(t: Tree, b: int)
    requires !IsInfix(b) && b != ELSE
    ensures CompleteBefore(t, b)
  {
  }

  lemma WelcomeIsReady(p: int, r: int, kids: seq<Tree>, b: int)
    requires Derivation(Node(r, kids)) && Welcome(p, Node(r, kids), b)
    ensures Ready(p, r)
  {
  }

  /** The left operand of an infix operator may begin where the operator's phrase begins. */
  lemma LeftOperandWelcome(p: int, r: int, kids: seq<Tree>)
    requires 18 <= r <= 29 && Derivation(Node(r, kids)) && GroupsWell(r, kids)
    requires BindsTighter(OperandOf(p), kids[1].Symbol())
    ensures BindsTighter(OperandOf(p), Head(kids[0]))
  {
    hide Derivation, Derivations, Head, Tails, Rhs;
    KidSymbols(r, kids);
    InfixKids(r, kids);
    if Head(kids[0]) != 0 { HeadIsTail(kids[0]); }
  }

  lemma InfixKids(r: int, kids: seq<Tree>)
    requires 18 <= r <= 29 && Symbols(kids) == Rhs(r) && Derivations(kids)
    ensures |kids| == 3 && Derivation(kids[0]) && IsInfix(kids[1].Symbol())
  {
    hide Derivation, Symbols, Rhs, IsInfix, Tree.Symbol;
    InfixRhs(r);
    assert kids[1].Symbol() == Symbols(kids)[1];
  }

  lemma HeadIsTail(t: Tree)
    requires Derivation(t) && Head(t) != 0
    ensures Head(t) in Tails(t) && IsInfix(Head(t))
  {
  }

  /** Only formulas have a main operator, and only they have an operand at their right edge. */
  lemma OnlyFormulas(t: Tree)
    requires Derivation(t)
    ensures Head(t) != 0 ==> t.Symbol() == FORMULA || t.Symbol() == FORMULA_BINOP
    ensures Tails(t) != {} ==> t.Symbol() == FORMULA || t.Symbol() == FORMULA_BINOP || t.Symbol() == FORMULA_IF
  {
  }

  lemma OperandKid(p: int, r: int, kids: seq<Tree>, i: nat, s: int, b: int)
    requires Derivation(Node(r, kids)) && GroupsWell(r, kids) && Welcome(p, Node(r, kids), b) && i < |kids|
    requires if i == 0 then s == p else Onward(s, Rhs(r)[i - 1], Rhs(r)[i])
    requires Derivation(kids[i]) && kids[i].Symbol() == Rhs(r)[i] >= YYNTOKENS
    ensures BindsTighter(OperandOf(s), Head(kids[i]))
  {
    hide Accepts, Derivations, GroupsWell, Welcome, OperandOf, Rhs, Head;
    if i == 0 {
      FirstOperandKid(p, r, kids, b);
    } else {
      OnlyFormulas(kids[i]);
      FormulasBehind(r, i);
      if Rhs(r)[i] == FORMULA {
        assert Symbols(kids)[1] == kids[1].Symbol();
        LaterOperandKid(r, kids, i);
      }
    }
  }

  lemma FormulasBehind(r: int, i: nat)
    requires 0 < i < |Rhs(r)|
    ensures Rhs(r)[i] != FORMULA_BINOP
  {
  }

  lemma LaterOperandKid(r: int, kids: seq<Tree>, i: nat)
    requires 2 <= r <= 42 && GroupsWell(r, kids) && 0 < i < |kids| == |Rhs(r)| && Rhs(r)[i] == FORMULA
    requires kids[1].Symbol() == Rhs(r)[1]
    ensures BindsTighter(Guard(Rhs(r)[i - 1]), Head(kids[i]))
  {
    hide Head, CompleteBefore, Tree.Symbol;
  }

  lemma FirstOperandKid(p: int, r: int, kids: seq<Tree>, b: int)
    requires Derivation(Node(r, kids)) && GroupsWell(r, kids) && Welcome(p, Node(r, kids), b) && 0 < |kids|
    requires Derivation(kids[0]) && kids[0].Symbol() == Rhs(r)[0] >= YYNTOKENS
    ensures BindsTighter(OperandOf(p), Head(kids[0]))
  {
    hide Accepts, Derivations;
    OnlyFormulas(kids[0]);
    if 18 <= r <= 29 { LeftOperandWelcome(p, r, kids); }
  }

  lemma LastKidComplete(r: int, kids: seq<Tree>, b: int)
    requires Derivation(Node(r, kids)) && kids != [] && Derivation(kids[|kids| - 1])
    requires CompleteBefore(Node(r, kids), b) && Ends(YyR1(r), b) && Rhs(r)[|kids| - 1] >= YYNTOKENS
    ensures CompleteBefore(kids[|kids| - 1], b)
  {
    hide Derivations, EndsBefore, Ends, Rhs, RuleOperator, IsInfix;
    var last := kids[|kids| - 1];
    OnlyFormulas(last);
    assert |kids| == |Symbols(kids)| && last.Symbol() == Rhs(r)[|kids| - 1];
    if RuleOperator(r) == 0 && r != 14 && r != 15 {
      LastOfList(r, b);
      if last.Symbol() == FORMULA { CloserCompletes(last, b); }
    }
  }

  lemma LastOfList(r: int, b: int)
    requires 2 <= r <= 42 && Rhs(r) != [] && RuleOperator(r) == 0 && r != 14 && r != 15 && Ends(YyR1(r), b)
    ensures var last := Rhs(r)[|Rhs(r)| - 1];
      last != FORMULA_BINOP && last != FORMULA_IF && (last == FORMULA ==> !IsInfix(b) && b != ELSE)
  {
  }

  lemma InnerKidComplete(r: int, kids: seq<Tree>, i: nat, next: int)
    requires 2 <= r <= 42 && Symbols(kids) == Rhs(r) && GroupsWell(r, kids) && i + 1 < |kids|
    requires Derivation(kids[i]) && Rhs(r)[i] >= YYNTOKENS
    requires Rhs(r)[i + 1] < YYNTOKENS ==> next == Rhs(r)[i + 1]
    ensures CompleteBefore(kids[i], next)
  {
    hide Derivation, EndsBefore, Rhs, IsInfix, Tails, Head, BindsTighter;
    OnlyFormulas(kids[i]);
    InnerFollower(r, i);
    assert |kids| == |Symbols(kids)| && forall j :: 0 <= j < |kids| ==> kids[j].Symbol() == Rhs(r)[j];
    if Rhs(r)[i + 1] < YYNTOKENS && !IsInfix(next) && next != ELSE { CloserCompletes(kids[i], next); }
  }

  lemma InnerFollower(r: int, i: nat)
    requires 2 <= r <= 42 && i + 1 < |Rhs(r)| && Rhs(r)[i] >= YYNTOKENS
    ensures var next := Rhs(r)[i + 1];
      if next >= YYNTOKENS then r == 3 && Rhs(r)[i] !in {FORMULA, FORMULA_BINOP, FORMULA_IF}
      else IsInfix(next) || next == ELSE ==> (18 <= r <= 29 && i == 0 && |Rhs(r)| == 3) || (r == 17 && i == 3 && |Rhs(r)| == 6 && next == ELSE)
  {
  }

  lemma EndedKid(r: int, i: nat, b: int, next: int)
    requires 2 <= r <= 42 && i < |Rhs(r)| && Ends(YyR1(r), b) && Rhs(r)[i] >= YYNTOKENS
    requires if i + 1 == |Rhs(r)| then next == b
      else if Rhs(r)[i + 1] < YYNTOKENS then next == Rhs(r)[i + 1]
      else r == 3 && (Rhs(r)[i + 1] == INPUT_PROMPT ==> next == IPROMPT)
    ensures Ends(Rhs(r)[i], next)
  {
  }

  lemma LookRange(rest: seq<Token>)
    ensures 0 <= Look(rest) < YYNTOKENS
  {
  }

  lemma TerminalIsLeaf(t: Tree)
    requires Derivation(t)
    ensures t.Symbol() < YYNTOKENS <==> t.Leaf?
  {
    if t.Node? { NonterminalOf(t.rule); }
  }

  lemma PromptStarts(t: Tree, u: seq<Token>)
    requires Derivation(t) && t.Symbol() == INPUT_PROMPT
    ensures Look(Yield(t) + u) == IPROMPT
  {
    TerminalIsLeaf(t);
    assert t.rule == 4;
    TerminalIsLeaf(t.kids[0]);
    assert Yields(t.kids) == Yield(t.kids[0]) + Yields(t.kids[1..]);
  }

  /** What follows a child, as far as the grammar tells. */
  lemma Behind(kids: seq<Tree>, rhs: seq<int>, i: nat, u: seq<Token>)
    requires Symbols(kids) == rhs && i < |kids| && (i + 1 < |kids| ==> Derivation(kids[i + 1]))
    ensures var next := Look(Yields(kids[i + 1..]) + u);
      if i + 1 == |kids| then next == Look(u)
      else (rhs[i + 1] < YYNTOKENS ==> next == rhs[i + 1]) && (rhs[i + 1] == INPUT_PROMPT ==> next == IPROMPT)
  {
    hide Derivation, Tree.Symbol, Token.Symbol, Look, Translate;
    if i + 1 < |kids| {
      var t, later := kids[i + 1], Yields(kids[i + 2..]) + u;
      assert t.Symbol() == rhs[i + 1];
      YieldsFrom(kids, i + 1, u);
      NextKidLooks(t, later);
    } else {
      assert Yields(kids[i + 1..]) + u == u;
    }
  }

  lemma YieldsFrom(kids: seq<Tree>, i: nat, u: seq<Token>)
    requires i < |kids|
    ensures Yields(kids[i..]) + u == Yield(kids[i]) + (Yields(kids[i + 1..]) + u)
  {
    hide Yield;
    assert kids[i..][0] == kids[i] && kids[i..][1..] == kids[i + 1..];
  }

  lemma NextKidLooks(t: Tree, later: seq<Token>)
    requires Derivation(t)
    ensures t.Symbol() < YYNTOKENS ==> Look(Yield(t) + later) == t.Symbol()
    ensures t.Symbol() == INPUT_PROMPT ==> Look(Yield(t) + later) == IPROMPT
  {
    hide Derivation;
    TerminalIsLeaf(t);
    if t.Symbol() == INPUT_PROMPT { PromptStarts(t, later); }
  }

  /** Every child is welcome where the automaton meets it. */
  lemma KidWelcome(p: int, r: int, kids: seq<Tree>, i: nat, u: seq<Token>)
    requires Derivation(Node(r, kids)) && GroupsWell(r, kids) && Welcome(p, Node(r, kids), Look(u))
    requires Leads(p, r) && i < |kids| && Derivation(kids[i]) && (i + 1 < |kids| ==> Derivation(kids[i + 1]))
    requires kids[i].Symbol() >= YYNTOKENS && |kids| == |Rhs(r)|
    ensures Welcome(Along(p, Rhs(r), |kids|)[i], kids[i], Look(Yields(kids[i + 1..]) + u))
  {
    hide Derivation, Derivations, Rhs, Head, Tails, BindsTighter, EndsBefore, GroupsWell, RuleOperator, OperandOf,
      Starts, Yields, Along, CompleteBefore, Ends;
    var s, next := Along(p, Rhs(r), |kids|)[i], Look(Yields(kids[i + 1..]) + u);
    KidSymbols(r, kids);
    assert kids[i].Symbol() == Symbols(kids)[i];
    Behind(kids, Rhs(r), i, u);
    LookRange(Yields(kids[i + 1..]) + u);
    InnerSymbols(r, i);
    EndedKid(r, i, Look(u), next);
    OperandKid(p, r, kids, i, s, Look(u));
    if i + 1 == |kids| { LastKidComplete(r, kids, Look(u)); } else { InnerKidComplete(r, kids, i, next); }
  }

  lemma KidSymbols(r: int, kids: seq<Tree>)
    requires Derivation(Node(r, kids))
    ensures 2 <= r <= 42 && Symbols(kids) == Rhs(r) && Derivations(kids) && |kids| == |Rhs(r)|
  {
  }

  lemma InnerSymbols(r: int, i: nat)
    requires 2 <= r <= 42 && i < |Rhs(r)|
    ensures Rhs(r)[i] != START
    ensures i + 1 < |Rhs(r)| && Rhs(r)[i] >= YYNTOKENS && Rhs(r)[i + 1] >= YYNTOKENS ==> r == 3
  {
  }

  /** The stacks after the first `i` children have been recognised above `states`. */
  ghost function Midway(states: seq<int>, trees: seq<Tree>, r: int, kids: seq<Tree>, i: nat, u: seq<Token>): Config
    requires |states| == |trees| + 1 && i <= |kids| == |Rhs(r)|
  {
    Config(states[..|trees|] + Along(states[|trees|], Rhs(r), i), trees + kids[..i], Yields(kids[i..]) + u)
  }

  lemma MidwayTop(states: seq<int>, trees: seq<Tree>, r: int, kids: seq<Tree>, i: nat, u: seq<Token>)
    requires |states| == |trees| + 1 && i <= |kids| == |Rhs(r)|
    ensures var c := Midway(states, trees, r, kids, i, u);
      c.Shaped() && c.Top() == Along(states[|trees|], Rhs(r), |kids|)[i] && |c.trees| == |trees| + i &&
      (i == 0 ==> c == Config(states, trees, Yields(kids) + u)) && (i == |kids| ==> c.rest == u && c.trees == trees + kids)
  {
    hide Rhs, Yields;
    AlongSteps(states[|trees|], Rhs(r), |kids|);
    assert Along(states[|trees|], Rhs(r), |kids|)[..i + 1] == Along(states[|trees|], Rhs(r), i);
    if i == 0 { assert states[..|trees|] + [states[|trees|]] == states && kids[0..] == kids; }
    if i == |kids| { assert kids[i..] == [] && Yields([]) == [] by { NoYield(); } }
  }

  lemma NoYield()
    ensures Yields([]) == []
  {
  }

  /** A terminal is shifted. */
  lemma Shifts(c: Config, token: Token, u: seq<Token>)
    requires c.Shaped() && c.rest == [token] + u && Accepts(c.Top(), token.Symbol()) && token.Symbol() < YYNTOKENS
    ensures Going(c) && Next(c) == Config(c.states + [Follow(c.Top(), token.Symbol())], c.trees + [Leaf(token)], u)
  {
    hide YyPact, Decide, Default, Translate, Token.Symbol;
    assert c.rest[0] == token && c.rest[1..] == u;
  }

  /** A completed right side is reduced. */
  lemma TopReduces(s: int, r: int, kids: seq<Tree>, b: int)
    requires 2 <= r <= 42 && |kids| == |Rhs(r)| && IsState(s) && YyDefact(s) == r
    requires 0 <= b < YYNTOKENS && Ends(YyR1(r), b) && CompleteBefore(Node(r, kids), b)
    ensures Choose(s, b) == Reduce(r)
  {
    hide Choose, EndsBefore, Rhs, YyDefact, Ends;
    if RuleOperator(r) != 0 {
      OperatorsHaveOperands(r);
      assert RuleOperator(r) in Tails(Node(r, kids));
    }
    EndReduces(s, b);
  }

  lemma OperatorsHaveOperands(r: int)
    requires RuleOperator(r) != 0
    ensures Rhs(r) != []
  {
  }

  /** A reduction uncovers the state below the right side and puts the new tree above it. */
  lemma ReducesTop(low: seq<int>, high: seq<int>, trees: seq<Tree>, kids: seq<Tree>, r: int, rest: seq<Token>)
    requires |low| == |trees| && |high| == |kids| + 1 && |kids| == YyR2(r) && r != 2 && r != 3
    requires Choose(high[|kids|], Look(rest)) == Reduce(r)
    ensures var c := Config(low + high, trees + kids, rest);
      Going(c) && Next(c) == Config(low + [high[0]] + [Goto(high[0], YyR1(r))], trees + [Node(r, kids)], rest)
  {
    hide Choose, YyR1, YyR2, Goto, Look;
    var c := Config(low + high, trees + kids, rest);
    assert c.Top() == high[|kids|];
    assert c.trees[|trees|..] == kids && c.trees[..|trees|] == trees;
    assert c.states[..|trees| + 1] == low + [high[0]];
  }

  lemma ReducesMidway(states: seq<int>, trees: seq<Tree>, r: int, kids: seq<Tree>, u: seq<Token>)
    requires |states| == |trees| + 1 && |kids| == |Rhs(r)| == YyR2(r) && r != 2 && r != 3
    requires Choose(Along(states[|trees|], Rhs(r), |kids|)[|kids|], Look(u)) == Reduce(r)
    ensures var c := Midway(states, trees, r, kids, |kids|, u);
      Going(c) && Next(c) == Config(states + [Goto(states[|trees|], YyR1(r))], trees + [Node(r, kids)], u)
  {
    hide Choose, Rhs, YyR1, YyR2, Goto, Look, Yields, Going, Next;
    MidwayTop(states, trees, r, kids, |kids|, u);
    var high := Along(states[|trees|], Rhs(r), |kids|);
    ReducesTop(states[..|trees|], high, trees, kids, r, u);
    assert states[..|trees|] + [states[|trees|]] == states && kids[..|kids|] == kids;
  }

  /** The automaton recognises every derivation that is welcome and respects the precedence table. */
  lemma Recognises(states: seq<int>, trees: seq<Tree>, t: Tree, u: seq<Token>) returns (n: nat)
    requires |states| == |trees| + 1 && Derivation(t) && Respects(t) && t.Node? && t.Symbol() != START
    requires Welcome(states[|trees|], t, Look(u))
    ensures Reaches(Config(states, trees, Yield(t) + u), Config(states + [Goto(states[|trees|], t.Symbol())], trees + [t], u), n)
    ensures Peak(Config(states, trees, Yield(t) + u), n) == |trees| + Height(t)
    decreases t, 1, 0
  {
    hide Choose, Rhs, Going, Next, Goto, Look, YyR1, YyR2, GroupsWell, Begins, Ends, CompleteBefore, BindsTighter, IsState,
      YyDefact, Along, Midway, Ready;
    var p, r, kids := states[|trees|], t.rule, t.kids;
    KidSymbols(r, kids);
    NonterminalOf(r);
    WelcomeIsReady(p, r, kids, Look(u));
    Path(p, r);
    n := RecognisesKids(states, trees, r, kids, 0, u);
    TopReduces(Along(p, Rhs(r), |kids|)[|kids|], r, kids, Look(u));
    StartRules(r);
    ReducesMidway(states, trees, r, kids, u);
    MidwayTop(states, trees, r, kids, 0, u);
    MidwayTop(states, trees, r, kids, |kids|, u);
    var done := Midway(states, trees, r, kids, |kids|, u);
    OneStep(done);
    ReachesOn(Config(states, trees, Yields(kids) + u), done, Next(done), n, 1);
    PeakOn(Config(states, trees, Yields(kids) + u), done, n, 1);
    assert kids[0..] == kids;
    n := n + 1;
  }

  lemma OneStep(c: Config)
    requires Going(c)
    ensures Reaches(c, Next(c), 1) && Peak(c, 1) == Max(|c.trees|, |Next(c).trees|)
  {
    hide Going, Next;
    assert Reaches(Next(c), Next(c), 0) && Peak(Next(c), 0) == |Next(c).trees|;
  }

  lemma NoStep(c: Config)
    ensures Reaches(c, c, 0) && Peak(c, 0) == |c.trees|
  {
  }

  lemma StartRules(r: int)
    requires 2 <= r <= 42
    ensures YyR1(r) == START <==> r == 2 || r == 3
  {
  }

  /** It recognises the children of a derivation one after the other. */
  lemma RecognisesKids(states: seq<int>, trees: seq<Tree>, r: int, kids: seq<Tree>, i: nat, u: seq<Token>) returns (n: nat)
    requires |states| == |trees| + 1 && i <= |kids| == |Rhs(r)| && Derivation(Node(r, kids)) && Respects(Node(r, kids))
    requires Welcome(states[|trees|], Node(r, kids), Look(u)) && Leads(states[|trees|], r)
    ensures Reaches(Midway(states, trees, r, kids, i, u), Midway(states, trees, r, kids, |kids|, u), n)
    ensures Peak(Midway(states, trees, r, kids, i, u), n) == |trees| + i + Heights(kids[i..])
    decreases kids, 0, |kids| - i
  {
    hide Choose, Rhs, Going, Next, Goto, Look, YyR1, YyR2, GroupsWell, Begins, Ends, CompleteBefore, BindsTighter, IsState,
      YyDefact, Along, Midway, Accepts;
    if i == |kids| {
      n := 0;
      MidwayTop(states, trees, r, kids, i, u);
      NoStep(Midway(states, trees, r, kids, i, u));
    } else {
      assert kids[i..][0] == kids[i] && kids[i..][1..] == kids[i + 1..];
      var m := RecognisesKid(states, trees, r, kids, i, u);
      var k := RecognisesKids(states, trees, r, kids, i + 1, u);
      ReachesOn(Midway(states, trees, r, kids, i, u), Midway(states, trees, r, kids, i + 1, u),
        Midway(states, trees, r, kids, |kids|, u), m, k);
      PeakOn(Midway(states, trees, r, kids, i, u), Midway(states, trees, r, kids, i + 1, u), m, k);
      n := m + k;
    }
  }

  lemma RecognisesKid(states: seq<int>, trees: seq<Tree>, r: int, kids: seq<Tree>, i: nat, u: seq<Token>) returns (n: nat)
    requires |states| == |trees| + 1 && i < |kids| == |Rhs(r)| && Derivation(Node(r, kids)) && Respects(Node(r, kids))
    requires Welcome(states[|trees|], Node(r, kids), Look(u)) && Leads(states[|trees|], r)
    ensures Reaches(Midway(states, trees, r, kids, i, u), Midway(states, trees, r, kids, i + 1, u), n)
    ensures Peak(Midway(states, trees, r, kids, i, u), n) == |trees| + i + Height(kids[i])
    decreases kids, 0, |kids| - i, 0
  {
    hide Choose, Rhs, Going, Next, Goto, Look, YyR1, YyR2, GroupsWell, Begins, Ends, CompleteBefore, BindsTighter, IsState,
      YyDefact, Along, Midway, Accepts, Symbols, Derivation, Respects, Welcome, Starts, Token.Symbol, Tree.Symbol;
    var p, rhs := states[|trees|], Rhs(r);
    var c, later := Midway(states, trees, r, kids, i, u), Yields(kids[i + 1..]) + u;
    KidFacts(r, kids, i);
    MidwayTop(states, trees, r, kids, i, u);
    MidwayNext(states, trees, r, kids, i, u);
    TerminalIsLeaf(kids[i]);
    match kids[i]
    case Leaf(token) =>
      LeafFacts(token);
      AcceptedAlong(p, r, i);
      Shifts(c, token, later);
      n := 1;
      OneStep(c);
    case Node(_, _) =>
      if i + 1 < |kids| { KidFacts(r, kids, i + 1); }
      KidWelcome(p, r, kids, i, u);
      GotoFollows(c.Top(), rhs[i]);
      n := Recognises(c.states, c.trees, kids[i], later);
  }

  lemma LeafFacts(token: Token)
    ensures Leaf(token).Symbol() == token.Symbol() && Yield(Leaf(token)) == [token]
  {
  }

  lemma AcceptedAlong(p: int, r: int, i: nat)
    requires Leads(p, r) && i < |Rhs(r)|
    ensures Accepts(Along(p, Rhs(r), |Rhs(r)|)[i], Rhs(r)[i])
  {
    hide Accepts, IsState, Follow, OperandOf, YyDefact, Rhs;
    if i > 0 { assert Onward(Along(p, Rhs(r), |Rhs(r)|)[i], Rhs(r)[i - 1], Rhs(r)[i]); }
  }

  lemma KidFacts(r: int, kids: seq<Tree>, i: nat)
    requires Derivation(Node(r, kids)) && Respects(Node(r, kids)) && i < |kids|
    ensures GroupsWell(r, kids) && Derivation(kids[i]) && Respects(kids[i]) && |kids| == |Rhs(r)| && 2 <= r <= 42
    ensures kids[i].Symbol() == Rhs(r)[i] != START
  {
    hide GroupsWell, Rhs;
    EachOf(kids, i);
    InnerSymbols(r, i);
    assert kids[i].Symbol() == Symbols(kids)[i];
  }

  lemma {:induction false} EachOf(kids: seq<Tree>, i: nat)
    requires Derivations(kids) && AllRespect(kids) && i < |kids|
    ensures Derivation(kids[i]) && Respects(kids[i])
  {
    hide Derivation, Respects;
    if i > 0 { EachOf(kids[1..], i - 1); }
  }

  lemma MidwayNext(states: seq<int>, trees: seq<Tree>, r: int, kids: seq<Tree>, i: nat, u: seq<Token>)
    requires |states| == |trees| + 1 && i < |kids| == |Rhs(r)|
    ensures var c, later := Midway(states, trees, r, kids, i, u), Yields(kids[i + 1..]) + u;
      c.rest == Yield(kids[i]) + later &&
      Midway(states, trees, r, kids, i + 1, u) ==
        Config(c.states + [Follow(Along(states[|trees|], Rhs(r), |kids|)[i], Rhs(r)[i])], c.trees + [kids[i]], later)
  {
    hide Rhs, Follow, Yield, Yields, Along;
    var p, rhs := states[|trees|], Rhs(r);
    YieldsFrom(kids, i, u);
    AlongNext(p, rhs, i, |kids|);
    var low := states[..|trees|];
    var next := Follow(Along(p, rhs, |kids|)[i], rhs[i]);
    assert low + Along(p, rhs, i + 1) == low + Along(p, rhs, i) + [next];
    assert trees + kids[..i + 1] == trees + kids[..i] + [kids[i]];
  }

  lemma AlongNext(p: int, rhs: seq<int>, i: nat, n: nat)
    requires i < n <= |rhs|
    ensures Along(p, rhs, i + 1) == Along(p, rhs, i) + [Follow(Along(p, rhs, n)[i], rhs[i])]
  {
    hide Follow;
    AlongSteps(p, rhs, n);
    assert Along(p, rhs, i)[i] == Along(p, rhs, n)[..i + 1][i];
  }

  // ----- whole replies -----

  /** The parse ends here: the top state reduces by one of the two rules of START. */
  ghost predicate Accepting(c: Config) {
    c.Shaped() && (Choose(c.Top(), Look(c.rest)) == Reduce(2) || Choose(c.Top(), Look(c.rest)) == Reduce(3))
  }

  /** The tokens start with the reply that the derivation derives. */
  ghost predicate Reply(t: Tree, tokens: seq<Token>) {
    Derivation(t) && Respects(t) && t.Symbol() == START && Yield(t) <= tokens
  }

  /** The stacks have room for the reply: they fill up with YYMAXDEPTH states, of which the lowest has no symbol. */
  ghost predicate StacksSuffice(t: Tree) { t.Node? && Heights(t.kids) + 1 < YYMAXDEPTH }

  /** The machine is on its way to the end of this reply. */
  ghost predicate Leading(c: Config, t: Tree, tokens: seq<Token>) {
    exists n: nat, d: Config :: Reaches(c, d, n) && Accepting(d) && Ending(d, t, tokens) && (Roomy(c, n) <==> StacksSuffice(t))
  }

  /** The stacks do not fill up during the next `n` steps. */
  ghost predicate Roomy(c: Config, n: nat) { Peak(c, n) + 1 < YYMAXDEPTH }

  ghost predicate Ending(d: Config, t: Tree, tokens: seq<Token>) {
    d.Shaped() && t.Node? && d.trees == t.kids && Choose(d.Top(), Look(d.rest)) == Reduce(t.rule) &&
    |Yield(t)| <= |tokens| && d.rest == tokens[|Yield(t)|..]
  }

  lemma StartIsWelcome(t: Tree, b: int)
    requires Derivation(t) && t.Symbol() == START && 0 <= b < YYNTOKENS
    ensures t.Node? && (t.rule == 2 || t.rule == 3) && Welcome(0, t, b)
  {
    hide Derivations;
    TerminalIsLeaf(t);
    StartRules(t.rule);
  }

  lemma RepliesLead(t: Tree, tokens: seq<Token>)
    requires Reply(t, tokens)
    ensures Leading(Config([0], [], tokens), t, tokens)
  {
    hide Choose, Rhs, Going, Next, Goto, Look, YyR1, YyR2, Ends, CompleteBefore, IsState, YyDefact, Along, Midway, Ready,
      Derivation, Respects, Reaches, Yields;
    var u := tokens[|Yield(t)|..];
    assert tokens == Yield(t) + u;
    LookRange(u);
    StartIsWelcome(t, Look(u));
    var r, kids := t.rule, t.kids;
    KidSymbols(r, kids);
    WelcomeIsReady(0, r, kids, Look(u));
    Path(0, r);
    var n := RecognisesKids([0], [], r, kids, 0, u);
    assert kids[0..] == kids;
    MidwayTop([0], [], r, kids, 0, u);
    MidwayTop([0], [], r, kids, |kids|, u);
    TopReduces(Along(0, Rhs(r), |kids|)[|kids|], r, kids, Look(u));
    assert [] + kids == kids;
    assert Ending(Midway([0], [], r, kids, |kids|, u), t, tokens);
    assert Roomy(Config([0], [], tokens), n) <==> StacksSuffice(t);
  }

  /** The machine fills the stacks before it stops. */
  ghost predicate Fills(c: Config) {
    exists n: nat, d: Config :: Reaches(c, d, n) && Full(d)
  }

  ghost predicate Full(c: Config) { |c.trees| + 1 == YYMAXDEPTH }

  lemma FillsOn(c: Config)
    ensures if Full(c) then Fills(c) else Fills(c) <==> Going(c) && Fills(Next(c))
  {
    hide Going, Next, Full;
    if Full(c) {
      assert Reaches(c, c, 0);
    } else {
      if Fills(c) {
        var n: nat, d :| Reaches(c, d, n) && Full(d);
        assert n > 0 && Reaches(Next(c), d, n - 1);
      }
      if Going(c) && Fills(Next(c)) {
        var n: nat, d :| Reaches(Next(c), d, n) && Full(d);
        assert Reaches(c, d, n + 1);
      }
    }
  }

  /** A machine on its way to the end of a reply has arrived, or can go on. */
  lemma LeadingGoesOn(c: Config, t: Tree, tokens: seq<Token>)
    requires Leading(c, t, tokens)
    ensures |c.trees| + 1 >= YYMAXDEPTH ==> !StacksSuffice(t)
    ensures |c.trees| + 1 < YYMAXDEPTH ==>
      if Going(c) then Leading(Next(c), t, tokens) else Accepting(c) && Ending(c, t, tokens) && StacksSuffice(t)
  {
    hide Choose, Next, Ending, StacksSuffice;
    var n: nat, d :| Reaches(c, d, n) && Accepting(d) && Ending(d, t, tokens) && (Roomy(c, n) <==> StacksSuffice(t));
    PeakOn(c, d, n, 0);
    if n > 0 {
      assert Reaches(Next(c), d, n - 1) && (|c.trees| + 1 < YYMAXDEPTH ==> (Roomy(Next(c), n - 1) <==> Roomy(c, n)));
    }
  }

  lemma {:induction false} SameEnd(c: Config, d: Config, e: Config, m: nat, n: nat)
    requires Reaches(c, d, m) && Reaches(c, e, n) && Accepting(d) && Accepting(e)
    ensures d == e
    decreases m
  {
    hide Choose, Next;
    if m > 0 && n > 0 { SameEnd(Next(c), d, e, m - 1, n - 1); }
  }

  /** The precedence table leaves no ambiguity: tokens start with at most one reply, and have one derivation of it. */
  lemma OneReply(t1: Tree, t2: Tree, tokens: seq<Token>)
    requires Reply(t1, tokens) && Reply(t2, tokens)
    ensures t1 == t2
  {
    hide Reaches, Accepting, Choose, Reply, Roomy, StacksSuffice;
    RepliesLead(t1, tokens);
    RepliesLead(t2, tokens);
    var c := Config([0], [], tokens);
    var m: nat, d :| Reaches(c, d, m) && Accepting(d) && Ending(d, t1, tokens) && (Roomy(c, m) <==> StacksSuffice(t1));
    var n: nat, e :| Reaches(c, e, n) && Accepting(e) && Ending(e, t2, tokens) && (Roomy(c, n) <==> StacksSuffice(t2));
    SameEnd(c, d, e, m, n);
  }
}
