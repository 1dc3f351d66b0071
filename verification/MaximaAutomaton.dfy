// What the packed parser tables promise: which states lie below a state, and what a reduction uncovers.

module MaximaAutomaton {
  import opened TableRows
  import opened ParserTables
  import opened MaximaGrammar
  import opened MaximaPrecedence

  datatype Move = Shift(target: int) | Reduce(rule: int) | Fail

  function Default(s: int): Move {
    if YyDefact(s) == 0 then Fail else Reduce(YyDefact(s))
  }

  /** The driver's decision in state `s` on lookahead `t`. */
  function Decide(s: int, t: int): Move {
    var n := YyPact(s) + t;
    if YyPact(s) == YYPACT_NINF || n < 0 || YYLAST < n || YyCheck(n) != t then Default(s)
    else if 0 < YyTable(n) then Shift(YyTable(n))
    else if YyTable(n) == YYTABLE_NINF then Fail
    else Reduce(-YyTable(n))
  }

  /** The state that follows `p` once nonterminal `a` has been recognised. */
  function Goto(p: int, a: int): int {
    var n := YyPgoto(a - YYNTOKENS) + p;
    if 0 <= n <= YYLAST && YyCheck(n) == p then YyTable(n) else YyDefgoto(a - YYNTOKENS)
  }

  predicate IsState(s: int) { 0 <= s <= 80 && s != 3 && s != YYFINAL }

  /** States in which a formula may start. */
  predicate FormulaStarts(p: int) {
    p == 5 || p == 12 || 16 <= p <= 18 || 26 <= p <= 28 || p == 31 || 38 <= p <= 49 ||
    p == 53 || p == 55 || p == 70 || p == 77
  }

  // How to read Below: a state number, or one of these classes; -5 where nothing can lie below.
  const ANY_FORMULA_START := -1
  const AFTER_FORMULA := -2
  const AFTER_BRACKET := -3
  const PROMPT_PLACE := -4

  /** The only states that the automaton can have under state `q` on its stack. */
  function Below(q: int): int {
    if q < 10 then Row(q, -5, -4, 0, -5, 0, 0, -5, -1, -1, -1) else
    if q < 20 then Row(q - 10, -1, -1, -1, -1, -1, -1, -1, 5, -1, 5) else
    if q < 30 then Row(q - 20, 5, -1, -1, -1, -1, -1, 9, 10, 11, 12) else
    if q < 40 then Row(q - 30, 16, 17, -3, -3, 17, -3, 18, 19, -2, -2) else
    if q < 50 then Row(q - 40, -2, -2, -2, -2, -2, -2, -2, -2, -2, -2) else
    if q < 60 then Row(q - 50, 26, 27, 28, 29, 31, 33, 34, 36, 38, 39) else
    if q < 70 then Row(q - 60, 40, 41, 42, 43, 44, 45, 46, 47, 48, 49) else
    if q < 80 then Row(q - 70, 50, 51, 52, 53, 54, 55, 70, 73, 74, 76) else
    Row(q - 80, 77, 0, 0, 0, 0, 0, 0, 0, 0, 0)
  }

  /** The operator whose right operand has just been read in formula state `s`, 0 for none. */
  function LeftOperator(s: int): int {
    if (58 <= s <= 69 || s == 30 || s == 73 || s == 80) then YyStos(Below(s)) else 0
  }

  predicate Stacks(p: int, q: int) {
    IsState(p) && IsState(q) &&
    var b := Below(q);
    if b == ANY_FORMULA_START then FormulaStarts(p)
    else if b == AFTER_FORMULA then YyStos(p) == FORMULA && BindsTighter(LeftOperator(p), YyStos(q))
    else if b == AFTER_BRACKET then p == 17 || p == 31
    else if b == PROMPT_PLACE then p == 0 || p == 19
    else p == b
  }

  /** Nonterminal `a` can start in state `p`. */
  predicate Starts(p: int, a: int) {
    if a in {FORMULA, FORMULA_IF, FORMULA_BINOP, INTEGER, BOOL, FLOAT} then FormulaStarts(p)
    else if a in {FORMULA_LIST, OPT_FORMULA_LIST, NIL} then p == 17 || p == 31
    else if a == OUTPUT_CONTENT then p == 5
    else if a == OUTPUT_PROMPT then p == 0
    else a == INPUT_PROMPT && (p == 0 || p == 19)
  }

  lemma ShiftStacksFirst(s: int, t: int)
    requires IsState(s) && 0 <= t < YYNTOKENS && Decide(s, t).Shift? && s < 10
    ensures Stacks(s, Decide(s, t).target) && YyStos(Decide(s, t).target) == t
  {
  }

  lemma ShiftStacksSecond(s: int, t: int)
    requires IsState(s) && 0 <= t < YYNTOKENS && Decide(s, t).Shift? && 10 <= s < 17
    ensures Stacks(s, Decide(s, t).target) && YyStos(Decide(s, t).target) == t
  {
  }

  lemma ShiftStacksThird(s: int, t: int)
    requires IsState(s) && 0 <= t < YYNTOKENS && Decide(s, t).Shift? && 17 <= s < 20
    ensures Stacks(s, Decide(s, t).target) && YyStos(Decide(s, t).target) == t
  {
  }

  lemma ShiftStacksFourth(s: int, t: int)
    requires IsState(s) && 0 <= t < YYNTOKENS && Decide(s, t).Shift? && 20 <= s < 25
    ensures Stacks(s, Decide(s, t).target) && YyStos(Decide(s, t).target) == t
  {
  }

  lemma ShiftStacksFifth(s: int, t: int)
    requires IsState(s) && 0 <= t < YYNTOKENS && Decide(s, t).Shift? && 25 <= s < 30
    ensures Stacks(s, Decide(s, t).target) && YyStos(Decide(s, t).target) == t
  {
  }

  lemma ShiftStacksSixth(s: int, t: int)
    requires IsState(s) && 0 <= t < YYNTOKENS && Decide(s, t).Shift? && 30 <= s < 40
    ensures Stacks(s, Decide(s, t).target) && YyStos(Decide(s, t).target) == t
  {
  }

  lemma ShiftStacksSeventh(s: int, t: int)
    requires IsState(s) && 0 <= t < YYNTOKENS && Decide(s, t).Shift? && 40 <= s < 43
    ensures Stacks(s, Decide(s, t).target) && YyStos(Decide(s, t).target) == t
  {
  }

  lemma ShiftStacksEighth(s: int, t: int)
    requires IsState(s) && 0 <= t < YYNTOKENS && Decide(s, t).Shift? && 43 <= s < 46
    ensures Stacks(s, Decide(s, t).target) && YyStos(Decide(s, t).target) == t
  {
  }

  lemma ShiftStacksNinth(s: int, t: int)
    requires IsState(s) && 0 <= t < YYNTOKENS && Decide(s, t).Shift? && 46 <= s < 50
    ensures Stacks(s, Decide(s, t).target) && YyStos(Decide(s, t).target) == t
  {
  }

  lemma ShiftStacksTenth(s: int, t: int)
    requires IsState(s) && 0 <= t < YYNTOKENS && Decide(s, t).Shift? && 50 <= s < 54
    ensures Stacks(s, Decide(s, t).target) && YyStos(Decide(s, t).target) == t
  {
  }

  lemma ShiftStacksEleventh(s: int, t: int)
    requires IsState(s) && 0 <= t < YYNTOKENS && Decide(s, t).Shift? && 54 <= s < 60
    ensures Stacks(s, Decide(s, t).target) && YyStos(Decide(s, t).target) == t
  {
  }

  lemma ShiftStacksTwelfth(s: int, t: int)
    requires IsState(s) && 0 <= t < YYNTOKENS && Decide(s, t).Shift? && 60 <= s < 65
    ensures Stacks(s, Decide(s, t).target) && YyStos(Decide(s, t).target) == t
  {
  }

  lemma ShiftStacksThirteenth(s: int, t: int)
    requires IsState(s) && 0 <= t < YYNTOKENS && Decide(s, t).Shift? && 65 <= s < 70
    ensures Stacks(s, Decide(s, t).target) && YyStos(Decide(s, t).target) == t
  {
  }

  lemma ShiftStacksFourteenth(s: int, t: int)
    requires IsState(s) && 0 <= t < YYNTOKENS && Decide(s, t).Shift? && 70 <= s < 74
    ensures Stacks(s, Decide(s, t).target) && YyStos(Decide(s, t).target) == t
  {
  }

  lemma ShiftStacksFifteenth(s: int, t: int)
    requires IsState(s) && 0 <= t < YYNTOKENS && Decide(s, t).Shift? && 74 <= s < 77
    ensures Stacks(s, Decide(s, t).target) && YyStos(Decide(s, t).target) == t
  {
  }

  lemma ShiftStacksSixteenth(s: int, t: int)
    requires IsState(s) && 0 <= t < YYNTOKENS && Decide(s, t).Shift? && 77 <= s
    ensures Stacks(s, Decide(s, t).target) && YyStos(Decide(s, t).target) == t
  {
  }

  lemma ShiftStacks(s: int, t: int)
    requires IsState(s) && 0 <= t < YYNTOKENS && Decide(s, t).Shift?
    ensures Stacks(s, Decide(s, t).target) && YyStos(Decide(s, t).target) == t
  {
    hide Stacks, Decide, YyStos;
    if s < 10 {
      ShiftStacksFirst(s, t);
    } else if s < 17 {
      ShiftStacksSecond(s, t);
    } else if s < 20 {
      ShiftStacksThird(s, t);
    } else if s < 25 {
      ShiftStacksFourth(s, t);
    } else if s < 30 {
      ShiftStacksFifth(s, t);
    } else if s < 40 {
      ShiftStacksSixth(s, t);
    } else if s < 43 {
      ShiftStacksSeventh(s, t);
    } else if s < 46 {
      ShiftStacksEighth(s, t);
    } else if s < 50 {
      ShiftStacksNinth(s, t);
    } else if s < 54 {
      ShiftStacksTenth(s, t);
    } else if s < 60 {
      ShiftStacksEleventh(s, t);
    } else if s < 65 {
      ShiftStacksTwelfth(s, t);
    } else if s < 70 {
      ShiftStacksThirteenth(s, t);
    } else if s < 74 {
      ShiftStacksFourteenth(s, t);
    } else if s < 77 {
      ShiftStacksFifteenth(s, t);
    } else {
      ShiftStacksSixteenth(s, t);
    }
  }

  lemma GotoStacksFirst(p: int, a: int)
    requires Starts(p, a) && a < 39
    ensures Stacks(p, Goto(p, a)) && YyStos(Goto(p, a)) == a
  {
  }

  lemma GotoStacksSecond(p: int, a: int)
    requires Starts(p, a) && 39 <= a < 40
    ensures Stacks(p, Goto(p, a)) && YyStos(Goto(p, a)) == a
  {
  }

  lemma GotoStacksThird(p: int, a: int)
    requires Starts(p, a) && 40 <= a < 41
    ensures Stacks(p, Goto(p, a)) && YyStos(Goto(p, a)) == a
  {
  }

  lemma GotoStacksFourth(p: int, a: int)
    requires Starts(p, a) && 41 <= a < 42
    ensures Stacks(p, Goto(p, a)) && YyStos(Goto(p, a)) == a
  {
  }

  lemma GotoStacksFifth(p: int, a: int)
    requires Starts(p, a) && 42 <= a < 45
    ensures Stacks(p, Goto(p, a)) && YyStos(Goto(p, a)) == a
  {
  }

  lemma GotoStacksSixth(p: int, a: int)
    requires Starts(p, a) && 45 <= a < 46
    ensures Stacks(p, Goto(p, a)) && YyStos(Goto(p, a)) == a
  {
  }

  lemma GotoStacksSeventh(p: int, a: int)
    requires Starts(p, a) && 46 <= a < 47
    ensures Stacks(p, Goto(p, a)) && YyStos(Goto(p, a)) == a
  {
  }

  lemma GotoStacksEighth(p: int, a: int)
    requires Starts(p, a) && 47 <= a
    ensures Stacks(p, Goto(p, a)) && YyStos(Goto(p, a)) == a
  {
  }

  lemma GotoStacks(p: int, a: int)
    requires Starts(p, a)
    ensures Stacks(p, Goto(p, a)) && YyStos(Goto(p, a)) == a
  {
    hide Starts, Stacks, Goto, YyStos;
    if a < 39 {
      GotoStacksFirst(p, a);
    } else if a < 40 {
      GotoStacksSecond(p, a);
    } else if a < 41 {
      GotoStacksThird(p, a);
    } else if a < 42 {
      GotoStacksFourth(p, a);
    } else if a < 45 {
      GotoStacksFifth(p, a);
    } else if a < 46 {
      GotoStacksSixth(p, a);
    } else if a < 47 {
      GotoStacksSeventh(p, a);
    } else {
      GotoStacksEighth(p, a);
    }
  }

  lemma ReductionEndsPhraseFirst(s: int, t: int)
    requires IsState(s) && 0 <= t < YYNTOKENS && Decide(s, t) == Default(s) && RuleOperator(YyDefact(s)) != 0 && s < 58
    ensures EndsBefore(RuleOperator(YyDefact(s)), t)
  {
  }

  lemma ReductionEndsPhraseSecond(s: int, t: int)
    requires IsState(s) && 0 <= t < YYNTOKENS && Decide(s, t) == Default(s) && RuleOperator(YyDefact(s)) != 0 && 58 <= s < 61
    ensures EndsBefore(RuleOperator(YyDefact(s)), t)
  {
  }

  lemma ReductionEndsPhraseThird(s: int, t: int)
    requires IsState(s) && 0 <= t < YYNTOKENS && Decide(s, t) == Default(s) && RuleOperator(YyDefact(s)) != 0 && 61 <= s < 64
    ensures EndsBefore(RuleOperator(YyDefact(s)), t)
  {
  }

  lemma ReductionEndsPhraseFourth(s: int, t: int)
    requires IsState(s) && 0 <= t < YYNTOKENS && Decide(s, t) == Default(s) && RuleOperator(YyDefact(s)) != 0 && 64 <= s < 67
    ensures EndsBefore(RuleOperator(YyDefact(s)), t)
  {
  }

  lemma ReductionEndsPhraseFifth(s: int, t: int)
    requires IsState(s) && 0 <= t < YYNTOKENS && Decide(s, t) == Default(s) && RuleOperator(YyDefact(s)) != 0 && 67 <= s < 70
    ensures EndsBefore(RuleOperator(YyDefact(s)), t)
  {
  }

  lemma ReductionEndsPhraseSixth(s: int, t: int)
    requires IsState(s) && 0 <= t < YYNTOKENS && Decide(s, t) == Default(s) && RuleOperator(YyDefact(s)) != 0 && 70 <= s
    ensures EndsBefore(RuleOperator(YyDefact(s)), t)
  {
  }

  /** The tables complete an operator's phrase on lookahead `t` only where the precedence table says so. */
  lemma ReductionEndsPhrase(s: int, t: int)
    requires IsState(s) && 0 <= t < YYNTOKENS && Decide(s, t) == Default(s) && RuleOperator(YyDefact(s)) != 0
    ensures EndsBefore(RuleOperator(YyDefact(s)), t)
  {
    hide IsState, Decide, Default, RuleOperator, YyDefact, EndsBefore;
    if s < 58 {
      ReductionEndsPhraseFirst(s, t);
    } else if s < 61 {
      ReductionEndsPhraseSecond(s, t);
    } else if s < 64 {
      ReductionEndsPhraseThird(s, t);
    } else if s < 67 {
      ReductionEndsPhraseFourth(s, t);
    } else if s < 70 {
      ReductionEndsPhraseFifth(s, t);
    } else {
      ReductionEndsPhraseSixth(s, t);
    }
  }

  /** Reductions are always the default of their state: no lookahead chooses one. */
  lemma ReductionsAreDefaults(s: int, t: int)
    requires IsState(s) && 0 <= t < YYNTOKENS && Decide(s, t).Reduce?
    ensures Decide(s, t) == Default(s) && 2 <= YyDefact(s) <= 42
  {
  }

  /** Error recovery would look for a state that shifts `error`; there is none, so a syntax error ends the parse. */
  lemma NothingShiftsError(s: int)
    requires IsState(s)
    ensures !Decide(s, 1).Shift?
  {
  }

  // Reading the states under a reducing state, one right-side length at a time.

  predicate Reducing(s: int, length: int) {
    IsState(s) && 2 <= YyDefact(s) && YyR2(YyDefact(s)) == length
  }

  predicate Uncovers(p: int, r: int) {
    r == 2 || r == 3 || Starts(p, YyR1(r))
  }

  lemma Reducing0(s: int)
    requires Reducing(s, 0)
    ensures Rhs(YyDefact(s)) == [] && Uncovers(s, YyDefact(s))
  {
  }

  lemma Reducing1(a: int, s: int)
    requires Reducing(s, 1) && Stacks(a, s)
    ensures Rhs(YyDefact(s)) == [YyStos(s)] && Uncovers(a, YyDefact(s))
  {
  }

  lemma Reducing2(a: int, b: int, s: int)
    requires Reducing(s, 2) && Stacks(a, b) && Stacks(b, s)
    ensures Rhs(YyDefact(s)) == [YyStos(b), YyStos(s)] && Uncovers(a, YyDefact(s))
  {
  }

  lemma Reducing3(a: int, b: int, c: int, s: int)
    requires Reducing(s, 3) && Stacks(a, b) && Stacks(b, c) && Stacks(c, s)
    ensures Rhs(YyDefact(s)) == [YyStos(b), YyStos(c), YyStos(s)] && Uncovers(a, YyDefact(s))
  {
    if 58 <= s <= 69 { ReducingInfix(a, b, c, s); } else { assert s == 37 || s == 56 || s == 57 || s == 75; }
  }

  lemma ReducingInfix(a: int, b: int, c: int, s: int)
    requires 58 <= s <= 69 && Stacks(a, b) && Stacks(b, c) && Stacks(c, s)
    ensures Rhs(YyDefact(s)) == [YyStos(b), YyStos(c), YyStos(s)] && Uncovers(a, YyDefact(s))
  {
    hide Rhs, YyDefact, YyStos, Below, LeftOperator, BindsTighter;
    InfixState(s);
    BelowInfix(b, c, s);
    FormulaAbove(a, b);
  }

  lemma InfixState(s: int)
    requires 58 <= s <= 69
    ensures 18 <= YyDefact(s) <= 29 && YyStos(s) == FORMULA
    ensures Rhs(YyDefact(s)) == [FORMULA, YyStos(s - 20), FORMULA] && YyR1(YyDefact(s)) == FORMULA_BINOP
  {
  }

  lemma BelowInfix(b: int, c: int, s: int)
    requires 58 <= s <= 69 && Stacks(b, c) && Stacks(c, s)
    ensures c == s - 20 && YyStos(b) == FORMULA
  {
    hide LeftOperator, BindsTighter, YyStos;
  }

  lemma FormulaAbove(a: int, b: int)
    requires Stacks(a, b) && YyStos(b) == FORMULA
    ensures FormulaStarts(a)
  {
    hide LeftOperator, BindsTighter;
  }

  lemma Reducing4(a: int, b: int, c: int, d: int, s: int)
    requires Reducing(s, 4) && Stacks(a, b) && Stacks(b, c) && Stacks(c, d) && Stacks(d, s)
    ensures Rhs(YyDefact(s)) == [YyStos(b), YyStos(c), YyStos(d), YyStos(s)] && Uncovers(a, YyDefact(s))
  {
    hide Stacks, Uncovers;
    Stations4(b, c, d, s);
    hide YyR1;
    UncoversFormula(a, b);
  }

  lemma Stations4(b: int, c: int, d: int, s: int)
    requires Reducing(s, 4) && Stacks(b, c) && Stacks(c, d) && Stacks(d, s)
    ensures (s == 71 && d == 51 && c == 27 && b == 10 && YyDefact(s) == 31) ||
      (s == 72 && d == 52 && c == 28 && b == 11 && YyDefact(s) == 32) ||
      (s == 73 && d == 53 && c == 29 && b == 12 && YyDefact(s) == 16)
  {
    assert s == 71 || s == 72 || s == 73;
  }

  lemma UncoversFormula(a: int, b: int)
    requires Stacks(a, b) && 9 <= b <= 12
    ensures FormulaStarts(a) && Uncovers(a, 16) && Uncovers(a, 31) && Uncovers(a, 32)
  {
  }

  lemma Reducing5(a: int, b: int, c: int, d: int, e: int, s: int)
    requires Reducing(s, 5) && Stacks(a, b) && Stacks(b, c) && Stacks(c, d) && Stacks(d, e) && Stacks(e, s)
    ensures Rhs(YyDefact(s)) == [YyStos(b), YyStos(c), YyStos(d), YyStos(e), YyStos(s)]
    ensures Uncovers(a, YyDefact(s))
  {
    assert s == 78 && e == 74 && d == 54 && c == 31 && b == 17 && a == 5;
  }

  lemma Reducing6(a: int, b: int, c: int, d: int, e: int, f: int, s: int)
    requires Reducing(s, 6)
    requires Stacks(a, b) && Stacks(b, c) && Stacks(c, d) && Stacks(d, e) && Stacks(e, f) && Stacks(f, s)
    ensures Rhs(YyDefact(s)) == [YyStos(b), YyStos(c), YyStos(d), YyStos(e), YyStos(f), YyStos(s)]
    ensures Uncovers(a, YyDefact(s))
  {
    assert s == 79 || s == 80;
    if s == 79 {
      assert f == 76 && e == 70 && d == 50 && c == 26 && b == 9;
    } else {
      assert f == 77 && e == 73 && d == 53 && c == 29 && b == 12;
    }
  }

  /** A stack the automaton can build: state 0 at the bottom and every state above one it can follow. */
  ghost predicate Chain(states: seq<int>) {
    |states| > 0 && states[0] == 0 && forall i :: 0 < i < |states| ==> Stacks(states[i - 1], states[i])
  }

  /** The right side of `r` is on top of the stack, and the state it uncovers accepts what `r` derives. */
  ghost predicate Fits(states: seq<int>, r: int, length: nat)
    requires length < |states|
  {
    var k := |states| - 1 - length;
    |Rhs(r)| == length && Uncovers(states[k], r) &&
    forall i :: 0 <= i < length ==> Rhs(r)[i] == YyStos(states[k + 1 + i])
  }

  // A right side of some length cannot reach down to the bottom of the stack.

  lemma NotBottom1(s: int)
    requires IsState(s) && 2 <= YyDefact(s) && 1 <= YyR2(YyDefact(s))
    ensures s != 0
  {
  }

  lemma NotBottom2(c: int, s: int)
    requires IsState(s) && 2 <= YyDefact(s) && 2 <= YyR2(YyDefact(s)) && Stacks(c, s)
    ensures c != 0
  {
  }

  lemma NotBottom3(b: int, c: int, s: int)
    requires IsState(s) && 2 <= YyDefact(s) && 3 <= YyR2(YyDefact(s)) && Stacks(b, c) && Stacks(c, s)
    ensures b != 0
  {
  }

  lemma NotBottom4(a: int, b: int, c: int, s: int)
    requires Reducing(s, 4) && Stacks(a, b) && Stacks(b, c) && Stacks(c, s)
    ensures a != 0
  {
  }

  lemma ShortFits(states: seq<int>, s: int, length: nat)
    requires Chain(states) && s == states[|states| - 1] && Reducing(s, length) && length <= 2
    ensures length < |states| && Fits(states, YyDefact(s), length)
  {
    hide Stacks, IsState, YyDefact, YyR2, YyStos, Rhs, Uncovers;
    var n := |states| - 1;
    if length == 0 {
      Reducing0(s);
    } else {
      NotBottom1(s);
      ChainLink(states, n);
      if length == 1 {
        Reducing1(states[n - 1], s);
      } else {
        NotBottom2(states[n - 1], s);
        ChainLink(states, n - 1);
        Reducing2(states[n - 2], states[n - 1], s);
      }
    }
  }

  lemma MiddleFits(states: seq<int>, s: int, length: nat)
    requires Chain(states) && s == states[|states| - 1] && Reducing(s, length) && 3 <= length <= 4
    ensures length < |states| && Fits(states, YyDefact(s), length)
  {
    hide Stacks, IsState, YyDefact, YyR2, YyStos, Rhs, Uncovers;
    var n := |states| - 1;
    NotBottom1(s);
    ChainLink(states, n);
    NotBottom2(states[n - 1], s);
    ChainLink(states, n - 1);
    NotBottom3(states[n - 2], states[n - 1], s);
    ChainLink(states, n - 2);
    if length == 3 {
      Reducing3(states[n - 3], states[n - 2], states[n - 1], s);
    } else {
      NotBottom4(states[n - 3], states[n - 2], states[n - 1], s);
      ChainLink(states, n - 3);
      Reducing4(states[n - 4], states[n - 3], states[n - 2], states[n - 1], s);
    }
  }

  /** Where only one state may lie below, it does. */
  lemma BelowIs(states: seq<int>, i: nat, below: int)
    requires Chain(states) && i < |states| && states[i] != 0 && Below(states[i]) == below && 0 < below
    ensures 0 < i && states[i - 1] == below && Stacks(below, states[i])
  {
    if 0 < i { assert Stacks(states[i - 1], states[i]); }
  }

  lemma LongFits(states: seq<int>, s: int, length: nat)
    requires Chain(states) && s == states[|states| - 1] && Reducing(s, length) && 5 <= length
    ensures length < |states| && Fits(states, YyDefact(s), length)
  {
    var n := |states| - 1;
    if length == 5 {
      assert s == 78;
      ListFits(states, n);
    } else if s == 79 {
      EqualFits(states, n);
    } else {
      assert s == 80;
      IfElseFits(states, n);
    }
  }

  lemma ListFits(states: seq<int>, n: nat)
    requires Chain(states) && |states| == n + 1 && states[n] == 78
    ensures 5 <= n && Fits(states, YyDefact(78), 5)
  {
    hide Chain, Stacks;
    BelowIs(states, n, 74);
    BelowIs(states, n - 1, 54);
    BelowIs(states, n - 2, 31);
    BelowIs(states, n - 3, 17);
    ChainLink(states, n - 4);
    Reducing5(states[n - 5], 17, 31, 54, 74, 78);
  }

  lemma EqualFits(states: seq<int>, n: nat)
    requires Chain(states) && |states| == n + 1 && states[n] == 79
    ensures 6 <= n && Fits(states, YyDefact(79), 6)
  {
    hide Chain, Stacks;
    BelowIs(states, n, 76);
    BelowIs(states, n - 1, 70);
    BelowIs(states, n - 2, 50);
    BelowIs(states, n - 3, 26);
    BelowIs(states, n - 4, 9);
    ChainLink(states, n - 5);
    Reducing6(states[n - 6], 9, 26, 50, 70, 76, 79);
  }

  lemma IfElseFits(states: seq<int>, n: nat)
    requires Chain(states) && |states| == n + 1 && states[n] == 80
    ensures 6 <= n && Fits(states, YyDefact(80), 6)
  {
    hide Chain, Stacks;
    BelowIs(states, n, 77);
    BelowIs(states, n - 1, 73);
    BelowIs(states, n - 2, 53);
    BelowIs(states, n - 3, 29);
    BelowIs(states, n - 4, 12);
    ChainLink(states, n - 5);
    Reducing6(states[n - 6], 12, 29, 53, 73, 77, 80);
  }

  lemma ChainLink(states: seq<int>, i: nat)
    requires Chain(states) && i < |states| && states[i] != 0
    ensures 0 < i && Stacks(states[i - 1], states[i])
  {
  }

  /** No reduction pops more than the stack holds, and it pops exactly the right side of its rule. */
  lemma ReductionFits(states: seq<int>)
    requires Chain(states) && IsState(states[|states| - 1]) && YyDefact(states[|states| - 1]) != 0
    ensures var r := YyDefact(states[|states| - 1]);
      2 <= r <= 42 && 0 <= YyR2(r) < |states| && Fits(states, r, YyR2(r))
  {
    var s := states[|states| - 1];
    var length := YyR2(YyDefact(s));
    if length <= 2 { ShortFits(states, s, length); }
    else if length <= 4 { MiddleFits(states, s, length); }
    else { LongFits(states, s, length); }
  }
}
