// What the parser's stacks hold at every moment, and how a shift and a reduction keep it so.

module MaximaStack {
  import opened ParserTables
  import opened MaximaGrammar
  import opened MaximaPrecedence
  import opened MaximaAutomaton

  /** The operator a formula pushed above state `p` becomes an operand of, 0 for none. */
  function OperandOf(p: int): int {
    if 38 <= p <= 49 || p == 16 || p == 53 || p == 77 then YyStos(p) else 0
  }

  /** What is known of the tree under state `q` when state `p` lies below it. */
  ghost predicate Entry(p: int, t: Tree, q: int) {
    Stacks(p, q) && t.Symbol() == YyStos(q) && Derivation(t) && Respects(t) &&
    BindsTighter(OperandOf(p), Head(t))
  }

  /** Every state carries the derivation of its symbol, and a tree is complete before the one above it. */
  ghost predicate Stack(states: seq<int>, trees: seq<Tree>) {
    |states| == |trees| + 1 && Chain(states) &&
    (forall i :: 0 <= i < |trees| ==> Entry(states[i], trees[i], states[i + 1])) &&
    (forall i :: 0 < i < |trees| ==> CompleteBefore(trees[i - 1], trees[i].Symbol()))
  }

  const YYEMPTY := -2
  const POWER := 27

  /** Before the lookahead is read only `^`, which nothing outbinds, may have an operand at the right edge. */
  ghost predicate TopComplete(trees: seq<Tree>, look: int) {
    trees != [] ==>
      var top := trees[|trees| - 1];
      if look == YYEMPTY then Tails(top) <= {POWER} else CompleteBefore(top, look)
  }

  lemma AllOf(ts: seq<Tree>)
    requires forall i :: 0 <= i < |ts| ==> Derivation(ts[i]) && Respects(ts[i])
    ensures Derivations(ts) && AllRespect(ts)
  {
    if ts != [] { AllOf(ts[1..]); }
  }

  lemma YieldsAppend(a: seq<Tree>, b: seq<Tree>)
    ensures Yields(a + b) == Yields(a) + Yields(b)
  {
    if a == [] {
      assert a + b == b;
    } else {
      assert (a + b)[1..] == a[1..] + b;
      YieldsAppend(a[1..], b);
    }
  }

  lemma ShiftKeeps(states: seq<int>, trees: seq<Tree>, token: Token)
    requires Stack(states, trees) && TopComplete(trees, token.Symbol()) && 0 <= token.Symbol() < YYNTOKENS
    requires Decide(states[|states| - 1], token.Symbol()).Shift?
    ensures var q := Decide(states[|states| - 1], token.Symbol()).target;
      Stack(states + [q], trees + [Leaf(token)]) && TopComplete(trees + [Leaf(token)], YYEMPTY)
    ensures Yields(trees + [Leaf(token)]) == Yields(trees) + [token]
  {
    hide YyStos, Below, YyDefact, YyPact, YyCheck, YyTable, Decide, Chain;
    var s := states[|states| - 1];
    StackDerives(states, trees);
    ShiftStacks(s, token.Symbol());
    YieldsAppend(trees, [Leaf(token)]);
    assert Yields([Leaf(token)]) == [token];
    assert trees[..|trees|] == trees && states[..|trees| + 1] == states;
    PushTree(states, trees, |trees|, Leaf(token), Decide(s, token.Symbol()).target);
  }

  /** State `s` reduces its default rule with lookahead `look`, or without one when it needs none. */
  predicate Reduces(s: int, look: int) {
    YyDefact(s) != 0 &&
    if look == YYEMPTY then YyPact(s) == YYPACT_NINF else 0 <= look < YYNTOKENS && Decide(s, look) == Default(s)
  }

  /** The trees a reduction in the top state takes off the stack. */
  function Popped(states: seq<int>, trees: seq<Tree>): (kids: seq<Tree>)
    requires |states| == |trees| + 1
    requires 0 <= YyR2(YyDefact(states[|states| - 1])) <= |trees|
  {
    trees[|trees| - YyR2(YyDefact(states[|states| - 1]))..]
  }

  lemma PoppedIsRightSide(states: seq<int>, trees: seq<Tree>)
    requires Stack(states, trees) && YyDefact(states[|states| - 1]) != 0
    ensures var r := YyDefact(states[|states| - 1]); var k := |trees| - YyR2(r);
      2 <= r <= 42 && 0 <= k <= |trees| && Uncovers(states[k], r) && Symbols(Popped(states, trees)) == Rhs(r)
  {
    var s := states[|states| - 1];
    assert |states| > 1 ==> Stacks(states[|states| - 2], s);
    ReductionFits(states);
  }

  /** The rule ends with an operand of its operator. */
  predicate NeedsOperand(r: int) { 18 <= r <= 29 || r == 33 || r == 16 || r == 17 }

  lemma OperandStatesFirst(s: int, b: int)
    requires IsState(s) && Stacks(b, s) && s < 58
    ensures NeedsOperand(YyDefact(s)) ==> OperandOf(b) == YyStos(b) == RuleOperator(YyDefact(s))
  {
  }

  lemma OperandStatesSecond(s: int, b: int)
    requires IsState(s) && Stacks(b, s) && 58 <= s < 62
    ensures NeedsOperand(YyDefact(s)) ==> OperandOf(b) == YyStos(b) == RuleOperator(YyDefact(s))
  {
  }

  lemma OperandStatesThird(s: int, b: int)
    requires IsState(s) && Stacks(b, s) && 62 <= s < 66
    ensures NeedsOperand(YyDefact(s)) ==> OperandOf(b) == YyStos(b) == RuleOperator(YyDefact(s))
  {
  }

  lemma OperandStatesFourth(s: int, b: int)
    requires IsState(s) && Stacks(b, s) && 66 <= s < 70
    ensures NeedsOperand(YyDefact(s)) ==> OperandOf(b) == YyStos(b) == RuleOperator(YyDefact(s))
  {
  }

  lemma OperandStatesFifth(s: int, b: int)
    requires IsState(s) && Stacks(b, s) && 70 <= s
    ensures NeedsOperand(YyDefact(s)) ==> OperandOf(b) == YyStos(b) == RuleOperator(YyDefact(s))
  {
  }

  lemma OperandStates(s: int, b: int)
    requires IsState(s) && Stacks(b, s)
    ensures NeedsOperand(YyDefact(s)) ==> OperandOf(b) == YyStos(b) == RuleOperator(YyDefact(s))
  {
    hide IsState, Stacks, YyDefact, OperandOf, YyStos, RuleOperator, NeedsOperand;
    if s < 58 {
      OperandStatesFirst(s, b);
    } else if s < 62 {
      OperandStatesSecond(s, b);
    } else if s < 66 {
      OperandStatesThird(s, b);
    } else if s < 70 {
      OperandStatesFourth(s, b);
    } else {
      OperandStatesFifth(s, b);
    }
  }

  lemma InfixGroupsWell(kids: seq<Tree>, r: int, p: int, s: int)
    requires 18 <= r <= 29 && Symbols(kids) == Rhs(r)
    requires CompleteBefore(kids[0], kids[1].Symbol())
    requires Entry(p, kids[2], s) && OperandOf(p) == RuleOperator(r)
    ensures GroupsWell(r, kids)
  {
  }

  lemma ElseGroupsWell(states: seq<int>, trees: seq<Tree>, kids: seq<Tree>)
    requires Stack(states, trees) && states[|states| - 1] == 80 && 6 <= |trees| && kids == trees[|trees| - 6..]
    requires Symbols(kids) == Rhs(17)
    ensures GroupsWell(17, kids)
  {
    var n := |trees|;
    assert Entry(states[n - 1], trees[n - 1], states[n]);
    assert Entry(states[n - 2], trees[n - 2], states[n - 1]) && states[n - 1] == 77;
    assert Entry(states[n - 3], trees[n - 3], states[n - 2]) && states[n - 2] == 73;
    assert states[n - 3] == 53;
    assert kids[4].Symbol() == ELSE;
  }

  lemma ElseState(s: int)
    requires IsState(s) && YyDefact(s) == 17
    ensures s == 80
  {
  }

  lemma LastGroupsWell(kids: seq<Tree>, r: int, p: int, s: int)
    requires (r == 33 || r == 16) && Symbols(kids) == Rhs(r)
    requires kids != [] ==> Entry(p, kids[|kids| - 1], s)
    requires OperandOf(p) == RuleOperator(r)
    ensures GroupsWell(r, kids)
  {
    hide Derivation, Respects, Stacks, YyStos, OperandOf, Head, CompleteBefore, Symbols, Tree.Symbol;
  }

  lemma OthersGroupWell(kids: seq<Tree>, r: int)
    requires !NeedsOperand(r)
    ensures GroupsWell(r, kids)
  {
  }

  lemma NodeGroupsWell(states: seq<int>, trees: seq<Tree>)
    requires Stack(states, trees) && YyDefact(states[|states| - 1]) != 0
    requires 0 <= YyR2(YyDefact(states[|states| - 1])) <= |trees|
    ensures GroupsWell(YyDefact(states[|states| - 1]), Popped(states, trees))
  {
    hide YyDefact, YyStos, Below, Rhs, Derivation, Respects, BindsTighter, CompleteBefore, IsState, OperandOf, RuleOperator,
      GroupsWell, YyR2, Head, Entry, Stacks;
    StackState(states, trees);
    var n := |trees|;
    var s := states[n];
    var r := YyDefact(s);
    PoppedIsRightSide(states, trees);
    var kids := Popped(states, trees);
    NonterminalOf(r);
    if NeedsOperand(r) { OperandSizes(r); }
    if r == 17 {
      ElseState(s);
      ElseGroupsWell(states, trees, kids);
    } else if NeedsOperand(r) {
      OperandStates(s, states[n - 1]);
      if 18 <= r <= 29 {
        assert kids[0] == trees[n - 3] && kids[1] == trees[n - 2] && kids[2] == trees[n - 1];
        InfixGroupsWell(kids, r, states[n - 1], s);
      } else {
        LastGroupsWell(kids, r, states[n - 1], s);
      }
    } else {
      OthersGroupWell(kids, r);
    }
  }

  lemma OperandSizes(r: int)
    requires NeedsOperand(r)
    ensures |Rhs(r)| == if r == 33 then 2 else if r == 16 then 4 else if r == 17 then 6 else 3
  {
  }

  /** What a reduction builds fits above the state it uncovers. */
  lemma NodeFits(states: seq<int>, trees: seq<Tree>)
    requires Stack(states, trees) && YyDefact(states[|states| - 1]) != 0
    requires 0 <= YyR2(YyDefact(states[|states| - 1])) <= |trees|
    ensures var r := YyDefact(states[|states| - 1]); var p := states[|trees| - YyR2(r)];
      BindsTighter(OperandOf(p), Head(Node(r, Popped(states, trees))))
  {
    var n := |trees|;
    var s := states[n];
    var r := YyDefact(s);
    PoppedIsRightSide(states, trees);
    var kids := Popped(states, trees);
    if r == 14 {
      assert Entry(states[n - 1], trees[n - 1], s);
      assert kids[0] == trees[n - 1];
    } else if 18 <= r <= 29 {
      InfixFits(states[n - 3], states[n - 2], states[n - 1], kids, r);
    }
  }

  lemma InfixFits(p: int, x: int, q: int, kids: seq<Tree>, r: int)
    requires 18 <= r <= 29 && Symbols(kids) == Rhs(r)
    requires Entry(p, kids[0], x) && Entry(x, kids[1], q)
    ensures BindsTighter(OperandOf(p), Head(Node(r, kids)))
  {
    hide Rhs, Derivation, Respects, BindsTighter, OperandOf, YyStos, IsInfix, Stacks, Symbols, Tree.Symbol;
    InfixRhs(r);
    assert kids[0].Symbol() == Symbols(kids)[0] && kids[1].Symbol() == Symbols(kids)[1];
    LeftFormula(p, x, q);
  }

  lemma InfixRhs(r: int)
    requires 18 <= r <= 29
    ensures |Rhs(r)| == 3 && Rhs(r)[0] == FORMULA && IsInfix(Rhs(r)[1])
  {
  }

  lemma LeftFormula(p: int, x: int, q: int)
    requires Stacks(p, x) && YyStos(x) == FORMULA && Stacks(x, q) && IsInfix(YyStos(q))
    ensures BindsTighter(OperandOf(p), YyStos(q))
  {
  }

  lemma NodeComplete(states: seq<int>, trees: seq<Tree>, look: int)
    requires Stack(states, trees) && TopComplete(trees, look) && Reduces(states[|states| - 1], look)
    requires 0 <= YyR2(YyDefact(states[|states| - 1])) <= |trees|
    ensures TopComplete([Node(YyDefact(states[|states| - 1]), Popped(states, trees))], look)
  {
    hide YyDefact, YyR2, Rhs, RuleOperator, Stack, EndsBefore, YyPact, Decide, Default, Tails, Below, YyStos;
    StackState(states, trees);
    var n := |trees|;
    var r := YyDefact(states[n]);
    PoppedIsRightSide(states, trees);
    var kids := Popped(states, trees);
    if RuleOperator(r) != 0 { EndsPhrase(states[n], look); }
    if 0 < |kids| {
      assert kids[|kids| - 1] == trees[n - 1];
    }
    TailsOfNode(r, kids);
  }

  lemma TailsOfNode(r: int, kids: seq<Tree>)
    ensures Tails(Node(r, kids)) <=
      (if RuleOperator(r) != 0 then {RuleOperator(r)} else {}) + if kids == [] then {} else Tails(kids[|kids| - 1])
  {
  }

  lemma StackState(states: seq<int>, trees: seq<Tree>)
    requires Stack(states, trees)
    ensures |states| == |trees| + 1 && IsState(states[|trees|])
  {
    var n := |trees|;
    if 0 < n { assert Stacks(states[n - 1], states[n]); }
  }

  lemma EndsPhrase(s: int, look: int)
    requires IsState(s) && Reduces(s, look) && RuleOperator(YyDefact(s)) != 0
    ensures if look == YYEMPTY then RuleOperator(YyDefact(s)) == POWER else EndsBefore(RuleOperator(YyDefact(s)), look)
  {
    if look != YYEMPTY { ReductionEndsPhrase(s, look); }
  }

  lemma NodeDerives(trees: seq<Tree>, k: nat, r: int)
    requires 2 <= r <= 42 && k <= |trees| && Symbols(trees[k..]) == Rhs(r) && GroupsWell(r, trees[k..])
    requires forall i :: 0 <= i < |trees| ==> Derivation(trees[i]) && Respects(trees[i])
    ensures var node := Node(r, trees[k..]);
      Derivation(node) && Respects(node) && Yields(trees[..k] + [node]) == Yields(trees)
  {
    hide Rhs, GroupsWell;
    var node := Node(r, trees[k..]);
    AllOf(trees[k..]);
    YieldsAppend(trees[..k], [node]);
    YieldsAppend(trees[..k], trees[k..]);
    assert trees == trees[..k] + trees[k..];
    assert Yields([node]) == Yield(node) + Yields([]);
  }

  /** A tree that fits above state `p` can replace everything that lies above it. */
  lemma PushTree(states: seq<int>, trees: seq<Tree>, k: nat, node: Tree, q: int)
    requires Stack(states, trees) && k <= |trees| && Entry(states[k], node, q)
    requires 0 < k ==> CompleteBefore(trees[k - 1], node.Symbol())
    ensures Stack(states[..k + 1] + [q], trees[..k] + [node])
  {
    hide YyStos, Below, CompleteBefore, Derivation, Respects;
  }

  lemma StackDerives(states: seq<int>, trees: seq<Tree>)
    requires Stack(states, trees)
    ensures IsState(states[|trees|])
    ensures forall i :: 0 <= i < |trees| ==> Derivation(trees[i]) && Respects(trees[i])
  {
    hide YyStos, Below, CompleteBefore;
    assert |trees| > 0 ==> Stacks(states[|trees| - 1], states[|trees|]);
    forall i | 0 <= i < |trees|
      ensures Derivation(trees[i]) && Respects(trees[i])
    {
      assert Entry(states[i], trees[i], states[i + 1]);
    }
  }

  /** Nothing can be incomplete before a nonterminal. */
  lemma CompleteBeforeNonterminal(t: Tree, symbol: int)
    requires YYNTOKENS <= symbol
    ensures CompleteBefore(t, symbol)
  {
  }

  lemma NonterminalOf(r: int)
    requires 2 <= r <= 42
    ensures YYNTOKENS <= YyR1(r) && YyR2(r) == |Rhs(r)|
  {
  }

  /** The stack after reducing `r` in the top state. */
  lemma ReduceKeeps(states: seq<int>, trees: seq<Tree>, look: int, r: int, k: int)
    requires Stack(states, trees) && TopComplete(trees, look) && Reduces(states[|trees|], look)
    requires r == YyDefact(states[|trees|]) && k == |trees| - YyR2(r)
    ensures 2 <= r <= 42 && 0 <= k <= |trees| && Symbols(trees[k..]) == Rhs(r)
    ensures var node := Node(r, trees[k..]);
      Derivation(node) && Respects(node) && Yields(trees[..k] + [node]) == Yields(trees)
    ensures r != 2 && r != 3 ==>
      (Starts(states[k], YyR1(r)) &&
       Stack(states[..k + 1] + [Goto(states[k], YyR1(r))], trees[..k] + [Node(r, trees[k..])]) &&
       TopComplete(trees[..k] + [Node(r, trees[k..])], look))
  {
    hide YyStos, Below, YyDefact, YyPact, YyCheck, YyTable, YyR1, YyR2, YyPgoto, YyDefgoto, Rhs, Decide,
      Chain, GroupsWell, Stacks, Starts, Derivation, Respects, Head, Tails, BindsTighter, CompleteBefore;
    StackDerives(states, trees);
    PoppedIsRightSide(states, trees);
    NodeGroupsWell(states, trees);
    NodeDerives(trees, k, r);
    if r != 2 && r != 3 {
      var node := Node(r, trees[k..]);
      NonterminalOf(r);
      GotoStacks(states[k], YyR1(r));
      NodeFits(states, trees);
      if 0 < k { CompleteBeforeNonterminal(trees[k - 1], YyR1(r)); }
      PushTree(states, trees, k, node, Goto(states[k], YyR1(r)));
      NodeComplete(states, trees, look);
    }
  }

  // ----- deep stacks need many tokens -----

  predicate MayBeEmpty(symbol: int) { symbol == OPT_FORMULA_LIST || symbol == NIL }

  /** Only the optional list can derive nothing. */
  lemma DerivesText(t: Tree)
    requires Derivation(t) && !MayBeEmpty(t.Symbol())
    ensures Yield(t) != []
    decreases t
  {
    if t.Node? {
      TextRule(t.rule);
      var kid := t.kids[0];
      assert Symbols(t.kids)[0] == kid.Symbol();
      DerivesText(kid);
      assert Yields(t.kids) == Yield(kid) + Yields(t.kids[1..]);
    }
  }

  lemma TextRule(r: int)
    requires 2 <= r <= 42 && !MayBeEmpty(YyR1(r))
    ensures Rhs(r) != [] && !MayBeEmpty(Rhs(r)[0])
  {
  }

  /** The states of an optional list and of the brackets that close it. */
  predicate AtListEnd(s: int) { s == 34 || s == 35 || s == 54 || s == 56 || s == 74 || s == 78 }

  /** Above an optional list there are only closing brackets, so a stack holds no other. */
  lemma AboveList(p: int, q: int)
    requires Stacks(p, q)
    ensures MayBeEmpty(YyStos(q)) ==> AtListEnd(q) && !AtListEnd(p)
    ensures AtListEnd(p) ==> AtListEnd(q)
  {
  }

  /** All symbols on the stack, but for one at most, derive tokens. */
  lemma {:induction false} StackNeedsTokens(states: seq<int>, trees: seq<Tree>, n: nat)
    requires Stack(states, trees) && n <= |trees|
    ensures n <= |Yields(trees[..n])| + if AtListEnd(states[n]) then 1 else 0
    decreases n
  {
    hide Yields, MayBeEmpty, YyStos, Below, Derivation, Yield, CompleteBefore, Respects, AtListEnd;
    if n > 0 {
      StackNeedsTokens(states, trees, n - 1);
      assert Entry(states[n - 1], trees[n - 1], states[n]);
      AboveList(states[n - 1], states[n]);
      assert trees[..n] == trees[..n - 1] + [trees[n - 1]];
      YieldsAppend(trees[..n - 1], [trees[n - 1]]);
      OneYield(trees[n - 1]);
      if !MayBeEmpty(trees[n - 1].Symbol()) { DerivesText(trees[n - 1]); }
    }
  }

  lemma OneYield(t: Tree)
    ensures Yields([t]) == Yield(t)
  {
    assert [t][1..] == [];
    assert Yields([t]) == Yield(t) + Yields([]);
  }
}
