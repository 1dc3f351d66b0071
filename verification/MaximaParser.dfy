// The shift-reduce driver: state and value stacks in arrays that grow up to a fixed depth.

module MaximaParser {
  import opened ParserTables
  import opened MaximaGrammar
  import opened MaximaPrecedence
  import opened MaximaAutomaton
  import opened MaximaStack
  import opened MaximaCompleteness

  datatype Outcome = Parsed(formulas: seq<Formula>) | SyntaxError | MemoryExhausted

  /** A stack slot holds the value its derivation denotes; the value of an empty list marker is never read. */
  ghost predicate Carries(v: Value, t: Tree) {
    Derivation(t) && (t.Symbol() == NIL || v == Denotes(t))
  }

  lemma CarriedKinds(vs: seq<Value>, ts: seq<Tree>)
    requires |vs| == |ts| && forall i :: 0 <= i < |ts| ==> Carries(vs[i], ts[i])
    ensures Derivations(ts) && HaveKinds(Symbols(ts), vs)
    ensures forall i :: 0 <= i < |ts| && ts[i].Symbol() != NIL ==> vs[i] == Denote(ts)[i]
  {
    if ts != [] {
      CarriedKinds(vs[1..], ts[1..]);
      forall i | 0 <= i < |ts|
        ensures HasKind(Symbols(ts)[i], vs[i]) && (ts[i].Symbol() != NIL ==> vs[i] == Denote(ts)[i])
      {
        if i > 0 { assert vs[i] == vs[1..][i - 1] && ts[i] == ts[1..][i - 1]; }
      }
    }
  }

  /** The action computes what the new derivation denotes, whatever stale slot an empty right side reads. */
  lemma ActionCarries(r: int, kids: seq<Tree>, vs: seq<Value>, stale: Value)
    requires 2 <= r <= 42 && Symbols(kids) == Rhs(r) && |vs| == |kids|
    requires forall i :: 0 <= i < |kids| ==> Carries(vs[i], kids[i])
    ensures HaveKinds(Rhs(r), vs) && Carries(Action(r, vs, stale), Node(r, kids))
  {
    hide Action, Rhs, YyR1, Translate;
    CarriedKinds(vs, kids);
    if r == 36 {
      EmptyListAction(vs, Denote(kids), stale);
    } else if r == 38 {
      assert YyR1(38) == NIL by { EmptyMarker(); }
    } else {
      OnlyListsUseNil(r);
      assert vs == Denote(kids);
      StaleUnused(r, vs, stale);
    }
  }

  lemma OnlyListsUseNil(r: int)
    requires 2 <= r <= 42 && r != 36
    ensures forall i :: 0 <= i < |Rhs(r)| ==> Rhs(r)[i] != NIL
  {
  }

  lemma EmptyMarker()
    ensures YyR1(38) == NIL
  {
  }

  lemma EmptyListAction(vs: seq<Value>, ws: seq<Value>, stale: Value)
    requires HaveKinds(Rhs(36), vs) && HaveKinds(Rhs(36), ws)
    ensures Action(36, vs, stale) == Action(36, ws, Unset)
  {
  }

  lemma StaleUnused(r: int, vs: seq<Value>, stale: Value)
    requires 2 <= r <= 42 && r != 38 && HaveKinds(Rhs(r), vs)
    ensures Action(r, vs, stale) == Action(r, vs, Unset)
  {
  }

  // How much work the reductions on the stack can still do.

  function Weight(symbol: int): nat {
    if symbol == FORMULA then 3
    else if symbol in {FORMULA_IF, FORMULA_BINOP, INTEGER, BOOL, FLOAT} then 4
    else if symbol == FORMULA_LIST || symbol == NIL || symbol == OUTPUT_CONTENT then 2
    else if symbol == START then 0
    else if symbol >= YYNTOKENS then 1
    else 5
  }

  function Load(ts: seq<Tree>): nat {
    if ts == [] then 0 else Weight(ts[0].Symbol()) + Load(ts[1..])
  }

  /** An opening bracket may still produce an empty list marker. */
  function Pending(state: int): nat { if state == 17 || state == 31 then 3 else 0 }

  lemma LoadAppend(a: seq<Tree>, b: seq<Tree>)
    ensures Load(a + b) == Load(a) + Load(b)
  {
    if a == [] {
      assert a + b == b;
    } else {
      assert (a + b)[1..] == a[1..] + b;
      LoadAppend(a[1..], b);
    }
  }

  function SumOf(symbols: seq<int>): nat {
    if symbols == [] then 0 else Weight(symbols[0]) + SumOf(symbols[1..])
  }

  lemma LoadIsSum(ts: seq<Tree>)
    ensures Load(ts) == SumOf(Symbols(ts))
  {
    if ts != [] {
      assert Symbols(ts)[1..] == Symbols(ts[1..]);
      LoadIsSum(ts[1..]);
    }
  }

  lemma RuleShrinks(r: int)
    requires 2 <= r <= 42 && r != 38
    ensures SumOf(Rhs(r)) > Weight(YyR1(r))
  {
    SumAtLeast(Rhs(r));
  }

  lemma SumAtLeast(symbols: seq<int>)
    ensures 0 < |symbols| ==> SumOf(symbols) >= Weight(symbols[0])
    ensures 1 < |symbols| ==> SumOf(symbols) >= Weight(symbols[0]) + Weight(symbols[1])
  {
    if 1 < |symbols| { SumAtLeast(symbols[1..]); }
  }

  lemma ReductionShrinks(states: seq<int>, trees: seq<Tree>, r: int, k: nat)
    requires |states| == |trees| + 1 && IsState(states[|trees|]) && r == YyDefact(states[|trees|]) && 2 <= r <= 42
    requires k <= |trees| && Symbols(trees[k..]) == Rhs(r) && Starts(states[k], YyR1(r))
    ensures Load(trees[..k] + [Node(r, trees[k..])]) + Pending(Goto(states[k], YyR1(r)))
      < Load(trees) + Pending(states[|trees|])
  {
    hide Goto, Starts, YyDefact, YyR1, Rhs, Pending, Weight;
    var node := Node(r, trees[k..]);
    LoadAppend(trees[..k], [node]);
    LoadAppend(trees[..k], trees[k..]);
    assert trees == trees[..k] + trees[k..];
    LoadIsSum(trees[k..]);
    assert Load([node]) == Weight(YyR1(r)) + Load([]);
    GotoNotBracket(states[k], YyR1(r));
    if r == 38 { EmptyRuleShrinks(states[|trees|]); } else { RuleShrinks(r); }
  }

  /** The empty rule is reduced only behind a bracket. */
  lemma EmptyRuleShrinks(s: int)
    requires IsState(s) && YyDefact(s) == 38
    ensures SumOf(Rhs(38)) + Pending(s) > Weight(YyR1(38))
  {
  }

  lemma GotoNotBracket(p: int, a: int)
    requires Starts(p, a)
    ensures Pending(Goto(p, a)) == 0
  {
    GotoStacks(p, a);
  }

  /** The driver's whole state: stacks, trees behind them, lookahead, tokens shifted. */
  ghost predicate Running(states: seq<int>, vs: seq<Value>, trees: seq<Tree>, tokens: seq<Token>,
                          read: nat, look: int, held: bool) {
    |states| == |trees| + 1 && Stack(states, trees) && TopComplete(trees, look) &&
    |vs| == |trees| && (forall i :: 0 <= i < |trees| ==> Carries(vs[i], trees[i])) &&
    read <= |tokens| && (held ==> 0 < read && look == tokens[read - 1].Symbol()) &&
    (!held ==> look == YYEMPTY || (look == 0 && read == |tokens|)) &&
    Yields(trees) == tokens[..if held then read - 1 else read] &&
    (states[|trees|] in {1, 4, 37} ==> look == YYEMPTY)
  }

  lemma SymbolRange(t: Token)
    ensures 0 <= t.Symbol() < YYNTOKENS
  {
  }

  /** The token of the stream is shifted; end of input is not. */
  lemma ShiftRuns(states: seq<int>, vs: seq<Value>, trees: seq<Tree>, tokens: seq<Token>,
                  read: nat, look: int, held: bool)
    requires Running(states, vs, trees, tokens, read, look, held)
    requires 0 <= look < YYNTOKENS && Decide(states[|trees|], look).Shift?
    ensures held && |states| == |trees| + 1
    ensures var token := tokens[read - 1]; var q := Decide(states[|trees|], look).target;
      Running(states + [q], vs + [Str(token.text)], trees + [Leaf(token)], tokens, read, YYEMPTY, false)
  {
    hide Stack, TopComplete, YyStos, Below, YyPact, YyCheck, YyTable, YyDefact, Decide, Translate,
      Derivation, Denotes;
    var s := states[|trees|];
    assert s == states[|states| - 1];
    StackDerives(states, trees);
    EndNotShifted(s);
    var token := tokens[read - 1];
    assert look == token.Symbol();
    ShiftKeeps(states, trees, token);
    LeafCarries(token);
    assert tokens[..read - 1] + [token] == tokens[..read];
  }

  lemma LeafCarries(token: Token)
    ensures Carries(Str(token.text), Leaf(token))
  {
  }

  lemma EndNotShifted(s: int)
    requires IsState(s)
    ensures !Decide(s, 0).Shift?
  {
  }

  lemma RunningHolds(states: seq<int>, vs: seq<Value>, trees: seq<Tree>, tokens: seq<Token>,
                     read: nat, look: int, held: bool)
    requires Running(states, vs, trees, tokens, read, look, held)
    ensures |states| == |trees| + 1 == |vs| + 1 && Stack(states, trees) && TopComplete(trees, look)
    ensures states[|trees|] in {1, 4, 37} ==> look == YYEMPTY
  {
  }

  /** Popping values and pushing the value of their derivation keeps value and derivation stack in step. */
  lemma StillCarried(vs: seq<Value>, trees: seq<Tree>, k: int, v: Value, node: Tree)
    requires |vs| == |trees| && 0 <= k <= |trees| && Carries(v, node)
    requires forall i :: 0 <= i < |trees| ==> Carries(vs[i], trees[i])
    ensures var newVs, newTrees := vs[..k] + [v], trees[..k] + [node];
      forall i :: 0 <= i <= k ==> Carries(newVs[i], newTrees[i])
  {
  }

  lemma CarriedTop(states: seq<int>, vs: seq<Value>, trees: seq<Tree>, tokens: seq<Token>,
                   read: nat, look: int, held: bool, k: int)
    requires Running(states, vs, trees, tokens, read, look, held) && 0 <= k <= |trees|
    ensures |vs| == |trees| && forall i :: 0 <= i < |trees[k..]| ==> Carries(vs[k..][i], trees[k..][i])
  {
    hide Stack, TopComplete, Carries;
  }

  lemma StillRuns(states: seq<int>, vs: seq<Value>, trees: seq<Tree>, tokens: seq<Token>,
                  read: nat, look: int, held: bool, q: int, k: int, v: Value, node: Tree)
    requires Running(states, vs, trees, tokens, read, look, held) && 0 <= k <= |trees|
    requires var newTrees := trees[..k] + [node];
      Stack(states[..k + 1] + [q], newTrees) && TopComplete(newTrees, look) && Yields(newTrees) == Yields(trees)
    requires Carries(v, node) && (q in {1, 4, 37} ==> look == YYEMPTY)
    ensures Running(states[..k + 1] + [q], vs[..k] + [v], trees[..k] + [node], tokens, read, look, held)
  {
    hide Stack, TopComplete, Carries, Yields, Tree.Symbol;
    StillCarried(vs, trees, k, v, node);
    assert (states[..k + 1] + [q])[k + 1] == q;
  }

  lemma ReduceRuns(states: seq<int>, vs: seq<Value>, trees: seq<Tree>, tokens: seq<Token>,
                   read: nat, look: int, held: bool, r: int, k: int, stale: Value)
    requires Running(states, vs, trees, tokens, read, look, held)
    requires Reduces(states[|trees|], look) && r == YyDefact(states[|trees|]) && k == |trees| - YyR2(r)
    ensures 2 <= r <= 42 && 0 <= k <= |trees| && HaveKinds(Rhs(r), vs[k..])
    ensures Carries(Action(r, vs[k..], stale), Node(r, trees[k..]))
    ensures Respects(Node(r, trees[k..]))
    ensures Yields(trees[..k] + [Node(r, trees[k..])]) == Yields(trees)
    ensures r != 2 && r != 3 ==>
      (Starts(states[k], YyR1(r)) &&
       var q := Goto(states[k], YyR1(r));
       var newTrees := trees[..k] + [Node(r, trees[k..])];
       Running(states[..k + 1] + [q], vs[..k] + [Action(r, vs[k..], stale)], newTrees, tokens, read, look, held) &&
       Load(newTrees) + Pending(q) < Load(trees) + Pending(states[|trees|]))
  {
    hide Running, Stack, TopComplete, YyStos, Below, YyPact, YyCheck, YyTable, YyDefact, Decide, YyR1, YyR2, Rhs,
      Starts, Action, YyPgoto, YyDefgoto, Derivation, Respects, Denotes, Load, Pending, Goto, Reduces, Yields, Carries,
      HaveKinds, Tree.Symbol;
    RunningHolds(states, vs, trees, tokens, read, look, held);
    StackDerives(states, trees);
    ReduceKeeps(states, trees, look, r, k);
    CarriedTop(states, vs, trees, tokens, read, look, held, k);
    ActionCarries(r, trees[k..], vs[k..], stale);
    if r != 2 && r != 3 {
      PromptNeedsNoLook(states, trees, look, r, k);
      ReductionShrinks(states, trees, r, k);
      var v := Action(r, vs[k..], stale);
      StillRuns(states, vs, trees, tokens, read, look, held, Goto(states[k], YyR1(r)), k, v, Node(r, trees[k..]));
    }
  }

  lemma ReduceFitsStack(states: seq<int>, vs: seq<Value>, trees: seq<Tree>, tokens: seq<Token>,
                        read: nat, look: int, held: bool)
    requires Running(states, vs, trees, tokens, read, look, held) && YyDefact(states[|trees|]) != 0
    ensures 0 <= YyR2(YyDefact(states[|trees|])) <= |trees|
  {
    hide TopComplete, Carries, Stack, YyR2;
    StackDerives(states, trees);
    PoppedIsRightSide(states, trees);
  }

  /** A reply ends at the last token read. */
  lemma EndsParse(states: seq<int>, vs: seq<Value>, trees: seq<Tree>, tokens: seq<Token>,
                  read: nat, look: int, held: bool, r: int, k: int)
    requires Running(states, vs, trees, tokens, read, look, held)
    requires r == YyDefact(states[|trees|]) && k == |trees| - YyR2(r) && (r == 2 || r == 3)
    ensures k == 0 && Yields(trees) == tokens[..read] && YyR1(r) == START
  {
    hide TopComplete, Carries, YyStos, Below, Entry, CompleteBefore, IsState, YyDefact, YyR2;
    var n := |trees|;
    StackDerives(states, trees);
    EndStates(states[n], r);
    assert n > 0 && Stacks(states[n - 1], states[n]);
    BelowEnd(states[n - 1], states[n]);
    if r == 3 {
      assert n > 1 && Stacks(states[n - 2], states[n - 1]);
      BelowEnd(states[n - 2], states[n - 1]);
      assert n > 2 && Stacks(states[n - 3], states[n - 2]);
      BelowEnd(states[n - 3], states[n - 2]);
    }
    if 0 < k { assert Stacks(states[k - 1], states[k]); NothingBelowStart(states[k - 1]); }
    assert look == YYEMPTY;
    if held { SymbolRange(tokens[read - 1]); }
  }

  /** What the end of a parse has found. */
  lemma ReplyEnds(states: seq<int>, vs: seq<Value>, trees: seq<Tree>, tokens: seq<Token>,
                  read: nat, look: int, held: bool, r: int, k: int, stale: Value)
    requires Running(states, vs, trees, tokens, read, look, held)
    requires Reduces(states[|trees|], look) && r == YyDefact(states[|trees|]) && k == |trees| - YyR2(r)
    requires r == 2 || r == 3
    ensures k == 0 && trees[k..] == trees && HaveKinds(Rhs(r), vs[k..])
    ensures var node := Node(r, trees[k..]);
      Derivation(node) && Respects(node) && node.Symbol() == START && Yield(node) == tokens[..read] &&
      Denotes(node) == Action(r, vs[k..], stale) && Denotes(node).Many?
  {
    hide Running, Reduces, YyDefact, YyR2, Rhs, Action;
    ReduceRuns(states, vs, trees, tokens, read, look, held, r, k, stale);
    EndsParse(states, vs, trees, tokens, read, look, held, r, k);
  }

  lemma EndStates(s: int, r: int)
    requires IsState(s) && r == YyDefact(s) && (r == 2 || r == 3)
    ensures YyR1(r) == START && YyR2(r) == (if r == 2 then 1 else 3) && s == (if r == 2 then 4 else 37)
  {
  }

  lemma BelowEnd(p: int, q: int)
    requires Stacks(p, q) && (q == 4 || q == 37 || q == 19 || q == 5)
    ensures p == (if q == 37 then 19 else if q == 19 then 5 else 0)
  {
  }

  lemma NothingBelowStart(p: int)
    ensures !Stacks(p, 0)
  {
  }

  /** The states that close a reply are entered by a default reduction, so nothing is read past the last prompt. */
  lemma PromptNeedsNoLook(states: seq<int>, trees: seq<Tree>, look: int, r: int, k: nat)
    requires |states| == |trees| + 1 && IsState(states[|trees|]) && r == YyDefact(states[|trees|]) && 4 <= r <= 42
    requires k <= |trees| && Starts(states[k], YyR1(r)) && (states[|trees|] in {1, 4, 37} ==> look == YYEMPTY)
    ensures Goto(states[k], YyR1(r)) in {1, 4, 37} ==> look == YYEMPTY
  {
    GotoStacks(states[k], YyR1(r));
  }

  lemma ReadRuns(states: seq<int>, vs: seq<Value>, trees: seq<Tree>, tokens: seq<Token>, read: nat)
    requires Running(states, vs, trees, tokens, read, YYEMPTY, false) && YyPact(states[|trees|]) != YYPACT_NINF
    ensures if read < |tokens|
      then Running(states, vs, trees, tokens, read + 1, tokens[read].Symbol(), true)
      else Running(states, vs, trees, tokens, read, 0, false)
  {
    hide Stack, Translate, YyDefact, YyTable, YyCheck;
    if trees != [] { PowerCompletes(trees[|trees| - 1]); }
  }

  lemma NothingHeld(states: seq<int>, vs: seq<Value>, trees: seq<Tree>, tokens: seq<Token>,
                    read: nat, look: int, held: bool)
    requires Running(states, vs, trees, tokens, read, look, held)
    ensures |states| == |trees| + 1 && read <= |tokens|
    ensures look == YYEMPTY ==> !held
    ensures held ==> 0 < read
  {
    hide Stack, TopComplete, Carries;
    if held { SymbolRange(tokens[read - 1]); }
  }

  lemma TokensLeft(states: seq<int>, vs: seq<Value>, trees: seq<Tree>, tokens: seq<Token>,
                   read: nat, look: int, held: bool)
    requires Running(states, vs, trees, tokens, read, look, held)
    ensures |states| == |trees| + 1 && IsState(states[|trees|])
    ensures |Yields(trees)| <= |tokens| && read <= |tokens| && |trees| <= |tokens| + 1
    ensures look == YYEMPTY || 0 <= look < YYNTOKENS
  {
    hide Stack, TopComplete, Carries, Yields, IsState, AtListEnd;
    StackDerives(states, trees);
    StackNeedsTokens(states, trees, |trees|);
    assert trees[..|trees|] == trees;
    NothingHeld(states, vs, trees, tokens, read, look, held);
    LookInRange(states, vs, trees, tokens, read, look, held);
  }

  lemma LookInRange(states: seq<int>, vs: seq<Value>, trees: seq<Tree>, tokens: seq<Token>,
                    read: nat, look: int, held: bool)
    requires Running(states, vs, trees, tokens, read, look, held)
    ensures look == YYEMPTY || 0 <= look < YYNTOKENS
  {
    hide Stack, TopComplete, Carries;
    if held { SymbolRange(tokens[read - 1]); }
  }

  lemma PowerCompletes(t: Tree)
    requires Tails(t) <= {POWER}
    ensures forall b :: CompleteBefore(t, b)
  {
  }

  lemma StartRuns(tokens: seq<Token>, vs: seq<Value>)
    requires vs == []
    ensures Running([0], vs, [], tokens, 0, YYEMPTY, false)
  {
  }

  lemma Chosen(s: int, look: int)
    requires IsState(s) && (look == YYEMPTY || 0 <= look < YYNTOKENS)
    requires YyPact(s) != YYPACT_NINF ==> 0 <= look
    ensures var move := Choose(s, look);
      (move.Reduce? ==> move.rule == YyDefact(s) && move.rule != 0 && Reduces(s, look)) &&
      (move.Shift? ==> 0 <= look < YYNTOKENS && move == Decide(s, look))
  {
    hide YyTable, YyCheck, YyDefact, YyPact;
    if YyPact(s) != YYPACT_NINF { if Decide(s, look).Reduce? { ReductionsAreDefaults(s, look); } }
  }

  /** The tokens that the trees do not cover yet. */
  ghost function Rest(trees: seq<Tree>, tokens: seq<Token>): seq<Token> {
    if |Yields(trees)| <= |tokens| then tokens[|Yields(trees)|..] else []
  }

  /** The lookahead is the next token, and no choice depends on one that has not been read. */
  lemma LookIsNext(states: seq<int>, vs: seq<Value>, trees: seq<Tree>, tokens: seq<Token>,
                   read: nat, look: int, held: bool)
    requires Running(states, vs, trees, tokens, read, look, held)
    ensures look == YYEMPTY || look == Look(Rest(trees, tokens))
    ensures held ==> 0 < read <= |tokens| && Rest(trees, tokens) == [tokens[read - 1]] + tokens[read..]
  {
    hide Stack, TopComplete, Carries, Translate;
  }

  lemma ChoosesAlike(s: int, look: int, rest: seq<Token>)
    requires YyPact(s) == YYPACT_NINF || look == Look(rest)
    ensures Choose(s, look) == Choose(s, Look(rest))
  {
  }

  lemma RestAfter(trees: seq<Tree>, tokens: seq<Token>, token: Token, later: seq<Token>)
    requires |Yields(trees)| <= |tokens| && Rest(trees, tokens) == [token] + later
    ensures Rest(trees + [Leaf(token)], tokens) == later && |Yields(trees + [Leaf(token)])| == |Yields(trees)| + 1
  {
    YieldsAppend(trees, [Leaf(token)]);
    assert Yields([Leaf(token)]) == [token];
    var n := |Yields(trees)|;
    assert tokens[n..][1..] == tokens[n + 1..];
  }

  ghost predicate Moves(c: Config, d: Config) { |c.trees| + 1 < YYMAXDEPTH && Going(c) && d == Next(c) }

  /** What the last turn of the driver makes of its state. */
  ghost predicate Stops(c: Config, out: Outcome, node: Tree) {
    c.Shaped() && (out.MemoryExhausted? <==> Full(c)) && |c.trees| + 1 <= YYMAXDEPTH &&
    match out
    case Parsed(_) => node.Node? && Choose(c.Top(), Look(c.rest)) == Reduce(node.rule) && node.kids == c.trees &&
      (node.rule == 2 || node.rule == 3)
    case SyntaxError => Choose(c.Top(), Look(c.rest)) == Fail
    case MemoryExhausted => true
  }

  /** Where a reply leads, the driver stops with its derivation. */
  lemma StopsAtReply(c: Config, t: Tree, tokens: seq<Token>, out: Outcome, node: Tree)
    requires Leading(c, t, tokens) && Stops(c, out, node)
    ensures if StacksSuffice(t) then out.Parsed? && node == t else out.MemoryExhausted?
  {
    hide Choose, Next, Leading, Look, StacksSuffice;
    LeadingGoesOn(c, t, tokens);
  }

  lemma StopsUnlessFull(c: Config, out: Outcome, node: Tree)
    requires Stops(c, out, node)
    ensures out.MemoryExhausted? <==> Fills(c)
  {
    hide Choose, Next, Look, Fills;
    FillsOn(c);
  }

  /** The machine leads to every reply, or has stopped with the only one there is. */
  ghost predicate OnTrack(start: Config, c: Config, tokens: seq<Token>) {
    (forall t :: Reply(t, tokens) ==> Leading(c, t, tokens)) && (Fills(c) <==> Fills(start))
  }

  ghost predicate Stopped(start: Config, out: Outcome, tree: Tree, tokens: seq<Token>) {
    (forall t :: Reply(t, tokens) ==> if StacksSuffice(t) then out.Parsed? && tree == t else out.MemoryExhausted?) &&
    (out.MemoryExhausted? <==> Fills(start))
  }

  lemma StaysOnTrack(start: Config, c: Config, d: Config, tokens: seq<Token>)
    requires OnTrack(start, c, tokens) && Moves(c, d)
    ensures OnTrack(start, d, tokens)
  {
    hide Reply, Leading, Going, Next, Fills;
    FillsOn(c);
    forall t | Reply(t, tokens)
      ensures Leading(d, t, tokens)
    {
      LeadingGoesOn(c, t, tokens);
    }
  }

  lemma StopsOnTrack(start: Config, c: Config, out: Outcome, node: Tree, tokens: seq<Token>)
    requires OnTrack(start, c, tokens) && Stops(c, out, node)
    ensures Stopped(start, out, node, tokens)
  {
    hide Reply, Leading, Stops, StacksSuffice, Fills;
    StopsUnlessFull(c, out, node);
    forall t | Reply(t, tokens)
      ensures if StacksSuffice(t) then out.Parsed? && node == t else out.MemoryExhausted?
    {
      StopsAtReply(c, t, tokens, out, node);
    }
  }

  lemma ShiftMoves(states: seq<int>, trees: seq<Tree>, rest: seq<Token>, token: Token, later: seq<Token>, q: int)
    requires |states| == |trees| + 1 < YYMAXDEPTH && rest == [token] + later
    requires Choose(states[|trees|], Look(rest)) == Shift(q)
    ensures Moves(Config(states, trees, rest), Config(states + [q], trees + [Leaf(token)], later))
  {
    hide Choose, Look;
    assert rest[1..] == later;
  }

  lemma ReduceMoves(states: seq<int>, trees: seq<Tree>, rest: seq<Token>, r: int, k: int)
    requires |states| == |trees| + 1 < YYMAXDEPTH
    requires Choose(states[|trees|], Look(rest)) == Reduce(r) && r != 2 && r != 3
    requires k == |trees| - YyR2(r) && 0 <= k <= |trees|
    ensures Moves(Config(states, trees, rest),
      Config(states[..k + 1] + [Goto(states[k], YyR1(r))], trees[..k] + [Node(r, trees[k..])], rest))
  {
    hide Choose, Look, YyR1, YyR2, Goto;
  }

  /** The driver's variables: two stacks of equal height, the lookahead and its value. Value slot 0 is never used. */
  class Driver {
    const tokens: seq<Token>
    var ss: array<int>
    var vs: array<Value>
    var sp: nat
    var look: int
    var lval: Value
    var read: nat
    ghost var held: bool
    ghost var trees: seq<Tree>

    ghost predicate Shape()
      reads this
    {
      sp < ss.Length == vs.Length && YYINITDEPTH <= ss.Length <= YYMAXDEPTH
    }

    ghost function States(): (states: seq<int>)
      requires Shape()
      reads this, ss
      ensures |states| == sp + 1 && states[sp] == ss[sp]
    {
      ss[..sp + 1]
    }

    ghost function Values(): (values: seq<Value>)
      requires Shape()
      reads this, vs
      ensures |values| == sp && forall i :: 0 <= i < sp ==> values[i] == vs[i + 1]
    {
      vs[1..sp + 1]
    }

    ghost predicate Valid()
      reads this, ss, vs
    {
      Shape() && Running(States(), Values(), trees, tokens, read, look, held) &&
      (held ==> lval == Str(tokens[read - 1].text))
    }

    /** The driver's state as one of the machine. */
    ghost function Current(): Config
      requires Shape()
      reads this, ss
    {
      Config(States(), trees, Rest(trees, tokens))
    }

    /** Tokens not yet shifted. */
    ghost function Ahead(): int
      reads this
    {
      |tokens| - |Yields(trees)|
    }

    /** Bounds the reductions possible before the next shift. */
    ghost function Effort(): nat
      requires Shape()
      reads this, ss
    {
      Load(trees) + Pending(ss[sp])
    }

    constructor (tokens: seq<Token>)
      ensures Valid() && fresh(ss) && fresh(vs)
      ensures this.tokens == tokens && read == 0 && trees == []
      ensures Current() == Config([0], [], tokens) && Ahead() == |tokens|
    {
      this.tokens := tokens;
      ss := new int[YYINITDEPTH](_ => 0);
      vs := new Value[YYINITDEPTH](_ => Unset);
      sp, look, lval, read, held, trees := 0, YYEMPTY, Unset, 0, false, [];
      new;
      StartRuns(tokens, Values());
      assert States() == [0];
    }

    /** Doubles the stacks when they are full, up to YYMAXDEPTH; fails exactly when that depth is reached. */
    method EnsureRoom() returns (ok: bool)
      requires Shape()
      modifies this`ss, this`vs
      ensures Shape() && States() == old(States()) && Values() == old(Values())
      ensures (ss == old(ss) || fresh(ss)) && (vs == old(vs) || fresh(vs))
      ensures ok <==> sp + 1 < YYMAXDEPTH
      ensures ok ==> sp + 1 < ss.Length
    {
      var size := ss.Length;
      if size - 1 <= sp {
        if YYMAXDEPTH <= size { return false; }
        size := size * 2;
        if YYMAXDEPTH < size { size := YYMAXDEPTH; }
        var states, values := new int[size], new Value[size](_ => Unset);
        forall i | 0 <= i <= sp { states[i] := ss[i]; }
        forall i | 0 <= i <= sp { values[i] := vs[i]; }
        ss, vs := states, values;
      }
      return true;
    }

    /** Drops `length` symbols and pushes one. */
    method Replace(length: nat, state: int, value: Value)
      requires Shape() && length <= sp && sp + 1 < ss.Length
      modifies this`sp, ss, vs
      ensures Shape()
      ensures States() == old(States())[..old(sp) - length + 1] + [state]
      ensures Values() == old(Values())[..old(sp) - length] + [value]
    {
      sp := sp - length + 1;
      vs[sp], ss[sp] := value, state;
    }

    /** Reads the lookahead when the state needs one; the end of the stream reads as token 0. */
    method Fetch()
      requires Valid()
      modifies this`look, this`lval, this`read, this`held
      ensures Valid()
      ensures if YyPact(ss[sp]) != YYPACT_NINF then 0 <= look < YYNTOKENS else look == old(look) && read == old(read)
    {
      hide Running, Translate, YyPact;
      if YyPact(ss[sp]) != YYPACT_NINF && look == YYEMPTY {
        NothingHeld(States(), Values(), trees, tokens, read, look, held);
        ReadRuns(States(), Values(), trees, tokens, read);
        if read < |tokens| {
          SymbolRange(tokens[read]);
          look, lval, held := tokens[read].Symbol(), Str(tokens[read].text), true;
          read := read + 1;
        } else {
          look := 0;
        }
      }
      LookInRange(States(), Values(), trees, tokens, read, look, held);
    }

    method ShiftToken(q: int)
      requires Valid() && sp + 1 < ss.Length && 0 <= look < YYNTOKENS
      requires Choose(ss[sp], look) == Decide(ss[sp], look) == Shift(q)
      modifies this`look, this`held, this`sp, this`trees, ss, vs
      ensures Valid() && Ahead() < old(Ahead()) && Moves(old(Current()), Current())
    {
      hide Running, Decide, Choose, Look, Moves, Yields, Rest, Load, Pending;
      LookIsNext(States(), Values(), trees, tokens, read, look, held);
      NothingHeld(States(), Values(), trees, tokens, read, look, held);
      ShiftRuns(States(), Values(), trees, tokens, read, look, held);
      ShiftMoves(States(), trees, Rest(trees, tokens), tokens[read - 1], tokens[read..], q);
      TokensLeft(States(), Values(), trees, tokens, read, look, held);
      RestAfter(trees, tokens, tokens[read - 1], tokens[read..]);
      trees := trees + [Leaf(tokens[read - 1])];
      look, held := YYEMPTY, false;
      assert States()[..sp + 1] == States() && Values()[..sp] == Values();
      Replace(0, q, lval);
    }

    /** The values of a right side, and the slot that `$$ = $1` reads when it is empty. */
    method RightSide(length: nat) returns (values: seq<Value>, stale: Value)
      requires Shape() && length <= sp && sp + 1 < ss.Length
      ensures values == Values()[sp - length..]
    {
      stale := vs[sp + 1 - length];
      values := vs[sp + 1 - length..sp + 1];
      assert forall i :: 0 <= i < length ==> values[i] == vs[sp + 1 - length + i] == Values()[sp - length + i];
    }

    /** Puts a new derivation, its value and its state in place of the last `length`. */
    method ReplaceByNode(length: nat, q: int, v: Value, ghost node: Tree)
      requires Valid() && length <= sp == |trees| && sp + 1 < ss.Length
      requires var k := sp - length; var newTrees := trees[..k] + [node];
        Running(States()[..k + 1] + [q], Values()[..k] + [v], newTrees, tokens, read, look, held) &&
        Yields(newTrees) == Yields(trees) && Load(newTrees) + Pending(q) < Effort() &&
        Moves(Current(), Config(States()[..k + 1] + [q], newTrees, Rest(trees, tokens)))
      modifies this`sp, this`trees, ss, vs
      ensures Valid() && Ahead() == old(Ahead()) && Effort() < old(Effort()) && Moves(old(Current()), Current())
    {
      hide Running, Load, Pending, Moves, Yields;
      trees := trees[..sp - length] + [node];
      Replace(length, q, v);
    }

    /** Replaces the right side of `r` by its left side, or ends the parse at rules 2 and 3. */
    method ReduceBy(r: int) returns (done: bool, result: Value, ghost node: Tree)
      requires Valid() && sp + 1 < ss.Length && r != 0 && r == YyDefact(ss[sp]) && Reduces(ss[sp], look)
      requires Choose(ss[sp], look) == Choose(ss[sp], Look(Rest(trees, tokens))) == Reduce(r)
      modifies this`sp, this`trees, ss, vs
      ensures Valid()
      ensures done ==>
        Derivation(node) && Respects(node) && (node.Symbol() == START) && Denotes(node) == result &&
        result.Many? && Yield(node) == tokens[..read]
      ensures !done ==> Ahead() == old(Ahead()) && Effort() < old(Effort()) && Moves(old(Current()), Current())
      ensures done ==> node == Node(r, old(trees)) && (r == 2 || r == 3)
    {
      hide Running, Load, Pending, Reduces, Stack, Decide, Below, Rhs, Action, YyR1, YyR2, YyDefact, Derivation,
        Respects, Starts, Choose, Look, Moves, Goto, Carries, HaveKinds, Yields, Tree.Symbol, Denotes, Rest;
      NothingHeld(States(), Values(), trees, tokens, read, look, held);
      ReduceFitsStack(States(), Values(), trees, tokens, read, look, held);
      var length := YyR2(r);
      ghost var k := sp - length;
      var values, stale := RightSide(length);
      ReduceRuns(States(), Values(), trees, tokens, read, look, held, r, k, stale);
      result := Action(r, values, stale);
      node := Node(r, trees[k..]);
      done := r == 2 || r == 3;
      if done {
        ReplyEnds(States(), Values(), trees, tokens, read, look, held, r, k, stale);
      } else {
        ReduceMoves(States(), trees, Rest(trees, tokens), r, k);
        ReplaceByNode(length, Goto(ss[sp - length], YyR1(r)), result, node);
      }
    }

    /** Makes room for one more symbol, reads the lookahead if the state needs one, and chooses the move. */
    method Prepare() returns (room: bool, move: Move)
      requires Valid()
      modifies this`ss, this`vs, this`look, this`lval, this`read, this`held
      ensures Valid() && (ss == old(ss) || fresh(ss)) && (vs == old(vs) || fresh(vs))
      ensures Current() == old(Current()) && sp == old(sp)
      ensures if room then sp + 1 < ss.Length else sp + 1 == YYMAXDEPTH
      ensures room ==> move == Choose(ss[sp], look) == Choose(ss[sp], Look(Rest(trees, tokens)))
      ensures room && move.Shift? ==> 0 <= look < YYNTOKENS && move == Decide(ss[sp], look)
      ensures room && move.Reduce? ==> move.rule == YyDefact(ss[sp]) != 0 && Reduces(ss[sp], look)
    {
      hide Running, Stack, Reduces, Decide, YyPact, YyDefact, IsState, Default, Yields, Choose, Look, Rest;
      move := Fail;
      TokensLeft(States(), Values(), trees, tokens, read, look, held);
      room := EnsureRoom();
      if room {
        Fetch();
        TokensLeft(States(), Values(), trees, tokens, read, look, held);
        LookIsNext(States(), Values(), trees, tokens, read, look, held);
        Chosen(ss[sp], look);
        ChoosesAlike(ss[sp], look, Rest(trees, tokens));
        move := Choose(ss[sp], look);
      }
    }

    /** One turn of the driver's loop: at most one shift or one reduction. */
    method Turn() returns (done: bool, out: Outcome, ghost node: Tree)
      requires Valid() && 0 <= Ahead()
      modifies this, ss, vs
      ensures Valid() && 0 <= Ahead() && read <= |tokens|
      ensures (ss == old(ss) || fresh(ss)) && (vs == old(vs) || fresh(vs))
      ensures done && out.Parsed? ==>
        Derivation(node) && node.Symbol() == START && Respects(node) && Yield(node) == tokens[..read] &&
        Denotes(node) == Many(out.formulas)
      ensures out.MemoryExhausted? ==> done && sp + 1 == YYMAXDEPTH <= |tokens| + 2
      ensures !done ==> Ahead() < old(Ahead()) || (Ahead() == old(Ahead()) && Effort() < old(Effort()))
      ensures if done then Stops(old(Current()), out, node) else Moves(old(Current()), Current())
    {
      hide Running, Load, Pending, Stack, Reduces, Decide, YyPact, YyDefact, IsState, Default, Yields, Derivation,
        Respects, Choose, Look, Moves, Rest;
      node := Leaf(Token(0, ""));
      TokensLeft(States(), Values(), trees, tokens, read, look, held);
      var room, move := Prepare();
      if !room {
        done, out := true, MemoryExhausted;
      } else {
        match move {
          case Fail => done, out := true, SyntaxError;
          case Shift(q) => ShiftToken(q);
            done, out := false, SyntaxError;
          case Reduce(r) =>
            var result;
            done, result, node := ReduceBy(r);
            out := if done then Parsed(result.formulas) else SyntaxError;
        }
      }
      TokensLeft(States(), Values(), trees, tokens, read, look, held);
    }
  }

  /**
   * The driver. A parse it completes is a derivation of START that respects the precedence table, it derives exactly
   * the tokens that were read, and its value is the list the derivation denotes. If the tokens start with what such a
   * derivation derives, the driver finds that derivation, unless recognising it takes more than the stacks can hold.
   * They can fill up only on inputs of YYMAXDEPTH - 2 tokens or more. The driver terminates on every input.
   */
  method Parse(tokens: seq<Token>) returns (out: Outcome, read: nat, ghost tree: Tree)
    ensures read <= |tokens|
    ensures out.Parsed? ==> Reply(tree, tokens) && Yield(tree) == tokens[..read] && Denotes(tree) == Many(out.formulas)
    ensures forall t :: Reply(t, tokens) ==> if StacksSuffice(t) then out.Parsed? && tree == t else out.MemoryExhausted?
    ensures out.MemoryExhausted? <==> Fills(Config([0], [], tokens))
    ensures out.MemoryExhausted? ==> YYMAXDEPTH - 2 <= |tokens|
  {
    hide Running, Load, Pending, Derivation, Respects, Denotes, Stops, Moves, OnTrack, Stopped, StacksSuffice, Fills;
    ghost var start := Config([0], [], tokens);
    var d := new Driver(tokens);
    var done := false;
    out, tree := SyntaxError, Leaf(Token(0, ""));
    StartsOnTrack(tokens);
    while !done
      invariant d.Valid() && 0 <= d.Ahead() && fresh(d) && fresh(d.ss) && fresh(d.vs) && d.tokens == tokens
      invariant d.read <= |tokens|
      invariant done && out.Parsed? ==>
        Reply(tree, tokens) && Yield(tree) == tokens[..d.read] && Denotes(tree) == Many(out.formulas)
      invariant if done then Stopped(start, out, tree, tokens) else OnTrack(start, d.Current(), tokens)
      invariant done && out.MemoryExhausted? ==> YYMAXDEPTH - 2 <= |tokens|
      decreases !done, d.Ahead(), d.Effort()
    {
      ghost var before := d.Current();
      done, out, tree := d.Turn();
      if done {
        StopsOnTrack(start, before, out, tree, tokens);
      } else {
        StaysOnTrack(start, before, d.Current(), tokens);
      }
    }
    read := d.read;
    StoppedSays(start, out, tree, tokens);
  }

  lemma StartsOnTrack(tokens: seq<Token>)
    ensures OnTrack(Config([0], [], tokens), Config([0], [], tokens), tokens)
  {
    hide Leading, Reply, Fills;
    forall t | Reply(t, tokens)
      ensures Leading(Config([0], [], tokens), t, tokens)
    {
      RepliesLead(t, tokens);
    }
  }

  lemma StoppedSays(start: Config, out: Outcome, tree: Tree, tokens: seq<Token>)
    requires Stopped(start, out, tree, tokens)
    ensures forall t :: Reply(t, tokens) ==> if StacksSuffice(t) then out.Parsed? && tree == t else out.MemoryExhausted?
    ensures out.MemoryExhausted? <==> Fills(start)
  {
    hide Reply, StacksSuffice, Fills;
  }
}
