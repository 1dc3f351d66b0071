// What the parser makes of a printed formula, and exactly when that is the formula printed.

module FormulaRoundTrip {
  import opened FormulaSyntax
  import opened FormulaParser

  // ----- numbers -----

  lemma DecimalValue(n: nat)
    ensures Value(Decimal(n)) == n
  {
    if n < 10 {
      assert Decimal(n)[..0] == [];
    } else {
      DecimalValue(n / 10);
      assert Decimal(n)[..|Decimal(n)| - 1] == Decimal(n / 10);
    }
  }

  // ----- the phrase left open by a formula's text -----

  /** Frames that only wait for the end of an operand, and the operand read last. */
  datatype Phrase = Phrase(frames: seq<Frame>, last: Formula)

  predicate AllEnd(frames: seq<Frame>) { forall i :: 0 <= i < |frames| ==> Ends(frames[i]) }

  predicate NoInfix(frames: seq<Frame>) { forall i :: 0 <= i < |frames| ==> !frames[i].Infix? }

  /** Completes every frame, innermost first. */
  function Close(frames: seq<Frame>, f: Formula): Formula
    requires AllEnd(frames)
  {
    if frames == [] then f else Close(frames[..|frames| - 1], Build(frames[|frames| - 1], f))
  }

  /** The frames that stay open when token `t` arrives. */
  function Settle(frames: seq<Frame>, f: Formula, t: Token): (p: Phrase)
    requires AllEnd(frames)
    ensures AllEnd(p.frames) && p.frames <= frames
    ensures p.frames != [] ==> AfterOperand(p.frames[|p.frames| - 1], Some(t)) != DoReduce
    ensures frames != [] && AfterOperand(frames[0], Some(t)) != DoReduce ==> p.frames != []
  {
    if frames == [] then Phrase([], f)
    else
      var top := frames[|frames| - 1];
      if AfterOperand(top, Some(t)) == DoReduce then Settle(frames[..|frames| - 1], Build(top, f), t)
      else Phrase(frames, f)
  }

  /** What an `else` finds behind `if c then t`: an open `if`, of `t` or this one. */
  function Branch(c: Formula, t: Phrase): (p: Phrase)
    requires AllEnd(t.frames) && NoInfix(t.frames)
    ensures p == Settle([Then(c)] + t.frames, t.last, ELSE)
    ensures AllEnd(p.frames) && NoInfix(p.frames) && p.frames != [] && p.frames[0] == Then(c) &&
      p.frames[|p.frames| - 1].Then?
  {
    Settle([Then(c)] + t.frames, t.last, ELSE)
  }

  /** The frames of `branch`, its last `if` with an `else`, and more. */
  function WithElse(branch: Phrase, more: seq<Frame>): (all: seq<Frame>)
    requires AllEnd(branch.frames) && NoInfix(branch.frames) && AllEnd(more) && NoInfix(more)
    requires branch.frames != [] && branch.frames[|branch.frames| - 1].Then?
    ensures AllEnd(all) && NoInfix(all)
  {
    var k := |branch.frames| - 1;
    branch.frames[..k] + ([Else(branch.frames[k].cond, branch.last)] + more)
  }

  /** The state of the parser after the printed text of `f`, above whatever was on the stack before. */
  function Open(f: Formula): (p: Phrase)
    ensures AllEnd(p.frames) && NoInfix(p.frames)
    decreases f, 0
  {
    match f
    case Integer(v) => if v < 0 then Phrase([Negation], Integer(-v)) else Phrase([], f)
    case Binop(op, l, r) =>
      var left := Settle(Open(l).frames, Open(l).last, OPERATOR(op));
      Phrase([], Close(left.frames + [Infix(left.last, op)] + Open(r).frames, Open(r).last))
    case If(c, t, None) => Phrase([Then(Reread(c))] + Open(t).frames, Open(t).last)
    case If(c, t, Some(e)) => Phrase(WithElse(Branch(Reread(c), Open(t)), Open(e).frames), Open(e).last)
    case _ => Phrase([], f)
  }

  /** The formula that parsing the printed text of `f` gives. */
  function Reread(f: Formula): Formula
    decreases f, 1
  {
    Close(Open(f).frames, Open(f).last)
  }

  // ----- the parser reaches that state -----

  lemma SettleRuns(stack: seq<Frame>, frames: seq<Frame>, f: Formula, ts: seq<Token>)
    requires AllEnd(frames) && ts != []
    ensures var p := Settle(frames, f, ts[0]);
      Continue(stack + frames, f, ts) == Continue(stack + p.frames, p.last, ts)
  {
    hide Operand, AfterOperand, Build;
    if frames != [] {
      var n := |frames| - 1;
      assert (stack + frames)[..|stack| + n] == stack + frames[..n];
      if AfterOperand(frames[n], Some(ts[0])) == DoReduce {
        SettleRuns(stack, frames[..n], Build(frames[n], f), ts);
      }
    }
  }

  /** Whatever cannot continue an operand completes all its frames. */
  lemma CloseRuns(stack: seq<Frame>, frames: seq<Frame>, f: Formula, ts: seq<Token>)
    requires AllEnd(frames) && First(ts) in {None, Some(THEN), Some(RPAREN)}
    ensures Continue(stack + frames, f, ts) == Continue(stack, Close(frames, f), ts)
  {
    if frames == [] {
      assert stack + frames == stack;
    } else {
      var n := |frames| - 1;
      assert (stack + frames)[..|stack| + n] == stack + frames[..n];
      CloseRuns(stack, frames[..n], Build(frames[n], f), ts);
    }
  }

  lemma CondRuns(stack: seq<Frame>, c: Formula, body: seq<Token>)
    ensures Continue(stack + [Cond] + Open(c).frames, Open(c).last, [THEN] + body) ==
      Operand(stack + [Then(Reread(c))], body)
  {
    hide Operand, Continue, Open;
    var ts := [THEN] + body;
    CloseRuns(stack + [Cond], Open(c).frames, Open(c).last, ts);
    ThenStep(stack, Reread(c), body);
  }

  lemma ThenStep(stack: seq<Frame>, f: Formula, body: seq<Token>)
    ensures Continue(stack + [Cond], f, [THEN] + body) == Operand(stack + [Then(f)], body)
  {
    hide Operand;
    assert (stack + [Cond])[..|stack|] == stack && ([THEN] + body)[1..] == body;
  }

  lemma OperatorRuns(stack: seq<Frame>, left: Phrase, op: Op, body: seq<Token>)
    requires AllEnd(left.frames) && NoInfix(left.frames)
    ensures var p := Settle(left.frames, left.last, OPERATOR(op));
      Continue(stack + [Group] + left.frames, left.last, [OPERATOR(op)] + body) ==
      Operand(stack + [Group] + (p.frames + [Infix(p.last, op)]), body)
  {
    hide Operand, Continue, Settle;
    var ts := [OPERATOR(op)] + body;
    var p := Settle(left.frames, left.last, OPERATOR(op));
    var s := stack + [Group];
    SettleRuns(s, left.frames, left.last, ts);
    if p.frames == [] { assert s + p.frames == s; }
    var all := s + p.frames;
    assert all[|all| - 1] == if p.frames == [] then Group else p.frames[|p.frames| - 1];
    OperatorStep(all, p.last, op, body);
    assert all + [Infix(p.last, op)] == s + (p.frames + [Infix(p.last, op)]);
  }

  lemma OperatorStep(stack: seq<Frame>, f: Formula, op: Op, body: seq<Token>)
    requires stack != [] && AfterOperand(stack[|stack| - 1], Some(OPERATOR(op))) == DoShift
    ensures Continue(stack, f, [OPERATOR(op)] + body) == Operand(stack + [Infix(f, op)], body)
  {
    hide Operand, AfterOperand;
    assert ([OPERATOR(op)] + body)[1..] == body;
  }

  lemma CloseParenRuns(stack: seq<Frame>, frames: seq<Frame>, last: Formula, rest: seq<Token>)
    requires AllEnd(frames)
    ensures Continue(stack + [Group] + frames, last, [RPAREN] + rest) == Continue(stack, Close(frames, last), rest)
  {
    var ts := [RPAREN] + rest;
    CloseRuns(stack + [Group], frames, last, ts);
    assert (stack + [Group])[..|stack|] == stack && ts[1..] == rest;
  }

  lemma ElseRuns(stack: seq<Frame>, c: Formula, t: Phrase, body: seq<Token>)
    requires AllEnd(t.frames) && NoInfix(t.frames)
    ensures Continue(stack + [Then(c)] + t.frames, t.last, [ELSE] + body) ==
      Operand(stack + WithElse(Branch(c, t), []), body)
  {
    hide Settle;
    var ts := [ELSE] + body;
    var p := Branch(c, t);
    assert stack + [Then(c)] + t.frames == stack + ([Then(c)] + t.frames);
    SettleRuns(stack, [Then(c)] + t.frames, t.last, ts);
    ElseStep(stack, p, body);
  }

  lemma ElseStep(stack: seq<Frame>, p: Phrase, body: seq<Token>)
    requires AllEnd(p.frames) && NoInfix(p.frames) && p.frames != [] && p.frames[|p.frames| - 1].Then?
    ensures Continue(stack + p.frames, p.last, [ELSE] + body) == Operand(stack + WithElse(p, []), body)
  {
    hide Operand;
    var k := |p.frames| - 1;
    assert (stack + p.frames)[..|stack| + k] == stack + p.frames[..k] && ([ELSE] + body)[1..] == body;
    assert stack + p.frames[..k] + [Else(p.frames[k].cond, p.last)] ==
      stack + (p.frames[..k] + ([Else(p.frames[k].cond, p.last)] + []));
  }

  lemma WithMore(stack: seq<Frame>, p: Phrase, more: seq<Frame>)
    requires AllEnd(p.frames) && NoInfix(p.frames) && p.frames != [] && p.frames[|p.frames| - 1].Then?
    requires AllEnd(more) && NoInfix(more)
    ensures stack + WithElse(p, []) + more == stack + WithElse(p, more)
  {
    var k := |p.frames| - 1;
    var other := [Else(p.frames[k].cond, p.last)];
    assert WithElse(p, []) == p.frames[..k] + other;
    assert stack + (p.frames[..k] + other) + more == stack + (p.frames[..k] + (other + more));
  }

  lemma ParenStep(stack: seq<Frame>, body: seq<Token>)
    ensures Operand(stack, [LPAREN] + body) == Operand(stack + [Group], body)
  {
    assert ([LPAREN] + body)[1..] == body;
  }

  lemma IfStep(stack: seq<Frame>, body: seq<Token>)
    ensures Operand(stack, [IF] + body) == Operand(stack + [Cond], body)
  {
    assert ([IF] + body)[1..] == body;
  }

  /** After the tokens of a printed formula the parser is in the state `Open` describes, whatever comes next. */
  lemma OperandRuns(stack: seq<Frame>, f: Formula, rest: seq<Token>)
    ensures Operand(stack, Tokens(f) + rest) == Continue(stack + Open(f).frames, Open(f).last, rest)
    decreases f, 1
  {
    hide Operand, Continue, Close, Settle, Reread, AfterOperand, Open, Tokens;
    match f
    case Integer(v) => IntegerRuns(stack, v, rest);
    case Binop(op, l, r) => BinopRuns(stack, op, l, r, rest);
    case If(c, t, None) => IfRuns(stack, c, t, rest);
    case If(c, t, Some(e)) => IfElseRuns(stack, c, t, e, rest);
    case _ => AtomRuns(stack, f, rest);
  }

  lemma BinopRuns(stack: seq<Frame>, op: Op, l: Formula, r: Formula, rest: seq<Token>)
    ensures var f := Binop(op, l, r);
      Operand(stack, Tokens(f) + rest) == Continue(stack + Open(f).frames, Open(f).last, rest)
    decreases Binop(op, l, r), 0
  {
    hide Operand, Continue, Close, Settle, Reread, AfterOperand, Tokens, Open, AllEnd, NoInfix;
    var f := Binop(op, l, r);
    var body := Tokens(r) + ([RPAREN] + rest);
    TokensOfBinop(op, l, r, rest);
    ParenStep(stack, Tokens(l) + ([OPERATOR(op)] + body));
    OperandRuns(stack + [Group], l, [OPERATOR(op)] + body);
    OperatorRuns(stack, Open(l), op, body);
    BinopOpens(op, l, r);
    var left := Settle(Open(l).frames, Open(l).last, OPERATOR(op));
    var upTo := left.frames + [Infix(left.last, op)];
    OperandRuns(stack + [Group] + upTo, r, [RPAREN] + rest);
    assert stack + [Group] + upTo + Open(r).frames == stack + [Group] + (upTo + Open(r).frames);
    CloseParenRuns(stack, upTo + Open(r).frames, Open(r).last, rest);
    assert stack + [] == stack;
  }

  lemma BinopOpens(op: Op, l: Formula, r: Formula)
    ensures AllEnd(Open(l).frames) && NoInfix(Open(l).frames)
    ensures var left := Settle(Open(l).frames, Open(l).last, OPERATOR(op));
      var frames := left.frames + [Infix(left.last, op)] + Open(r).frames;
      AllEnd(frames) && Open(Binop(op, l, r)) == Phrase([], Close(frames, Open(r).last))
  {
    hide Settle, Close;
  }

  lemma TokensOfBinop(op: Op, l: Formula, r: Formula, rest: seq<Token>)
    ensures Tokens(Binop(op, l, r)) + rest ==
      [LPAREN] + (Tokens(l) + ([OPERATOR(op)] + (Tokens(r) + ([RPAREN] + rest))))
  {
  }

  lemma TokensOfIf(c: Formula, t: Formula, e: Formula, rest: seq<Token>)
    ensures Tokens(If(c, t, Some(e))) + rest ==
      [IF] + (Tokens(c) + ([THEN] + (Tokens(t) + ([ELSE] + (Tokens(e) + rest)))))
  {
  }

  /** Up to the `then` of an `if`. */
  lemma IfStarts(stack: seq<Frame>, c: Formula, body: seq<Token>)
    ensures Operand(stack, [IF] + (Tokens(c) + ([THEN] + body))) == Operand(stack + [Then(Reread(c))], body)
    decreases c, 2
  {
    hide Operand, Continue, Close, Settle, Reread, AfterOperand, Open, Tokens;
    IfStep(stack, Tokens(c) + ([THEN] + body));
    OperandRuns(stack + [Cond], c, [THEN] + body);
    CondRuns(stack, c, body);
  }

  lemma IfRuns(stack: seq<Frame>, c: Formula, t: Formula, rest: seq<Token>)
    ensures var f := If(c, t, None);
      Operand(stack, Tokens(f) + rest) == Continue(stack + Open(f).frames, Open(f).last, rest)
    decreases If(c, t, None), 0
  {
    hide Operand, Continue, Close, Settle, Reread, AfterOperand;
    var f := If(c, t, None);
    assert Tokens(f) + rest == [IF] + (Tokens(c) + ([THEN] + (Tokens(t) + rest)));
    IfStarts(stack, c, Tokens(t) + rest);
    OperandRuns(stack + [Then(Reread(c))], t, rest);
    assert stack + [Then(Reread(c))] + Open(t).frames == stack + Open(f).frames;
  }

  lemma IfElseRuns(stack: seq<Frame>, c: Formula, t: Formula, e: Formula, rest: seq<Token>)
    ensures var f := If(c, t, Some(e));
      Operand(stack, Tokens(f) + rest) == Continue(stack + Open(f).frames, Open(f).last, rest)
    decreases If(c, t, Some(e)), 0
  {
    hide Operand, Continue, Close, Settle, Reread, AfterOperand, Tokens, WithElse, Branch;
    var f := If(c, t, Some(e));
    var tail := Tokens(e) + rest;
    var body := Tokens(t) + ([ELSE] + tail);
    TokensOfIf(c, t, e, rest);
    IfStarts(stack, c, body);
    OperandRuns(stack + [Then(Reread(c))], t, [ELSE] + tail);
    var branch := Branch(Reread(c), Open(t));
    ElseRuns(stack, Reread(c), Open(t), tail);
    OperandRuns(stack + WithElse(branch, []), e, rest);
    WithMore(stack, branch, Open(e).frames);
  }

  lemma AtomRuns(stack: seq<Frame>, f: Formula, rest: seq<Token>)
    requires f.Variable? || f.Bool? || f.Float?
    ensures Operand(stack, Tokens(f) + rest) == Continue(stack + Open(f).frames, Open(f).last, rest)
  {
    var ts := Tokens(f) + rest;
    assert ts[1..] == rest && stack + [] == stack;
  }

  lemma IntegerRuns(stack: seq<Frame>, v: int, rest: seq<Token>)
    ensures Operand(stack, Tokens(Integer(v)) + rest) ==
      Continue(stack + Open(Integer(v)).frames, Open(Integer(v)).last, rest)
  {
    var ts := Tokens(Integer(v)) + rest;
    if v < 0 {
      DecimalValue(-v);
      assert ts[1..] == [INTEGER(Decimal(-v))] + rest;
      assert ts[1..][1..] == rest;
    } else {
      DecimalValue(v);
      assert ts[1..] == rest && stack + [] == stack;
    }
  }

  /** Every legible formula parses back, to the formula `Reread` gives. */
  lemma ParsePrinted(f: Formula)
    requires Legible(f)
    ensures Parse(Print(f)) == Some(Reread(f))
  {
    PrintedTokens(f);
    OperandRuns([], f, []);
    assert Tokens(f) + [] == Tokens(f) && [] + Open(f).frames == Open(f).frames;
    CloseRuns([], Open(f).frames, Open(f).last, []);
    assert [] + Open(f).frames == Open(f).frames;
  }

  // ----- exactly which formulas come back unchanged -----

  /** The text of `f` ends in an `if` that would still take an `else`. */
  predicate EndsOpen(f: Formula) {
    f.If? && (f.elseClause.None? || EndsOpen(f.elseClause.value))
  }

  /**
   * No negative literal; no `if` to the left of an arithmetic operator, which would move into its last branch;
   * no then-branch that would take the `else` of the `if` around it.
   */
  predicate Stable(f: Formula) {
    match f
    case Integer(v) => 0 <= v
    case Binop(op, l, r) => Stable(l) && Stable(r) && !(l.If? && IF_LEVEL < OpLevel(op))
    case If(c, t, None) => Stable(c) && Stable(t)
    case If(c, t, Some(e)) => Stable(c) && Stable(t) && Stable(e) && !EndsOpen(t)
    case _ => true
  }

  lemma CloseAppend(a: seq<Frame>, b: seq<Frame>, f: Formula)
    requires AllEnd(a) && AllEnd(b)
    ensures Close(a + b, f) == Close(a, Close(b, f))
  {
    if b == [] {
      assert a + b == a;
    } else {
      assert (a + b)[..|a + b| - 1] == a + b[..|b| - 1];
      CloseAppend(a, b[..|b| - 1], Build(b[|b| - 1], f));
    }
  }

  lemma CloseOne(fr: Frame, rest: seq<Frame>, f: Formula)
    requires Ends(fr) && AllEnd(rest)
    ensures Close([fr] + rest, f) == Build(fr, Close(rest, f))
  {
    CloseAppend([fr], rest, f);
    assert [fr][..0] == [];
  }

  lemma SettleCloses(frames: seq<Frame>, f: Formula, t: Token)
    requires AllEnd(frames)
    ensures Close(Settle(frames, f, t).frames, Settle(frames, f, t).last) == Close(frames, f)
  {
    hide AfterOperand, Build;
    if frames != [] {
      var n := |frames| - 1;
      SettleCloses(frames[..n], Build(frames[n], f), t);
    }
  }

  /** A frame that does not reduce before `t` stays, with everything below it. */
  lemma SettleStops(frames: seq<Frame>, f: Formula, t: Token, i: nat)
    requires AllEnd(frames) && i < |frames| && AfterOperand(frames[i], Some(t)) != DoReduce
    ensures i < |Settle(frames, f, t).frames|
  {
    hide AfterOperand, Build;
    var n := |frames| - 1;
    if i < n && AfterOperand(frames[n], Some(t)) == DoReduce {
      SettleStops(frames[..n], Build(frames[n], f), t, i);
    }
  }

  lemma SettleDrops(frames: seq<Frame>, f: Formula, t: Token)
    requires AllEnd(frames) && frames != [] && AfterOperand(frames[0], Some(t)) != DoReduce
    requires forall i :: 0 < i < |frames| ==> AfterOperand(frames[i], Some(t)) == DoReduce
    ensures Settle(frames, f, t).frames == [frames[0]]
  {
    hide AfterOperand, Build;
    var n := |frames| - 1;
    if 0 < n { SettleDrops(frames[..n], Build(frames[n], f), t); }
  }

  predicate NoNegation(frames: seq<Frame>) { forall i :: 0 <= i < |frames| ==> !frames[i].Negation? }

  predicate NoThen(frames: seq<Frame>) { forall i :: 0 <= i < |frames| ==> !frames[i].Then? }

  /** An open `if` takes any arithmetic operator that follows. */
  lemma ArithmeticStaysInside(frames: seq<Frame>, f: Formula, op: Op)
    requires AllEnd(frames) && NoInfix(frames) && NoNegation(frames) && frames != [] && IF_LEVEL < OpLevel(op)
    ensures Settle(frames, f, OPERATOR(op)).frames != []
  {
    SettleStops(frames, f, OPERATOR(op), 0);
  }

  /** Any other operator completes it. */
  lemma OtherOperatorCompletes(frames: seq<Frame>, f: Formula, op: Op)
    requires AllEnd(frames) && NoInfix(frames) && (frames == [] || OpLevel(op) < IF_LEVEL)
    ensures Settle(frames, f, OPERATOR(op)) == Phrase([], Close(frames, f))
  {
    if frames != [] {
      var n := |frames| - 1;
      OtherOperatorCompletes(frames[..n], Build(frames[n], f), op);
    }
  }

  /** An `else` goes to the innermost open `then`. */
  lemma ElseGoesInside(frames: seq<Frame>, f: Formula)
    requires AllEnd(frames) && |Settle(frames, f, ELSE).frames| <= 1
    ensures forall i :: 0 < i < |frames| ==> !frames[i].Then?
  {
    forall i | 0 < i < |frames|
      ensures !frames[i].Then?
    {
      if frames[i].Then? { SettleStops(frames, f, ELSE, i); }
    }
  }

  // ----- completing the phrase of each kind of formula -----

  lemma CloseIf(c: Formula, frames: seq<Frame>, last: Formula)
    requires AllEnd(frames)
    ensures Close([Then(c)] + frames, last) == If(c, Close(frames, last), None)
  {
    CloseOne(Then(c), frames, last);
  }

  lemma CloseInfix(below: seq<Frame>, l: Formula, op: Op, frames: seq<Frame>, last: Formula)
    requires AllEnd(below) && AllEnd(frames)
    ensures Close(below + [Infix(l, op)] + frames, last) == Close(below, Binop(op, l, Close(frames, last)))
  {
    assert below + [Infix(l, op)] + frames == below + ([Infix(l, op)] + frames);
    CloseAppend(below, [Infix(l, op)] + frames, last);
    CloseOne(Infix(l, op), frames, last);
  }

  /** With no other open `then` in the branch, the `else` belongs to the `if` it was printed for. */
  lemma CloseIfElse(c: Formula, frames: seq<Frame>, last: Formula, es: seq<Frame>, e: Formula)
    requires AllEnd(frames) && NoInfix(frames) && AllEnd(es)
    requires |Settle([Then(c)] + frames, last, ELSE).frames| == 1
    ensures var p := Settle([Then(c)] + frames, last, ELSE);
      p == Phrase([Then(c)], Close(frames, last)) &&
      Close([Else(c, p.last)] + es, e) == If(c, Close(frames, last), Some(Close(es, e)))
  {
    var p := Settle([Then(c)] + frames, last, ELSE);
    SettleCloses([Then(c)] + frames, last, ELSE);
    CloseIf(c, frames, last);
    assert p.frames == [Then(c)] + [];
    CloseIf(c, [], p.last);
    CloseOne(Else(c, p.last), es, e);
  }

  /** Otherwise the formula read is an `if` without `else`. */
  lemma CloseStolenElse(frames: seq<Frame>, above: seq<Frame>, last: Formula)
    requires AllEnd(frames) && AllEnd(above) && frames != [] && frames[0].Then?
    ensures var f := Close(frames + above, last); f.If? && f.elseClause == None
  {
    assert frames + above == [frames[0]] + (frames[1..] + above);
    CloseOne(frames[0], frames[1..] + above, last);
  }

  lemma NegationIsNotFirst(frames: seq<Frame>, f: Formula, op: Op, l: Formula, r: Formula)
    requires AllEnd(frames) && NoInfix(frames) && frames != [] && Close(frames, f) == Binop(op, l, r)
    ensures l == Integer(0)
  {
    assert frames == [frames[0]] + frames[1..];
    CloseOne(frames[0], frames[1..], f);
  }

  // ----- both directions -----

  /** What the phrase left open by a stable formula looks like. */
  ghost predicate Settled(f: Formula, p: Phrase) {
    AllEnd(p.frames) && NoInfix(p.frames) && NoNegation(p.frames) && Close(p.frames, p.last) == f &&
    (p.frames == [] <==> !f.If?) && (NoThen(p.frames) <==> !EndsOpen(f))
  }

  /** A stable formula leaves only the `if`s of its right edge open, and completing them gives it back. */
  lemma StableOpen(f: Formula)
    requires Stable(f)
    ensures Settled(f, Open(f)) && Reread(f) == f
    decreases f
  {
    hide Settled, Open;
    match f
    case Binop(op, l, r) =>
      StableOpen(l);
      StableOpen(r);
      StableBinop(op, l, r);
    case If(c, t, None) =>
      StableOpen(c);
      StableOpen(t);
      StableIf(c, t);
    case If(c, t, Some(e)) =>
      StableOpen(c);
      StableOpen(t);
      StableOpen(e);
      StableIfElse(c, t, e);
    case _ => StableAtom(f);
  }

  lemma StableAtom(f: Formula)
    requires Stable(f) && !f.Binop? && !f.If?
    ensures Settled(f, Open(f)) && Reread(f) == f
  {
  }

  lemma StableBinop(op: Op, l: Formula, r: Formula)
    requires Settled(l, Open(l)) && Settled(r, Open(r)) && !(l.If? && IF_LEVEL < OpLevel(op))
    ensures Settled(Binop(op, l, r), Open(Binop(op, l, r))) && Reread(Binop(op, l, r)) == Binop(op, l, r)
  {
    hide Settle, Close, NoThen;
    OtherOperatorCompletes(Open(l).frames, Open(l).last, op);
    assert [] + [Infix(l, op)] + Open(r).frames == [Infix(l, op)] + Open(r).frames;
    BinopOpens(op, l, r);
    CloseInfix([], l, op, Open(r).frames, Open(r).last);
    NoFrames(Binop(op, l, r));
  }

  lemma NoFrames(f: Formula)
    ensures Close([], f) == f && AllEnd([]) && NoInfix([]) && NoNegation([]) && NoThen([])
  {
  }

  lemma StableIf(c: Formula, t: Formula)
    requires Reread(c) == c && Settled(t, Open(t))
    ensures Settled(If(c, t, None), Open(If(c, t, None))) && Reread(If(c, t, None)) == If(c, t, None)
  {
    hide Close;
    CloseIf(c, Open(t).frames, Open(t).last);
    assert ([Then(c)] + Open(t).frames)[0] == Then(c);
  }

  lemma StableIfElse(c: Formula, t: Formula, e: Formula)
    requires Reread(c) == c && Settled(t, Open(t)) && Settled(e, Open(e)) && !EndsOpen(t)
    ensures Settled(If(c, t, Some(e)), Open(If(c, t, Some(e)))) && Reread(If(c, t, Some(e))) == If(c, t, Some(e))
  {
    hide Close, Settle, WithElse, NoThen, NoNegation, Open;
    var branch := Branch(c, Open(t));
    OpenIfElse(c, t, e);
    ElseSettles(c, t, Open(t));
    CloseIfElse(c, Open(t).frames, Open(t).last, Open(e).frames, Open(e).last);
    AlignedElse(c, t, branch, Open(e).frames);
    AboveElse(c, t, Open(e).frames);
  }

  lemma OpenIfElse(c: Formula, t: Formula, e: Formula)
    ensures Open(If(c, t, Some(e))) == Phrase(WithElse(Branch(Reread(c), Open(t)), Open(e).frames), Open(e).last)
  {
    hide Close, Settle, WithElse, Branch;
  }

  lemma ElseSettles(c: Formula, t: Formula, p: Phrase)
    requires Settled(t, p) && !EndsOpen(t)
    ensures |Settle([Then(c)] + p.frames, p.last, ELSE).frames| == 1
  {
    hide Close, Settle;
    SettleDrops([Then(c)] + p.frames, p.last, ELSE);
  }

  lemma AlignedElse(c: Formula, t: Formula, p: Phrase, more: seq<Frame>)
    requires p == Phrase([Then(c)], t) && AllEnd(p.frames) && NoInfix(p.frames) && AllEnd(more) && NoInfix(more)
    ensures WithElse(p, more) == [Else(c, t)] + more
  {
    assert p.frames[..0] + ([Else(c, t)] + more) == [Else(c, t)] + more;
  }

  lemma AboveElse(c: Formula, t: Formula, frames: seq<Frame>)
    ensures NoThen([Else(c, t)] + frames) <==> NoThen(frames)
    ensures NoNegation([Else(c, t)] + frames) <==> NoNegation(frames)
  {
    var all := [Else(c, t)] + frames;
    assert forall i :: 0 <= i < |frames| ==> frames[i] == all[i + 1];
  }

  /** Nothing else comes back: a formula that parses to itself is stable. */
  lemma OnlyStableReread(f: Formula)
    requires Reread(f) == f
    ensures Stable(f)
    decreases f
  {
    hide Settle, Close;
    match f
    case Binop(op, l, r) =>
      UnchangedBinop(op, l, r);
      OnlyStableReread(l);
      OnlyStableReread(r);
      StableOpen(l);
      if l.If? && IF_LEVEL < OpLevel(op) { ArithmeticStaysInside(Open(l).frames, Open(l).last, op); }
    case If(c, t, None) =>
      CloseIf(Reread(c), Open(t).frames, Open(t).last);
      OnlyStableReread(c);
      OnlyStableReread(t);
    case If(c, t, Some(e)) =>
      UnchangedIfElse(c, t, e);
      OnlyStableReread(c);
      OnlyStableReread(t);
      OnlyStableReread(e);
      StableOpen(t);
    case Integer(v) =>
      assert [Negation] + [] == [Negation];
      CloseOne(Negation, [], Integer(if v < 0 then -v else v));
    case _ =>
  }

  lemma CloseNone(f: Formula)
    ensures Close([], f) == f
  {
  }

  lemma UnchangedBinop(op: Op, l: Formula, r: Formula)
    requires Reread(Binop(op, l, r)) == Binop(op, l, r)
    ensures Settle(Open(l).frames, Open(l).last, OPERATOR(op)).frames == []
    ensures Reread(l) == l && Reread(r) == r
  {
    hide Settle, Close;
    var left := Open(l);
    var p := Settle(left.frames, left.last, OPERATOR(op));
    CloseInfix(p.frames, p.last, op, Open(r).frames, Open(r).last);
    CloseNone(Close(p.frames, Binop(op, p.last, Reread(r))));
    SettleCloses(left.frames, left.last, OPERATOR(op));
    if p.frames != [] {
      assert p.frames[0] == left.frames[0];
      NegationIsNotFirst(p.frames, Binop(op, p.last, Reread(r)), op, l, r);
    }
    CloseNone(p.last);
    CloseNone(Binop(op, p.last, Reread(r)));
  }

  lemma UnchangedIfElse(c: Formula, t: Formula, e: Formula)
    requires Reread(If(c, t, Some(e))) == If(c, t, Some(e))
    ensures NoThen(Open(t).frames) && Reread(c) == c && Reread(t) == t && Reread(e) == e
  {
    hide Settle, Close, AllEnd, NoInfix, NoThen;
    var p := Branch(Reread(c), Open(t));
    assert Close(WithElse(p, Open(e).frames), Open(e).last) == If(c, t, Some(e));
    ElseUnchanged(Reread(c), Open(t), Open(e), c, t, e);
  }

  lemma ElseUnchanged(d: Formula, body: Phrase, other: Phrase, c: Formula, t: Formula, e: Formula)
    requires AllEnd(body.frames) && NoInfix(body.frames) && AllEnd(other.frames) && NoInfix(other.frames)
    requires Close(WithElse(Branch(d, body), other.frames), other.last) == If(c, t, Some(e))
    ensures NoThen(body.frames) && d == c && Close(body.frames, body.last) == t && Close(other.frames, other.last) == e
  {
    hide Settle, Close;
    var p := Branch(d, body);
    var k := |p.frames| - 1;
    var above := [Else(p.frames[k].cond, p.last)] + other.frames;
    if 0 < k {
      CloseStolenElse(p.frames[..k], above, other.last);
    } else {
      assert p.frames[..k] + above == above;
      CloseIfElse(d, body.frames, body.last, other.frames, other.last);
      var frames := [Then(d)] + body.frames;
      ElseGoesInside(frames, body.last);
      assert forall i :: 0 <= i < |body.frames| ==> body.frames[i] == frames[i + 1];
    }
  }

  // ----- the parser only makes legible formulas -----

  ghost predicate Clean(t: Token) {
    (t.IDENT? ==> IsName(t.name)) && (t.FLOAT? ==> IsFloatText(t.text))
  }

  ghost predicate AllClean(ts: seq<Token>) { forall i :: 0 <= i < |ts| ==> Clean(ts[i]) }

  lemma ScanClean(s: string)
    requires s != [] && Scan(s).Some?
    ensures Clean(Scan(s).value.1)
  {
    hide Span, IsFloatText;
    if IsLetter(s[0]) {
      var n := Span(s, IsIdChar);
      assert 0 < n && s[..n][0] == s[0];
    } else if IsDigit(s[0]) {
      var n := Span(s, IsDigit);
      if n + 1 < |s| && s[n] == '.' && IsDigit(s[n + 1]) {
        assert s[n + 1..][0] == s[n + 1];
        SpanIsNumber(s);
        SpanIsNumber(s[n + 1..]);
        FloatClean(s, n, Span(s[n + 1..], IsDigit));
      }
    }
  }

  lemma FloatClean(s: string, n: nat, k: nat)
    requires n + 1 + k <= |s| && s[n] == '.' && IsNumber(s[..n]) && IsNumber(s[n + 1..][..k])
    ensures IsFloatText(s[..n + 1 + k])
  {
    hide IsFloatText, IsNumber;
    PointBetween(s[..n], s[n + 1..][..k]);
    assert s[..n + 1 + k] == s[..n] + (['.'] + s[n + 1..][..k]);
  }

  lemma SpanIsNumber(s: string)
    requires s != [] && IsDigit(s[0])
    ensures IsNumber(s[..Span(s, IsDigit)])
  {
    hide Span;
    assert 0 < Span(s, IsDigit);
  }

  lemma PointBetween(a: string, b: string)
    requires IsNumber(a) && IsNumber(b)
    ensures IsFloatText(a + (['.'] + b))
  {
    var text := a + (['.'] + b);
    assert text[..|a|] == a && text[|a|] == '.' && text[|a| + 1..] == b;
  }

  lemma LexClean(s: string)
    requires Lex(s).Some?
    ensures AllClean(Lex(s).value)
    decreases |s|
  {
    hide Scan;
    if s != [] {
      if IsSpace(s[0]) {
        LexClean(s[1..]);
      } else {
        ScanClean(s);
        LexClean(s[Scan(s).value.0..]);
      }
    }
  }

  ghost predicate LegibleFrame(fr: Frame) {
    match fr
    case EqualSecond(l) => Legible(l)
    case Infix(l, _) => Legible(l)
    case Then(c) => Legible(c)
    case Else(c, t) => Legible(c) && Legible(t)
    case _ => true
  }

  ghost predicate LegibleStack(stack: seq<Frame>) { forall i :: 0 <= i < |stack| ==> LegibleFrame(stack[i]) }

  lemma OperandLegible(stack: seq<Frame>, ts: seq<Token>)
    requires LegibleStack(stack) && AllClean(ts) && Operand(stack, ts).Some?
    ensures Legible(Operand(stack, ts).value)
    decreases |ts|, |stack|, 0
  {
    hide Continue, IsName, IsFloatText, Value;
    match ts[0]
    case IDENT(name) => ContinueLegible(stack, Variable(name), ts[1..]);
    case INTEGER(digits) => ContinueLegible(stack, Integer(Value(digits)), ts[1..]);
    case FLOAT(text) => ContinueLegible(stack, Float(text), ts[1..]);
    case BOOL_T => ContinueLegible(stack, Bool(true), ts[1..]);
    case BOOL_F => ContinueLegible(stack, Bool(false), ts[1..]);
    case LPAREN => OperandLegible(stack + [Group], ts[1..]);
    case OPERATOR(_) => OperandLegible(stack + [Negation], ts[1..]);
    case IF => OperandLegible(stack + [Cond], ts[1..]);
    case STR_EQUAL => OperandLegible(stack + [EqualFirst], ts[2..]);
    case STR_FLOOR => OperandLegible(stack + [Ignored], ts[2..]);
    case STR_CEILING => OperandLegible(stack + [Ignored], ts[2..]);
  }

  lemma BuildLegible(fr: Frame, f: Formula)
    requires Ends(fr) && LegibleFrame(fr) && Legible(f)
    ensures Legible(Build(fr, f))
  {
  }

  lemma ContinueLegible(stack: seq<Frame>, f: Formula, ts: seq<Token>)
    requires LegibleStack(stack) && Legible(f) && AllClean(ts) && Continue(stack, f, ts).Some?
    ensures Legible(Continue(stack, f, ts).value)
    decreases |ts|, |stack|, 1
  {
    hide Operand, Legible, AfterOperand, Build, Clean;
    if stack == [] {
      if ts != [] { OperandLegible([Infix(f, ts[0].op)], ts[1..]); }
    } else {
      var top := stack[|stack| - 1];
      var below := stack[..|stack| - 1];
      if AfterOperand(top, First(ts)) == DoReduce {
        BuildLegible(top, f);
        ContinueLegible(below, Build(top, f), ts);
      } else if ts[0].OPERATOR? {
        OperandLegible(stack + [Infix(f, ts[0].op)], ts[1..]);
      } else {
        match top
        case Cond => OperandLegible(below + [Then(f)], ts[1..]);
        case Then(c) => OperandLegible(below + [Else(c, f)], ts[1..]);
        case Group => ContinueLegible(below, f, ts[1..]);
        case Ignored => ContinueLegible(below, f, ts[1..]);
        case EqualFirst => OperandLegible(below + [EqualSecond(f)], ts[1..]);
        case EqualSecond(l) =>
          EqualLegible(l, f);
          ContinueLegible(below, Binop(Equal, l, f), ts[1..]);
      }
    }
  }

  lemma EqualLegible(l: Formula, r: Formula)
    requires Legible(l) && Legible(r)
    ensures Legible(Binop(Equal, l, r))
  {
  }

  /** Whatever text is parsed, the formula has unreserved identifiers for names and plain texts for floats. */
  lemma ParseLegible(s: string)
    requires Parse(s).Some?
    ensures Legible(Parse(s).value)
  {
    LexClean(s);
    OperandLegible([], Lex(s).value);
  }

  /** The text printed for a formula parses back to it exactly when its names are legible and its shape is stable. */
  lemma RoundTrip(f: Formula)
    ensures Parse(Print(f)) == Some(f) <==> Legible(f) && Stable(f)
  {
    if Parse(Print(f)) == Some(f) { ParseLegible(Print(f)); }
    if Legible(f) {
      ParsePrinted(f);
      if Stable(f) { StableOpen(f); }
      if Reread(f) == f { OnlyStableReread(f); }
    }
  }

  /** The smallest formula an arithmetic operator regroups: `(if c then x + y)` reads as `if c then (x + y)`. */
  lemma RegroupedExample(c: Formula, x: Formula, y: Formula)
    requires c.Variable? && x.Variable? && y.Variable? && Legible(c) && Legible(x) && Legible(y)
    ensures Parse(Print(Binop(Plus, If(c, x, None), y))) == Some(If(c, Binop(Plus, x, y), None))
  {
    hide Parse, Print, Legible, Reread;
    var f := Binop(Plus, If(c, x, None), y);
    LegibleParts(c, x, y);
    ParsePrinted(f);
    RegroupedReread(c, x, y);
  }

  lemma LegibleParts(c: Formula, x: Formula, y: Formula)
    requires Legible(c) && Legible(x) && Legible(y)
    ensures Legible(Binop(Plus, If(c, x, None), y))
  {
  }

  lemma RegroupedReread(c: Formula, x: Formula, y: Formula)
    requires c.Variable? && x.Variable? && y.Variable?
    ensures Reread(Binop(Plus, If(c, x, None), y)) == If(c, Binop(Plus, x, y), None)
  {
    hide Close;
    var f := Binop(Plus, If(c, x, None), y);
    CloseNone(c);
    assert Open(c) == Phrase([], c) && Open(x) == Phrase([], x) && Open(y) == Phrase([], y);
    assert Reread(c) == c;
    var open := [Then(c)];
    assert open + [] == open;
    assert Open(If(c, x, None)) == Phrase(open, x);
    assert Settle(open, x, OPERATOR(Plus)) == Phrase(open, x);
    assert Open(f) == Phrase([], Close(open + [Infix(x, Plus)] + [], y));
    CloseInfix(open, x, Plus, [], y);
    CloseNone(y);
    CloseIf(c, [], Binop(Plus, x, y));
    CloseNone(Binop(Plus, x, y));
    CloseNone(If(c, Binop(Plus, x, y), None));
  }
}
