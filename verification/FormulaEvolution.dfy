// Mutation of a formula in place: one of its values changes, and what that means for printing and reparsing it.

module FormulaEvolution {
  import opened FormulaSyntax
  import opened FormulaParser
  import opened FormulaRoundTrip

  /**
   * `g` is `f` with one value replaced. An integer gets another value; a boolean may get its old one again; a float gets
   * another value, whose printed text may be the old one, since printing rounds. Zero always becomes something else.
   */
  predicate OneValueReplaced(f: Formula, g: Formula) {
    match (f, g)
    case (Integer(v), Integer(w)) => v != w
    case (Bool(_), Bool(_)) => true
    case (Float(a), Float(b)) => a != b || !IsZeroText(a)
    case (Binop(o1, l1, r1), Binop(o2, l2, r2)) =>
      o1 == o2 && ((OneValueReplaced(l1, l2) && r1 == r2) || (l1 == l2 && OneValueReplaced(r1, r2)))
    case (If(c1, t1, e1), If(c2, t2, e2)) =>
      (OneValueReplaced(c1, c2) && t1 == t2 && e1 == e2) || (c1 == c2 && OneValueReplaced(t1, t2) && e1 == e2) ||
      (c1 == c2 && t1 == t2 && e1.Some? && e2.Some? && OneValueReplaced(e1.value, e2.value))
    case _ => false
  }

  predicate IsZeroText(text: string) { text == "0.0" || text == "-0.0" }

  predicate HasValue(f: Formula) {
    match f
    case Variable(_) => false
    case Binop(_, l, r) => HasValue(l) || HasValue(r)
    case If(c, t, e) => HasValue(c) || HasValue(t) || (e.Some? && HasValue(e.value))
    case _ => true
  }

  /** The formula holds a boolean or a float other than zero. */
  predicate HasBoolOrFloat(f: Formula) {
    match f
    case Bool(_) => true
    case Float(a) => !IsZeroText(a)
    case Binop(_, l, r) => HasBoolOrFloat(l) || HasBoolOrFloat(r)
    case If(c, t, e) => HasBoolOrFloat(c) || HasBoolOrFloat(t) || (e.Some? && HasBoolOrFloat(e.value))
    case _ => false
  }

  /** A mutation can leave the printed formula as it was exactly if it holds a boolean or a float other than zero. */
  lemma {:induction false} CanStaySame(f: Formula)
    ensures OneValueReplaced(f, f) <==> HasBoolOrFloat(f)
  {
    match f
    case Binop(_, l, r) =>
      CanStaySame(l);
      CanStaySame(r);
    case If(c, t, e) =>
      CanStaySame(c);
      CanStaySame(t);
      if e.Some? { CanStaySame(e.value); }
    case _ =>
  }

  /** `true` can become `true`: the answer is that the formula was mutated. */
  lemma SameExample(f: Formula)
    requires f == If(Variable("a"), Bool(true), None)
    ensures HasValue(f) && OneValueReplaced(f, f) && Print(f) == "if a then true"
  {
    CanStaySame(f);
    assert Print(Variable("a")) == "a" && Print(Bool(true)) == "true";
  }

  predicate NoNegative(f: Formula) {
    match f
    case Integer(v) => v >= 0
    case Binop(_, l, r) => NoNegative(l) && NoNegative(r)
    case If(c, t, e) => NoNegative(c) && NoNegative(t) && (e.Some? ==> NoNegative(e.value))
    case _ => true
  }

  /** A formula object; its children are objects of their own. */
  datatype Body =
    | VariableBody(ident: string)
    | IntegerBody(value: int)
    | BoolBody(flag: bool)
    | FloatBody(text: string)
    | BinopBody(op: Op, left: Node, right: Node)
    | IfBody(cond: Node, thenClause: Node, elseClause: Option<Node>)

  class Node {
    var body: Body
    ghost var repr: set<Node>

    /** The objects of the formula form a tree. */
    ghost predicate Valid()
      reads this, repr
      decreases repr
    {
      this in repr &&
      match body
      case BinopBody(_, l, r) =>
        l in repr && l.repr < repr && this !in l.repr && l.Valid() &&
        r in repr && r.repr < repr && this !in r.repr && r.Valid() && l.repr !! r.repr
      case IfBody(c, t, e) =>
        c in repr && c.repr < repr && this !in c.repr && c.Valid() &&
        t in repr && t.repr < repr && this !in t.repr && t.Valid() && c.repr !! t.repr &&
        (e.Some? ==>
          var n := e.value;
          n in repr && n.repr < repr && this !in n.repr && n.Valid() && n.repr !! c.repr && n.repr !! t.repr)
      case _ => true
    }

    ghost function View(): Formula
      requires Valid()
      reads this, repr
      decreases repr
    {
      match body
      case VariableBody(ident) => Variable(ident)
      case IntegerBody(v) => Integer(v)
      case BoolBody(b) => Bool(b)
      case FloatBody(t) => Float(t)
      case BinopBody(op, l, r) => Binop(op, l.View(), r.View())
      case IfBody(c, t, e) => If(c.View(), t.View(), if e.Some? then Some(e.value.View()) else None)
    }

    /** A random choice of the program. */
    method Toss() returns (b: bool)
    {
      b :| true;
    }

    /** An integer gets another value: a random one, one between 0 and twice the old one, or the next one up or down. */
    method EvolveInteger(v: int) returns (w: int)
      ensures w != v && (-100 <= w <= 100 || 0 <= w <= 2 * v || 2 * v <= w <= 0 || w == v - 1 || w == v + 1)
    {
      var mutate := Toss();
      if mutate {
        w := if v == 0 then 1 else 0;
        w :| w != v && -100 <= w <= 100;
        return;
      }
      w := v;
      w :| 0 <= w <= 2 * v || 2 * v <= w <= 0;
      if w == v {
        var down := Toss();
        w := if down then v - 1 else v + 1;
      }
    }

    /** The printed text of another value. */
    method EvolveFloat(text: string) returns (text1: string)
      ensures text1 != text || !IsZeroText(text)
    {
      text1 := text + "1";
      text1 :| text1 != text || !IsZeroText(text);
    }

    /** Mutates one value of the formula in place; false if it has none. */
    method EvolveValue() returns (mutated: bool)
      requires Valid()
      modifies repr
      ensures Valid() && repr == old(repr) && mutated == HasValue(old(View()))
      ensures if mutated then OneValueReplaced(old(View()), View()) else View() == old(View())
      decreases repr, 2
    {
      match body {
        case VariableBody(_) => mutated := false;
        case IntegerBody(v) =>
          var w := EvolveInteger(v);
          body := IntegerBody(w);
          mutated := true;
        case BoolBody(_) =>
          var flag := Toss();
          body := BoolBody(flag);
          mutated := true;
        case FloatBody(before) =>
          var text := EvolveFloat(before);
          body := FloatBody(text);
          mutated := true;
        case BinopBody(_, _, _) => mutated := EvolveOperands();
        case IfBody(_, _, _) => mutated := EvolveClauses();
      }
    }

    /** Tries the operands in random order until one has a value. */
    method EvolveOperands() returns (mutated: bool)
      requires Valid() && body.BinopBody?
      modifies repr
      ensures Valid() && repr == old(repr) && mutated == HasValue(old(View()))
      ensures if mutated then OneValueReplaced(old(View()), View()) else View() == old(View())
      decreases repr, 1
    {
      var leftFirst := Toss();
      mutated := EvolveOperand(leftFirst);
      if !mutated { mutated := EvolveOperand(!leftFirst); }
    }

    method EvolveOperand(isLeft: bool) returns (mutated: bool)
      requires Valid() && body.BinopBody?
      modifies repr
      ensures Valid() && repr == old(repr) && body == old(body) && View().Binop?
      ensures mutated == HasValue(if isLeft then old(View()).left else old(View()).right)
      ensures if mutated then OneValueReplaced(old(View()), View()) else View() == old(View())
      decreases repr, 0
    {
      if isLeft {
        mutated := body.left.EvolveValue();
      } else {
        mutated := body.right.EvolveValue();
      }
    }

    /** Tries the clauses of an `if` in random order until one has a value. */
    method EvolveClauses() returns (mutated: bool)
      requires Valid() && body.IfBody?
      modifies repr
      ensures Valid() && repr == old(repr) && mutated == HasValue(old(View()))
      ensures if mutated then OneValueReplaced(old(View()), View()) else View() == old(View())
      decreases repr, 1
    {
      assert multiset([0, 1, 2]) == multiset{0, 1, 2};
      var choices: seq<int> :| |choices| == 3 && multiset(choices) == multiset{0, 1, 2};
      AllClauses(choices);
      var i := 0;
      while i < |choices|
        invariant 0 <= i <= |choices| && Valid() && repr == old(repr) && body == old(body) && View() == old(View())
        invariant forall j :: 0 <= j < i ==> !ClauseHasValue(View(), choices[j])
      {
        mutated := EvolveClause(choices[i]);
        if mutated { return; }
        i := i + 1;
      }
      return false;
    }

    method EvolveClause(choice: int) returns (mutated: bool)
      requires Valid() && body.IfBody?
      modifies repr
      ensures Valid() && repr == old(repr) && body == old(body) && mutated == ClauseHasValue(old(View()), choice)
      ensures if mutated then OneValueReplaced(old(View()), View()) else View() == old(View())
      decreases repr, 0
    {
      mutated := false;
      if choice == 0 {
        mutated := body.cond.EvolveValue();
      } else if choice == 1 {
        mutated := body.thenClause.EvolveValue();
      } else if choice == 2 && body.elseClause.Some? {
        mutated := body.elseClause.value.EvolveValue();
      }
    }
  }

  predicate ClauseHasValue(f: Formula, choice: int)
    requires f.If?
  {
    (choice == 0 && HasValue(f.cond)) || (choice == 1 && HasValue(f.thenClause)) ||
    (choice == 2 && f.elseClause.Some? && HasValue(f.elseClause.value))
  }

  lemma AllClauses(choices: seq<int>)
    requires multiset(choices) == multiset{0, 1, 2}
    ensures 0 in choices && 1 in choices && 2 in choices
  {
    assert 0 in multiset(choices) && 1 in multiset(choices) && 2 in multiset(choices);
  }

  // ----- what mutation means for reparsing -----

  lemma StableHasNoNegative(f: Formula)
    requires Stable(f)
    ensures NoNegative(f)
  {
  }

  lemma ReplacedKeepsForm(f: Formula, g: Formula)
    requires OneValueReplaced(f, g)
    ensures EndsOpen(f) == EndsOpen(g) && f.If? == g.If?
  {
  }

  /** Replacing a value in a stable formula can only make it unstable by a negative integer. */
  lemma {:induction false} ReplacedKeepsStable(f: Formula, g: Formula)
    requires OneValueReplaced(f, g) && Stable(f)
    ensures Stable(g) <==> NoNegative(g)
  {
    match (f, g)
    case (Binop(_, l1, r1), Binop(_, l2, r2)) =>
      StableHasNoNegative(l1);
      StableHasNoNegative(r1);
      if r1 == r2 && OneValueReplaced(l1, l2) {
        ReplacedKeepsForm(l1, l2);
        ReplacedKeepsStable(l1, l2);
      } else {
        ReplacedKeepsStable(r1, r2);
      }
    case (If(c1, t1, e1), If(c2, t2, e2)) =>
      StableHasNoNegative(c1);
      StableHasNoNegative(t1);
      if e1.Some? { StableHasNoNegative(e1.value); }
      if t1 == t2 && e1 == e2 && OneValueReplaced(c1, c2) {
        ReplacedKeepsStable(c1, c2);
      } else if c1 == c2 && e1 == e2 && OneValueReplaced(t1, t2) {
        ReplacedKeepsForm(t1, t2);
        ReplacedKeepsStable(t1, t2);
      } else {
        ReplacedKeepsStable(e1.value, e2.value);
      }
    case _ =>
  }

  /** A formula that came back unchanged still does after a mutation, exactly if its integers are not negative. */
  lemma EvolvedRoundTrip(f: Formula, g: Formula)
    requires Parse(Print(f)) == Some(f) && OneValueReplaced(f, g)
    ensures Parse(Print(g)) == Some(g) <==> Legible(g) && NoNegative(g)
  {
    hide OneValueReplaced, Stable, Legible, NoNegative;
    RoundTrip(f);
    RoundTrip(g);
    ReplacedKeepsStable(f, g);
  }
}
