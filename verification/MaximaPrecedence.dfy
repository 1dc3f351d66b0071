// The precedence table of the formula grammar, and the derivations that respect it.

module MaximaPrecedence {
  import opened ParserTables
  import opened MaximaGrammar

  const MINUS := 23
  const IF := 12
  const THEN := 13
  const ELSE := 14

  /** Binding strength: `or`/`and`, comparisons, `if`, `-`/`+`, `*` and `/`, `^`. Other symbols have none. */
  function Level(t: int): int {
    if t == 18 || t == 19 then 1
    else if t == 20 || t == 21 || t == 22 || t == 5 || t == 6 then 2
    else if t == IF || t == THEN || t == ELSE then 3
    else if t == MINUS || t == 24 then 4
    else if t == 25 || t == 26 then 5
    else if t == 27 then 6
    else 0
  }

  predicate IsInfix(t: int) { Level(t) > 0 && Level(t) != 3 }

  /** Comparisons do not associate; the other infix operators associate to the left. */
  predicate IsLeft(t: int) { IsInfix(t) && Level(t) != 2 }

  /** A phrase that ends in an operand of `a` is complete when `b` comes next. */
  predicate EndsBefore(a: int, b: int) {
    if IsInfix(b) then Level(a) > Level(b) || (Level(a) == Level(b) && IsLeft(b))
    else !(a == THEN && b == ELSE)
  }

  /** `b` may be the main operator of an operand to the right of `a`. */
  predicate BindsTighter(a: int, b: int) {
    Level(a) == 0 || b == 0 || Level(b) > Level(a)
  }

  /** The infix operator at the root of an unparenthesized phrase, 0 for none. */
  function Head(t: Tree): int {
    match t
    case Leaf(_) => 0
    case Node(r, kids) =>
      if r == 14 && |kids| == 1 then Head(kids[0])
      else if 18 <= r <= 29 && |kids| == 3 then kids[1].Symbol()
      else 0
  }

  /** The operator whose last operand ends rule `r`, 0 for none. */
  function RuleOperator(r: int): int {
    if 18 <= r <= 29 then Rhs(r)[1]
    else if r == 33 then MINUS else if r == 16 then THEN else if r == 17 then ELSE
    else 0
  }

  /** The operators that have an operand at the right edge of the phrase. */
  function Tails(t: Tree): set<int> {
    match t
    case Leaf(_) => {}
    case Node(r, kids) =>
      if kids == [] then {}
      else if RuleOperator(r) != 0 then {RuleOperator(r)} + Tails(kids[|kids| - 1])
      else if r == 14 || r == 15 then Tails(kids[|kids| - 1])
      else {}
  }

  predicate CompleteBefore(t: Tree, b: int) {
    forall a | a in Tails(t) :: EndsBefore(a, b)
  }

  /** One node groups its operands the way the precedence table asks. */
  predicate GroupsWell(r: int, kids: seq<Tree>) {
    (18 <= r <= 29 && |kids| == 3 ==>
      CompleteBefore(kids[0], kids[1].Symbol()) && BindsTighter(kids[1].Symbol(), Head(kids[2]))) &&
    (r == 33 && |kids| == 2 ==> BindsTighter(MINUS, Head(kids[1]))) &&
    (r == 16 && |kids| == 4 ==> BindsTighter(THEN, Head(kids[3]))) &&
    (r == 17 && |kids| == 6 ==>
      BindsTighter(THEN, Head(kids[3])) && CompleteBefore(kids[3], ELSE) && BindsTighter(ELSE, Head(kids[5])))
  }

  ghost predicate Respects(t: Tree)
    decreases t, 1
  {
    match t
    case Leaf(_) => true
    case Node(r, kids) => GroupsWell(r, kids) && AllRespect(kids)
  }

  ghost predicate AllRespect(ts: seq<Tree>)
    decreases ts, 0
  {
    ts == [] || (Respects(ts[0]) && AllRespect(ts[1..]))
  }
}
