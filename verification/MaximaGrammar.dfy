// The grammar of Maxima's replies: derivation trees, the text they derive and the value they denote.

module MaximaGrammar {
  import opened ParserTables

  const IPROMPT := 3
  const OPROMPT := 4
  const START := 35
  const INPUT_PROMPT := 36
  const OUTPUT_PROMPT := 37
  const OUTPUT_CONTENT := 38
  const FORMULA := 39
  const FORMULA_IF := 40
  const FORMULA_BINOP := 41
  const FORMULA_LIST := 42
  const OPT_FORMULA_LIST := 43
  const NIL := 44
  const INTEGER := 45
  const BOOL := 46
  const FLOAT := 47

  /** A token as the scanner returns it: its code and its text. */
  datatype Token = Token(code: int, text: string) {
    function Symbol(): int { Translate(code) }
  }

  datatype Op = Plus | Minus | Times | Divide | Equal | Less | Greater | Power | AtMost | AtLeast | And | Or

  /** Numbers stay texts: the conversions of jconvert.h are not part of this model. */
  datatype Formula =
    | Variable(name: string)
    | Zero  // the shared FormulaInteger::zero()
    | IntegerLiteral(digits: string)
    | BoolLiteral(b: bool)
    | FloatLiteral(digits: string)
    | Binop(op: Op, left: Formula, right: Formula)
    | IfThen(cond: Formula, thn: Formula)
    | IfThenElse(cond: Formula, thn: Formula, els: Formula)

  /** The parser's union of semantic values; reading another member than the one last written is a type error. */
  datatype Value =
    | Str(str: string)
    | Int(digits: string)
    | Bool(b: bool)
    | Float(digits: string)
    | One(formula: Formula)
    | Many(formulas: seq<Formula>)
    | Unset

  datatype Tree = Leaf(token: Token) | Node(rule: int, kids: seq<Tree>) {
    function Symbol(): int {
      match this
      case Leaf(t) => t.Symbol()
      case Node(r, _) => YyR1(r)
    }
  }

  function Symbols(ts: seq<Tree>): (ss: seq<int>)
    ensures |ss| == |ts|
    ensures forall i :: 0 <= i < |ts| ==> ss[i] == ts[i].Symbol()
  {
    if ts == [] then [] else [ts[0].Symbol()] + Symbols(ts[1..])
  }

  /** The tree is a derivation of the grammar: every node applies one rule to matching children. */
  ghost predicate Derivation(t: Tree)
    decreases t, 1
  {
    match t
    case Leaf(_) => true
    case Node(r, kids) => 2 <= r <= 42 && Symbols(kids) == Rhs(r) && Derivations(kids)
  }

  ghost predicate Derivations(ts: seq<Tree>)
    decreases ts, 0
  {
    ts == [] || (Derivation(ts[0]) && Derivations(ts[1..]))
  }

  /** The tokens at the leaves, from left to right. */
  function Yield(t: Tree): seq<Token>
    decreases t, 1
  {
    match t
    case Leaf(tok) => [tok]
    case Node(_, kids) => Yields(kids)
  }

  function Yields(ts: seq<Tree>): seq<Token>
    decreases ts, 0
  {
    if ts == [] then [] else Yield(ts[0]) + Yields(ts[1..])
  }

  /** What the semantic action of rule `r` needs of its operands. */
  predicate HasKind(symbol: int, v: Value) {
    if symbol in {FORMULA, FORMULA_IF, FORMULA_BINOP} then v.One?
    else if symbol in {START, OUTPUT_CONTENT, FORMULA_LIST, OPT_FORMULA_LIST} then v.Many?
    else if symbol == INTEGER then v.Int?
    else if symbol == BOOL then v.Bool?
    else if symbol == FLOAT then v.Float?
    else if symbol == NIL then true
    else v.Str?
  }

  predicate HaveKinds(symbols: seq<int>, vs: seq<Value>) {
    |symbols| == |vs| && forall i :: 0 <= i < |vs| ==> HasKind(symbols[i], vs[i])
  }

  /**
   * The semantic action of rule `r` on the values `v` of its right side. `stale` is the default `$$ = $1`
   * read one slot above the stack when the right side is empty.
   */
  function Action(r: int, v: seq<Value>, stale: Value): (result: Value)
    requires 2 <= r <= 42 && HaveKinds(Rhs(r), v)
    ensures HasKind(YyR1(r), result)
  {
    match r
    case 2 => Many([])
    case 3 => v[1]
    case 6 => Many([v[0].formula])
    case 7 => v[1]
    case 8 => v[2]
    case 9 => One(Variable(v[0].str))
    case 10 => One(IntegerLiteral(v[0].digits))
    case 11 => One(BoolLiteral(v[0].b))
    case 12 => One(FloatLiteral(v[0].digits))
    case 13 => v[1]
    case 14 => v[0]
    case 15 => v[0]
    case 16 => One(IfThen(v[1].formula, v[3].formula))
    case 17 => One(IfThenElse(v[1].formula, v[3].formula, v[5].formula))
    case 18 => Infix(Plus, v)
    case 19 => Infix(Minus, v)
    case 20 => Infix(Times, v)
    case 21 => Infix(Divide, v)
    case 22 => Infix(Equal, v)
    case 23 => Infix(Less, v)
    case 24 => Infix(Greater, v)
    case 25 => Infix(Power, v)
    case 26 => Infix(AtMost, v)
    case 27 => Infix(AtLeast, v)
    case 28 => Infix(And, v)
    case 29 => Infix(Or, v)
    case 30 => One(Binop(Equal, v[2].formula, v[4].formula))
    case 31 => v[2]
    case 32 => v[2]
    case 33 => One(Binop(Minus, Zero, v[1].formula))
    case 34 => Many([v[0].formula])
    case 35 => Many(v[0].formulas + [v[2].formula])
    case 36 => Many([])
    case 37 => v[0]
    case 39 => Int(v[0].str)
    case 40 => Bool(true)
    case 41 => Bool(false)
    case 42 => Float(v[0].str)
    case _ => if |v| == 0 then stale else v[0]
  }

  function Infix(op: Op, v: seq<Value>): Value
    requires |v| == 3 && v[0].One? && v[2].One?
  {
    One(Binop(op, v[0].formula, v[2].formula))
  }

  /** The value a derivation denotes. */
  function Denotes(t: Tree): (v: Value)
    requires Derivation(t)
    ensures HasKind(t.Symbol(), v)
    decreases t, 1
  {
    match t
    case Leaf(tok) => Str(tok.text)
    case Node(r, kids) => Action(r, Denote(kids), Unset)
  }

  function Denote(ts: seq<Tree>): (vs: seq<Value>)
    requires Derivations(ts)
    ensures HaveKinds(Symbols(ts), vs)
    decreases ts, 0
  {
    if ts == [] then [] else [Denotes(ts[0])] + Denote(ts[1..])
  }
}
