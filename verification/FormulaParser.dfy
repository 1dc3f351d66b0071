// The formula parser: an LR automaton whose conflicts the precedence table settles.

module FormulaParser {
  import opened FormulaSyntax

  // ----- the precedence table -----

  datatype Assoc = Left | Right | NonAssoc

  function OpLevel(op: Op): nat {
    match op
    case And => 1
    case Or => 1
    case Equal => 2
    case Less => 2
    case Greater => 2
    case AtMost => 2
    case AtLeast => 2
    case Plus => 4
    case Minus => 4
    case Times => 5
    case Divide => 5
    case Power => 6
  }

  const IF_LEVEL := 3

  function AssocOf(level: nat): Assoc {
    if level == 2 then NonAssoc else if level == IF_LEVEL then Right else Left
  }

  datatype Choice = DoShift | DoReduce | Conflict

  /** Shift a token of level `token`, or first reduce a rule of level `rule`? */
  function Resolve(rule: nat, token: nat): Choice {
    if token < rule || (token == rule && AssocOf(rule) == Left) then DoReduce
    else if token == rule && AssocOf(rule) == NonAssoc then Conflict
    else DoShift
  }

  // ----- the parser's stack -----

  /** A rule's right side, recognised up to the operand that comes next. */
  datatype Frame =
    | Group                             // '('
    | Ignored                           // floor '(' or ceiling '('
    | EqualFirst                        // equal '('
    | EqualSecond(left: Formula)        // equal '(' Formula ','
    | Negation                          // '-'
    | Infix(left: Formula, op: Op)      // Formula op
    | Cond                              // IF
    | Then(cond: Formula)               // IF Formula THEN
    | Else(cond: Formula, thenClause: Formula)

  /** The operand `f` can complete the rule of this frame without another token. */
  predicate Ends(fr: Frame) { fr.Negation? || fr.Infix? || fr.Then? || fr.Else? }

  function Level(fr: Frame): nat
    requires Ends(fr)
  {
    match fr
    case Negation => OpLevel(Minus)
    case Infix(_, op) => OpLevel(op)
    case Then(_) => IF_LEVEL
    case Else(_, _) => IF_LEVEL
  }

  /** The semantic action of the frame's rule. */
  function Build(fr: Frame, f: Formula): Formula
    requires Ends(fr)
  {
    match fr
    case Negation => Binop(Minus, Integer(0), f)
    case Infix(l, op) => Binop(op, l, f)
    case Then(c) => If(c, f, None)
    case Else(c, t) => If(c, t, Some(f))
  }

  /** What the automaton does with a finished operand when token `t` (None at the end) comes next. */
  function AfterOperand(fr: Frame, t: Option<Token>): Choice {
    match t
    case Some(OPERATOR(op)) => if Ends(fr) then Resolve(Level(fr), OpLevel(op)) else DoShift
    case Some(ELSE) => if fr.Then? then Resolve(IF_LEVEL, IF_LEVEL) else if Ends(fr) then DoReduce else Conflict
    case Some(THEN) => if fr.Cond? then DoShift else if Ends(fr) then DoReduce else Conflict
    case Some(RPAREN) =>
      if fr.Group? || fr.Ignored? || fr.EqualSecond? then DoShift
      else if Ends(fr) then DoReduce else Conflict
    case Some(COMMA) => if fr.EqualFirst? then DoShift else if Ends(fr) then DoReduce else Conflict
    case _ => if Ends(fr) then DoReduce else Conflict
  }

  function First(ts: seq<Token>): Option<Token> {
    if ts == [] then None else Some(ts[0])
  }

  /** The parser waits for an operand. */
  function Operand(stack: seq<Frame>, ts: seq<Token>): Option<Formula>
    decreases |ts|, |stack|, 0
  {
    if ts == [] then None
    else match ts[0]
      case IDENT(name) => Continue(stack, Variable(name), ts[1..])
      case INTEGER(digits) =>
        if IsNumber(digits) then Continue(stack, Integer(Value(digits)), ts[1..]) else None
      case FLOAT(text) => Continue(stack, Float(text), ts[1..])
      case BOOL_T => Continue(stack, Bool(true), ts[1..])
      case BOOL_F => Continue(stack, Bool(false), ts[1..])
      case LPAREN => Operand(stack + [Group], ts[1..])
      case OPERATOR(op) => if op == Minus then Operand(stack + [Negation], ts[1..]) else None
      case IF => Operand(stack + [Cond], ts[1..])
      case STR_FLOOR => if First(ts[1..]) == Some(LPAREN) then Operand(stack + [Ignored], ts[2..]) else None
      case STR_CEILING => if First(ts[1..]) == Some(LPAREN) then Operand(stack + [Ignored], ts[2..]) else None
      case STR_EQUAL => if First(ts[1..]) == Some(LPAREN) then Operand(stack + [EqualFirst], ts[2..]) else None
      case _ => None
  }

  /** The parser has the operand `f`; the result is the formula parsed, None on a syntax error. */
  function Continue(stack: seq<Frame>, f: Formula, ts: seq<Token>): Option<Formula>
    decreases |ts|, |stack|, 1
  {
    if stack == [] then
      if ts == [] then Some(f)
      else if ts[0].OPERATOR? then Operand([Infix(f, ts[0].op)], ts[1..])
      else None
    else
      var top := stack[|stack| - 1];
      var below := stack[..|stack| - 1];
      match AfterOperand(top, First(ts))
      case Conflict => None
      case DoReduce => if Ends(top) then Continue(below, Build(top, f), ts) else None
      case DoShift =>
        if ts == [] then None
        else if ts[0].OPERATOR? then Operand(stack + [Infix(f, ts[0].op)], ts[1..])
        else match top
          case Cond => Operand(below + [Then(f)], ts[1..])
          case Then(c) => Operand(below + [Else(c, f)], ts[1..])
          case Group => Continue(below, f, ts[1..])
          case Ignored => Continue(below, f, ts[1..])
          case EqualFirst => Operand(below + [EqualSecond(f)], ts[1..])
          case EqualSecond(l) => Continue(below, Binop(Equal, l, f), ts[1..])
          case _ => None
  }

  function Parse(s: string): Option<Formula> {
    match Lex(s)
    case None => None
    case Some(ts) => Operand([], ts)
  }
}
