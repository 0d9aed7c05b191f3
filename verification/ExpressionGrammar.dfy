/** What the expression parser returns for a sequence of tokens: a recursive definition of
    the layered grammar with its two limits. */
module ExpressionGrammar {
  import opened Options
  import opened Operators
  import opened Syntax

  /** The tree, the tokens that are left, and how many operators have been counted. */
  datatype Parsed = Fail | Done(expr: Expr, rest: seq<Token>, count: nat)

  datatype ParsedList = FailList | DoneList(exprs: Exprs, rest: seq<Token>, count: nat)

  predicate At(ts: seq<Token>, t: Token) {
    |ts| > 0 && ts[0] == t
  }

  function OperatorAt(k: nat, ts: seq<Token>): Option<BinaryOp> {
    if ts == [] then None else OperatorIn(k, ts[0])
  }

  function PrefixAt(ts: seq<Token>): Option<UnaryOp> {
    if ts == [] then None else PrefixOf(ts[0])
  }

  /** A whole expression, one level deeper. */
  function Expression(ts: seq<Token>, depth: nat, count: nat): (r: Parsed)
    ensures r.Done? ==> |r.rest| < |ts|
    decreases |ts|, 20
  {
    if depth >= MAX_NESTING then Fail else Layered(0, ts, depth + 1, count)
  }

  /** Binary operators from layer `k` on. */
  function Layered(k: nat, ts: seq<Token>, depth: nat, count: nat): (r: Parsed)
    requires k <= LAYERS
    ensures r.Done? ==> |r.rest| < |ts|
    decreases |ts|, 19 - k
  {
    if k == LAYERS then Prefixed(ts, depth, count)
    else match Layered(k + 1, ts, depth, count)
      case Fail => Fail
      case Done(l, rest, c) => Operands(k, l, rest, depth, c)
  }

  /** The operators of one layer after a left operand. */
  function Operands(k: nat, left: Expr, ts: seq<Token>, depth: nat, count: nat): (r: Parsed)
    requires k < LAYERS
    ensures r.Done? ==> |r.rest| <= |ts|
    decreases |ts|, 19
  {
    match OperatorAt(k, ts)
    case None => Done(left, ts, count)
    case Some(op) =>
      if count >= MAX_OPERATORS then Fail
      else match Layered(k + 1, ts[1..], depth, count + 1)
        case Fail => Fail
        case Done(r, rest, c) => Operands(k, Binary(left, r, op), rest, depth, c)
  }

  /** One operator and its right operand. */
  lemma {:induction false} OperandsUnfold(k: nat, left: Expr, op: BinaryOp, ts: seq<Token>, depth: nat, count: nat)
    requires k < LAYERS && OperatorAt(k, ts) == Some(op)
    ensures Operands(k, left, ts, depth, count) ==
      if count >= MAX_OPERATORS then Fail
      else match Layered(k + 1, ts[1..], depth, count + 1)
        case Fail => Fail
        case Done(r, rest, c) => Operands(k, Binary(left, r, op), rest, depth, c)
  {
  }

  function Prefixed(ts: seq<Token>, depth: nat, count: nat): (r: Parsed)
    ensures r.Done? ==> |r.rest| < |ts|
    decreases |ts|, 10
  {
    match PrefixAt(ts)
    case None => Postfixed(ts, depth, count)
    case Some(op) =>
      if depth >= MAX_NESTING then Fail
      else if op == Negate && |ts| > 1 && ts[1].Integer? && IsMinLiteral(ts[1].text) then Done(IntLit(INT64_MIN), ts[2..], count)
      else match Prefixed(ts[1..], depth + 1, count)
        case Fail => Fail
        case Done(a, rest, c) => Done(Unary(op, a), rest, c)
  }

  function Postfixed(ts: seq<Token>, depth: nat, count: nat): (r: Parsed)
    ensures r.Done? ==> |r.rest| < |ts|
    decreases |ts|, 9
  {
    match Primary(ts, depth, count)
    case Fail => Fail
    case Done(e, rest, c) => Suffixes(e, rest, depth, c)
  }

  function Suffixes(e: Expr, ts: seq<Token>, depth: nat, count: nat): (r: Parsed)
    ensures r.Done? ==> |r.rest| <= |ts|
    decreases |ts|, 8
  {
    if At(ts, LeftBracket) then IndexSuffix(e, ts, depth, count)
    else if At(ts, Dot) then MemberSuffix(e, ts, depth, count)
    else Done(e, ts, count)
  }

  function IndexSuffix(e: Expr, ts: seq<Token>, depth: nat, count: nat): (r: Parsed)
    requires At(ts, LeftBracket)
    ensures r.Done? ==> |r.rest| <= |ts|
    decreases |ts|, 7
  {
    if count >= MAX_OPERATORS then Fail
    else match Expression(ts[1..], depth, count + 1)
      case Fail => Fail
      case Done(i, rest, c) => if At(rest, RightBracket) then Suffixes(Index(e, i), rest[1..], depth, c) else Fail
  }

  /** A member of a variable followed by a parenthesis is a call into a module. */
  function MemberSuffix(e: Expr, ts: seq<Token>, depth: nat, count: nat): (r: Parsed)
    requires At(ts, Dot)
    ensures r.Done? ==> |r.rest| <= |ts|
    decreases |ts|, 7
  {
    if count >= MAX_OPERATORS || |ts| < 2 || !ts[1].Identifier? then Fail
    else if At(ts[2..], LeftParen) && e.Variable? then
      match List(ts[3..], RightParen, false, depth, count + 1)
      case FailList => Fail
      case DoneList(args, rest, c) => Suffixes(Call(Qualified(e.name, ts[1].text), args), rest, depth, c)
    else Suffixes(Member(e, ts[1].text), ts[2..], depth, count + 1)
  }

  function Qualified(m: string, f: string): string {
    m + "__" + f
  }

  function Primary(ts: seq<Token>, depth: nat, count: nat): (r: Parsed)
    ensures r.Done? ==> |r.rest| < |ts|
    decreases |ts|, 6
  {
    if ts == [] then Fail
    else match ts[0]
      case Integer(text) =>
        (match Magnitude(text)
         case Some(v) => if |text| < BUFFER_SIZE && v <= INT64_MAX then Done(IntLit(v), ts[1..], count) else Fail
         case None => Fail)
      case Float(text) => if |text| < BUFFER_SIZE then Done(FloatLit(text), ts[1..], count) else Fail
      case String(text) => Done(StringLit(Unescape(text)), ts[1..], count)
      case LeftBracket => Elements(ts[1..], depth, count)
      case LeftParen => Parenthesised(ts[1..], depth, count)
      case Identifier(x) => if At(ts[1..], LeftParen) then Called(x, ts[2..], depth, count) else Done(Named(x), ts[1..], count)
      case _ => Fail
  }

  function Named(x: string): Expr {
    if x == "true" then BoolLit(true) else if x == "false" then BoolLit(false) else if x == "null" then NullLit else Variable(x)
  }

  function Elements(ts: seq<Token>, depth: nat, count: nat): (r: Parsed)
    ensures r.Done? ==> |r.rest| <= |ts|
    decreases |ts|, 30
  {
    match List(ts, RightBracket, true, depth, count)
    case FailList => Fail
    case DoneList(es, rest, c) => Done(ArrayLit(es), rest, c)
  }

  function Parenthesised(ts: seq<Token>, depth: nat, count: nat): (r: Parsed)
    ensures r.Done? ==> |r.rest| <= |ts|
    decreases |ts|, 30
  {
    match Expression(ts, depth, count)
    case Fail => Fail
    case Done(e, rest, c) => if At(rest, RightParen) then Done(e, rest[1..], c) else Fail
  }

  function Called(f: string, ts: seq<Token>, depth: nat, count: nat): (r: Parsed)
    ensures r.Done? ==> |r.rest| <= |ts|
    decreases |ts|, 30
  {
    match List(ts, RightParen, false, depth, count)
    case FailList => Fail
    case DoneList(args, rest, c) => Done(Call(f, args), rest, c)
  }

  /** A list up to its closing token. */
  function List(ts: seq<Token>, close: Token, trailing: bool, depth: nat, count: nat): (r: ParsedList)
    ensures r.DoneList? ==> |r.rest| < |ts|
    decreases |ts|, 29
  {
    if At(ts, close) then DoneList(Nil, ts[1..], count) else Items(ts, close, trailing, depth, count)
  }

  /** At least one item; a comma before the closing token is for arrays only. */
  function Items(ts: seq<Token>, close: Token, trailing: bool, depth: nat, count: nat): (r: ParsedList)
    ensures r.DoneList? ==> |r.rest| < |ts|
    decreases |ts|, 28
  {
    match Expression(ts, depth, count)
    case Fail => FailList
    case Done(e, rest, c) =>
      if At(rest, close) then DoneList(Cons(e, Nil), rest[1..], c)
      else if !At(rest, Comma) then FailList
      else if At(rest[1..], close) then (if trailing then DoneList(Cons(e, Nil), rest[2..], c) else FailList)
      else match Items(rest[1..], close, trailing, depth, c)
        case FailList => FailList
        case DoneList(es, more, n) => DoneList(Cons(e, es), more, n)
  }
}
