/** The expression parser over its token stream: a position, and the counters of the two
    limits. The six layers of binary operators share one method. */
module ExpressionParser {
  import opened Options
  import opened Operators
  import opened Syntax
  import opened ExpressionGrammar

  /** A list with one more item at the end (ast_append). */
  function Snoc(es: Exprs, e: Expr): Exprs {
    match es
    case Nil => Cons(e, Nil)
    case Cons(x, tail) => Cons(x, Snoc(tail, e))
  }

  function Concat(es: Exprs, more: Exprs): Exprs {
    match es
    case Nil => more
    case Cons(x, tail) => Cons(x, Concat(tail, more))
  }

  lemma {:induction false} ConcatSnoc(es: Exprs, e: Expr, more: Exprs)
    ensures Concat(Snoc(es, e), more) == Concat(es, Cons(e, more)) && Concat(es, Cons(e, Nil)) == Snoc(es, e)
  {
    if es.Cons? { ConcatSnoc(es.tail, e, more); }
  }

  /** A list after the items already read. */
  function Onto(es: Exprs, r: ParsedList): ParsedList {
    match r
    case FailList => FailList
    case DoneList(more, rest, c) => DoneList(Concat(es, more), rest, c)
  }

  /** Nothing that closes a list starts an expression. */
  lemma {:induction false} ClosingFails(k: nat, ts: seq<Token>, depth: nat, count: nat)
    requires k <= LAYERS && ts != [] && (ts[0] == RightParen || ts[0] == RightBracket)
    ensures Layered(k, ts, depth, count) == Fail
    decreases LAYERS - k
  {
    if k < LAYERS {
      ClosingFails(k + 1, ts, depth, count);
    } else {
      assert Primary(ts, depth, count) == Fail;
      assert Postfixed(ts, depth, count) == Fail;
    }
  }

  lemma ItemsClosing(ts: seq<Token>, depth: nat, count: nat)
    requires At(ts, RightParen)
    ensures Items(ts, RightParen, false, depth, count) == FailList
  {
    ClosingFails(0, ts, depth + 1, count);
  }

  /** An item in front of a list. */
  function Front(e: Expr, r: ParsedList): ParsedList {
    match r
    case FailList => FailList
    case DoneList(es, rest, c) => DoneList(Cons(e, es), rest, c)
  }

  lemma OneMore(es: Exprs, e: Expr, r: ParsedList)
    ensures Onto(Snoc(es, e), r) == Onto(es, Front(e, r))
    ensures Concat(es, Cons(e, Nil)) == Snoc(es, e)
  {
    if r.DoneList? { ConcatSnoc(es, e, r.exprs); }
    ConcatSnoc(es, e, Nil);
  }

  class Parser {
    const tokens: seq<Token>
    var position: nat
    var nestingDepth: nat
    var nestingFailed: bool
    var expressionDepth: nat
    var operatorCount: nat

    constructor (source: seq<Token>)
      ensures Valid() && Rest() == source && nestingDepth == 0 && !nestingFailed && expressionDepth == 0
    {
      tokens := source;
      position, nestingDepth, nestingFailed, expressionDepth, operatorCount := 0, 0, false, 0, 0;
    }

    ghost predicate Valid()
      reads this
    {
      position <= |tokens|
    }

    /** The tokens that are left. */
    ghost function Rest(): seq<Token>
      requires Valid()
      reads this
    {
      tokens[position..]
    }

    ghost predicate Ready()
      reads this
    {
      Valid() && !nestingFailed
    }

    /** The parser has done what the grammar says. */
    ghost predicate Follows(r: Option<Expr>, p: Parsed)
      requires Valid()
      reads this
    {
      match p
      case Fail => r == None
      case Done(e, rest, c) => r == Some(e) && Rest() == rest && operatorCount == c && !nestingFailed
    }

    ghost predicate FollowsList(ok: bool, es: Exprs, p: ParsedList)
      requires Valid()
      reads this
    {
      match p
      case FailList => !ok
      case DoneList(xs, rest, c) => ok && es == xs && Rest() == rest && operatorCount == c && !nestingFailed
    }

    method TokenIs(t: Token) returns (b: bool)
      requires Valid()
      ensures b == At(Rest(), t)
    {
      b := position < |tokens| && tokens[position] == t;
    }

    method Advance()
      requires Valid() && Rest() != []
      modifies this`position
      ensures Valid() && Rest() == old(Rest())[1..]
    {
      position := position + 1;
    }

    method EnterNesting() returns (ok: bool)
      requires Valid()
      modifies this`nestingDepth, this`nestingFailed
      ensures ok == (!old(nestingFailed) && old(nestingDepth) < MAX_NESTING) && nestingFailed == !ok
      ensures nestingDepth == if ok then old(nestingDepth) + 1 else old(nestingDepth)
    {
      if nestingFailed { return false; }
      if nestingDepth >= MAX_NESTING {
        nestingFailed := true;
        return false;
      }
      nestingDepth := nestingDepth + 1;
      ok := true;
    }

    method LeaveNesting()
      modifies this`nestingDepth
      ensures nestingDepth == if old(nestingDepth) > 0 then old(nestingDepth) - 1 else 0
    {
      if nestingDepth > 0 { nestingDepth := nestingDepth - 1; }
    }

    method NoteOperator() returns (ok: bool)
      requires Ready()
      modifies this`operatorCount, this`nestingFailed
      ensures ok == (old(operatorCount) < MAX_OPERATORS) && nestingFailed == !ok
      ensures operatorCount == if ok then old(operatorCount) + 1 else old(operatorCount)
    {
      if operatorCount >= MAX_OPERATORS {
        nestingFailed := true;
        return false;
      }
      operatorCount := operatorCount + 1;
      ok := true;
    }

    /** Counting starts again at each outermost expression. */
    method ParseExpression() returns (r: Option<Expr>)
      requires Valid()
      modifies this
      ensures Valid() && nestingDepth == old(nestingDepth) && expressionDepth == old(expressionDepth)
      ensures old(nestingFailed) ==> r == None && nestingFailed
      ensures !old(nestingFailed) ==>
        Follows(r, Expression(old(Rest()), old(nestingDepth), if old(expressionDepth) == 0 then 0 else old(operatorCount)))
      decreases |tokens| - position, 20
    {
      if expressionDepth == 0 { operatorCount := 0; }
      var ok := EnterNesting();
      if !ok { return None; }
      expressionDepth := expressionDepth + 1;
      r := ParseLayer(0);
      expressionDepth := expressionDepth - 1;
      LeaveNesting();
      if nestingFailed { return None; }
    }

    /** Binary operators from layer `k` on: the loop of one layer over the next. */
    method ParseLayer(k: nat) returns (r: Option<Expr>)
      requires Ready() && k <= LAYERS && expressionDepth > 0
      modifies this
      ensures Valid() && nestingDepth == old(nestingDepth) && expressionDepth == old(expressionDepth)
      ensures Follows(r, Layered(k, old(Rest()), nestingDepth, old(operatorCount)))
      decreases |tokens| - position, 19 - k
    {
      if k == LAYERS {
        r := ParseUnary();
        return;
      }
      r := ParseLayer(k + 1);
      if r.None? { return; }
      while position < |tokens| && OperatorIn(k, tokens[position]).Some?
        invariant Ready() && r.Some? && nestingDepth == old(nestingDepth) && expressionDepth == old(expressionDepth)
        invariant |Rest()| < |old(Rest())|
        invariant Layered(k, old(Rest()), nestingDepth, old(operatorCount)) == Operands(k, r.value, Rest(), nestingDepth, operatorCount)
        decreases |tokens| - position
      {
        r := ParseOperand(k, r.value);
        if r.None? { return; }
      }
    }

    /** An operator of layer `k` and its right operand. */
    method ParseOperand(k: nat, left: Expr) returns (r: Option<Expr>)
      requires Ready() && k < LAYERS && expressionDepth > 0 && OperatorAt(k, Rest()).Some?
      modifies this
      ensures Valid() && nestingDepth == old(nestingDepth) && expressionDepth == old(expressionDepth)
      ensures var s := Operands(k, left, old(Rest()), nestingDepth, old(operatorCount));
        if r.None? then s == Fail
        else !nestingFailed && |Rest()| < |old(Rest())| && s == Operands(k, r.value, Rest(), nestingDepth, operatorCount)
      decreases |tokens| - position, 18
    {
      var op := OperatorIn(k, tokens[position]).value;
      OperandsUnfold(k, left, op, Rest(), nestingDepth, operatorCount);
      Advance();
      var ok := NoteOperator();
      if !ok { return None; }
      var right := ParseLayer(k + 1);
      if right.Some? { r := Some(Binary(left, right.value, op)); } else { r := None; }
    }

    method ParseUnary() returns (r: Option<Expr>)
      requires Ready() && expressionDepth > 0
      modifies this
      ensures Valid() && nestingDepth == old(nestingDepth) && expressionDepth == old(expressionDepth)
      ensures Follows(r, Prefixed(old(Rest()), nestingDepth, old(operatorCount)))
      decreases |tokens| - position, 10
    {
      if position < |tokens| && PrefixOf(tokens[position]).Some? {
        var ok := EnterNesting();
        if !ok { return None; }
        var op := PrefixOf(tokens[position]).value;
        Advance();
        if op == Negate && position < |tokens| && tokens[position].Integer? {
          if IsMinLiteral(tokens[position].text) {
            Advance();
            LeaveNesting();
            return Some(IntLit(INT64_MIN));
          }
        }
        r := ParseUnary();
        LeaveNesting();
        if r.Some? { r := Some(Unary(op, r.value)); }
      } else {
        r := ParsePostfix();
      }
    }

    method ParsePostfix() returns (r: Option<Expr>)
      requires Ready() && expressionDepth > 0
      modifies this
      ensures Valid() && nestingDepth == old(nestingDepth) && expressionDepth == old(expressionDepth)
      ensures Follows(r, Postfixed(old(Rest()), nestingDepth, old(operatorCount)))
      decreases |tokens| - position, 9
    {
      r := ParsePrimary();
      if r.None? { return; }
      while true
        invariant Ready() && r.Some? && nestingDepth == old(nestingDepth) && expressionDepth == old(expressionDepth)
        invariant |Rest()| < |old(Rest())|
        invariant Postfixed(old(Rest()), nestingDepth, old(operatorCount)) == Suffixes(r.value, Rest(), nestingDepth, operatorCount)
        decreases |tokens| - position
      {
        var bracket := TokenIs(LeftBracket);
        var dot := TokenIs(Dot);
        if bracket {
          r := ParseIndex(r.value);
        } else if dot {
          r := ParseMember(r.value);
        } else {
          break;
        }
        if r.None? { return; }
      }
    }

    /** The suffix has been read: what is left of the loop is as before. */
    ghost predicate Suffixed(e: Expr, ts: seq<Token>, count: nat, r: Option<Expr>)
      requires Valid()
      reads this
    {
      var s := Suffixes(e, ts, nestingDepth, count);
      if r.None? then s == Fail
      else !nestingFailed && |Rest()| < |ts| && s == Suffixes(r.value, Rest(), nestingDepth, operatorCount)
    }

    method ParseIndex(e: Expr) returns (r: Option<Expr>)
      requires Ready() && expressionDepth > 0 && At(Rest(), LeftBracket)
      modifies this
      ensures Valid() && nestingDepth == old(nestingDepth) && expressionDepth == old(expressionDepth)
      ensures Suffixed(e, old(Rest()), old(operatorCount), r)
      decreases |tokens| - position, 8
    {
      var ok := NoteOperator();
      if !ok { return None; }
      Advance();
      var index := ParseExpression();
      if index.None? { return None; }
      var closed := TokenIs(RightBracket);
      if !closed { return None; }
      Advance();
      r := Some(Index(e, index.value));
    }

    method ParseMember(e: Expr) returns (r: Option<Expr>)
      requires Ready() && expressionDepth > 0 && At(Rest(), Dot)
      modifies this
      ensures Valid() && nestingDepth == old(nestingDepth) && expressionDepth == old(expressionDepth)
      ensures Suffixed(e, old(Rest()), old(operatorCount), r)
      decreases |tokens| - position, 8
    {
      var ok := NoteOperator();
      if !ok { return None; }
      Advance();
      if !(position < |tokens| && tokens[position].Identifier?) { return None; }
      var name := tokens[position].text;
      Advance();
      var call := TokenIs(LeftParen);
      if !call || !e.Variable? { return Some(Member(e, name)); }
      Advance();
      var fits, args := ParseArguments();
      if !fits { return None; }
      r := Some(Call(Qualified(e.name, name), args));
    }

    /** The arguments of a call into a module, after the parenthesis. */
    method ParseArguments() returns (ok: bool, args: Exprs)
      requires Ready() && expressionDepth > 0
      modifies this
      ensures Valid() && nestingDepth == old(nestingDepth) && expressionDepth == old(expressionDepth)
      ensures FollowsList(ok, args, List(old(Rest()), RightParen, false, nestingDepth, old(operatorCount)))
      decreases |tokens| - position, 30
    {
      args := Nil;
      var closed := TokenIs(RightParen);
      if closed {
        Advance();
        return true, Nil;
      }
      while true
        invariant Ready() && nestingDepth == old(nestingDepth) && expressionDepth == old(expressionDepth)
        invariant |Rest()| <= |old(Rest())|
        invariant List(old(Rest()), RightParen, false, nestingDepth, old(operatorCount)) ==
          Onto(args, Items(Rest(), RightParen, false, nestingDepth, operatorCount))
        decreases |tokens| - position
      {
        var argument := ParseExpression();
        if argument.None? { return false, args; }
        ConcatSnoc(args, argument.value, Nil);
        closed := TokenIs(RightParen);
        if closed {
          args := Snoc(args, argument.value);
          Advance();
          return true, args;
        }
        var comma := TokenIs(Comma);
        if !comma { return false, args; }
        Advance();
        OneMore(args, argument.value, Items(Rest(), RightParen, false, nestingDepth, operatorCount));
        if At(Rest(), RightParen) { ItemsClosing(Rest(), nestingDepth, operatorCount); }
        args := Snoc(args, argument.value);
      }
    }

    /** An item and the comma after it, if any; `more` says that another item follows. */
    method ParseItem(close: Token, trailing: bool) returns (item: Option<Expr>, more: bool)
      requires Ready() && expressionDepth > 0 && close != Comma
      modifies this
      ensures Valid() && nestingDepth == old(nestingDepth) && expressionDepth == old(expressionDepth)
      ensures item.Some? ==> !nestingFailed && |Rest()| < |old(Rest())| && (more ==> !At(Rest(), close))
      ensures Items(old(Rest()), close, trailing, nestingDepth, old(operatorCount)) ==
        if item.None? then FailList
        else if more then Front(item.value, Items(Rest(), close, trailing, nestingDepth, operatorCount))
        else if At(Rest(), close) then DoneList(Cons(item.value, Nil), Rest()[1..], operatorCount)
        else FailList
      decreases |tokens| - position, 29
    {
      item := ParseExpression();
      if item.None? { return None, false; }
      var comma := TokenIs(Comma);
      if !comma { return item, false; }
      Advance();
      var closed := TokenIs(close);
      if closed && !trailing { return None, false; }
      more := !closed;
    }

    /** The items of a list up to its closing token; arrays allow a comma before it. */
    method ParseItems(close: Token, trailing: bool) returns (ok: bool, es: Exprs)
      requires Ready() && expressionDepth > 0 && close != Comma
      modifies this
      ensures Valid() && nestingDepth == old(nestingDepth) && expressionDepth == old(expressionDepth)
      ensures FollowsList(ok, es, Items(old(Rest()), close, trailing, nestingDepth, old(operatorCount)))
      decreases |tokens| - position, 30
    {
      es := Nil;
      var more := true;
      while more
        invariant Ready() && nestingDepth == old(nestingDepth) && expressionDepth == old(expressionDepth)
        invariant |Rest()| <= |old(Rest())|
        invariant Items(old(Rest()), close, trailing, nestingDepth, old(operatorCount)) ==
          if more then Onto(es, Items(Rest(), close, trailing, nestingDepth, operatorCount))
          else if At(Rest(), close) then DoneList(es, Rest()[1..], operatorCount)
          else FailList
        decreases |tokens| - position, more
      {
        var item;
        item, more := ParseItem(close, trailing);
        if item.None? { return false, es; }
        OneMore(es, item.value, if more then Items(Rest(), close, trailing, nestingDepth, operatorCount) else FailList);
        es := Snoc(es, item.value);
      }
      var closed := TokenIs(close);
      if !closed { return false, es; }
      Advance();
      ok := true;
    }

    /** A list after its opening token. */
    method ParseList(close: Token, trailing: bool) returns (ok: bool, es: Exprs)
      requires Ready() && expressionDepth > 0 && close != Comma
      modifies this
      ensures Valid() && nestingDepth == old(nestingDepth) && expressionDepth == old(expressionDepth)
      ensures FollowsList(ok, es, List(old(Rest()), close, trailing, nestingDepth, old(operatorCount)))
      decreases |tokens| - position, 31
    {
      var closed := TokenIs(close);
      if closed {
        Advance();
        return true, Nil;
      }
      ok, es := ParseItems(close, trailing);
    }

    method ParseName() returns (r: Option<Expr>)
      requires Ready() && expressionDepth > 0 && Rest() != [] && Rest()[0].Identifier?
      modifies this
      ensures Valid() && nestingDepth == old(nestingDepth) && expressionDepth == old(expressionDepth)
      ensures Follows(r, Primary(old(Rest()), nestingDepth, old(operatorCount)))
      decreases |tokens| - position, 5
    {
      var name := tokens[position].text;
      Advance();
      var call := TokenIs(LeftParen);
      if call {
        Advance();
        var ok, args := ParseList(RightParen, false);
        return if ok then Some(Call(name, args)) else None;
      }
      if name == "true" { return Some(BoolLit(true)); }
      if name == "false" { return Some(BoolLit(false)); }
      if name == "null" { return Some(NullLit); }
      r := Some(Variable(name));
    }

    method ParsePrimary() returns (r: Option<Expr>)
      requires Ready() && expressionDepth > 0
      modifies this
      ensures Valid() && nestingDepth == old(nestingDepth) && expressionDepth == old(expressionDepth)
      ensures Follows(r, Primary(old(Rest()), nestingDepth, old(operatorCount)))
      decreases |tokens| - position, 6
    {
      if position == |tokens| { return None; }
      match tokens[position] {
        case Integer(text) =>
          if |text| >= BUFFER_SIZE { return None; }
          var value := Magnitude(text);
          if value.None? || value.value > INT64_MAX { return None; }
          Advance();
          r := Some(IntLit(value.value));
        case Float(text) =>
          if |text| >= BUFFER_SIZE { return None; }
          Advance();
          r := Some(FloatLit(text));
        case String(text) =>
          Advance();
          r := Some(StringLit(Unescape(text)));
        case LeftBracket =>
          Advance();
          var ok, es := ParseList(RightBracket, true);
          r := if ok then Some(ArrayLit(es)) else None;
        case LeftParen =>
          Advance();
          r := ParseExpression();
          if r.None? { return; }
          var closed := TokenIs(RightParen);
          if !closed { return None; }
          Advance();
        case Identifier(_) =>
          r := ParseName();
        case _ =>
          r := None;
      }
    }
  }
}
