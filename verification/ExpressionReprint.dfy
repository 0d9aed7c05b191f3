/** Whatever the expression parser accepts can be written with as few parentheses as needed
    and parsed again, to the same tree and within the same limits. */
module ExpressionReprint {
  import opened Options
  import opened Operators
  import opened Syntax
  import opened ExpressionGrammar
  import opened ExpressionRoundTrip

  /** The tree can be written for layer `k` at this depth, and its operators were counted
      from `count` to `now`. */
  predicate Counted(e: Expr, k: nat, depth: nat, count: nat, now: nat) {
    Writable(e) && depth + Wrap(Write(e), k).nesting <= MAX_NESTING && count + Write(e).operators <= now <= MAX_OPERATORS
  }

  predicate ListCounted(es: Exprs, close: Token, depth: nat, count: nat, now: nat) {
    var t := WriteList(es, close);
    AllWritable(es) && depth + t.nesting <= MAX_NESTING && count + t.operators <= now <= MAX_OPERATORS
  }

  lemma CountedBinary(k: nat, l: Expr, r: Expr, op: BinaryOp, depth: nat, start: nat, mid: nat, now: nat)
    requires Layer(op) == k && Counted(l, k, depth, start, mid) && Counted(r, k + 1, depth, mid + 1, now)
    ensures Counted(Binary(l, r, op), k, depth, start, now)
  {
    BinaryNeeds(Write(l), Write(r), op, k);
    WriteBinary(l, r, op);
  }

  lemma {:induction false} WriteBinary(l: Expr, r: Expr, op: BinaryOp)
    ensures Write(Binary(l, r, op)) == BinaryText(Write(l), Write(r), op)
    ensures Writable(Binary(l, r, op)) == (Writable(l) && Writable(r))
  {
  }

  lemma BinaryNeeds(l: Text, r: Text, op: BinaryOp, k: nat)
    requires Layer(op) == k
    ensures var t := BinaryText(l, r, op);
      Wrap(t, k).nesting == Max(Wrap(l, k).nesting, Wrap(r, k + 1).nesting) && t.operators == l.operators + 1 + r.operators
  {
  }

  lemma {:induction false} CountedUnary(op: UnaryOp, a: Expr, depth: nat, count: nat, now: nat)
    requires Counted(a, LAYERS, depth + 1, count, now)
    ensures Counted(Unary(op, a), LAYERS, depth, count, now)
  {
    assert Write(Unary(op, a)) == UnaryText(op, Write(a));
  }

  lemma {:induction false} CountedIndex(a: Expr, i: Expr, depth: nat, start: nat, mid: nat, now: nat)
    requires Counted(a, LAYERS + 1, depth, start, mid) && Counted(i, 0, depth + 1, mid + 1, now)
    ensures Counted(Index(a, i), LAYERS + 1, depth, start, now)
  {
    assert Write(Index(a, i)) == IndexText(Write(a), Write(i));
  }

  lemma {:induction false} CountedMember(a: Expr, f: string, depth: nat, start: nat, now: nat)
    requires Counted(a, LAYERS + 1, depth, start, now) && now < MAX_OPERATORS
    ensures Counted(Member(a, f), LAYERS + 1, depth, start, now + 1)
  {
    assert Write(Member(a, f)) == MemberText(Write(a), f);
  }

  lemma CountedCall(f: string, args: Exprs, depth: nat, start: nat, mid: nat, now: nat)
    requires ListCounted(args, RightParen, depth, mid, now) && start <= mid
    ensures Counted(Call(f, args), LAYERS + 1, depth, start, now)
  {
    assert Write(Call(f, args)) == After([Identifier(f), LeftParen], WriteList(args, RightParen));
  }

  /** A tree that fits a tighter layer fits a looser one. */
  lemma CountedLooser(e: Expr, j: nat, k: nat, depth: nat, count: nat, now: nat)
    requires Counted(e, k, depth, count, now) && j <= k
    ensures Counted(e, j, depth, count, now)
  {
  }

  lemma {:induction false} ExpressionFits(ts: seq<Token>, depth: nat, count: nat)
    requires count <= MAX_OPERATORS
    ensures var r := Expression(ts, depth, count); r.Done? ==> Counted(r.expr, 0, depth + 1, count, r.count)
    decreases |ts|, 20
  {
    if depth < MAX_NESTING { LayeredFits(0, ts, depth + 1, count); }
  }

  lemma {:induction false} LayeredFits(k: nat, ts: seq<Token>, depth: nat, count: nat)
    requires k <= LAYERS && InLimits(depth, count)
    ensures var r := Layered(k, ts, depth, count); r.Done? ==> Counted(r.expr, k, depth, count, r.count)
    decreases |ts|, 19 - k
  {
    if k == LAYERS {
      PrefixedFits(ts, depth, count);
    } else {
      LayeredFits(k + 1, ts, depth, count);
      var r := Layered(k + 1, ts, depth, count);
      if r.Done? {
        CountedLooser(r.expr, k, k + 1, depth, count, r.count);
        OperandsFit(k, r.expr, r.rest, depth, count, r.count);
      }
    }
  }

  lemma {:induction false} OperandsFit(k: nat, left: Expr, ts: seq<Token>, depth: nat, start: nat, count: nat)
    requires k < LAYERS && Counted(left, k, depth, start, count)
    ensures var r := Operands(k, left, ts, depth, count); r.Done? ==> Counted(r.expr, k, depth, start, r.count)
    decreases |ts|, 19
  {
    var op := OperatorAt(k, ts);
    if op.None? {
      assert Operands(k, left, ts, depth, count) == Done(left, ts, count);
    } else {
      OperandsUnfold(k, left, op.value, ts, depth, count);
      if count < MAX_OPERATORS {
        LayeredFits(k + 1, ts[1..], depth, count + 1);
        var r := Layered(k + 1, ts[1..], depth, count + 1);
        if r.Done? {
          CountedBinary(k, left, r.expr, op.value, depth, start, count, r.count);
          OperandsFit(k, Binary(left, r.expr, op.value), r.rest, depth, start, r.count);
        }
      }
    }
  }

  lemma {:induction false} PrefixedFits(ts: seq<Token>, depth: nat, count: nat)
    requires InLimits(depth, count)
    ensures var r := Prefixed(ts, depth, count); r.Done? ==> Counted(r.expr, LAYERS, depth, count, r.count)
    decreases |ts|, 10
  {
    if PrefixAt(ts).None? {
      PostfixedFits(ts, depth, count);
      var r := Postfixed(ts, depth, count);
      if r.Done? { CountedLooser(r.expr, LAYERS, LAYERS + 1, depth, count, r.count); }
    } else if depth < MAX_NESTING {
      PrefixedFits(ts[1..], depth + 1, count);
      var r := Prefixed(ts[1..], depth + 1, count);
      if r.Done? { CountedUnary(PrefixAt(ts).value, r.expr, depth, count, r.count); }
    }
  }

  lemma {:induction false} PostfixedFits(ts: seq<Token>, depth: nat, count: nat)
    requires InLimits(depth, count)
    ensures var r := Postfixed(ts, depth, count); r.Done? ==> Counted(r.expr, LAYERS + 1, depth, count, r.count)
    decreases |ts|, 9
  {
    PrimaryFits(ts, depth, count);
    var r := Primary(ts, depth, count);
    if r.Done? { SuffixesFit(r.expr, r.rest, depth, count, r.count); }
  }

  lemma {:induction false} SuffixesFit(e: Expr, ts: seq<Token>, depth: nat, start: nat, count: nat)
    requires Counted(e, LAYERS + 1, depth, start, count)
    ensures var r := Suffixes(e, ts, depth, count); r.Done? ==> Counted(r.expr, LAYERS + 1, depth, start, r.count)
    decreases |ts|, 8
  {
    if At(ts, LeftBracket) {
      IndexFits(e, ts, depth, start, count);
    } else if At(ts, Dot) {
      MemberFits(e, ts, depth, start, count);
    }
  }

  lemma {:induction false} IndexFits(e: Expr, ts: seq<Token>, depth: nat, start: nat, count: nat)
    requires Counted(e, LAYERS + 1, depth, start, count) && At(ts, LeftBracket)
    ensures var r := IndexSuffix(e, ts, depth, count); r.Done? ==> Counted(r.expr, LAYERS + 1, depth, start, r.count)
    decreases |ts|, 7
  {
    if count < MAX_OPERATORS {
      ExpressionFits(ts[1..], depth, count + 1);
      var r := Expression(ts[1..], depth, count + 1);
      if r.Done? && At(r.rest, RightBracket) {
        CountedIndex(e, r.expr, depth, start, count, r.count);
        SuffixesFit(Index(e, r.expr), r.rest[1..], depth, start, r.count);
      }
    }
  }

  lemma {:induction false} MemberFits(e: Expr, ts: seq<Token>, depth: nat, start: nat, count: nat)
    requires Counted(e, LAYERS + 1, depth, start, count) && At(ts, Dot)
    ensures var r := MemberSuffix(e, ts, depth, count); r.Done? ==> Counted(r.expr, LAYERS + 1, depth, start, r.count)
    decreases |ts|, 7
  {
    if count < MAX_OPERATORS && |ts| >= 2 && ts[1].Identifier? {
      if At(ts[2..], LeftParen) && e.Variable? {
        QualifiedFits(Qualified(e.name, ts[1].text), ts[3..], depth, start, count + 1);
      } else {
        PlainMemberFits(e, ts, depth, start, count);
      }
    }
  }

  lemma {:induction false} PlainMemberFits(e: Expr, ts: seq<Token>, depth: nat, start: nat, count: nat)
    requires Counted(e, LAYERS + 1, depth, start, count) && |ts| >= 2 && ts[1].Identifier? && count < MAX_OPERATORS
    ensures var r := Suffixes(Member(e, ts[1].text), ts[2..], depth, count + 1);
      r.Done? ==> Counted(r.expr, LAYERS + 1, depth, start, r.count)
    decreases |ts|, 6
  {
    CountedMember(e, ts[1].text, depth, start, count);
    SuffixesFit(Member(e, ts[1].text), ts[2..], depth, start, count + 1);
  }

  lemma {:induction false} QualifiedFits(f: string, ts: seq<Token>, depth: nat, start: nat, count: nat)
    requires InLimits(depth, count) && start <= count
    ensures var r := List(ts, RightParen, false, depth, count);
      r.DoneList? ==>
      var s := Suffixes(Call(f, r.exprs), r.rest, depth, r.count);
      s.Done? ==> Counted(s.expr, LAYERS + 1, depth, start, s.count)
    decreases |ts|, 30
  {
    ListFits(ts, RightParen, false, depth, count);
    var r := List(ts, RightParen, false, depth, count);
    if r.DoneList? {
      CountedCall(f, r.exprs, depth, start, count, r.count);
      SuffixesFit(Call(f, r.exprs), r.rest, depth, start, r.count);
    }
  }

  lemma {:induction false} PrimaryFits(ts: seq<Token>, depth: nat, count: nat)
    requires InLimits(depth, count)
    ensures var r := Primary(ts, depth, count); r.Done? ==> Counted(r.expr, LAYERS + 1, depth, count, r.count)
    decreases |ts|, 6
  {
    if At(ts, LeftBracket) {
      ListFits(ts[1..], RightBracket, true, depth, count);
      var r := List(ts[1..], RightBracket, true, depth, count);
      if r.DoneList? { CountedArray(r.exprs, depth, count, r.count); }
    } else if At(ts, LeftParen) {
      ExpressionFits(ts[1..], depth, count);
      var r := Expression(ts[1..], depth, count);
      if r.Done? { CountedInside(r.expr, depth, count, r.count); }
    } else if ts != [] && ts[0].Identifier? && At(ts[1..], LeftParen) {
      ListFits(ts[2..], RightParen, false, depth, count);
      var r := List(ts[2..], RightParen, false, depth, count);
      if r.DoneList? { CountedCall(ts[0].text, r.exprs, depth, count, count, r.count); }
    } else if ts != [] && LeafOf(ts[0]).Some? {
      CountedLeaf(ts[0], depth, count);
    }
  }

  lemma {:induction false} CountedLeaf(t: Token, depth: nat, count: nat)
    requires LeafOf(t).Some? && InLimits(depth, count)
    ensures Counted(LeafOf(t).value, LAYERS + 1, depth, count, count)
  {
    LeafFacts(t);
  }

  lemma LeafFacts(t: Token)
    requires LeafOf(t).Some?
    ensures var e := LeafOf(t).value; Writable(e) && Write(e).tight == LAYERS + 1 && Write(e).nesting == Write(e).operators == 0
  {
    match t
    case Integer(_) =>
    case Float(_) =>
    case String(_) =>
    case Identifier(x) => if x == "true" || x == "false" || x == "null" { assert Named(x).BoolLit? || Named(x).NullLit?; }
  }

  lemma CountedInside(e: Expr, depth: nat, count: nat, now: nat)
    requires Counted(e, 0, depth + 1, count, now)
    ensures Counted(e, LAYERS + 1, depth, count, now)
  {
  }

  lemma CountedArray(es: Exprs, depth: nat, count: nat, now: nat)
    requires ListCounted(es, RightBracket, depth, count, now)
    ensures Counted(ArrayLit(es), LAYERS + 1, depth, count, now)
  {
    assert Write(ArrayLit(es)) == After([LeftBracket], WriteList(es, RightBracket));
  }

  lemma {:induction false} ListFits(ts: seq<Token>, close: Token, trailing: bool, depth: nat, count: nat)
    requires InLimits(depth, count)
    ensures var r := List(ts, close, trailing, depth, count); r.DoneList? ==> ListCounted(r.exprs, close, depth, count, r.count)
    decreases |ts|, 29
  {
    if !At(ts, close) { ItemsFit(ts, close, trailing, depth, count); }
  }

  lemma {:induction false} ItemsFit(ts: seq<Token>, close: Token, trailing: bool, depth: nat, count: nat)
    requires InLimits(depth, count)
    ensures var r := Items(ts, close, trailing, depth, count);
      r.DoneList? ==> r.exprs.Cons? && ListCounted(r.exprs, close, depth, count, r.count)
    decreases |ts|, 28
  {
    ExpressionFits(ts, depth, count);
    var r := Expression(ts, depth, count);
    if r.Done? {
      CountedLast(r.expr, close, depth, count, r.count);
      if At(r.rest, Comma) {
        ItemsFit(r.rest[1..], close, trailing, depth, r.count);
        var s := Items(r.rest[1..], close, trailing, depth, r.count);
        if s.DoneList? { CountedMore(r.expr, s.exprs, close, depth, count, r.count, s.count); }
      }
    }
  }

  lemma CountedLast(e: Expr, close: Token, depth: nat, count: nat, now: nat)
    requires Counted(e, 0, depth + 1, count, now)
    ensures ListCounted(Cons(e, Nil), close, depth, count, now)
  {
    assert WriteList(Cons(e, Nil), close) == LastItem(Write(e), close);
    assert AllWritable(Nil);
  }

  lemma CountedMore(e: Expr, es: Exprs, close: Token, depth: nat, count: nat, mid: nat, now: nat)
    requires es.Cons? && Counted(e, 0, depth + 1, count, mid) && ListCounted(es, close, depth, mid, now)
    ensures ListCounted(Cons(e, es), close, depth, count, now)
  {
    assert WriteList(Cons(e, es), close) == MoreItems(Write(e), WriteList(es, close));
  }

  /** An accepted expression, written again, is accepted again in the same place as the same
      tree, with no more operators counted. */
  lemma {:induction false} Reprint(ts: seq<Token>, rest: seq<Token>, depth: nat, count: nat)
    requires count <= MAX_OPERATORS && Ends(rest, 0) && Expression(ts, depth, count).Done?
    ensures var r := Expression(ts, depth, count); var t := Write(r.expr);
      && Expression(t.tokens + rest, depth, count) == Done(r.expr, rest, count + t.operators)
      && count + t.operators <= r.count
  {
    ExpressionFits(ts, depth, count);
    RoundTrip(Expression(ts, depth, count).expr, rest, depth, count);
  }
}
