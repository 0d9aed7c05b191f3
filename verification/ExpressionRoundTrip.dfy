/** Parsing what was written gives the tree back. */
module ExpressionRoundTrip {
  import opened Options
  import opened Operators
  import opened Syntax
  import opened ExpressionGrammar

  /** The limits leave room for this much nesting and this many operators. */
  predicate Fits(t: Text, depth: nat, count: nat) {
    depth + t.nesting <= MAX_NESTING && count + t.operators <= MAX_OPERATORS
  }

  predicate InLimits(depth: nat, count: nat) {
    depth <= MAX_NESTING && count <= MAX_OPERATORS
  }

  /** The next token goes on neither with a suffix nor with an operator of layer `k` or a
      tighter one. */
  predicate Ends(ts: seq<Token>, k: nat) {
    ts == [] || (!Suffix(ts[0]) && forall j :: k <= j < LAYERS ==> OperatorIn(j, ts[0]) == None)
  }

  predicate Suffix(t: Token) {
    t == LeftParen || t == LeftBracket || t == Dot
  }

  /** A token that starts a tree written for layer `k`. */
  predicate Starts(t: Token, k: nat) {
    && t != RightParen && t != RightBracket && t != Comma
    && (t.Integer? ==> !IsMinLiteral(t.text))
    && (k > LAYERS ==> PrefixOf(t) == None)
  }

  predicate Begins(t: Text) {
    |t.tokens| > 0 && Starts(t.tokens[0], if t.tight > LAYERS then LAYERS + 1 else 0)
  }

  lemma WrapBegins(t: Text, k: nat)
    requires Begins(t) && k <= LAYERS + 1
    ensures var w := Wrap(t, k); |w.tokens| > 0 && Starts(w.tokens[0], k)
  {
  }

  lemma {:induction false} WriteBegins(e: Expr)
    requires Writable(e)
    ensures Begins(Write(e))
  {
    match e
    case IntLit(v) => if v >= 0 { DecimalIsRead(v); }
    case Binary(l, r, op) =>
      WriteBegins(l);
      WrapBegins(Write(l), Layer(op));
    case Index(a, _) =>
      WriteBegins(a);
      WrapBegins(Write(a), LAYERS + 1);
    case Member(a, _) =>
      WriteBegins(a);
      WrapBegins(Write(a), LAYERS + 1);
    case _ =>
  }

  // ---- What each construct does, whatever its parts are ----

  /** What is left after a text, and the counters before it. */
  predicate Case(rest: seq<Token>, depth: nat, count: nat) {
    InLimits(depth, count)
  }

  /** The text is read as the tree by the parser of a whole expression. */
  ghost predicate ReadsWhole(t: Text, e: Expr) {
    forall rest: seq<Token>, depth: nat, count: nat {:trigger Case(rest, depth, count)} :: Case(rest, depth, count) && Ends(rest, 0) ==>
      Expression(t.tokens + rest, depth, count) == Expected(t.(nesting := t.nesting + 1), e, rest, depth, count)
  }

  /** The text is read as the tree as an operand of layer `k`. */
  ghost predicate Reads(k: nat, t: Text, e: Expr)
    requires k <= LAYERS
  {
    forall rest: seq<Token>, depth: nat, count: nat {:trigger Case(rest, depth, count)} :: Case(rest, depth, count) && Ends(rest, k) ==>
      Layered(k, t.tokens + rest, depth, count) == Expected(t, e, rest, depth, count)
  }

  /** The text is read as a left operand of layer `k`. */
  ghost predicate ReadsLeft(k: nat, t: Text, e: Expr)
    requires k < LAYERS
  {
    forall rest: seq<Token>, depth: nat, count: nat {:trigger Case(rest, depth, count)} :: Case(rest, depth, count) && Ends(rest, k + 1) ==>
      Layered(k, t.tokens + rest, depth, count) ==
      if Fits(t, depth, count) then Operands(k, e, rest, depth, count + t.operators) else Fail
  }

  /** The text is read as a tree that suffixes may follow. */
  ghost predicate ReadsBase(t: Text, e: Expr) {
    forall rest: seq<Token>, depth: nat, count: nat {:trigger Case(rest, depth, count)} :: Case(rest, depth, count) && !At(rest, LeftParen) ==>
      Postfixed(t.tokens + rest, depth, count) ==
      if Fits(t, depth, count) then Suffixes(e, rest, depth, count + t.operators) else Fail
  }

  function Expected(t: Text, e: Expr, rest: seq<Token>, depth: nat, count: nat): Parsed {
    if Fits(t, depth, count) then Done(e, rest, count + t.operators) else Fail
  }

  lemma {:induction false} Outermost(t: Text, e: Expr)
    requires Reads(0, t, e)
    ensures ReadsWhole(t, e)
  {
    forall rest: seq<Token>, depth: nat, count: nat | InLimits(depth, count) && Ends(rest, 0)
      ensures Expression(t.tokens + rest, depth, count) == Expected(t.(nesting := t.nesting + 1), e, rest, depth, count)
    {
      if depth < MAX_NESTING {
        ReadAt(0, t, e, rest, depth + 1, count);
      }
    }
  }

  /** A tighter operand is an operand. */
  lemma {:induction false} Looser(k: nat, t: Text, e: Expr)
    requires k < LAYERS && Reads(k + 1, t, e)
    ensures ReadsLeft(k, t, e)
  {
    forall rest: seq<Token>, depth: nat, count: nat | InLimits(depth, count) && Ends(rest, k + 1)
      ensures Layered(k, t.tokens + rest, depth, count) ==
        if Fits(t, depth, count) then Operands(k, e, rest, depth, count + t.operators) else Fail
    {
      LooserAt(k, t, e, rest, depth, count);
    }
  }

  lemma LooserAt(k: nat, t: Text, e: Expr, rest: seq<Token>, depth: nat, count: nat)
    requires k < LAYERS && Reads(k + 1, t, e) && InLimits(depth, count) && Ends(rest, k + 1)
    ensures Layered(k, t.tokens + rest, depth, count) ==
      if Fits(t, depth, count) then Operands(k, e, rest, depth, count + t.operators) else Fail
  {
    ReadAt(k + 1, t, e, rest, depth, count);
    LooserStep(k, t.tokens + rest, t, e, rest, depth, count);
  }

  lemma {:induction false} LooserStep(k: nat, ts: seq<Token>, t: Text, e: Expr, rest: seq<Token>, depth: nat, count: nat)
    requires k < LAYERS && Layered(k + 1, ts, depth, count) == Expected(t, e, rest, depth, count)
    ensures Layered(k, ts, depth, count) ==
      if Fits(t, depth, count) then Operands(k, e, rest, depth, count + t.operators) else Fail
  {
  }

  lemma {:induction false} Alone(k: nat, t: Text, e: Expr)
    requires k < LAYERS && ReadsLeft(k, t, e)
    ensures Reads(k, t, e)
  {
    forall rest: seq<Token>, depth: nat, count: nat | InLimits(depth, count) && Ends(rest, k)
      ensures Layered(k, t.tokens + rest, depth, count) == Expected(t, e, rest, depth, count)
    {
      LeftAt(k, t, e, rest, depth, count);
      assert OperatorAt(k, rest) == None;
    }
  }

  lemma OperandsStep(left: Expr, op: BinaryOp, after: seq<Token>, depth: nat, count: nat)
    ensures var k := Layer(op);
      Operands(k, left, [BinaryToken(op)] + after, depth, count) ==
      if count >= MAX_OPERATORS then Fail
      else match Layered(k + 1, after, depth, count + 1)
        case Fail => Fail
        case Done(r, rest, c) => Operands(k, Binary(left, r, op), rest, depth, c)
  {
    var ts := [BinaryToken(op)] + after;
    assert ts[1..] == after;
    assert OperatorAt(Layer(op), ts) == Some(op);
  }

  lemma LeftAt(k: nat, t: Text, e: Expr, rest: seq<Token>, depth: nat, count: nat)
    requires k < LAYERS && ReadsLeft(k, t, e) && InLimits(depth, count) && Ends(rest, k + 1)
    ensures Layered(k, t.tokens + rest, depth, count) ==
      if Fits(t, depth, count) then Operands(k, e, rest, depth, count + t.operators) else Fail
  {
    assert Case(rest, depth, count);
  }

  lemma ReadAt(k: nat, t: Text, e: Expr, rest: seq<Token>, depth: nat, count: nat)
    requires k <= LAYERS && Reads(k, t, e) && InLimits(depth, count) && Ends(rest, k)
    ensures Layered(k, t.tokens + rest, depth, count) == Expected(t, e, rest, depth, count)
  {
    assert Case(rest, depth, count);
  }

  lemma WholeAt(t: Text, e: Expr, rest: seq<Token>, depth: nat, count: nat)
    requires ReadsWhole(t, e) && InLimits(depth, count) && Ends(rest, 0)
    ensures Expression(t.tokens + rest, depth, count) == Expected(t.(nesting := t.nesting + 1), e, rest, depth, count)
  {
    assert Case(rest, depth, count);
  }

  lemma BaseAt(t: Text, e: Expr, rest: seq<Token>, depth: nat, count: nat)
    requires ReadsBase(t, e) && InLimits(depth, count) && !At(rest, LeftParen)
    ensures Postfixed(t.tokens + rest, depth, count) ==
      if Fits(t, depth, count) then Suffixes(e, rest, depth, count + t.operators) else Fail
  {
    assert Case(rest, depth, count);
  }

  lemma {:induction false} BinaryStep(k: nat, a: Text, left: Expr, op: BinaryOp, b: Text, right: Expr, ts: seq<Token>, after: seq<Token>,
                                      rest: seq<Token>, t: Text, depth: nat, count: nat)
    requires k == Layer(op) && Layered(k, ts, depth, count) ==
      if Fits(a, depth, count) then Operands(k, left, [BinaryToken(op)] + after, depth, count + a.operators) else Fail
    requires Fits(a, depth, count + 1) ==>
      Layered(k + 1, after, depth, count + a.operators + 1) == Expected(b, right, rest, depth, count + a.operators + 1)
    requires t.nesting == Max(a.nesting, b.nesting) && t.operators == a.operators + 1 + b.operators
    ensures Layered(k, ts, depth, count) ==
      if Fits(t, depth, count) then Operands(k, Binary(left, right, op), rest, depth, count + t.operators) else Fail
  {
    if Fits(a, depth, count) { OperandsStep(left, op, after, depth, count + a.operators); }
  }

  lemma {:induction false} EndsOperand(op: BinaryOp, after: seq<Token>)
    ensures Ends([BinaryToken(op)] + after, Layer(op) + 1)
  {
  }

  lemma BinaryTokens(l: Text, r: Text, op: BinaryOp, rest: seq<Token>)
    ensures BinaryText(l, r, op).tokens + rest ==
      Wrap(l, Layer(op)).tokens + ([BinaryToken(op)] + (Wrap(r, Layer(op) + 1).tokens + rest))
  {
  }

  lemma {:induction false} BinaryReads(l: Text, left: Expr, r: Text, right: Expr, op: BinaryOp, k: nat, t: Text)
    requires k == Layer(op) && t == BinaryText(l, r, op)
    requires ReadsLeft(k, Wrap(l, k), left) && Reads(k + 1, Wrap(r, k + 1), right)
    ensures ReadsLeft(k, t, Binary(left, right, op))
  {
    forall rest: seq<Token>, depth: nat, count: nat | InLimits(depth, count) && Ends(rest, k + 1)
      ensures Layered(k, t.tokens + rest, depth, count) ==
        if Fits(t, depth, count) then Operands(k, Binary(left, right, op), rest, depth, count + t.operators) else Fail
    {
      BinaryTokens(l, r, op, rest);
      BinaryAt(k, Wrap(l, k), left, Wrap(r, k + 1), right, op, t, rest, depth, count);
    }
  }

  lemma {:induction false} BinaryAt(k: nat, a: Text, left: Expr, b: Text, right: Expr, op: BinaryOp, t: Text, rest: seq<Token>, depth: nat, count: nat)
    requires k == Layer(op) && ReadsLeft(k, a, left) && Reads(k + 1, b, right) && InLimits(depth, count) && Ends(rest, k + 1)
    requires t.tokens + rest == a.tokens + ([BinaryToken(op)] + (b.tokens + rest))
    requires t.nesting == Max(a.nesting, b.nesting) && t.operators == a.operators + 1 + b.operators
    ensures Layered(k, t.tokens + rest, depth, count) ==
      if Fits(t, depth, count) then Operands(k, Binary(left, right, op), rest, depth, count + t.operators) else Fail
  {
    var after := b.tokens + rest;
    EndsOperand(op, after);
    LeftAt(k, a, left, [BinaryToken(op)] + after, depth, count);
    if Fits(a, depth, count + 1) { ReadAt(k + 1, b, right, rest, depth, count + a.operators + 1); }
    BinaryStep(k, a, left, op, b, right, t.tokens + rest, after, rest, t, depth, count);
  }

  // ---- Prefix operators ----

  lemma {:induction false} UnaryReads(op: UnaryOp, t: Text, e: Expr)
    requires Begins(t) && Reads(LAYERS, Wrap(t, LAYERS), e)
    ensures Reads(LAYERS, UnaryText(op, t), Unary(op, e))
  {
    var a, u := Wrap(t, LAYERS), UnaryText(op, t);
    forall rest: seq<Token>, depth: nat, count: nat | InLimits(depth, count) && Ends(rest, LAYERS)
      ensures Layered(LAYERS, u.tokens + rest, depth, count) == Expected(u, Unary(op, e), rest, depth, count)
    {
      assert u.tokens + rest == [UnaryToken(op)] + (a.tokens + rest);
      WrapBegins(t, LAYERS);
      PrefixStep(op, a.tokens + rest, depth, count);
      if depth < MAX_NESTING { ReadAt(LAYERS, a, e, rest, depth + 1, count); }
    }
  }

  lemma PrefixStep(op: UnaryOp, after: seq<Token>, depth: nat, count: nat)
    requires |after| > 0 && Starts(after[0], LAYERS)
    ensures Layered(LAYERS, [UnaryToken(op)] + after, depth, count) ==
      if depth >= MAX_NESTING then Fail
      else match Layered(LAYERS, after, depth + 1, count)
        case Fail => Fail
        case Done(a, rest, c) => Done(Unary(op, a), rest, c)
  {
    var ts := [UnaryToken(op)] + after;
    assert ts[1..] == after && ts[1] == after[0] && PrefixAt(ts) == Some(op);
  }

  /** The least integer is one literal with its sign. */
  lemma {:induction false} MinReads(text: string, t: Text)
    requires IsMinLiteral(text) && t == Text([Minus, Integer(text)], LAYERS, 1, 0)
    ensures Reads(LAYERS, t, IntLit(INT64_MIN))
  {
    forall rest: seq<Token>, depth: nat, count: nat | InLimits(depth, count) && Ends(rest, LAYERS)
      ensures Layered(LAYERS, t.tokens + rest, depth, count) == Expected(t, IntLit(INT64_MIN), rest, depth, count)
    {
      MinStep(text, t.tokens + rest, depth, count);
      assert (t.tokens + rest)[2..] == rest;
    }
  }

  lemma {:induction false} MinStep(text: string, ts: seq<Token>, depth: nat, count: nat)
    requires IsMinLiteral(text) && |ts| >= 2 && ts[0] == Minus && ts[1] == Integer(text)
    ensures Layered(LAYERS, ts, depth, count) == if depth >= MAX_NESTING then Fail else Done(IntLit(INT64_MIN), ts[2..], count)
  {
    assert PrefixAt(ts) == Some(Negate);
  }

  lemma {:induction false} PlainReads(t: Text, e: Expr)
    requires ReadsBase(t, e) && |t.tokens| > 0 && PrefixOf(t.tokens[0]) == None
    ensures Reads(LAYERS, t, e)
  {
    forall rest: seq<Token>, depth: nat, count: nat | InLimits(depth, count) && Ends(rest, LAYERS)
      ensures Layered(LAYERS, t.tokens + rest, depth, count) == Expected(t, e, rest, depth, count)
    {
      assert (t.tokens + rest)[0] == t.tokens[0];
      PlainStep(t.tokens + rest, depth, count);
      BaseAt(t, e, rest, depth, count);
      SuffixesEnd(e, rest, depth, count + t.operators);
    }
  }

  lemma PlainStep(ts: seq<Token>, depth: nat, count: nat)
    requires PrefixAt(ts) == None
    ensures Layered(LAYERS, ts, depth, count) == Postfixed(ts, depth, count)
  {
  }

  lemma SuffixesEnd(e: Expr, rest: seq<Token>, depth: nat, count: nat)
    requires Ends(rest, LAYERS)
    ensures Suffixes(e, rest, depth, count) == Done(e, rest, count)
  {
  }

  // ---- Suffixes ----

  lemma {:induction false} IndexReads(t: Text, e: Expr, i: Text, ei: Expr)
    requires ReadsBase(Wrap(t, LAYERS + 1), e) && ReadsWhole(i, ei)
    ensures ReadsBase(IndexText(t, i), Index(e, ei))
  {
    var a, u := Wrap(t, LAYERS + 1), IndexText(t, i);
    forall rest: seq<Token>, depth: nat, count: nat | InLimits(depth, count) && !At(rest, LeftParen)
      ensures Postfixed(u.tokens + rest, depth, count) ==
        if Fits(u, depth, count) then Suffixes(Index(e, ei), rest, depth, count + u.operators) else Fail
    {
      var after := [RightBracket] + rest;
      var from := i.tokens + after;
      IndexTokens(t, i, rest);
      BaseAt(a, e, [LeftBracket] + from, depth, count);
      if Fits(a, depth, count + 1) { WholeAt(i, ei, after, depth, count + a.operators + 1); }
      IndexedStep(a, e, i, ei, u.tokens + rest, from, rest, u, depth, count);
    }
  }

  lemma IndexTokens(t: Text, i: Text, rest: seq<Token>)
    ensures IndexText(t, i).tokens + rest == Wrap(t, LAYERS + 1).tokens + ([LeftBracket] + (i.tokens + ([RightBracket] + rest)))
  {
  }

  lemma {:induction false} IndexedStep(a: Text, e: Expr, i: Text, ei: Expr, ts: seq<Token>, from: seq<Token>, rest: seq<Token>, t: Text, depth: nat, count: nat)
    requires Postfixed(ts, depth, count) ==
      if Fits(a, depth, count) then Suffixes(e, [LeftBracket] + from, depth, count + a.operators) else Fail
    requires Fits(a, depth, count + 1) ==>
      Expression(from, depth, count + a.operators + 1) ==
      Expected(i.(nesting := i.nesting + 1), ei, [RightBracket] + rest, depth, count + a.operators + 1)
    requires t.nesting == Max(a.nesting, 1 + i.nesting) && t.operators == a.operators + 1 + i.operators
    ensures Postfixed(ts, depth, count) ==
      if Fits(t, depth, count) then Suffixes(Index(e, ei), rest, depth, count + t.operators) else Fail
  {
    assert ([RightBracket] + rest)[1..] == rest;
    IndexStep(e, from, depth, count + a.operators);
  }

  lemma IndexStep(a: Expr, from: seq<Token>, depth: nat, count: nat)
    ensures Suffixes(a, [LeftBracket] + from, depth, count) ==
      if count >= MAX_OPERATORS then Fail
      else match Expression(from, depth, count + 1)
        case Fail => Fail
        case Done(i, rest, c) => if At(rest, RightBracket) then Suffixes(Index(a, i), rest[1..], depth, c) else Fail
  {
    assert ([LeftBracket] + from)[1..] == from;
  }

  lemma {:induction false} MemberReads(t: Text, e: Expr, f: string)
    requires ReadsBase(Wrap(t, LAYERS + 1), e)
    ensures ReadsBase(MemberText(t, f), Member(e, f))
  {
    var u := MemberText(t, f);
    forall rest: seq<Token>, depth: nat, count: nat | InLimits(depth, count) && !At(rest, LeftParen)
      ensures Postfixed(u.tokens + rest, depth, count) ==
        if Fits(u, depth, count) then Suffixes(Member(e, f), rest, depth, count + u.operators) else Fail
    {
      MemberAt(t, e, f, rest, depth, count);
    }
  }

  lemma {:induction false} MemberAt(t: Text, e: Expr, f: string, rest: seq<Token>, depth: nat, count: nat)
    requires ReadsBase(Wrap(t, LAYERS + 1), e) && InLimits(depth, count) && !At(rest, LeftParen)
    ensures var u := MemberText(t, f);
      Postfixed(u.tokens + rest, depth, count) ==
      if Fits(u, depth, count) then Suffixes(Member(e, f), rest, depth, count + u.operators) else Fail
  {
    var a := Wrap(t, LAYERS + 1);
    assert MemberText(t, f).tokens + rest == a.tokens + ([Dot, Identifier(f)] + rest);
    BaseAt(a, e, [Dot, Identifier(f)] + rest, depth, count);
    MemberStep(e, f, rest, depth, count + a.operators);
  }

  lemma MemberStep(a: Expr, f: string, rest: seq<Token>, depth: nat, count: nat)
    requires !At(rest, LeftParen)
    ensures Suffixes(a, [Dot, Identifier(f)] + rest, depth, count) ==
      if count >= MAX_OPERATORS then Fail else Suffixes(Member(a, f), rest, depth, count + 1)
  {
    assert ([Dot, Identifier(f)] + rest)[2..] == rest;
  }

  // ---- Primary expressions ----

  /** The text is read as the tree by the parser of primary expressions. */
  ghost predicate ReadsPrimary(t: Text, e: Expr) {
    forall rest: seq<Token>, depth: nat, count: nat {:trigger Case(rest, depth, count)} :: Case(rest, depth, count) && !At(rest, LeftParen) ==>
      Primary(t.tokens + rest, depth, count) == Expected(t, e, rest, depth, count)
  }

  lemma {:induction false} PrimaryReads(t: Text, e: Expr)
    requires ReadsPrimary(t, e)
    ensures ReadsBase(t, e)
  {
    forall rest: seq<Token>, depth: nat, count: nat | InLimits(depth, count) && !At(rest, LeftParen)
      ensures Postfixed(t.tokens + rest, depth, count) ==
        if Fits(t, depth, count) then Suffixes(e, rest, depth, count + t.operators) else Fail
    {
      assert Case(rest, depth, count);
      PostfixedStep(t.tokens + rest, depth, count);
    }
  }

  lemma PostfixedStep(ts: seq<Token>, depth: nat, count: nat)
    ensures Postfixed(ts, depth, count) == match Primary(ts, depth, count)
      case Fail => Fail
      case Done(e, rest, c) => Suffixes(e, rest, depth, c)
  {
  }

  lemma {:induction false} ParenthesesRead(t: Text, e: Expr)
    requires ReadsWhole(t, e) && t.tight <= LAYERS
    ensures ReadsPrimary(Wrap(t, LAYERS + 1), e)
  {
    var u := Wrap(t, LAYERS + 1);
    forall rest: seq<Token>, depth: nat, count: nat | InLimits(depth, count) && !At(rest, LeftParen)
      ensures Primary(u.tokens + rest, depth, count) == Expected(u, e, rest, depth, count)
    {
      var after := [RightParen] + rest;
      assert u.tokens + rest == [LeftParen] + (t.tokens + after);
      assert after[1..] == rest;
      ParenthesisStep(t.tokens + after, depth, count);
      WholeAt(t, e, after, depth, count);
    }
  }

  lemma ParenthesisStep(after: seq<Token>, depth: nat, count: nat)
    ensures Primary([LeftParen] + after, depth, count) == Parenthesised(after, depth, count)
  {
    assert ([LeftParen] + after)[1..] == after;
  }

  lemma {:induction false} LeafReads(tok: Token, e: Expr)
    requires LeafOf(tok) == Some(e)
    ensures ReadsPrimary(Leaf(tok), e)
  {
    var t := Leaf(tok);
    forall rest: seq<Token>, depth: nat, count: nat | InLimits(depth, count) && !At(rest, LeftParen)
      ensures Primary(t.tokens + rest, depth, count) == Expected(t, e, rest, depth, count)
    {
      LeafStep(tok, e, rest, depth, count);
    }
  }

  /** What a single token stands for. */
  function LeafOf(tok: Token): Option<Expr> {
    match tok
    case Integer(text) =>
      (match Magnitude(text)
       case Some(v) => if |text| < BUFFER_SIZE && v <= INT64_MAX then Some(IntLit(v)) else None
       case None => None)
    case Float(text) => if |text| < BUFFER_SIZE then Some(FloatLit(text)) else None
    case String(text) => Some(StringLit(Unescape(text)))
    case Identifier(x) => Some(Named(x))
    case _ => None
  }

  lemma {:induction false} LeafStep(tok: Token, e: Expr, rest: seq<Token>, depth: nat, count: nat)
    requires LeafOf(tok) == Some(e) && !At(rest, LeftParen)
    ensures Primary([tok] + rest, depth, count) == Done(e, rest, count)
  {
    var ts := [tok] + rest;
    assert ts[0] == tok && ts[1..] == rest;
  }

  // ---- Lists ----

  /** The text of one or more items and their closing token. */
  ghost predicate ReadsItems(t: Text, es: Exprs, close: Token) {
    forall rest: seq<Token>, depth: nat, count: nat {:trigger Case(rest, depth, count)} :: Case(rest, depth, count) ==>
      ItemsRead(t, es, close, false, rest, depth, count) && ItemsRead(t, es, close, true, rest, depth, count)
  }

  ghost predicate ItemsRead(t: Text, es: Exprs, close: Token, trailing: bool, rest: seq<Token>, depth: nat, count: nat) {
    Items(t.tokens + rest, close, trailing, depth, count) == ExpectedList(t, es, rest, depth, count)
  }

  function ExpectedList(t: Text, es: Exprs, rest: seq<Token>, depth: nat, count: nat): ParsedList {
    if Fits(t, depth, count) then DoneList(es, rest, count + t.operators) else FailList
  }

  predicate Closing(t: Token) {
    t == RightParen || t == RightBracket
  }

  lemma ItemsStep(ts: seq<Token>, close: Token, trailing: bool, depth: nat, count: nat)
    ensures Items(ts, close, trailing, depth, count) == match Expression(ts, depth, count)
      case Fail => FailList
      case Done(e, rest, c) => Continued(e, rest, close, trailing, depth, c)
  {
  }

  /** After an item. */
  function Continued(e: Expr, rest: seq<Token>, close: Token, trailing: bool, depth: nat, c: nat): ParsedList {
    if At(rest, close) then DoneList(Cons(e, Nil), rest[1..], c)
    else if !At(rest, Comma) then FailList
    else if At(rest[1..], close) then (if trailing then DoneList(Cons(e, Nil), rest[2..], c) else FailList)
    else match Items(rest[1..], close, trailing, depth, c)
      case FailList => FailList
      case DoneList(es, more, n) => DoneList(Cons(e, es), more, n)
  }

  lemma {:induction false} LastReads(t: Text, e: Expr, close: Token)
    requires ReadsWhole(t, e) && Closing(close)
    ensures ReadsItems(LastItem(t, close), Cons(e, Nil), close)
  {
    forall rest: seq<Token>, depth: nat, count: nat | InLimits(depth, count)
      ensures ItemsRead(LastItem(t, close), Cons(e, Nil), close, false, rest, depth, count)
      ensures ItemsRead(LastItem(t, close), Cons(e, Nil), close, true, rest, depth, count)
    {
      LastAt(t, e, close, false, rest, depth, count);
      LastAt(t, e, close, true, rest, depth, count);
    }
  }

  lemma {:induction false} LastAt(t: Text, e: Expr, close: Token, trailing: bool, rest: seq<Token>, depth: nat, count: nat)
    requires ReadsWhole(t, e) && Closing(close) && InLimits(depth, count)
    ensures ItemsRead(LastItem(t, close), Cons(e, Nil), close, trailing, rest, depth, count)
  {
    var u, after := LastItem(t, close), [close] + rest;
    assert u.tokens + rest == t.tokens + after;
    assert after[1..] == rest;
    WholeAt(t, e, after, depth, count);
    ItemsStep(t.tokens + after, close, trailing, depth, count);
  }

  lemma {:induction false} MoreRead(t: Text, e: Expr, more: Text, es: Exprs, close: Token)
    requires ReadsWhole(t, e) && ReadsItems(more, es, close) && Closing(close) && |more.tokens| > 0 && more.tokens[0] != close
    ensures ReadsItems(MoreItems(t, more), Cons(e, es), close)
  {
    forall rest: seq<Token>, depth: nat, count: nat | InLimits(depth, count)
      ensures ItemsRead(MoreItems(t, more), Cons(e, es), close, false, rest, depth, count)
      ensures ItemsRead(MoreItems(t, more), Cons(e, es), close, true, rest, depth, count)
    {
      MoreAt(t, e, more, es, close, false, rest, depth, count);
      MoreAt(t, e, more, es, close, true, rest, depth, count);
    }
  }

  lemma {:induction false} MoreAt(t: Text, e: Expr, more: Text, es: Exprs, close: Token, trailing: bool, rest: seq<Token>, depth: nat, count: nat)
    requires ReadsWhole(t, e) && ReadsItems(more, es, close) && Closing(close) && |more.tokens| > 0 && more.tokens[0] != close
    requires InLimits(depth, count)
    ensures ItemsRead(MoreItems(t, more), Cons(e, es), close, trailing, rest, depth, count)
  {
    var u := MoreItems(t, more);
    var from := more.tokens + rest;
    MoreTokens(t, more, rest);
    assert from[0] == more.tokens[0];
    WholeAt(t, e, [Comma] + from, depth, count);
    if Fits(t, depth + 1, count) { ItemsAt(more, es, close, trailing, rest, depth, count + t.operators); }
    MoreStep(t, e, more, es, close, trailing, u.tokens + rest, from, rest, u, depth, count);
  }

  lemma MoreTokens(t: Text, more: Text, rest: seq<Token>)
    ensures MoreItems(t, more).tokens + rest == t.tokens + ([Comma] + (more.tokens + rest))
  {
  }

  lemma ItemsAt(t: Text, es: Exprs, close: Token, trailing: bool, rest: seq<Token>, depth: nat, count: nat)
    requires ReadsItems(t, es, close) && InLimits(depth, count)
    ensures ItemsRead(t, es, close, trailing, rest, depth, count)
  {
    assert Case(rest, depth, count);
  }

  lemma {:induction false} MoreStep(t: Text, e: Expr, more: Text, es: Exprs, close: Token, trailing: bool, ts: seq<Token>, from: seq<Token>, rest: seq<Token>,
                 u: Text, depth: nat, count: nat)
    requires Expression(ts, depth, count) == Expected(t.(nesting := t.nesting + 1), e, [Comma] + from, depth, count)
    requires Fits(t, depth + 1, count) ==>
      Items(from, close, trailing, depth, count + t.operators) == ExpectedList(more, es, rest, depth, count + t.operators)
    requires Closing(close) && !At(from, close)
    requires u.nesting == Max(1 + t.nesting, more.nesting) && u.operators == t.operators + more.operators
    ensures Items(ts, close, trailing, depth, count) == ExpectedList(u, Cons(e, es), rest, depth, count)
  {
    assert ([Comma] + from)[1..] == from;
    ItemsStep(ts, close, trailing, depth, count);
  }

  /** A list and its closing token, possibly empty. */
  ghost predicate ReadsList(t: Text, es: Exprs, close: Token) {
    if es.Nil? then t == Leaf(close) else ReadsItems(t, es, close) && |t.tokens| > 0 && t.tokens[0] != close
  }

  lemma ListAt(t: Text, es: Exprs, close: Token, trailing: bool, rest: seq<Token>, depth: nat, count: nat)
    requires ReadsList(t, es, close) && InLimits(depth, count)
    ensures List(t.tokens + rest, close, trailing, depth, count) == ExpectedList(t, es, rest, depth, count)
  {
    if es.Nil? {
      assert (t.tokens + rest)[1..] == rest;
    } else {
      ItemsAt(t, es, close, trailing, rest, depth, count);
      assert (t.tokens + rest)[0] == t.tokens[0];
    }
  }

  lemma {:induction false} CallReads(f: string, t: Text, args: Exprs)
    requires ReadsList(t, args, RightParen)
    ensures ReadsPrimary(After([Identifier(f), LeftParen], t), Call(f, args))
  {
    var u := After([Identifier(f), LeftParen], t);
    forall rest: seq<Token>, depth: nat, count: nat | InLimits(depth, count) && !At(rest, LeftParen)
      ensures Primary(u.tokens + rest, depth, count) == Expected(u, Call(f, args), rest, depth, count)
    {
      assert u.tokens + rest == [Identifier(f), LeftParen] + (t.tokens + rest);
      CallStep(f, t.tokens + rest, depth, count);
      ListAt(t, args, RightParen, false, rest, depth, count);
    }
  }

  lemma CallStep(f: string, after: seq<Token>, depth: nat, count: nat)
    ensures Primary([Identifier(f), LeftParen] + after, depth, count) == Called(f, after, depth, count)
  {
    var ts := [Identifier(f), LeftParen] + after;
    assert ts[1..][0] == LeftParen && ts[2..] == after;
  }

  lemma {:induction false} ArrayReads(t: Text, es: Exprs)
    requires ReadsList(t, es, RightBracket)
    ensures ReadsPrimary(After([LeftBracket], t), ArrayLit(es))
  {
    var u := After([LeftBracket], t);
    forall rest: seq<Token>, depth: nat, count: nat | InLimits(depth, count) && !At(rest, LeftParen)
      ensures Primary(u.tokens + rest, depth, count) == Expected(u, ArrayLit(es), rest, depth, count)
    {
      assert u.tokens + rest == [LeftBracket] + (t.tokens + rest);
      ArrayStep(t.tokens + rest, depth, count);
      ListAt(t, es, RightBracket, true, rest, depth, count);
    }
  }

  lemma ArrayStep(after: seq<Token>, depth: nat, count: nat)
    ensures Primary([LeftBracket] + after, depth, count) == Elements(after, depth, count)
  {
    assert ([LeftBracket] + after)[1..] == after;
  }

  // ---- From its own layer to every layer ----

  /** The text is read as the tree at its own layer. */
  ghost predicate ReadsTight(t: Text, e: Expr) {
    if t.tight < LAYERS then ReadsLeft(t.tight, t, e) else if t.tight == LAYERS then Reads(LAYERS, t, e) else ReadsBase(t, e)
  }

  /** The text, in parentheses where needed, is read as the tree at every layer. */
  ghost predicate ReadsAll(t: Text, e: Expr) {
    && Begins(t)
    && (forall k: nat {:trigger Wrap(t, k)} :: k < LAYERS ==> ReadsLeft(k, Wrap(t, k), e))
    && (forall k: nat {:trigger Wrap(t, k)} :: k <= LAYERS ==> Reads(k, Wrap(t, k), e))
    && ReadsBase(Wrap(t, LAYERS + 1), e)
    && ReadsWhole(t, e)
  }

  lemma {:induction false} Down(k: nat, j: nat, t: Text, e: Expr)
    requires j <= k <= LAYERS && Reads(k, t, e)
    ensures Reads(j, t, e) && (j < k ==> ReadsLeft(j, t, e))
    decreases k - j
  {
    if j < k {
      Down(k, j + 1, t, e);
      Looser(j, t, e);
      Alone(j, t, e);
    }
  }

  lemma TightReads(t: Text, e: Expr)
    requires Begins(t) && ReadsTight(t, e) && t.tight <= LAYERS + 1
    ensures var k := if t.tight < LAYERS then t.tight else LAYERS; Reads(k, t, e)
  {
    if t.tight < LAYERS { Alone(t.tight, t, e); }
    if t.tight > LAYERS { PlainReads(t, e); }
  }

  lemma {:induction false} EveryLayer(t: Text, e: Expr)
    requires Begins(t) && ReadsTight(t, e) && t.tight <= LAYERS + 1
    ensures ReadsAll(t, e)
  {
    var k, u := if t.tight < LAYERS then t.tight else LAYERS, Wrap(t, LAYERS + 1);
    TightReads(t, e);
    Down(k, 0, t, e);
    Outermost(t, e);
    if t.tight <= LAYERS {
      ParenthesesRead(t, e);
      PrimaryReads(u, e);
      PlainReads(u, e);
    }
    forall j: nat | j <= LAYERS ensures Reads(j, Wrap(t, j), e) && (j < LAYERS ==> ReadsLeft(j, Wrap(t, j), e)) {
      if j <= t.tight { Down(k, j, t, e); } else { Down(LAYERS, j, u, e); }
      if j == LAYERS - 1 && t.tight == LAYERS { Looser(j, t, e); }
    }
  }

  // ---- Every tree ----

  lemma {:induction false} WriteReads(e: Expr)
    requires Writable(e)
    ensures ReadsAll(Write(e), e)
    decreases e, 1
  {
    WriteBegins(e);
    WriteReadsTight(e);
    WriteTight(e);
    EveryLayer(Write(e), e);
  }

  lemma {:induction false} WriteTight(e: Expr)
    ensures Write(e).tight <= LAYERS + 1
  {
  }

  lemma {:induction false} WriteReadsTight(e: Expr)
    requires Writable(e)
    ensures ReadsTight(Write(e), e)
    decreases e, 0
  {
    match e
    case Unary(op, a) =>
      WriteReads(a);
      UnaryReads(op, Write(a), a);
    case Binary(l, r, op) =>
      WriteReads(l);
      WriteReads(r);
      BinaryReads(Write(l), l, Write(r), r, op, Layer(op), Write(e));
    case Index(a, i) =>
      WriteReads(a);
      WriteReads(i);
      IndexReads(Write(a), a, Write(i), i);
    case Member(a, f) =>
      WriteReads(a);
      MemberReads(Write(a), a, f);
    case Call(f, args) =>
      WriteListReads(args, RightParen);
      CallReads(f, WriteList(args, RightParen), args);
      PrimaryReads(Write(e), e);
    case ArrayLit(elements) =>
      WriteListReads(elements, RightBracket);
      ArrayReads(WriteList(elements, RightBracket), elements);
      PrimaryReads(Write(e), e);
    case _ => WriteLeaf(e);
  }

  lemma {:induction false} WriteLeaf(e: Expr)
    requires Writable(e)
    requires e.IntLit? || e.FloatLit? || e.StringLit? || e.BoolLit? || e.NullLit? || e.Variable?
    ensures ReadsTight(Write(e), e)
  {
    if e.IntLit? && e.value < 0 {
      DecimalIsRead(0 - e.value);
      MinReads(Decimal(0 - e.value), Write(e));
    } else {
      if e.IntLit? { DecimalIsRead(e.value); }
      if e.StringLit? { UnescapeEscape(e.chars); }
      LeafReads(Write(e).tokens[0], e);
      PrimaryReads(Write(e), e);
    }
  }

  lemma {:induction false} WriteListReads(es: Exprs, close: Token)
    requires AllWritable(es) && Closing(close)
    ensures ReadsList(WriteList(es, close), es, close)
    decreases es, 1
  {
    if es.Cons? {
      WriteReads(es.head);
      WrapBegins(Write(es.head), 0);
      if es.tail.Nil? {
        LastReads(Write(es.head), es.head, close);
      } else {
        WriteListReads(es.tail, close);
        MoreRead(Write(es.head), es.head, WriteList(es.tail, close), es.tail, close);
      }
    }
  }

  /** Parsing what was written gives the tree back and leaves what follows, exactly when the
      limits leave room for it. */
  lemma {:induction false} RoundTrip(e: Expr, rest: seq<Token>, depth: nat, count: nat)
    requires Writable(e) && InLimits(depth, count) && Ends(rest, 0)
    ensures var t := Write(e);
      Expression(t.tokens + rest, depth, count) ==
      if depth + 1 + t.nesting <= MAX_NESTING && count + t.operators <= MAX_OPERATORS then Done(e, rest, count + t.operators) else Fail
  {
    WriteReads(e);
    WholeAt(Write(e), e, rest, depth, count);
  }
}
