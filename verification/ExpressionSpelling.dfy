/** Expressions spelled token by token: which text gives which tree, with the operators, their
    tiers, the keywords and the limits written out. */
module ExpressionSpelling {
  import opened Options
  import opened Operators
  import opened Syntax
  import opened ExpressionGrammar
  import opened ExpressionRoundTrip

  // ---- Operators ----

  /** The token of each binary operator. */
  function Sign(op: BinaryOp): Token {
    match op
    case Or => OrOr
    case And => AndAnd
    case Equal => EqualEqual
    case NotEqual => BangEqual
    case Greater => Token.Greater
    case Less => Token.Less
    case GreaterEqual => Token.GreaterEqual
    case LessEqual => Token.LessEqual
    case Add => Plus
    case Subtract => Minus
    case Multiply => Star
    case Divide => Slash
    case Modulo => Percent
  }

  /** The six tiers, loosest first. */
  function Rank(op: BinaryOp): nat {
    if op == Or then 1
    else if op == And then 2
    else if op == Equal || op == NotEqual then 3
    else if op.Greater? || op.Less? || op.GreaterEqual? || op.LessEqual? then 4
    else if op == Add || op == Subtract then 5
    else 6
  }

  /** Behind the binary operators come the prefix operators and then everything else. */
  function Tier(e: Expr): nat {
    match e
    case Binary(_, _, op) => Rank(op)
    case Unary(_, _) => 7
    case IntLit(v) => if v < 0 then 7 else 8
    case _ => 8
  }

  // ---- Spelling ----

  function Spell(e: Expr): seq<Token>
    decreases e, 1
  {
    match e
    case IntLit(v) => if v < 0 then [Minus, Integer(Decimal(0 - v))] else [Integer(Decimal(v))]
    case FloatLit(text) => [Float(text)]
    case StringLit(chars) => [String(Escape(chars))]
    case BoolLit(b) => if b then [Identifier("true")] else [Identifier("false")]
    case NullLit => [Identifier("null")]
    case Variable(x) => [Identifier(x)]
    case Call(f, args) => [Identifier(f), LeftParen] + SpellList(args) + [RightParen]
    case ArrayLit(elements) => [LeftBracket] + SpellList(elements) + [RightBracket]
    case Unary(Not, a) => [Bang] + Within(a, 7)
    case Unary(Negate, a) => [Minus] + Within(a, 7)
    case Unary(Reference, a) => [Ampersand] + Within(a, 7)
    case Unary(Dereference, a) => [Star] + Within(a, 7)
    case Binary(l, r, op) => Within(l, Rank(op)) + [Sign(op)] + Within(r, Rank(op) + 1)
    case Index(a, i) => Within(a, 8) + [LeftBracket] + Spell(i) + [RightBracket]
    case Member(a, f) => Within(a, 8) + [Dot, Identifier(f)]
  }

  /** In parentheses where a tighter tier is wanted. */
  function Within(e: Expr, tier: nat): seq<Token>
    decreases e, 2
  {
    if Tier(e) < tier then [LeftParen] + Spell(e) + [RightParen] else Spell(e)
  }

  /** Separated by commas. */
  function SpellList(es: Exprs): seq<Token>
    decreases es, 0
  {
    match es
    case Nil => []
    case Cons(e, Nil) => Spell(e)
    case Cons(e, tail) => Spell(e) + [Comma] + SpellList(tail)
  }

  /** The levels that an expression nests. */
  function Levels(e: Expr): nat
    decreases e, 1
  {
    match e
    case IntLit(v) => if v < 0 then 1 else 0
    case Call(_, args) => ListLevels(args)
    case ArrayLit(elements) => ListLevels(elements)
    case Unary(_, a) => 1 + LevelsWithin(a, 7)
    case Binary(l, r, op) => Max(LevelsWithin(l, Rank(op)), LevelsWithin(r, Rank(op) + 1))
    case Index(a, i) => Max(LevelsWithin(a, 8), 1 + Levels(i))
    case Member(a, _) => LevelsWithin(a, 8)
    case _ => 0
  }

  function LevelsWithin(e: Expr, tier: nat): nat
    decreases e, 2
  {
    if Tier(e) < tier then 1 + Levels(e) else Levels(e)
  }

  function ListLevels(es: Exprs): nat
    decreases es, 0
  {
    match es
    case Nil => 0
    case Cons(e, Nil) => 1 + Levels(e)
    case Cons(e, tail) => Max(1 + Levels(e), ListLevels(tail))
  }

  /** Binary operators, indexings and member accesses. */
  function Operations(e: Expr): nat
    decreases e
  {
    match e
    case Call(_, args) => ListOperations(args)
    case ArrayLit(elements) => ListOperations(elements)
    case Unary(_, a) => Operations(a)
    case Binary(l, r, _) => Operations(l) + 1 + Operations(r)
    case Index(a, i) => Operations(a) + 1 + Operations(i)
    case Member(a, _) => Operations(a) + 1
    case _ => 0
  }

  function ListOperations(es: Exprs): nat
    decreases es
  {
    if es.Nil? then 0 else Operations(es.head) + ListOperations(es.tail)
  }

  // ---- It is how trees are written ----

  function Spelled(e: Expr): Text {
    Text(Spell(e), Tier(e) - 1, Levels(e), Operations(e))
  }

  lemma {:induction false} WrapSpelled(e: Expr, tier: nat)
    requires 0 < tier <= 8
    ensures Wrap(Spelled(e), tier - 1) == Text(Within(e, tier), if Tier(e) < tier then 7 else Tier(e) - 1, LevelsWithin(e, tier), Operations(e))
  {
    assert [LeftParen] + (Spell(e) + [RightParen]) == [LeftParen] + Spell(e) + [RightParen];
  }

  lemma Assoc<T>(a: seq<T>, b: seq<T>, c: seq<T>)
    ensures a + (b + c) == a + b + c
  {
  }

  lemma {:induction false} WriteSpelled(e: Expr)
    ensures Write(e) == Spelled(e)
    decreases e, 1
  {
    match e
    case Call(f, args) =>
      ListSpelled(args, RightParen);
      CallSpelled(f, args);
    case ArrayLit(elements) =>
      ListSpelled(elements, RightBracket);
      ArraySpelled(elements);
    case Unary(op, a) =>
      WriteSpelled(a);
      UnarySpelled(op, a);
    case Binary(l, r, op) =>
      WriteSpelled(l);
      WriteSpelled(r);
      BinaryWritten(l, r, op);
    case Index(a, i) =>
      WriteSpelled(a);
      WriteSpelled(i);
      IndexWritten(a, i);
    case Member(a, f) =>
      WriteSpelled(a);
      MemberSpelled(a, f);
    case _ =>
  }

  lemma {:induction false} CallSpelled(f: string, args: Exprs)
    requires WriteList(args, RightParen) == Text(SpellList(args) + [RightParen], 7, ListLevels(args), ListOperations(args))
    ensures Write(Call(f, args)) == Spelled(Call(f, args))
  {
    Assoc([Identifier(f), LeftParen], SpellList(args), [RightParen]);
  }

  lemma {:induction false} ArraySpelled(es: Exprs)
    requires WriteList(es, RightBracket) == Text(SpellList(es) + [RightBracket], 7, ListLevels(es), ListOperations(es))
    ensures Write(ArrayLit(es)) == Spelled(ArrayLit(es))
  {
    Assoc([LeftBracket], SpellList(es), [RightBracket]);
  }

  lemma {:induction false} UnarySpelled(op: UnaryOp, a: Expr)
    requires Write(a) == Spelled(a)
    ensures Write(Unary(op, a)) == Spelled(Unary(op, a))
  {
    WrapSpelled(a, 7);
  }

  lemma {:induction false} BinaryWritten(l: Expr, r: Expr, op: BinaryOp)
    requires Write(l) == Spelled(l) && Write(r) == Spelled(r)
    ensures Write(Binary(l, r, op)) == Spelled(Binary(l, r, op))
  {
    BinarySpelled(l, r, op);
    assert Write(Binary(l, r, op)) == BinaryText(Write(l), Write(r), op);
  }

  lemma {:induction false} IndexWritten(a: Expr, i: Expr)
    requires Write(a) == Spelled(a) && Write(i) == Spelled(i)
    ensures Write(Index(a, i)) == Spelled(Index(a, i))
  {
    IndexSpelled(a, i);
    assert Write(Index(a, i)) == IndexText(Write(a), Write(i));
  }

  lemma {:induction false} MemberSpelled(a: Expr, f: string)
    requires Write(a) == Spelled(a)
    ensures Write(Member(a, f)) == Spelled(Member(a, f))
  {
    WrapSpelled(a, 8);
  }

  lemma {:induction false} BinarySpelled(l: Expr, r: Expr, op: BinaryOp)
    ensures BinaryText(Spelled(l), Spelled(r), op) == Spelled(Binary(l, r, op))
  {
    WrapSpelled(l, Rank(op));
    WrapSpelled(r, Rank(op) + 1);
    BinaryIs(Spelled(l), Spelled(r), op, Within(l, Rank(op)), Within(r, Rank(op) + 1), LevelsWithin(l, Rank(op)), LevelsWithin(r, Rank(op) + 1));
  }

  lemma {:induction false} BinaryIs(l: Text, r: Text, op: BinaryOp, a: seq<Token>, b: seq<Token>, m: nat, n: nat)
    requires Wrap(l, Rank(op) - 1).tokens == a && Wrap(l, Rank(op) - 1).nesting == m
    requires Wrap(r, Rank(op)).tokens == b && Wrap(r, Rank(op)).nesting == n
    ensures BinaryText(l, r, op) == Text(a + [Sign(op)] + b, Rank(op) - 1, Max(m, n), l.operators + 1 + r.operators)
  {
    Assoc(a, [Sign(op)], b);
    assert Layer(op) == Rank(op) - 1 && BinaryToken(op) == Sign(op);
  }

  lemma {:induction false} IndexSpelled(a: Expr, i: Expr)
    ensures IndexText(Spelled(a), Spelled(i)) == Spelled(Index(a, i))
  {
    WrapSpelled(a, 8);
    Assoc([LeftBracket], Spell(i), [RightBracket]);
    Assoc(Within(a, 8), [LeftBracket] + Spell(i), [RightBracket]);
    Assoc(Within(a, 8), [LeftBracket], Spell(i));
  }

  lemma {:induction false} ListSpelled(es: Exprs, close: Token)
    ensures WriteList(es, close) == Text(SpellList(es) + [close], 7, ListLevels(es), ListOperations(es))
    decreases es, 0
  {
    match es
    case Nil =>
    case Cons(e, Nil) => WriteSpelled(e);
    case Cons(e, tail) =>
      WriteSpelled(e);
      ListSpelled(tail, close);
      Assoc([Comma], SpellList(tail), [close]);
      Assoc(Spell(e), [Comma] + SpellList(tail), [close]);
      Assoc(Spell(e), [Comma], SpellList(tail));
  }

  // ---- What the spelling parses to ----

  /** Tokens that cannot go on with an expression. */
  predicate Stops(ts: seq<Token>) {
    ts == [] || (ts[0] != LeftParen && ts[0] != LeftBracket && ts[0] != Dot && forall op :: ts[0] != Sign(op))
  }

  lemma {:induction false} StopsEnds(ts: seq<Token>)
    requires Stops(ts)
    ensures Ends(ts, 0)
  {
    forall op ensures BinaryToken(op) == Sign(op) { }
  }

  /** Literals are int64, `true`, `false` and `null` are not variables, floats fit their buffer. */
  predicate Sayable(e: Expr)
    decreases e
  {
    match e
    case IntLit(v) => v == -9223372036854775808 || 0 <= v <= 9223372036854775807
    case FloatLit(text) => |text| < 64
    case Variable(x) => x != "true" && x != "false" && x != "null"
    case Call(_, args) => AllSayable(args)
    case ArrayLit(elements) => AllSayable(elements)
    case Unary(_, a) => Sayable(a)
    case Binary(l, r, _) => Sayable(l) && Sayable(r)
    case Index(a, i) => Sayable(a) && Sayable(i)
    case Member(a, _) => Sayable(a)
    case _ => true
  }

  predicate AllSayable(es: Exprs)
    decreases es
  {
    es.Cons? ==> Sayable(es.head) && AllSayable(es.tail)
  }

  lemma {:induction false} SayableWritable(e: Expr)
    requires Sayable(e)
    ensures Writable(e)
    decreases e
  {
    match e
    case Call(_, args) => AllSayableWritable(args);
    case ArrayLit(elements) => AllSayableWritable(elements);
    case Unary(_, a) => SayableWritable(a);
    case Binary(l, r, _) => SayableWritable(l); SayableWritable(r);
    case Index(a, i) => SayableWritable(a); SayableWritable(i);
    case Member(a, _) => SayableWritable(a);
    case _ =>
  }

  lemma {:induction false} AllSayableWritable(es: Exprs)
    requires AllSayable(es)
    ensures AllWritable(es)
    decreases es
  {
    if es.Cons? {
      SayableWritable(es.head);
      AllSayableWritable(es.tail);
    }
  }

  /** The spelling of a tree parses to that tree and leaves what follows, if and only if at most
      256 levels are nested and 256 operators counted. */
  lemma {:induction false} SpellingParses(e: Expr, rest: seq<Token>, depth: nat, count: nat)
    requires Sayable(e) && Stops(rest) && depth <= 256 && count <= 256
    ensures Expression(Spell(e) + rest, depth, count) ==
      if depth + 1 + Levels(e) <= 256 && count + Operations(e) <= 256 then Done(e, rest, count + Operations(e)) else Fail
  {
    SayableWritable(e);
    WriteSpelled(e);
    StopsEnds(rest);
    RoundTrip(e, rest, depth, count);
  }

  // ---- Precedence and associativity ----

  /** The tokens of a tree of binary operators without any parentheses between them. */
  function Flat(e: Expr): seq<Token> {
    if e.Binary? then Flat(e.left) + [Sign(e.bop)] + Flat(e.right) else Spell(e)
  }

  /** Tighter operators are below looser ones, and equal ones associate to the left. */
  predicate Ordered(e: Expr) {
    e.Binary? ==>
      && Ordered(e.left) && Ordered(e.right)
      && (e.left.Binary? ==> Rank(e.left.bop) >= Rank(e.bop))
      && (e.right.Binary? ==> Rank(e.right.bop) > Rank(e.bop))
  }

  lemma {:induction false} OrderedSpells(e: Expr)
    requires Ordered(e)
    ensures Spell(e) == Flat(e)
  {
    if e.Binary? {
      OrderedSpells(e.left);
      OrderedSpells(e.right);
    }
  }

  /** A row of operands and operators, however long, parses to the tree in which they are so
      ordered, and so to no other. */
  lemma {:induction false} RowParses(e: Expr, rest: seq<Token>, depth: nat, count: nat)
    requires Sayable(e) && Ordered(e) && Stops(rest)
    requires depth + 1 + Levels(e) <= 256 && count + Operations(e) <= 256
    ensures Expression(Flat(e) + rest, depth, count) == Done(e, rest, count + Operations(e))
  {
    OrderedSpells(e);
    SpellingParses(e, rest, depth, count);
  }

  lemma {:induction false} BinaryAll(l: Text, left: Expr, r: Text, right: Expr, op: BinaryOp)
    requires ReadsAll(l, left) && ReadsAll(r, right)
    ensures ReadsAll(BinaryText(l, r, op), Binary(left, right, op))
  {
    var t := BinaryText(l, r, op);
    WrapBegins(l, Layer(op));
    assert Begins(t);
    BinaryReads(l, left, r, right, op, Layer(op), t);
    EveryLayer(t, Binary(left, right, op));
  }

  lemma Five<T>(a: seq<T>, b: seq<T>, c: seq<T>, d: seq<T>, e: seq<T>)
    ensures a + (b + (c + (d + e))) == a + b + c + d + e && a + (b + c) + (d + e) == a + b + c + d + e
  {
    Assoc(c, d, e);
    Assoc(b, c + d, e);
    Assoc(b, c, d);
    Assoc(a, b + c + d, e);
    Assoc(a, b + c, d);
    Assoc(a, b, c);
    Assoc(a + b + c, d, e);
  }

  /** Two operators between texts that need no parentheses. */
  function TwoText(x: Text, o1: BinaryOp, y: Text, o2: BinaryOp, z: Text): Text {
    if Rank(o2) > Rank(o1) then BinaryText(x, BinaryText(y, z, o2), o1) else BinaryText(BinaryText(x, y, o1), z, o2)
  }

  function TwoTree(a: Expr, o1: BinaryOp, b: Expr, o2: BinaryOp, c: Expr): Expr {
    if Rank(o2) > Rank(o1) then Binary(a, Binary(b, c, o2), o1) else Binary(Binary(a, b, o1), c, o2)
  }

  /** Texts that need no parentheses on either side of an operator. */
  lemma {:induction false} Joined(x: Text, op: BinaryOp, y: Text)
    requires x.tight >= Rank(op) - 1 && y.tight >= Rank(op)
    ensures BinaryText(x, y, op) == Text(x.tokens + ([Sign(op)] + y.tokens), Rank(op) - 1, Max(x.nesting, y.nesting), x.operators + 1 + y.operators)
  {
    assert Layer(op) == Rank(op) - 1 && BinaryToken(op) == Sign(op);
  }

  lemma {:induction false} TwoTokens(x: Text, o1: BinaryOp, y: Text, o2: BinaryOp, z: Text)
    requires x.tight >= 6 && y.tight >= 6 && z.tight >= 6
    ensures TwoText(x, o1, y, o2, z).tokens == x.tokens + [Sign(o1)] + y.tokens + [Sign(o2)] + z.tokens
    ensures TwoText(x, o1, y, o2, z).nesting == Max(x.nesting, Max(y.nesting, z.nesting))
    ensures TwoText(x, o1, y, o2, z).operators == x.operators + y.operators + z.operators + 2
  {
    Five(x.tokens, [Sign(o1)], y.tokens, [Sign(o2)], z.tokens);
    if Rank(o2) > Rank(o1) {
      Joined(y, o2, z);
      Joined(x, o1, BinaryText(y, z, o2));
    } else {
      Joined(x, o1, y);
      Joined(BinaryText(x, y, o1), o2, z);
    }
  }

  lemma {:induction false} TwoTexts(x: Text, a: Expr, o1: BinaryOp, y: Text, b: Expr, o2: BinaryOp, z: Text, c: Expr, rest: seq<Token>, depth: nat, count: nat)
    requires ReadsAll(x, a) && ReadsAll(y, b) && ReadsAll(z, c) && x.tight >= 6 && y.tight >= 6 && z.tight >= 6
    requires Stops(rest) && depth <= 256 && count <= 256
    ensures Expression(x.tokens + [Sign(o1)] + y.tokens + [Sign(o2)] + z.tokens + rest, depth, count) ==
      if depth + 1 + Max(x.nesting, Max(y.nesting, z.nesting)) <= 256 && count + (x.operators + y.operators + z.operators + 2) <= 256
      then Done(TwoTree(a, o1, b, o2, c), rest, count + (x.operators + y.operators + z.operators + 2)) else Fail
  {
    if Rank(o2) > Rank(o1) {
      BinaryAll(y, b, z, c, o2);
      BinaryAll(x, a, BinaryText(y, z, o2), Binary(b, c, o2), o1);
    } else {
      BinaryAll(x, a, y, b, o1);
      BinaryAll(BinaryText(x, y, o1), Binary(a, b, o1), z, c, o2);
    }
    TwoTokens(x, o1, y, o2, z);
    StopsEnds(rest);
    WholeAt(TwoText(x, o1, y, o2, z), TwoTree(a, o1, b, o2, c), rest, depth, count);
  }

  lemma {:induction false} SpelledReads(e: Expr)
    requires Sayable(e)
    ensures ReadsAll(Spelled(e), e)
  {
    SayableWritable(e);
    WriteSpelled(e);
    WriteReads(e);
  }

  /** `a o1 b o2 c`: the second operator binds first exactly when its tier is tighter, for any
      operands that are not themselves binary. */
  lemma {:induction false} TwoOperators(a: Expr, o1: BinaryOp, b: Expr, o2: BinaryOp, c: Expr, rest: seq<Token>, depth: nat, count: nat)
    requires Sayable(a) && Sayable(b) && Sayable(c) && Tier(a) >= 7 && Tier(b) >= 7 && Tier(c) >= 7 && Stops(rest) && depth <= 256 && count <= 256
    ensures Expression(Spell(a) + [Sign(o1)] + Spell(b) + [Sign(o2)] + Spell(c) + rest, depth, count) ==
      if depth + 1 + Max(Levels(a), Max(Levels(b), Levels(c))) <= 256 && count + (Operations(a) + Operations(b) + Operations(c) + 2) <= 256
      then Done(TwoTree(a, o1, b, o2, c), rest, count + (Operations(a) + Operations(b) + Operations(c) + 2)) else Fail
  {
    SpelledReads(a);
    SpelledReads(b);
    SpelledReads(c);
    TwoTexts(Spelled(a), a, o1, Spelled(b), b, o2, Spelled(c), c, rest, depth, count);
  }

  // ---- Calls into modules ----

  /** A member of a name, called. */
  function Qualifying(m: string, f: string, list: Text): Text {
    Text([Identifier(m), Dot, Identifier(f), LeftParen] + list.tokens, 7, list.nesting, 1 + list.operators)
  }

  lemma {:induction false} QualifiedReads(m: string, f: string, list: Text, args: Exprs)
    requires ReadsList(list, args, RightParen) && m != "true" && m != "false" && m != "null"
    ensures ReadsBase(Qualifying(m, f, list), Call(m + "__" + f, args))
  {
    var u, e := Qualifying(m, f, list), Call(m + "__" + f, args);
    forall rest: seq<Token>, depth: nat, count: nat | InLimits(depth, count) && !At(rest, LeftParen)
      ensures Postfixed(u.tokens + rest, depth, count) ==
        if ExpressionRoundTrip.Fits(u, depth, count) then Suffixes(e, rest, depth, count + u.operators) else Fail
    {
      QualifiedAt(m, f, list, args, rest, depth, count);
    }
  }

  lemma {:induction false} QualifiedAt(m: string, f: string, list: Text, args: Exprs, rest: seq<Token>, depth: nat, count: nat)
    requires ReadsList(list, args, RightParen) && m != "true" && m != "false" && m != "null" && InLimits(depth, count)
    ensures var u := Qualifying(m, f, list);
      Postfixed(u.tokens + rest, depth, count) ==
        if ExpressionRoundTrip.Fits(u, depth, count) then Suffixes(Call(m + "__" + f, args), rest, depth, count + u.operators) else Fail
  {
    QualifiedTokens(m, f, list, rest);
    QualifiedTail(m, f, list.tokens + rest, depth, count);
    if count < MAX_OPERATORS { QualifiedList(m + "__" + f, list, args, rest, depth, count); }
    QualifiedFits(m, f, list, depth, count);
  }

  lemma {:induction false} QualifiedTail(m: string, f: string, after: seq<Token>, depth: nat, count: nat)
    requires m != "true" && m != "false" && m != "null"
    ensures Postfixed([Identifier(m), Dot, Identifier(f), LeftParen] + after, depth, count) ==
      if count >= MAX_OPERATORS then Fail else Behind(m + "__" + f, List(after, RightParen, false, depth, count + 1), depth)
  {
    NamePrimary(m, f, after, depth, count);
    QualifiedStep(m, f, after, depth, count);
  }

  lemma QualifiedTokens(m: string, f: string, list: Text, rest: seq<Token>)
    ensures Qualifying(m, f, list).tokens + rest == [Identifier(m), Dot, Identifier(f), LeftParen] + (list.tokens + rest)
  {
  }

  lemma {:induction false} QualifiedList(e: string, list: Text, args: Exprs, rest: seq<Token>, depth: nat, count: nat)
    requires ReadsList(list, args, RightParen) && InLimits(depth, count) && count < MAX_OPERATORS
    ensures Behind(e, List(list.tokens + rest, RightParen, false, depth, count + 1), depth) ==
      if ExpressionRoundTrip.Fits(list, depth, count + 1) then Suffixes(Call(e, args), rest, depth, count + 1 + list.operators) else Fail
  {
    ListAt(list, args, RightParen, false, rest, depth, count + 1);
  }

  lemma QualifiedFits(m: string, f: string, list: Text, depth: nat, count: nat)
    ensures ExpressionRoundTrip.Fits(Qualifying(m, f, list), depth, count) <==> ExpressionRoundTrip.Fits(list, depth, count + 1)
  {
  }

  /** What follows a list of arguments. */
  function Behind(e: string, r: ParsedList, depth: nat): Parsed {
    match r
    case FailList => Fail
    case DoneList(args, rest, c) => Suffixes(Call(e, args), rest, depth, c)
  }

  lemma {:induction false} NamePrimary(m: string, f: string, after: seq<Token>, depth: nat, count: nat)
    requires m != "true" && m != "false" && m != "null"
    ensures Postfixed([Identifier(m), Dot, Identifier(f), LeftParen] + after, depth, count) ==
      Suffixes(Variable(m), [Dot, Identifier(f), LeftParen] + after, depth, count)
  {
    var ts := [Identifier(m), Dot, Identifier(f), LeftParen] + after;
    assert ts[1..] == [Dot, Identifier(f), LeftParen] + after;
    assert Primary(ts, depth, count) == Done(Variable(m), ts[1..], count);
    PostfixedStep(ts, depth, count);
  }

  lemma {:induction false} QualifiedStep(m: string, f: string, after: seq<Token>, depth: nat, count: nat)
    ensures Suffixes(Variable(m), [Dot, Identifier(f), LeftParen] + after, depth, count) ==
      if count >= MAX_OPERATORS then Fail else Behind(m + "__" + f, List(after, RightParen, false, depth, count + 1), depth)
  {
    var ts := [Dot, Identifier(f), LeftParen] + after;
    assert ts[2..] == [LeftParen] + after && ts[3..] == after;
    assert Suffixes(Variable(m), ts, depth, count) == MemberSuffix(Variable(m), ts, depth, count);
  }

  /** `m.f(args)` is a call of the function `f` of the module `m`. */
  lemma {:induction false} QualifiedParses(m: string, f: string, args: Exprs, rest: seq<Token>, depth: nat, count: nat)
    requires m != "true" && m != "false" && m != "null" && AllSayable(args) && Stops(rest) && depth <= 256 && count <= 256
    ensures Expression([Identifier(m), Dot, Identifier(f), LeftParen] + (SpellList(args) + [RightParen]) + rest, depth, count) ==
      if depth + 1 + ListLevels(args) <= 256 && count + 1 + ListOperations(args) <= 256
      then Done(Call(m + "__" + f, args), rest, count + 1 + ListOperations(args)) else Fail
  {
    AllSayableWritable(args);
    ListSpelled(args, RightParen);
    WriteListReads(args, RightParen);
    var list := WriteList(args, RightParen);
    var u, e := Qualifying(m, f, list), Call(m + "__" + f, args);
    QualifiedReads(m, f, list, args);
    EveryLayer(u, e);
    StopsEnds(rest);
    WholeAt(u, e, rest, depth, count);
  }

  // ---- Literals ----

  const LowerDigits: string := "0123456789abcdef"
  const UpperDigits: string := "0123456789ABCDEF"

  /** The characters of the digits. */
  lemma DigitsSpelled(d: nat)
    requires d < 16
    ensures DigitValue(LowerDigits[d]) == d && DigitValue(UpperDigits[d]) == d
  {
  }

  function Hex(n: nat): string {
    if n < 16 then [LowerDigits[n]] else Hex(n / 16) + [LowerDigits[n % 16]]
  }

  lemma {:induction false} HexDigitsRead(n: nat)
    ensures Hex(n) != "" && Digits(16, Hex(n)) == Some(n)
  {
    var text := Hex(n);
    assert Digits(16, "") == Some(0);
    DigitsSpelled(n % 16);
    if n < 16 {
      assert text[..0] == "";
    } else {
      HexDigitsRead(n / 16);
      assert text[..|text| - 1] == Hex(n / 16);
    }
  }

  /** Hexadecimal literals are read back. */
  lemma {:induction false} HexIsRead(n: nat)
    ensures Magnitude("0x" + Hex(n)) == Some(n) && Magnitude("0X" + Hex(n)) == Some(n)
  {
    HexDigitsRead(n);
    assert ("0x" + Hex(n))[2..] == Hex(n) && ("0X" + Hex(n))[2..] == Hex(n);
  }

  /** The escapes of a string, by character code: a newline, a carriage return, a tab, a
      backslash and a quotation mark; anything else keeps its backslash. */
  lemma {:induction false} EscapesSpelled(c: char, rest: string)
    ensures Unescape(['\\', c] + rest) ==
      (if c == 'n' then [10 as char]
       else if c == 'r' then [13 as char]
       else if c == 't' then [9 as char]
       else if c == '\\' then [92 as char]
       else if c == '"' then [34 as char]
       else [92 as char, c]) + Unescape(rest)
  {
    assert (['\\', c] + rest)[2..] == rest;
  }
}
