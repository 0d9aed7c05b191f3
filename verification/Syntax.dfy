/** Tokens and expression trees, the values of literals, and how a tree is written with as
    few parentheses as possible. */
module Syntax {

  import opened Options
  import opened Operators

  datatype Token =
    | Integer(text: string) | Float(text: string) | String(text: string) | Identifier(text: string)
    | LeftParen | RightParen | LeftBracket | RightBracket | Comma | Dot | Bang | Ampersand
    | Star | Slash | Percent | Plus | Minus
    | Greater | Less | GreaterEqual | LessEqual | EqualEqual | BangEqual | AndAnd | OrOr
    | Other(kind: nat)

  /** A float keeps its text: its value plays no part here. */
  datatype Expr =
    | IntLit(value: int) | FloatLit(text: string) | StringLit(chars: string) | BoolLit(truth: bool) | NullLit
    | Variable(name: string)
    | Call(name: string, args: Exprs)
    | ArrayLit(elements: Exprs)
    | Unary(uop: UnaryOp, operand: Expr)
    | Binary(left: Expr, right: Expr, bop: BinaryOp)
    | Index(base: Expr, index: Expr)
    | Member(base: Expr, member: string)

  datatype Exprs = Nil | Cons(head: Expr, tail: Exprs)

  const MAX_NESTING: nat := 256
  const MAX_OPERATORS: nat := 256
  const BUFFER_SIZE: nat := 64

  // ---- Operators ----

  /** The layers of binary operators, loosest first. */
  const LAYERS: nat := 6

  function Layer(op: BinaryOp): (k: nat)
    ensures k < LAYERS
  {
    match op
    case Or => 0
    case And => 1
    case Equal | NotEqual => 2
    case Greater | Less | GreaterEqual | LessEqual => 3
    case Add | Subtract => 4
    case Multiply | Divide | Modulo => 5
  }

  function BinaryToken(op: BinaryOp): Token {
    match op
    case Add => Plus case Subtract => Minus
    case Multiply => Star case Divide => Slash case Modulo => Percent
    case Equal => EqualEqual case NotEqual => BangEqual
    case Greater => Token.Greater case Less => Token.Less
    case GreaterEqual => Token.GreaterEqual case LessEqual => Token.LessEqual
    case And => AndAnd case Or => OrOr
  }

  function UnaryToken(op: UnaryOp): Token {
    match op
    case Not => Bang case Negate => Minus case Reference => Ampersand case Dereference => Star
  }

  /** The operator that a token is in a layer of binary operators. */
  function OperatorIn(k: nat, t: Token): (r: Option<BinaryOp>)
    ensures forall op :: r == Some(op) <==> Layer(op) == k && BinaryToken(op) == t
  {
    match (k, t)
    case (0, OrOr) => Some(Or)
    case (1, AndAnd) => Some(And)
    case (2, EqualEqual) => Some(Equal)
    case (2, BangEqual) => Some(NotEqual)
    case (3, Greater) => Some(BinaryOp.Greater)
    case (3, Less) => Some(BinaryOp.Less)
    case (3, GreaterEqual) => Some(BinaryOp.GreaterEqual)
    case (3, LessEqual) => Some(BinaryOp.LessEqual)
    case (4, Plus) => Some(Add)
    case (4, Minus) => Some(Subtract)
    case (5, Star) => Some(Multiply)
    case (5, Slash) => Some(Divide)
    case (5, Percent) => Some(Modulo)
    case _ => None
  }

  function PrefixOf(t: Token): (r: Option<UnaryOp>)
    ensures forall op :: r == Some(op) <==> UnaryToken(op) == t
  {
    match t
    case Bang => Some(Not) case Minus => Some(Negate) case Ampersand => Some(Reference) case Star => Some(Dereference)
    case _ => None
  }

  // ---- Literals ----

  function DigitValue(c: char): int {
    if '0' <= c <= '9' then c as int - '0' as int
    else if 'a' <= c <= 'f' then c as int - 'a' as int + 10
    else if 'A' <= c <= 'F' then c as int - 'A' as int + 10
    else -1
  }

  /** The value of a text of digits, none if a character is not one. */
  function Digits(base: nat, text: string): Option<nat> {
    if text == "" then Some(0)
    else match Digits(base, text[..|text| - 1])
      case None => None
      case Some(v) =>
        var d := DigitValue(text[|text| - 1]);
        if 0 <= d < base then Some(v * base + d) else None
  }

  /** The magnitude that strtoull finds in the whole of a token: hexadecimal after 0x, else
      decimal. */
  function Magnitude(text: string): Option<nat> {
    if |text| >= 2 && text[0] == '0' && (text[1] == 'x' || text[1] == 'X') then
      (if |text| > 2 then Digits(16, text[2..]) else None)
    else if text == "" then None
    else Digits(10, text)
  }

  /** A token whose magnitude is one more than INT64_MAX. */
  predicate IsMinLiteral(text: string) {
    0 < |text| < BUFFER_SIZE && Magnitude(text) == Some(INT64_MAX + 1)
  }

  function DigitChar(d: nat): (c: char)
    requires d < 10
    ensures '0' <= c <= '9' && DigitValue(c) == d
  {
    ('0' as int + d) as char
  }

  function Decimal(n: nat): (text: string)
    ensures |text| > 0 && (forall i :: 0 <= i < |text| ==> '0' <= text[i] <= '9')
  {
    if n < 10 then [DigitChar(n)] else Decimal(n / 10) + [DigitChar(n % 10)]
  }

  /** The characters of a string token with its escapes undone. */
  function Unescape(text: string): string {
    if text == "" then ""
    else if text[0] == '\\' && |text| > 1 then Escaped(text[1]) + Unescape(text[2..])
    else [text[0]] + Unescape(text[1..])
  }

  /** An unknown escape stays as it is. */
  function Escaped(c: char): string {
    match c
    case 'n' => "\n" case 'r' => "\r" case 't' => "\t" case '\\' => "\\" case '"' => "\""
    case _ => ['\\', c]
  }

  function EscapeChar(c: char): string {
    match c
    case '\n' => "\\n" case '\r' => "\\r" case '\t' => "\\t" case '\\' => "\\\\" case '"' => "\\\""
    case _ => [c]
  }

  function Escape(chars: string): string {
    if chars == "" then "" else EscapeChar(chars[0]) + Escape(chars[1..])
  }

  lemma {:induction false} DecimalDigits(n: nat)
    ensures Digits(10, Decimal(n)) == Some(n)
  {
    var text := Decimal(n);
    assert Digits(10, "") == Some(0);
    if n < 10 {
      assert text[..0] == "";
    } else {
      DecimalDigits(n / 10);
      assert text[..|text| - 1] == Decimal(n / 10);
    }
  }

  function Power10(k: nat): nat {
    if k == 0 then 1 else 10 * Power10(k - 1)
  }

  lemma {:induction false} DecimalLength(n: nat, k: nat)
    requires n < Power10(k) && k > 0
    ensures |Decimal(n)| <= k
  {
    if n >= 10 { DecimalLength(n / 10, k - 1); }
  }

  /** Decimal literals of every magnitude up to that of INT64_MIN fit the buffer and are read
      back. */
  lemma {:induction false} DecimalIsRead(n: nat)
    requires n <= INT64_MAX + 1
    ensures |Decimal(n)| < BUFFER_SIZE && Magnitude(Decimal(n)) == Some(n)
  {
    DecimalDigits(n);
    Powers();
    DecimalLength(n, 19);
    var text := Decimal(n);
    assert |text| >= 2 ==> '0' <= text[1] <= '9';
  }

  lemma Powers()
    ensures Power10(19) > INT64_MAX + 1
  {
    assert Power10(5) == 100000;
    PowerSum(5, 5);
    PowerSum(10, 5);
    PowerSum(15, 4);
  }

  lemma {:induction false} PowerSum(a: nat, b: nat)
    ensures Power10(a + b) == Power10(a) * Power10(b)
  {
    if b > 0 {
      PowerSum(a, b - 1);
      assert Power10(a + b) == 10 * Power10(a + (b - 1));
    }
  }

  lemma {:induction false} UnescapeChar(c: char, rest: string)
    ensures Unescape(EscapeChar(c) + rest) == [c] + Unescape(rest)
  {
    var head := EscapeChar(c);
    var text := head + rest;
    assert text[0] == head[0] && text[|head|..] == rest;
    if |head| == 2 { assert text[1] == head[1]; }
  }

  lemma {:induction false} UnescapeEscape(chars: string)
    ensures Unescape(Escape(chars)) == chars
  {
    if chars != "" {
      UnescapeChar(chars[0], Escape(chars[1..]));
      UnescapeEscape(chars[1..]);
    }
  }

  // ---- Writing a tree ----

  /** How a tree is written: its tokens; the tightest layer at which it stands without
      parentheses (binary operators, then prefix operators, then the rest); how many levels it
      nests, which prefix operators and the expressions in brackets, parentheses and argument
      lists do; and its binary operators, indexings and member accesses. */
  datatype Text = Text(tokens: seq<Token>, tight: nat, nesting: nat, operators: nat)

  /** The text where a layer is wanted: parenthesised if it is looser. */
  function Wrap(t: Text, k: nat): Text {
    if t.tight < k then Text([LeftParen] + (t.tokens + [RightParen]), LAYERS + 1, 1 + t.nesting, t.operators) else t
  }

  function Max(a: nat, b: nat): nat {
    if a < b then b else a
  }

  function Leaf(t: Token): Text {
    Text([t], LAYERS + 1, 0, 0)
  }

  function BinaryText(l: Text, r: Text, op: BinaryOp): Text {
    var a, b := Wrap(l, Layer(op)), Wrap(r, Layer(op) + 1);
    Text(a.tokens + ([BinaryToken(op)] + b.tokens), Layer(op), Max(a.nesting, b.nesting), l.operators + 1 + r.operators)
  }

  function UnaryText(op: UnaryOp, t: Text): Text {
    var a := Wrap(t, LAYERS);
    Text([UnaryToken(op)] + a.tokens, LAYERS, 1 + a.nesting, t.operators)
  }

  function IndexText(t: Text, i: Text): Text {
    var a := Wrap(t, LAYERS + 1);
    Text(a.tokens + ([LeftBracket] + (i.tokens + [RightBracket])), LAYERS + 1, Max(a.nesting, 1 + i.nesting), t.operators + 1 + i.operators)
  }

  function MemberText(t: Text, f: string): Text {
    var a := Wrap(t, LAYERS + 1);
    Text(a.tokens + [Dot, Identifier(f)], LAYERS + 1, a.nesting, t.operators + 1)
  }

  function LastItem(t: Text, close: Token): Text {
    Text(t.tokens + [close], LAYERS + 1, 1 + t.nesting, t.operators)
  }

  function MoreItems(t: Text, more: Text): Text {
    Text(t.tokens + ([Comma] + more.tokens), LAYERS + 1, Max(1 + t.nesting, more.nesting), t.operators + more.operators)
  }

  function After(ts: seq<Token>, t: Text): Text {
    t.(tokens := ts + t.tokens)
  }

  /** A tree with as few parentheses as the layers allow. */
  function Write(e: Expr): Text
    decreases e
  {
    match e
    case IntLit(v) => if v < 0 then Text([Minus, Integer(Decimal(0 - v))], LAYERS, 1, 0) else Leaf(Integer(Decimal(v)))
    case FloatLit(text) => Leaf(Float(text))
    case StringLit(chars) => Leaf(String(Escape(chars)))
    case BoolLit(b) => Leaf(Identifier(if b then "true" else "false"))
    case NullLit => Leaf(Identifier("null"))
    case Variable(x) => Leaf(Identifier(x))
    case Call(f, args) => After([Identifier(f), LeftParen], WriteList(args, RightParen))
    case ArrayLit(elements) => After([LeftBracket], WriteList(elements, RightBracket))
    case Unary(op, a) => UnaryText(op, Write(a))
    case Binary(l, r, op) => BinaryText(Write(l), Write(r), op)
    case Index(a, i) => IndexText(Write(a), Write(i))
    case Member(a, f) => MemberText(Write(a), f)
  }

  function WriteList(es: Exprs, close: Token): Text
    decreases es
  {
    match es
    case Nil => Leaf(close)
    case Cons(e, Nil) => LastItem(Write(e), close)
    case Cons(e, tail) => MoreItems(Write(e), WriteList(tail, close))
  }

  // ---- Trees that can be written ----

  predicate Keyword(x: string) {
    x == "true" || x == "false" || x == "null"
  }

  /** Integers are int64 literals, the least one included; the three constants are not
      variables; a float fits its buffer. */
  predicate Writable(e: Expr)
    decreases e
  {
    match e
    case IntLit(v) => v == INT64_MIN || 0 <= v <= INT64_MAX
    case FloatLit(text) => |text| < BUFFER_SIZE
    case StringLit(_) | BoolLit(_) | NullLit => true
    case Variable(x) => !Keyword(x)
    case Call(_, args) => AllWritable(args)
    case ArrayLit(elements) => AllWritable(elements)
    case Unary(_, a) => Writable(a)
    case Binary(l, r, _) => Writable(l) && Writable(r)
    case Index(a, i) => Writable(a) && Writable(i)
    case Member(a, _) => Writable(a)
  }

  predicate AllWritable(es: Exprs)
    decreases es
  {
    es.Cons? ==> Writable(es.head) && AllWritable(es.tail)
  }
}
