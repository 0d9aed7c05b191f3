/** The high-level IR of the compiler: a flat array of nodes linked by child and
    sibling indices (include/vnt/ir.h). An opcode carries its own payload, so the
    payload checks of the validator hold by typing. */
module Hir {
  import opened Operators

  const NO_NODE: int := -1

  datatype Op =
    | Program | Print | If | While
    | Function(fn: string, params: seq<string>)
    | Struct(tag: string, fields: seq<string>)
    | Call(callee: string)
    | Return | Break | Continue
    | Text(text: string) | Integer(i: int64) | Boolean(b: bool) | Null | Array
    | Decl(decl: string) | Variable(name: string) | Index | Member(member: string)
    | Assign | Binary(bop: BinaryOp) | Unary(uop: UnaryOp)
    | Reassign(target: string) | Asm(code: string)

  /** Edge roles: which operand or sequence of its parent a node belongs to. */
  datatype Role =
    | Root | Statement | Condition | Then | Else | Body | Value | Target
    | Argument | Element | Object | IndexOf | Left | Right | Operand

  /** The roles of statements within a sequence. */
  predicate StatementRole(r: Role) {
    r == Statement || r == Then || r == Else || r == Body
  }

  datatype Node = Node(op: Op, role: Role, first: int, last: int, next: int, count: nat)

  /** An ordered list of sibling nodes with their subtrees, each node keeping the
      index it occupies in the array. */
  datatype Forest =
    | Nil
    | Cons(idx: nat, op: Op, role: Role, kids: Forest, rest: Forest)

  function Start(f: Forest): int {
    if f.Nil? then NO_NODE else f.idx
  }

  function Len(f: Forest): nat {
    if f.Nil? then 0 else 1 + Len(f.rest)
  }

  function LastIdx(f: Forest): (i: int)
    ensures i == NO_NODE <==> f.Nil?
  {
    if f.Nil? then NO_NODE else if f.rest.Nil? then f.idx else LastIdx(f.rest)
  }

  function Append(f: Forest, g: Forest): (r: Forest) {
    if f.Nil? then g else f.(rest := Append(f.rest, g))
  }

  /** The node indices a forest occupies. */
  function Footprint(f: Forest): set<nat> {
    if f.Nil? then {} else {f.idx} + Footprint(f.kids) + Footprint(f.rest)
  }

  /** No index occurs twice. */
  predicate Distinct(f: Forest) {
    f.Cons? ==>
      && f.idx !in Footprint(f.kids)
      && f.idx !in Footprint(f.rest)
      && Footprint(f.kids) !! Footprint(f.rest)
      && Distinct(f.kids)
      && Distinct(f.rest)
  }

  /** Following sibling links from `i` visits exactly `f` and then arrives at link `e`;
      below each visited node the whole child list is as `f` says. */
  predicate IsSegment(nodes: seq<Node>, i: int, f: Forest, e: int): (b: bool)
    ensures b ==> i == if f.Nil? then e else f.idx
    decreases f
  {
    if f.Nil? then i == e
    else
      && i == f.idx < |nodes|
      && nodes[i].op == f.op
      && nodes[i].role == f.role
      && nodes[i].last == LastIdx(f.kids)
      && nodes[i].count == Len(f.kids)
      && IsSegment(nodes, nodes[i].first, f.kids, NO_NODE)
      && IsSegment(nodes, nodes[i].next, f.rest, e)
  }

  /** The sibling list starting at link `i` of the array is exactly `f`. */
  predicate IsForest(nodes: seq<Node>, i: int, f: Forest) {
    IsSegment(nodes, i, f, NO_NODE)
  }

  /** The first sibling with a given role, as the suffix starting there. */
  function Child(f: Forest, role: Role): (r: Forest)
    ensures r.Cons? ==> r.role == role && r.kids < f
  {
    if f.Nil? || f.role == role then f else Child(f.rest, role)
  }

  predicate AllRole(f: Forest, role: Role) {
    f.Cons? ==> f.role == role && AllRole(f.rest, role)
  }

  /** Every THEN sibling precedes every ELSE sibling and nothing else occurs. */
  predicate ThenElse(f: Forest) {
    f.Cons? ==> if f.role == Then then ThenElse(f.rest) else AllRole(f, Else)
  }

  /** The child order that lowering produces for each opcode. */
  predicate CanonicalNode(op: Op, kids: Forest) {
    match op
    case Program => AllRole(kids, Statement)
    case Print | Return | Decl(_) => AllRole(kids, Value) && Len(kids) <= 1
    case Reassign(_) => AllRole(kids, Value) && Len(kids) == 1
    case If => kids.Cons? && kids.role == Condition && ThenElse(kids.rest)
    case While => kids.Cons? && kids.role == Condition && AllRole(kids.rest, Body)
    case Function(_, _) => AllRole(kids, Body)
    case Call(_) => AllRole(kids, Argument)
    case Array => AllRole(kids, Element)
    case Index => Pair(kids, Object, IndexOf)
    case Member(_) => Len(kids) == 1 && kids.role == Object
    case Assign => Pair(kids, Target, Value)
    case Binary(_) => Pair(kids, Left, Right)
    case Unary(_) => Len(kids) == 1 && kids.role == Operand
    case _ => kids.Nil?
  }

  predicate Pair(kids: Forest, a: Role, b: Role) {
    kids.Cons? && kids.role == a && kids.rest.Cons? && kids.rest.role == b && kids.rest.rest.Nil?
  }

  predicate Canonical(f: Forest) {
    f.Cons? ==> CanonicalNode(f.op, f.kids) && Canonical(f.kids) && Canonical(f.rest)
  }
}
