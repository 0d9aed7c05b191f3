/** Control-flow graphs over HIR nodes (include/vnt/cfg.h): the blocks that the builder
    lays out for structured code, and what structured code and blocks mean. Statements and
    conditions act on an arbitrary state, so a state that records what has been visited
    makes every statement below a statement about traces. */
module Cfg {
  import opened Options
  import opened Hir
  import opened HirSemantics

  datatype Exit = Falls | Branches | Jumps | Returns | Exits

  /** Links are block or node indices; NO_NODE marks an absent one. */
  datatype Block = Block(instruction: int, condition: int, yes: int, no: int, exit: Exit)

  // ---- The blocks of structured code ----

  datatype Code = Code(blocks: seq<Block>, entry: int)

  /** Where `return`, `break` and `continue` go. */
  datatype Targets = Targets(exit: int, brk: int, cont: int)

  /** The blocks appended for the siblings of `f` with role `role` when there are `n`
      blocks already; control goes on to `next`. Later statements are laid out first. */
  function SeqCode(f: Forest, role: Role, next: int, t: Targets, n: nat): Option<Code>
    decreases f, 0
  {
    if f.Nil? then Some(Code([], next))
    else if f.role != role then SeqCode(f.rest, role, next, t, n)
    else match SeqCode(f.rest, role, next, t, n)
      case None => None
      case Some(rest) =>
        match StmtCode(f.idx, f.op, f.kids, rest.entry, t, n + |rest.blocks|)
        case None => None
        case Some(head) => Some(Code(rest.blocks + head.blocks, head.entry))
  }

  function StmtCode(idx: nat, op: Op, kids: Forest, next: int, t: Targets, n: nat): Option<Code>
    decreases kids, 2
  {
    match op
    case Program => SeqCode(kids, Statement, next, t, n)
    case If => IfCode(kids, next, t, n)
    case While => WhileCode(kids, next, t, n)
    case Return => Some(Code([Block(idx, NO_NODE, t.exit, NO_NODE, Returns)], n))
    case Break => JumpCode(idx, t.brk, n)
    case Continue => JumpCode(idx, t.cont, n)
    case Function(_, _) => Some(Code([], next))
    case Struct(_, _) => Some(Code([], next))
    case _ => Some(Code([Block(idx, NO_NODE, next, NO_NODE, Falls)], n))
  }

  function JumpCode(idx: nat, target: int, n: nat): Option<Code> {
    if target == NO_NODE then None else Some(Code([Block(idx, NO_NODE, target, NO_NODE, Jumps)], n))
  }

  function IfCode(kids: Forest, next: int, t: Targets, n: nat): Option<Code>
    decreases kids, 1
  {
    var cond := Child(kids, Condition);
    if cond.Nil? then None
    else match SeqCode(kids, Then, next, t, n)
      case None => None
      case Some(yes) =>
        match SeqCode(kids, Else, next, t, n + |yes.blocks|)
        case None => None
        case Some(no) =>
          var test := Block(NO_NODE, cond.idx, yes.entry, no.entry, Branches);
          Some(Code(yes.blocks + no.blocks + [test], n + |yes.blocks| + |no.blocks|))
  }

  function WhileCode(kids: Forest, next: int, t: Targets, n: nat): Option<Code>
    decreases kids, 1
  {
    var cond := Child(kids, Condition);
    if cond.Nil? then None
    else match SeqCode(kids, Body, n, Targets(t.exit, next, n), n + 1)
      case None => None
      case Some(body) => Some(Code([Block(NO_NODE, cond.idx, body.entry, next, Branches)] + body.blocks, n))
  }

  // ---- Structured runs ----

  datatype Step<S> = Next(s: S) | Halt(s: S)

  datatype Test<S> = Test(b: bool, s: S) | Fail(s: S)

  /** What statements and conditions do to the state, by node index. */
  datatype Machine<!S> = Machine(stmt: (nat, S) -> Step<S>, cond: (nat, S) -> Test<S>)

  datatype Way = On | Broken | Continuing | Returning

  datatype Result<S> = Ends(way: Way, s: S) | Stops(s: S) | Unfinished

  /** A literal condition decides without being visited. */
  function Decide<S>(m: Machine<S>, idx: nat, op: Op, s: S): Test<S> {
    if op.Boolean? then Test(op.b, s) else m.cond(idx, s)
  }

  function Visit<S>(m: Machine<S>, idx: nat, way: Way, s: S): Result<S> {
    match m.stmt(idx, s)
    case Next(s1) => Ends(way, s1)
    case Halt(s1) => Stops(s1)
  }

  /** `n` bounds the number of loop iterations. */
  function RunSeq<S>(n: nat, m: Machine<S>, f: Forest, role: Role, s: S): Result<S>
    decreases n, f, 0
  {
    if f.Nil? then Ends(On, s)
    else if f.role != role then RunSeq(n, m, f.rest, role, s)
    else match RunStmt(n, m, f.idx, f.op, f.kids, s)
      case Ends(On, s1) => RunSeq(n, m, f.rest, role, s1)
      case r => r
  }

  function RunStmt<S>(n: nat, m: Machine<S>, idx: nat, op: Op, kids: Forest, s: S): Result<S>
    decreases n, kids, 2
  {
    match op
    case Program => RunSeq(n, m, kids, Statement, s)
    case If => RunIf(n, m, kids, s)
    case While => RunLoop(n, m, kids, s)
    case Return => Visit(m, idx, Returning, s)
    case Break => Visit(m, idx, Broken, s)
    case Continue => Visit(m, idx, Continuing, s)
    case Function(_, _) => Ends(On, s)
    case Struct(_, _) => Ends(On, s)
    case _ => Visit(m, idx, On, s)
  }

  function TestOf<S>(m: Machine<S>, kids: Forest, s: S): Test<S> {
    var c := Child(kids, Condition);
    if c.Nil? then Fail(s) else Decide(m, c.idx, c.op, s)
  }

  function RunIf<S>(n: nat, m: Machine<S>, kids: Forest, s: S): Result<S>
    decreases n, kids, 1
  {
    match TestOf(m, kids, s)
    case Fail(s1) => Stops(s1)
    case Test(b, s1) => RunSeq(n, m, kids, if b then Then else Else, s1)
  }

  function RunLoop<S>(n: nat, m: Machine<S>, kids: Forest, s: S): Result<S>
    decreases n, kids, 1
  {
    match TestOf(m, kids, s)
    case Fail(s1) => Stops(s1)
    case Test(false, s1) => Ends(On, s1)
    case Test(true, s1) =>
      if n == 0 then Unfinished
      else match RunSeq(n, m, kids, Body, s1)
        case Ends(Broken, s2) => Ends(On, s2)
        case Ends(Returning, s2) => Ends(Returning, s2)
        case Ends(_, s2) => RunLoop(n - 1, m, kids, s2)
        case r => r
  }

  // ---- Walks through the blocks ----

  /** `Lost` is a jump to a block that does not exist. */
  datatype Config<S> = At(block: int, s: S) | Halted(s: S) | Finished(s: S) | Lost

  function Go<S>(m: Machine<S>, nodes: seq<Node>, blocks: seq<Block>, b: int, s: S): Config<S> {
    if !(0 <= b < |blocks|) then Lost
    else
      var k := blocks[b];
      if k.exit == Exits then Finished(s)
      else if k.exit == Branches then
        if !(0 <= k.condition < |nodes|) then Lost
        else match Decide(m, k.condition, nodes[k.condition].op, s)
          case Test(v, s1) => At(if v then k.yes else k.no, s1)
          case Fail(s1) => Halted(s1)
      else if k.instruction < 0 then At(k.yes, s)
      else match m.stmt(k.instruction, s)
        case Next(s1) => At(k.yes, s1)
        case Halt(s1) => Halted(s1)
  }

  /** At most `k` steps from block `b`. */
  function Walk<S>(k: nat, m: Machine<S>, nodes: seq<Node>, blocks: seq<Block>, b: int, s: S): Config<S> {
    if k == 0 then At(b, s)
    else match Go(m, nodes, blocks, b, s)
      case At(b1, s1) => Walk(k - 1, m, nodes, blocks, b1, s1)
      case c => c
  }
}
