/** Constant propagation (hir_substitute_expression, hir_propagate_statement,
    hir_propagate_sequence): literals known to be in variables replace their reads. */
module HirPropagate {
  import opened Operators
  import opened Hir
  import opened HirSemantics

  type Constant = op: Op | op.Integer? || op.Boolean? witness Boolean(false)

  /** The facts in force: storage key to literal. */
  type Facts = map<string, Constant>

  function Size(f: Forest): nat {
    if f.Nil? then 0 else 1 + Size(f.kids) + Size(f.rest)
  }

  predicate ContainsCall(f: Forest) {
    f.Cons? && (f.op.Call? || ContainsCall(f.kids) || ContainsCall(f.rest))
  }

  /** What a direct or indirect write leaves known. */
  function AfterWrite(kids: Forest, env: Facts): Facts {
    var t := Child(kids, Target);
    if t.Cons? && t.op.Variable? then env - {t.op.name} else map[]
  }

  /** One expression node under `env`: its new opcode and children, and the facts that
      survive its evaluation. */
  function SubstNode(op: Op, kids: Forest, env: Facts): (r: (Op, Forest, Facts))
    ensures Size(r.1) == Size(kids)
    decreases kids, 1
  {
    if op.Variable? then (if op.name in env then env[op.name] else op, kids, env)
    else if op.Call? then (op, SubstList(kids, env).0, map[])
    else if op.Assign? then (op, kids, AfterWrite(kids, env))
    else if op == Unary(Reference) then (op, kids, env)
    else var (k, e) := SubstList(kids, env); (op, k, e)
  }

  function SubstList(f: Forest, env: Facts): (r: (Forest, Facts))
    ensures Size(r.0) == Size(f)
    decreases f, 0
  {
    if f.Nil? then (Nil, env)
    else
      var (op, k, e) := SubstNode(f.op, f.kids, env);
      var (rest, e1) := SubstList(f.rest, e);
      (Cons(f.idx, op, f.role, k, rest), e1)
  }

  /** Substitution into the first sibling with a given role. */
  function SubstChild(f: Forest, role: Role, env: Facts): (r: (Forest, Facts))
    ensures Size(r.0) == Size(f)
  {
    if f.Nil? then (f, env)
    else if f.role == role then
      var (op, k, e) := SubstNode(f.op, f.kids, env);
      (f.(op := op, kids := k), e)
    else
      var (rest, e) := SubstChild(f.rest, role, env);
      (f.(rest := rest), e)
  }

  function Remember(env: Facts, x: string, value: Forest): Facts {
    if value.Cons? && (value.op.Integer? || value.op.Boolean?) then env[x := value.op] else env - {x}
  }

  /** One statement: its new children and the facts after it. A call anywhere in the
      statement discards every fact. */
  function PropagateNode(op: Op, kids: Forest, env: Facts): (r: (Forest, Facts))
    ensures Size(r.0) == Size(kids)
    decreases Size(kids), 3
  {
    var (k, e) := PropagateKids(op, kids, env);
    (k, if op.Call? || ContainsCall(k) then map[] else e)
  }

  /** The same before calls are considered. A branch starts every container among its
      children from the facts that hold before the branch. */
  function PropagateKids(op: Op, kids: Forest, env: Facts): (r: (Forest, Facts))
    ensures Size(r.0) == Size(kids)
    decreases Size(kids), 2
  {
    if op.If? then
      var (k, e) := SubstChild(kids, Condition, env);
      (PropagateArms(k, e), map[])
    else if op.Function? then (PropagateBody(kids), env)
    else if op.Program? then PropagateList(kids, env)
    else PropagateSimple(op, kids, env)
  }

  /** A statement whose statement children, if any, are not entered. */
  function PropagateSimple(op: Op, kids: Forest, env: Facts): (r: (Forest, Facts))
    ensures Size(r.0) == Size(kids)
  {
    if op.While? || op.Asm? then (kids, map[])
    else if op.Decl? then AssignValue(op.decl, kids, env)
    else if op.Reassign? then AssignValue(op.target, kids, env)
    else if op.Assign? then (kids, AfterWrite(kids, env))
    else SubstList(kids, env)
  }

  function AssignValue(x: string, kids: Forest, env: Facts): (r: (Forest, Facts))
    ensures Size(r.0) == Size(kids)
  {
    var (k, e) := SubstChild(kids, Value, env);
    (k, Remember(e, x, Child(k, Value)))
  }

  function PropagateList(f: Forest, env: Facts): (r: (Forest, Facts))
    ensures Size(r.0) == Size(f)
    decreases Size(f), 1
  {
    if f.Nil? then (Nil, env)
    else if f.role != Statement then
      var (rest, e) := PropagateList(f.rest, env);
      (f.(rest := rest), e)
    else
      var (k, e) := PropagateNode(f.op, f.kids, env);
      var (rest, e1) := PropagateList(f.rest, e);
      (f.(kids := k, rest := rest), e1)
  }

  function PropagateArms(f: Forest, env: Facts): (r: Forest)
    ensures Size(r) == Size(f)
    decreases Size(f), 1
  {
    if f.Nil? then Nil
    else if (f.role == Then || f.role == Else) && f.op.Program? then
      f.(kids := PropagateList(f.kids, env).0, rest := PropagateArms(f.rest, env))
    else f.(rest := PropagateArms(f.rest, env))
  }

  /** Only a container that is the first statement of a function body is entered. */
  function PropagateBody(f: Forest): (r: Forest)
    ensures Size(r) == Size(f)
    decreases Size(f), 1
  {
    if f.Nil? then Nil
    else if f.role != Body then f.(rest := PropagateBody(f.rest))
    else if f.op.Program? then f.(kids := PropagateList(f.kids, map[]).0)
    else f
  }

  /** The pass over the statements of a program. */
  function Propagate(p: Forest): Forest {
    PropagateList(p, map[]).0
  }

  /** With the condition first, as lowered, only the condition and the arms change. */
  lemma PropagateIfShape(kids: Forest, env: Facts)
    requires kids.Cons? && kids.role == Condition
    ensures var s := SubstNode(kids.op, kids.kids, env);
      PropagateKids(If, kids, env).0 == kids.(op := s.0, kids := s.1, rest := PropagateArms(kids.rest, s.2))
  {
    var s := SubstNode(kids.op, kids.kids, env);
    assert SubstChild(kids, Condition, env) == (kids.(op := s.0, kids := s.1), s.2);
  }

  // ---- The programs on which propagation is sound ----

  /** The variables an expression reads where the pass may replace them: nothing below an
      assignment, and no operand of `&`. */
  function ExprReads(op: Op, kids: Forest): set<string>
    decreases kids, 1
  {
    if op.Variable? then {op.name}
    else if op.Assign? || op == Unary(Reference) then {}
    else ExprReadsList(kids)
  }

  function ExprReadsList(f: Forest): set<string>
    decreases f, 0
  {
    if f.Nil? then {} else ExprReads(f.op, f.kids) + ExprReadsList(f.rest)
  }

  /** The same for a statement: the pass enters neither loops nor, from outside, functions. */
  function Reads(op: Op, kids: Forest): set<string>
    decreases kids, 1
  {
    if op.Program? || op.If? then ReadsList(kids)
    else if op.While? || op.Function? || op.Assign? || op.Asm? then {}
    else ExprReadsList(kids)
  }

  function ReadsList(f: Forest): set<string>
    decreases f, 0
  {
    if f.Nil? then {}
    else (if StatementRole(f.role) then Reads(f.op, f.kids) else ExprReads(f.op, f.kids)) + ReadsList(f.rest)
  }

  /** Running the node may write the variable. Calls, inline assembly and writes through
      memory may write every variable. */
  predicate Writes(op: Op, kids: Forest, x: string)
    decreases kids, 1
  {
    || op.Call? || op.Asm? || op == Decl(x) || op == Reassign(x)
    || (op.Assign? && kids.Cons? && (kids.op.Variable? ==> kids.op.name == x))
    || WritesList(kids, x)
  }

  predicate WritesList(f: Forest, x: string)
    decreases f, 0
  {
    f.Cons? && (Writes(f.op, f.kids, x) || WritesList(f.rest, x))
  }

  predicate Container(op: Op) {
    op.If? || op.Program?
  }

  /** No later branch or container of the same arm reads what the node may write. A nested
      `if` counts as a container because simplification can turn it into one. */
  predicate Undisturbed(op: Op, kids: Forest, role: Role, f: Forest)
    decreases f
  {
    f.Cons? ==>
      && (f.role == role && Container(f.op) ==> forall x :: x in Reads(f.op, f.kids) ==> !Writes(op, kids, x))
      && Undisturbed(op, kids, role, f.rest)
  }

  /** In each arm of an `if`, what a nested branch or container reads is not written by the
      statements of the arm before it: the pass gives it the facts from before the `if`. */
  predicate Orderly(op: Op, kids: Forest)
    decreases kids, 2
  {
    match op
    case Program => OrderlyList(kids)
    case If => OrderlyArms(kids)
    case Function(_, _) => var b := Child(kids, Body); b.Cons? ==> Orderly(b.op, b.kids)
    case _ => true
  }

  predicate OrderlyList(f: Forest)
    decreases f, 1
  {
    f.Cons? ==> Orderly(f.op, f.kids) && OrderlyList(f.rest)
  }

  predicate OrderlyArms(f: Forest)
    decreases f, 1
  {
    f.Cons? ==>
      && (f.role == Then || f.role == Else ==> Orderly(f.op, f.kids) && Undisturbed(f.op, f.kids, f.role, f.rest))
      && OrderlyArms(f.rest)
  }
}
