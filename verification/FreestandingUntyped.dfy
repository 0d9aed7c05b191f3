/** What the emitted code does with integers where the evaluator wants booleans. The type
    checker lets untyped parameters and results pass as conditions and as initial values of
    booleans (src/compiler/typecheck.c:335, 851, 957-978); the code looks at 32 bits. */
module FreestandingUntyped {
  import opened Operators
  import opened Hir
  import opened HirSemantics
  import opened X86
  import opened Freestanding
  import opened FreestandingSteps
  import opened FreestandingFrames
  import opened FreestandingContext
  import opened FreestandingSound

  /** The condition of an `if` or a `while` whose value is an integer holds exactly when its
      low 32 bits are not all zero. */
  lemma {:induction false} IntegerCondition(x: Context, n: nat, e: Expr, lab: nat, env: Env, s: Cpu, l: nat, i: int64) returns (k: nat, t: Cpu)
    requires Ready(x) && Framed(x.tab, env, s, 0) && x.code(e, lab).Some? && x.eval(n, e, env) == Val(IntV(i))
    requires At(x.m.code, s.pc, x.code(e, lab).value.ops + [TestL, Jcc(E, Free(l))]) && x.m.position(Free(l)) >= 0
    ensures x.m.run(k, s) == Running(t) && Calm(s, t)
    ensures t.pc == if i % 0x1_0000_0000 == 0 then x.m.position(Free(l)) else s.pc + |x.code(e, lab).value.ops| + 2
  {
    var ops := x.code(e, lab).value.ops;
    AtSplit(x.m.code, s.pc, ops, [TestL, Jcc(E, Free(l))]);
    var j, u := ExprRuns(x, n, e, lab, env, s);
    var i1, v := IntegerBranch(x.m, u, l);
    Compose(x.m, j, i1, s);
    k, t := j + i1, v;
    CalmTrans(s, u, t);
  }

  lemma {:induction false} IntegerBranch(m: Machine, s: Cpu, l: nat) returns (k: nat, t: Cpu)
    requires Good(m) && At(m.code, s.pc, [TestL, Jcc(E, Free(l))]) && m.position(Free(l)) >= 0
    ensures m.run(k, s) == Running(t) && Calm(s, t)
    ensures t == s.(pc := if Low(s.rax) == 0 then m.position(Free(l)) else s.pc + 2, eq := t.eq, lt := t.lt, of := t.of)
  {
    At2(m.code, s.pc, TestL, Jcc(E, Free(l)));
    t := s.(pc := s.pc + 1, eq := Low(s.rax) == 0, lt := Low(s.rax) < 0, of := false);
    DataStep(m, s, TestL);
    Once(m, s);
    JumpStep(m, t);
    More(m, 1, s, t);
    k, t := 2, t.(pc := if Low(s.rax) == 0 then m.position(Free(l)) else s.pc + 2);
  }

  /** So 4294967296, which is not zero, counts as false. */
  lemma {:induction false} WideConditionFails(x: Context, n: nat, e: Expr, lab: nat, env: Env, s: Cpu, l: nat) returns (k: nat, t: Cpu)
    requires Ready(x) && Framed(x.tab, env, s, 0) && x.code(e, lab).Some? && x.eval(n, e, env) == Val(IntV(0x1_0000_0000))
    requires At(x.m.code, s.pc, x.code(e, lab).value.ops + [TestL, Jcc(E, Free(l))]) && x.m.position(Free(l)) >= 0
    ensures x.m.run(k, s) == Running(t) && t.pc == x.m.position(Free(l))
  {
    k, t := IntegerCondition(x, n, e, lab, env, s, l, 0x1_0000_0000);
  }

  /** An integer stored in the slot of a declared boolean is read back without its high 32
      bits. */
  lemma {:induction false} NarrowSlot(m: Machine, s: Cpu, d: int) returns (t: Cpu)
    requires Good(m) && At(m.code, s.pc, [StoreL(d), LoadL(d)]) && (s.rbp + d) % 8 == 0
    ensures m.run(2, s) == Running(t) && t.pc == s.pc + 2 && t.rax == Low(s.rax)
  {
    At2(m.code, s.pc, StoreL(d), LoadL(d));
    var w := Peek(s.mem, s.rbp + d);
    LowReplaced(w, s.rax);
    MemoryStep(m, s, StoreL(d));
    Once(m, s);
    var u := s.(pc := s.pc + 1, mem := s.mem[s.rbp + d := w - Low(w) + Low(s.rax)]);
    MemoryStep(m, u, LoadL(d));
    More(m, 1, s, u);
    t := u.(pc := u.pc + 1, rax := Low(s.rax));
  }

  lemma LowReplaced(w: int, r: int)
    ensures Low(w - Low(w) + Low(r)) == Low(r)
  {
    var m := 0x1_0000_0000;
    assert w - Low(w) == m * (w / m);
    assert w - Low(w) + Low(r) == m * (w / m) + r % m;
  }
}
