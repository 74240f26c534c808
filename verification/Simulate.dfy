/** The machine running the generated code follows the big-step meaning. */
module Simulate {
  import opened Int32
  import opened Options
  import opened Tiger
  import opened Cfg
  import opened Check
  import opened Translate
  import opened Layout
  import opened Link

  /** The setting of one piece of code: the unit, the linked module, the variables the current
      function has pointers to, and whether a loop encloses the code. */
  datatype Site = Site(cx: Context, m: Module, need: set<Sym>, inLoop: bool)

  /** The frame is about to run what `b` will generate next. */
  ghost predicate At(fr: Frame, b: Builder) {
    b.Valid() && fr.blk == b.at && fr.pc == |b.blocks[b.at]|
  }

  /** Registers in use are never reassigned. */
  ghost predicate Keeps(r1: Regs, r2: Regs, below: nat) {
    forall r: nat :: r < below && r in r1 ==> r in r2 && r2[r] == r1[r]
  }

  /** The pointer held for each visible variable is the cell that lexical scoping gives it. */
  ghost predicate LocalsOk(env: Env, b: Builder, regs: Regs, need: set<Sym>) {
    && LocalsBelow(b)
    && (forall x :: x in need ==> x in b.locals)
    && (forall x :: x in need && x in Vars(env) ==> Pointer(b, regs, x) == Some(LookupVar(env, x)))
  }

  ghost function Pointer(b: Builder, regs: Regs, x: Sym): Option<Option<nat>> {
    if x in b.locals && Value(b.locals[x], regs).Ptr? then Some(Some(Value(b.locals[x], regs).loc)) else None
  }

  /** Everything the static passes establish about `e` in `env`. */
  ghost predicate Ready(e: Exp, env: Env, s: Site) {
    && TypeOf(e, ScopeOf(env), s.inLoop).Some? && Unique(e, Vars(env))
    && Closed(e, s.need, s.cx) && Linked(e, s.cx, s.m) && EnvOk(env, s.cx, s.m)
  }

  ghost predicate ReadyAll(es: Exps, env: Env, s: Site) {
    && AllTyped(es, ScopeOf(env), s.inLoop) && UniqueAll(es, Vars(env))
    && ClosedAll(es, s.need, s.cx) && LinkedAll(es, s.cx, s.m) && EnvOk(env, s.cx, s.m)
  }

  predicate AllTyped(es: Exps, sc: Scope, inLoop: bool) {
    match es
    case NoExp => true
    case Cons(e, rest) => TypeOf(e, sc, inLoop).Some? && AllTyped(rest, sc, inLoop)
  }

  /** The machine stands at the code between `b` and `b2`, with matching storage. */
  ghost predicate Here(b: Builder, b2: Builder, fr: Frame, env: Env, st: State, s: Site) {
    && At(fr, b) && fr.fn in s.m && Extends(b2, s.m[fr.fn])
    && LocalsOk(env, b, fr.regs, s.need) && LocsBelow(env, |st.mem|)
    && (s.inLoop ==> b.loopEnd.Some?)
  }

  /** Still the same activation, registers below `below` untouched. */
  ghost predicate Same(fr: Frame, stack: Stack, c: Config, below: nat) {
    c.Running? && c.stack == stack && c.frame.fn == fr.fn && Keeps(fr.regs, c.frame.regs, below)
  }

  /** At the end of the code, with the value in the operand. */
  ghost predicate Done(v: int32, st: State, isInt: bool, b: Builder, g: Gen<Operand>, fr: Frame, stack: Stack, c: Config) {
    Same(fr, stack, c, b.regs) && c.st == st && At(c.frame, g.b) && (isInt ==> Value(g.v, c.frame.regs) == I32(v))
  }

  /** At the start of the block after the enclosing loop. */
  ghost predicate Broke(st: State, b: Builder, fr: Frame, stack: Stack, c: Config) {
    Same(fr, stack, c, b.regs) && c.st == st && b.loopEnd == Some(c.frame.blk) && c.frame.pc == 0
  }

  /** The ways an outcome that carries no value shows on the machine after `n` steps. */
  ghost predicate Stops<T>(o: Outcome<T>, b: Builder, fr: Frame, stack: Stack, c: Config, n: nat, fuel: nat, s: Site)
    requires !o.Val?
  {
    match o
    case Brk(st) => s.inLoop && Broke(st, b, fr, stack, c)
    case Fault(st) => c == Trapped(st)
    case Stuck(_) => !s.cx.pointerFirst && c.Crashed?
    case Timeout(st) => c.Running? && c.st == st && n >= fuel
  }

  ghost predicate Follows(o: Outcome<int32>, isInt: bool, b: Builder, g: Gen<Operand>, fr: Frame, stack: Stack,
                          c: Config, n: nat, fuel: nat, s: Site) {
    if o.Val? then Done(o.value, o.st, isInt, b, g, fr, stack, c) else Stops(o, b, fr, stack, c, n, fuel, s)
  }

  /** Operands against values, one by one. */
  ghost predicate Match(es: Exps, ops: seq<Operand>, vs: seq<int32>, regs: Regs, cx: Context) {
    match es
    case NoExp => ops == [] && vs == []
    case Cons(e, rest) =>
      && ops != [] && vs != []
      && (TyOf(e, cx) == IntTy ==> Value(ops[0], regs) == I32(vs[0]))
      && Match(rest, ops[1..], vs[1..], regs, cx)
  }

  ghost predicate FollowsAll(o: Outcome<seq<int32>>, es: Exps, b: Builder, g: Gen<seq<Operand>>, fr: Frame, stack: Stack,
                             c: Config, n: nat, fuel: nat, s: Site) {
    if o.Val? then
      Same(fr, stack, c, b.regs) && c.st == o.st && At(c.frame, g.b) && Match(es, g.v, o.value, c.frame.regs, s.cx)
    else Stops(o, b, fr, stack, c, n, fuel, s)
  }

  // ----- stepping -----

  /** Standing at `b`, the machine runs the next instruction emitted. */
  lemma StepEmit(m: Module, b: Builder, i: Instr, fr: Frame, stack: Stack, st: State)
    requires b.Valid() && At(fr, b) && fr.fn in m && Extends(b.Emit(i), m[fr.fn])
    ensures Step(m, Running(fr, stack, st)) == Execute(i, fr, stack, st, m)
  {
    assert b.Emit(i).blocks[b.at] <= m[fr.fn][b.at];
    assert b.Emit(i).blocks[b.at][fr.pc] == i;
  }

  lemma RunStep(m: Module, c: Config)
    ensures Run(m, c, 1) == Step(m, c)
  {
    assert Run(m, Step(m, c), 0) == Step(m, c);
  }

  lemma RunEmit(m: Module, b: Builder, i: Instr, fr: Frame, stack: Stack, st: State)
    requires b.Valid() && At(fr, b) && fr.fn in m && Extends(b.Emit(i), m[fr.fn])
    ensures Run(m, Running(fr, stack, st), 1) == Execute(i, fr, stack, st, m)
  {
    StepEmit(m, b, i, fr, stack, st);
    RunStep(m, Running(fr, stack, st));
  }

  lemma KeepsTransitive(r1: Regs, r2: Regs, r3: Regs, below1: nat, below2: nat)
    requires Keeps(r1, r2, below1) && Keeps(r2, r3, below2) && below1 <= below2
    ensures Keeps(r1, r3, below1)
  {}

  lemma KeepsValue(o: Operand, r1: Regs, r2: Regs, below: nat)
    requires Keeps(r1, r2, below) && Below(o, below) && Value(o, r1) != Undef
    ensures Value(o, r2) == Value(o, r1)
  {}

  /** Locals survive code that keeps the registers in use and the visible names. */
  lemma LocalsSurvive(env: Env, b: Builder, b2: Builder, r1: Regs, r2: Regs, need: set<Sym>)
    requires LocalsOk(env, b, r1, need) && Keeps(r1, r2, b.regs)
    requires LocalsBelow(b2) && SameLocals(b, b2, Vars(env)) && b.locals.Keys <= b2.locals.Keys
    ensures LocalsOk(env, b2, r2, need)
  {
    forall x | x in need && x in Vars(env) ensures Pointer(b2, r2, x) == Some(LookupVar(env, x)) {
      assert Pointer(b, r1, x) == Some(LookupVar(env, x));
      KeepsValue(b.locals[x], r1, r2, b.regs);
    }
  }
}
