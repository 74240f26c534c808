/** What the passes before code generation must get right: where they do not, the code crashes. */
module Crashes {
  import opened Int32
  import opened Options
  import opened Tiger
  import opened Cfg
  import opened Check
  import opened Translate
  import opened Layout
  import opened Link
  import opened Simulate
  import opened Evaluation
  import opened Initials
  import Follow

  // ----- the argument order that storing an initial value relies on -----

  /** `VarDec` passes `translate(init)` and `value_` to one call, and the first overwrites the
      second.  When it is evaluated first, the store goes through the value itself: whatever the
      declaration and its surroundings, the machine crashes as soon as the initial value is known, or
      that of a variable declared inside it. */
  lemma {:induction false} ValueFirstCrashes(x: Sym, init: Exp, body: Exp, env: Env, st: State, fuel: nat, b: Builder, fr: Frame,
                                             stack: Stack, s: Site) returns (n: nat)
    requires b.Valid() && !s.cx.pointerFirst && x !in Vars(env) && Unique(init, Vars(env) + {x})
    requires Ready(init, env, s) && TypeOf(init, ScopeOf(env), s.inLoop) == Some(IntTy)
    requires Here(b, Compile(LetVar(x, init, body), b, s.cx).b, fr, env, st, s)
    requires Eval(init, env, st.Alloc(0), fuel).Val?
    ensures Run(s.m, Running(fr, stack, st), n).Crashed?
    ensures !Completes(init, env, st.Alloc(0), fuel) ==> Run(s.m, Running(fr, stack, st), n) == Crashed(Eval(init, env, st.Alloc(0), fuel).st)
  {
    hide TypeOf, Unique, Closed, Linked, EnvOk, TyOf, Compile, Eval, Vars, Completes;
    InitIsInt(init, env, s);
    var a := b.Assign(Alloca(b.regs)).(locals := b.locals[x := Reg(b.regs)]);
    var g := Compile(init, a, s.cx);
    BadLayout(x, init, body, b, s.cx, s.m[fr.fn]);
    var c0 := Running(fr, stack, st);
    ReachInit(x, b, a, g.b, env, st, fr, stack, s);
    var c1 := Run(s.m, c0, 1);
    n := Follow.Sub(init, env, st.Alloc(0), fuel, a, g.b, c1.frame, stack, s);
    var o := Eval(init, env, st.Alloc(0), fuel);
    var c2 := Run(s.m, c1, n);
    RunSplit(s.m, c0, 1, n);
    if Completes(init, env, st.Alloc(0), fuel) {
      n := 1 + n;
    } else {
      BadStore(g, o.value, c2.frame, stack, o.st, s.m);
      RunSplit(s.m, c0, 1 + n, 1);
      n := 1 + n + 1;
    }
  }

  lemma InitIsInt(init: Exp, env: Env, s: Site)
    requires Ready(init, env, s) && TypeOf(init, ScopeOf(env), s.inLoop) == Some(IntTy)
    ensures TyOf(init, s.cx) == IntTy
  {
    EnvTable(env, s.cx, s.m);
    TypesAgree(init, ScopeOf(env), s.inLoop, s.cx, s.m);
  }

  lemma {:induction false} BadLayout(x: Sym, init: Exp, body: Exp, b: Builder, cx: Context, code: Code)
    requires b.Valid() && !cx.pointerFirst && Extends(Compile(LetVar(x, init, body), b, cx).b, code)
    ensures var a := b.Assign(Alloca(b.regs)).(locals := b.locals[x := Reg(b.regs)]);
      var g := Compile(init, a, cx);
      && Extends(b.Assign(Alloca(b.regs)), code) && Extends(g.b.Emit(Cfg.Store(g.v, g.v)), code) && Extends(g.b, code)
      && Grows(g.b, g.b) && g.b.loopEnd == b.loopEnd
  {
    var a := b.Assign(Alloca(b.regs)).(locals := b.locals[x := Reg(b.regs)]);
    var v := Compile(init, a, cx);
    var at := v.b.Emit(Cfg.Store(v.v, v.v));
    CompileGrows(init, a, cx);
    CompileGrows(body, at, cx);
    ExtendsShorter(at, Compile(body, at, cx).b, code);
    JumpExtends(v.b, Cfg.Store(v.v, v.v), code);
    ExtendsShorter(a, v.b, code);
  }

  lemma ReachInit(x: Sym, b: Builder, a: Builder, b2: Builder, env: Env, st: State, fr: Frame, stack: Stack, s: Site)
    requires b.Valid() && a == b.Assign(Alloca(b.regs)).(locals := b.locals[x := Reg(b.regs)]) && x !in Vars(env)
    requires At(fr, b) && fr.fn in s.m && LocalsOk(env, b, fr.regs, s.need) && LocsBelow(env, |st.mem|)
    requires (s.inLoop ==> b.loopEnd.Some?) && Extends(b2, s.m[fr.fn]) && Extends(b.Assign(Alloca(b.regs)), s.m[fr.fn])
    ensures var c1 := Run(s.m, Running(fr, stack, st), 1);
      && Same(fr, stack, c1, b.regs) && c1.st == st.Alloc(0) && Here(a, b2, c1.frame, env, st.Alloc(0), s)
  {
    RunEmit(s.m, b, Alloca(b.regs), fr, stack, st);
    LocalsSurvive(env, b, a, fr.regs, fr.regs[b.regs := Ptr(|st.mem|)], s.need);
    LocsStayBelow(env, |st.mem|, |st.mem| + 1);
  }

  lemma BadStore(g: Gen<Operand>, v: int32, fr: Frame, stack: Stack, st: State, m: Module)
    requires At(fr, g.b) && fr.fn in m && Value(g.v, fr.regs) == I32(v) && Extends(g.b.Emit(Cfg.Store(g.v, g.v)), m[fr.fn])
    ensures Run(m, Running(fr, stack, st), 1) == Crashed(st)
  {
    RunEmit(m, g.b, Cfg.Store(g.v, g.v), fr, stack, st);
  }

  // ----- a callee's variable that the caller has no pointer to -----

  /** A call made where a variable lifted into the callee has no pointer passes a null value:
      whatever the arguments, the machine crashes once they are known.  So a map that is not closed
      under the calls a program makes is not merely unproved but wrong. */
  lemma {:induction false} MissingPointerCrashes(f: Sym, args: Exps, x: Sym, env: Env, st: State, fuel: nat, b: Builder, fr: Frame,
                                                 stack: Stack, s: Site) returns (n: nat)
    requires b.Valid() && ReadyAll(args, env, s) && x in s.cx.Of(f).lifted && x !in b.locals
    requires Here(b, Compile(CallExp(f, args), b, s.cx).b, fr, env, st, s) && EvalArgs(args, env, st, fuel).Val?
    ensures Run(s.m, Running(fr, stack, st), n).Crashed?
    ensures s.cx.pointerFirst || !CompletesAny(args, env, st, fuel) ==>
      Run(s.m, Running(fr, stack, st), n) == Crashed(EvalArgs(args, env, st, fuel).st)
  {
    hide TypeOf, Unique, Closed, Linked, Compile, EnvOk, ScopeOf, CompletesAny;
    var vs, g := CompileArgs(args, b, s.cx), Compile(CallExp(f, args), b, s.cx);
    Follow.CallLayout(f, args, b, s.cx);
    Follow.CallExtends(f, b, vs, g, s.cx, s.m[fr.fn]);
    n := Follow.FollowArgs(args, env, st, fuel, b, fr, stack, s);
    var c := Run(s.m, Running(fr, stack, st), n);
    if s.cx.pointerFirst || !CompletesAny(args, env, st, fuel) {
      NullCall(f, x, b, vs, g, c.frame, stack, c.st, s);
      RunSplit(s.m, Running(fr, stack, st), n, 1);
      n := n + 1;
    }
  }

  lemma NullCall(f: Sym, x: Sym, b: Builder, vs: Gen<seq<Operand>>, g: Gen<Operand>, fr: Frame, stack: Stack, st: State, s: Site)
    requires Follow.CallChain(f, b, vs, g, s.cx) && x in s.cx.Of(f).lifted && x !in b.locals
    requires At(fr, vs.b) && fr.fn in s.m && Extends(g.b, s.m[fr.fn])
    ensures Run(s.m, Running(fr, stack, st), 1) == Crashed(st)
  {
    var info := s.cx.Of(f);
    var ps := Follow.Pointers(info.lifted, b);
    var call := Call(vs.b.regs, if info.primitive then External(f) else Defined(f), info.result, ps + vs.v);
    var i :| 0 <= i < |info.lifted| && info.lifted[i] == x;
    assert (ps + vs.v)[i] == Null;
    RunEmit(s.m, vs.b, call, fr, stack, st);
  }
}
