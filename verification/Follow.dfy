/** Forward simulation, one lemma per construct. */
module Follow {
  import opened Int32
  import opened Options
  import opened Tiger
  import opened Cfg
  import opened Check
  import opened Translate
  import opened Layout
  import opened Link
  import opened Evaluation
  import opened Simulate
  import opened Initials

  lemma RunNothing(m: Module, c: Config)
    ensures Run(m, c, 0) == c
  {}

  /** Prefixing a run by steps of the same activation. */
  lemma StopsLater<T>(o: Outcome<T>, b1: Builder, b2: Builder, fr1: Frame, fr2: Frame, stack: Stack,
                      c: Config, n1: nat, n2: nat, fuel: nat, s: Site)
    requires !o.Val? && Stops(o, b2, fr2, stack, c, n2, fuel, s)
    requires fr1.fn == fr2.fn && Keeps(fr1.regs, fr2.regs, b1.regs) && b1.regs <= b2.regs && b1.loopEnd == b2.loopEnd
    ensures Stops(o, b1, fr1, stack, c, n1 + n2, fuel, s)
  {
    if o.Brk? { KeepsTransitive(fr1.regs, fr2.regs, c.frame.regs, b1.regs, b2.regs); }
  }

  lemma FollowsLater(o: Outcome<int32>, isInt: bool, b1: Builder, b2: Builder, g: Gen<Operand>, fr1: Frame, fr2: Frame,
                     stack: Stack, c: Config, n1: nat, n2: nat, fuel: nat, s: Site)
    requires Follows(o, isInt, b2, g, fr2, stack, c, n2, fuel, s)
    requires fr1.fn == fr2.fn && Keeps(fr1.regs, fr2.regs, b1.regs) && b1.regs <= b2.regs && b1.loopEnd == b2.loopEnd
    ensures Follows(o, isInt, b1, g, fr1, stack, c, n1 + n2, fuel, s)
  {
    if o.Val? {
      KeepsTransitive(fr1.regs, fr2.regs, c.frame.regs, b1.regs, b2.regs);
    } else {
      StopsLater(o, b1, b2, fr1, fr2, stack, c, n1, n2, fuel, s);
    }
  }

  /** Two pieces of code, one after the other. */
  lemma Sequence(o1: Outcome<int32>, isInt1: bool, g1: Gen<Operand>, o2: Outcome<int32>, isInt: bool, b: Builder, b2: Builder,
                 g: Gen<Operand>, fr: Frame, stack: Stack, c0: Config, n1: nat, n2: nat, fuel: nat, s: Site) returns (n: nat)
    requires Follows(o1, isInt1, b, g1, fr, stack, Run(s.m, c0, n1), n1, fuel, s)
    requires o1.Val? ==> var c1 := Run(s.m, c0, n1);
      Follows(o2, isInt, b2, g, c1.frame, stack, Run(s.m, c1, n2), n2, fuel, s)
    requires b.regs <= b2.regs && b.loopEnd == b2.loopEnd
    ensures Follows(if o1.Val? then o2 else o1, isInt, b, g, fr, stack, Run(s.m, c0, n), n, fuel, s)
  {
    n := n1;
    if o1.Val? {
      var c1 := Run(s.m, c0, n1);
      n := n1 + n2;
      RunSplit(s.m, c0, n1, n2);
      FollowsLater(o2, isInt, b, b2, g, fr, c1.frame, stack, Run(s.m, c0, n), n1, n2, fuel, s);
    }
  }

  /** After `e`, the machine stands ready for the code that comes next. */
  lemma Arrive(e: Exp, env: Env, st: State, st2: State, b: Builder, b2: Builder, fr: Frame, stack: Stack, c: Config, s: Site)
    requires b.Valid() && Ready(e, env, s) && Here(b, Compile(e, b, s.cx).b, fr, env, st, s)
    requires Same(fr, stack, c, b.regs) && At(c.frame, Compile(e, b, s.cx).b)
    requires |st2.mem| >= |st.mem| && Extends(b2, s.m[fr.fn])
    ensures Here(Compile(e, b, s.cx).b, b2, c.frame, env, st2, s)
  {
    CompileGrows(e, b, s.cx);
    CompileKeepsLocals(e, b, s.cx, Vars(env));
    LocalsSurvive(env, b, Compile(e, b, s.cx).b, fr.regs, c.frame.regs, s.need);
    LocsStayBelow(env, |st.mem|, |st2.mem|);
  }

  lemma FollowVar(x: Sym, env: Env, st: State, fuel: nat, b: Builder, fr: Frame, stack: Stack, s: Site)
    requires b.Valid() && Ready(VarExp(x), env, s) && Here(b, Compile(VarExp(x), b, s.cx).b, fr, env, st, s)
    ensures Follows(Eval(VarExp(x), env, st, fuel), true, b, Compile(VarExp(x), b, s.cx), fr, stack,
                    Run(s.m, Running(fr, stack, st), 1), 1, fuel, s)
  {
    LookupVarFound(env, x, |st.mem|);
    assert Pointer(b, fr.regs, x) == Some(LookupVar(env, x));
    EmitGrows(b, Load(b.regs, b.Local(x)));
    RunEmit(s.m, b, Load(b.regs, b.Local(x)), fr, stack, st);
  }

  /** The instructions of one operator. */
  lemma FollowOper(op: Oper, l: Operand, r: Operand, lv: int32, rv: int32, st: State, fuel: nat, b: Builder, fr: Frame,
                   stack: Stack, s: Site) returns (n: nat)
    requires b.Valid() && At(fr, b) && fr.fn in s.m && Extends(CompileOper(op, l, r, b).b, s.m[fr.fn])
    requires Value(l, fr.regs) == I32(lv) && Value(r, fr.regs) == I32(rv)
    ensures Follows(EvalOper(op, lv, rv, st), true, b, CompileOper(op, l, r, b), fr, stack,
                    Run(s.m, Running(fr, stack, st), n), n, fuel, s)
  {
    hide Grows, Run;
    match op
    case Arithmetic(a) =>
      RunEmit(s.m, b, Binary(b.regs, a, l, r), fr, stack, st);
      n := 1;
    case Comparison(k) =>
      RunCompare(k, l, r, lv, rv, st, b, fr, stack, s.m);
      n := 2;
  }

  /** A comparison, and its outcome made an integer. */
  lemma RunCompare(k: CmpOp, l: Operand, r: Operand, lv: int32, rv: int32, st: State, b: Builder, fr: Frame, stack: Stack, m: Module)
    requires b.Valid() && At(fr, b) && fr.fn in m && Extends(CompileOper(Comparison(k), l, r, b).b, m[fr.fn])
    requires Value(l, fr.regs) == I32(lv) && Value(r, fr.regs) == I32(rv)
    ensures var fr1 := Next(fr, b.regs, I1(Compare(k, lv, rv)));
      Run(m, Running(fr, stack, st), 2) == Running(Next(fr1, b.regs + 1, I32(if Compare(k, lv, rv) then 1 else 0)), stack, st)
  {
    hide Grows, Run;
    var i1, i2 := ICmp(b.regs, k, l, r), ZExt(b.regs + 1, Reg(b.regs));
    var b1 := b.Assign(i1);
    EmitGrows(b1, i2);
    ExtendsShorter(b1, b1.Assign(i2), m[fr.fn]);
    RunEmit(m, b, i1, fr, stack, st);
    RunEmit(m, b1, i2, Next(fr, b.regs, I1(Compare(k, lv, rv))), stack, st);
    RunSplit(m, Running(fr, stack, st), 1, 1);
  }

  /** `ifcond` or `loopcond`, and the branch. */
  lemma FollowTest(v: Operand, n: int32, yes: nat, no: nat, b: Builder, fr: Frame, stack: Stack, st: State, m: Module)
    requires b.Valid() && At(fr, b) && fr.fn in m && Extends(CompileTest(v, yes, no, b), m[fr.fn])
    requires Value(v, fr.regs) == I32(n)
    ensures var c := Run(m, Running(fr, stack, st), 2);
      && c.Running? && c.stack == stack && c.st == st && c.frame.fn == fr.fn && Keeps(fr.regs, c.frame.regs, b.regs)
      && c.frame.blk == (if n != 0 then yes else no) && c.frame.pc == 0
  {
    var i1, i2 := ICmp(b.regs, Ne, v, Const(0)), CondBr(Reg(b.regs), yes, no);
    var b1 := b.Assign(i1);
    EmitGrows(b1, i2);
    ExtendsShorter(b1, b1.Emit(i2), m[fr.fn]);
    RunEmit(m, b, i1, fr, stack, st);
    var fr1 := Next(fr, b.regs, I1(Compare(Ne, n, 0)));
    RunEmit(m, b1, i2, fr1, stack, st);
    RunSplit(m, Running(fr, stack, st), 1, 1);
  }

  /** The whole simulation: the code of `e` takes the machine wherever the meaning says. */
  lemma {:induction false} Follow(e: Exp, env: Env, st: State, fuel: nat, b: Builder, fr: Frame, stack: Stack, s: Site)
    returns (n: nat)
    requires b.Valid() && Ready(e, env, s) && Here(b, Compile(e, b, s.cx).b, fr, env, st, s)
    ensures Follows(Meant(e, env, st, fuel, s.cx.pointerFirst), TyOf(e, s.cx) == IntTy, b, Compile(e, b, s.cx), fr, stack,
                    Run(s.m, Running(fr, stack, st), n), n, fuel, s)
    decreases fuel, e, 2
  {
    match e
    case IntExp(_) =>
      LeafMeant(e, env, st, fuel, s.cx.pointerFirst);
      n := 0;
    case VarExp(x) =>
      LeafMeant(e, env, st, fuel, s.cx.pointerFirst);
      FollowVar(x, env, st, fuel, b, fr, stack, s);
      n := 1;
    case OpExp(l, op, r) => n := FollowOp(l, op, r, env, st, fuel, b, fr, stack, s);
    case SeqExp(es) => n := FollowSeq(es, env, st, fuel, b, fr, stack, s);
    case AssignExp(x, e1) => n := FollowAssign(x, e1, env, st, fuel, b, fr, stack, s);
    case IfExp(test, thn, els) => n := FollowIf(test, thn, els, env, st, fuel, b, fr, stack, s);
    case WhileExp(test, body) => n := FollowWhile(test, body, env, st, fuel, b, fr, stack, s);
    case BreakExp =>
      LeafMeant(e, env, st, fuel, s.cx.pointerFirst);
      RunEmit(s.m, b, Br(b.loopEnd.value), fr, stack, st);
      n := 1;
    case CallExp(f, args) => n := FollowCall(f, args, env, st, fuel, b, fr, stack, s);
    case LetVar(x, init, body) => n := FollowLetVar(x, init, body, env, st, fuel, b, fr, stack, s);
    case LetFuns(ds, body) => n := FollowLetFuns(ds, body, env, st, fuel, b, fr, stack, s);
  }

  /** Follows a subexpression and arrives at the code behind it. */
  lemma {:induction false} Sub(e: Exp, env: Env, st: State, fuel: nat, b: Builder, b2: Builder, fr: Frame, stack: Stack, s: Site)
    returns (n: nat)
    requires b.Valid() && Ready(e, env, s) && Here(b, b2, fr, env, st, s) && Grows(Compile(e, b, s.cx).b, b2)
    ensures var o, g, c := Meant(e, env, st, fuel, s.cx.pointerFirst), Compile(e, b, s.cx), Run(s.m, Running(fr, stack, st), n);
      && Follows(o, TyOf(e, s.cx) == IntTy, b, g, fr, stack, c, n, fuel, s) && CodeGrows(b, g)
      && (o.Val? ==> Here(g.b, b2, c.frame, env, o.st, s))
    decreases fuel, e, 3
  {
    CompileGrows(e, b, s.cx);
    ExtendsShorter(Compile(e, b, s.cx).b, b2, s.m[fr.fn]);
    n := Follow(e, env, st, fuel, b, fr, stack, s);
    if Meant(e, env, st, fuel, s.cx.pointerFirst).Val? {
      MeantIsEval(e, env, st, fuel, s.cx.pointerFirst);
      MemGrows(e, env, st, fuel);
      Arrive(e, env, st, Meant(e, env, st, fuel, s.cx.pointerFirst).st, b, b2, fr, stack, Run(s.m, Running(fr, stack, st), n), s);
    }
  }

  lemma {:induction false} OpTypes(l: Exp, op: Oper, r: Exp, env: Env, s: Site)
    requires Ready(OpExp(l, op, r), env, s)
    ensures Ready(l, env, s) && Ready(r, env, s) && TyOf(l, s.cx) == IntTy && TyOf(r, s.cx) == IntTy
  {
    EnvTable(env, s.cx, s.m);
    TypesAgree(l, ScopeOf(env), s.inLoop, s.cx, s.m);
    TypesAgree(r, ScopeOf(env), s.inLoop, s.cx, s.m);
  }

  lemma {:induction false} FollowOp(l: Exp, op: Oper, r: Exp, env: Env, st: State, fuel: nat, b: Builder, fr: Frame,
                                    stack: Stack, s: Site) returns (n: nat)
    requires b.Valid() && Ready(OpExp(l, op, r), env, s) && Here(b, Compile(OpExp(l, op, r), b, s.cx).b, fr, env, st, s)
    ensures Follows(Meant(OpExp(l, op, r), env, st, fuel, s.cx.pointerFirst), true, b, Compile(OpExp(l, op, r), b, s.cx), fr, stack,
                    Run(s.m, Running(fr, stack, st), n), n, fuel, s)
    decreases fuel, OpExp(l, op, r), 1
  {
    hide Meant, Run, EvalOper, TypeOf, Unique, Closed, Linked, EnvOk, TyOf;
    OpMeant(l, op, r, env, st, fuel, s.cx.pointerFirst);
    var c0 := Running(fr, stack, st);
    var gl := Compile(l, b, s.cx);
    var gr := Compile(r, gl.b, s.cx);
    CompileGrows(r, gl.b, s.cx);
    OperGrows(op, gl.v, gr.v, gr.b);
    ExtendsShorter(gr.b, CompileOper(op, gl.v, gr.v, gr.b).b, s.m[fr.fn]);
    OpTypes(l, op, r, env, s);
    n := Sub(l, env, st, fuel, b, gr.b, fr, stack, s);
    var ol := Meant(l, env, st, fuel, s.cx.pointerFirst);
    if ol.Val? {
      var c1 := Run(s.m, c0, n);
      var n2 := Follow(r, env, ol.st, fuel, gl.b, c1.frame, stack, s);
      n := FollowOp2(op, gl, gr, ol.value, Meant(r, env, ol.st, fuel, s.cx.pointerFirst), b, fr, c1.frame, stack, c0, n, n2, fuel, s);
    }
  }

  /** Second half of an operator: the right operand has been followed for `n2` steps. */
  lemma FollowOp2(op: Oper, gl: Gen<Operand>, gr: Gen<Operand>, lv: int32, o: Outcome<int32>, b: Builder, fr: Frame,
                  fr1: Frame, stack: Stack, c0: Config, n1: nat, n2: nat, fuel: nat, s: Site) returns (n: nat)
    requires CodeGrows(b, gl) && CodeGrows(gl.b, gr) && b.loopEnd == gl.b.loopEnd == gr.b.loopEnd
    requires gr.b.Valid() && fr.fn == fr1.fn && fr.fn in s.m && Extends(CompileOper(op, gl.v, gr.v, gr.b).b, s.m[fr.fn])
    requires Keeps(fr.regs, fr1.regs, b.regs) && Value(gl.v, fr1.regs) == I32(lv)
    requires Follows(o, true, gl.b, gr, fr1, stack, Run(s.m, Run(s.m, c0, n1), n2), n2, fuel, s)
    ensures Follows(if o.Val? then EvalOper(op, lv, o.value, o.st) else o, true, b, CompileOper(op, gl.v, gr.v, gr.b),
                    fr, stack, Run(s.m, c0, n), n, fuel, s)
  {
    RunSplit(s.m, c0, n1, n2);
    n := n1 + n2;
    var c2 := Run(s.m, c0, n);
    if o.Val? {
      KeepsTransitive(fr.regs, fr1.regs, c2.frame.regs, b.regs, gl.b.regs);
      KeepsValue(gl.v, fr1.regs, c2.frame.regs, gl.b.regs);
      var n3 := FollowOper(op, gl.v, gr.v, lv, o.value, o.st, fuel, gr.b, c2.frame, stack, s);
      RunSplit(s.m, c0, n, n3);
      FollowsLater(EvalOper(op, lv, o.value, o.st), true, b, gr.b, CompileOper(op, gl.v, gr.v, gr.b), fr, c2.frame, stack,
                   Run(s.m, c0, n + n3), n, n3, fuel, s);
      n := n + n3;
    } else {
      StopsLater(o, b, gl.b, fr, fr1, stack, c2, n1, n2, fuel, s);
    }
  }

  lemma {:induction false} FollowAssign(x: Sym, e1: Exp, env: Env, st: State, fuel: nat, b: Builder, fr: Frame,
                                        stack: Stack, s: Site) returns (n: nat)
    requires b.Valid() && Ready(AssignExp(x, e1), env, s)
    requires Here(b, Compile(AssignExp(x, e1), b, s.cx).b, fr, env, st, s)
    ensures Follows(Meant(AssignExp(x, e1), env, st, fuel, s.cx.pointerFirst), false, b, Compile(AssignExp(x, e1), b, s.cx), fr, stack,
                    Run(s.m, Running(fr, stack, st), n), n, fuel, s)
    decreases fuel, AssignExp(x, e1), 1
  {
    hide EnvOk, Meant, LocalsOk, LocsBelow;
    AssignMeant(x, e1, env, st, fuel, s.cx.pointerFirst);
    var g := Compile(e1, b, s.cx);
    EmitGrows(g.b, Cfg.Store(g.v, g.b.Local(x)));
    EnvTable(env, s.cx, s.m);
    TypesAgree(e1, ScopeOf(env), s.inLoop, s.cx, s.m);
    n := Sub(e1, env, st, fuel, b, g.b.Emit(Cfg.Store(g.v, g.b.Local(x))), fr, stack, s);
    n := FollowStore(x, g, env, Meant(e1, env, st, fuel, s.cx.pointerFirst), fuel, b, fr, stack, Running(fr, stack, st), n, s);
  }

  /** The store behind the value of an assignment. */
  lemma FollowStore(x: Sym, g: Gen<Operand>, env: Env, o: Outcome<int32>, fuel: nat, b: Builder, fr: Frame, stack: Stack,
                    c0: Config, n1: nat, s: Site) returns (n: nat)
    requires CodeGrows(b, g) && x in s.need && x in Vars(env)
    requires Follows(o, true, b, g, fr, stack, Run(s.m, c0, n1), n1, fuel, s)
    requires o.Val? ==> Here(g.b, g.b.Emit(Cfg.Store(g.v, g.b.Local(x))), Run(s.m, c0, n1).frame, env, o.st, s)
    ensures o.Val? ==> LookupVar(env, x).Some?
    ensures Follows(if o.Val? then Val(0, o.st.Write(LookupVar(env, x).value, o.value)) else o, false, b,
                    Gen(g.b.Emit(Cfg.Store(g.v, g.b.Local(x))), Const(0)), fr, stack, Run(s.m, c0, n), n, fuel, s)
  {
    n := n1;
    if o.Val? {
      var fr1 := Run(s.m, c0, n1).frame;
      LookupVarFound(env, x, |o.st.mem|);
      assert Pointer(g.b, fr1.regs, x) == Some(LookupVar(env, x));
      RunEmit(s.m, g.b, Cfg.Store(g.v, g.b.Local(x)), fr1, stack, o.st);
      RunSplit(s.m, c0, n1, 1);
      n := n1 + 1;
    }
  }

  lemma {:induction false} FollowSeq(es: Exps, env: Env, st: State, fuel: nat, b: Builder, fr: Frame,
                                     stack: Stack, s: Site) returns (n: nat)
    requires b.Valid() && Ready(SeqExp(es), env, s) && Here(b, Compile(SeqExp(es), b, s.cx).b, fr, env, st, s)
    ensures Follows(Meant(SeqExp(es), env, st, fuel, s.cx.pointerFirst), LastTy(es, s.cx) == IntTy, b, Compile(SeqExp(es), b, s.cx), fr, stack,
                    Run(s.m, Running(fr, stack, st), n), n, fuel, s)
    decreases fuel, SeqExp(es), 1
  {
    hide Meant, MeantArgs, EnvOk, LocalsOk, LocsBelow;
    SeqMeant(es, env, st, fuel, s.cx.pointerFirst);
    SeqAllTyped(es, ScopeOf(env), s.inLoop);
    n := FollowArgs(es, env, st, fuel, b, fr, stack, s);
    var o := MeantArgs(es, env, st, fuel, s.cx.pointerFirst);
    if o.Val? {
      LastMatches(es, CompileArgs(es, b, s.cx).v, o.value, Run(s.m, Running(fr, stack, st), n).frame.regs, s.cx);
    }
  }

  lemma {:induction false} SeqAllTyped(es: Exps, sc: Scope, inLoop: bool)
    requires TypeOfSeq(es, sc, inLoop).Some?
    ensures AllTyped(es, sc, inLoop)
  {
    match es
    case NoExp =>
    case Cons(_, NoExp) =>
    case Cons(_, rest) => SeqAllTyped(rest, sc, inLoop);
  }

  lemma {:induction false} LastMatches(es: Exps, ops: seq<Operand>, vs: seq<int32>, regs: Regs, cx: Context)
    requires Match(es, ops, vs, regs, cx)
    ensures |ops| == |vs| == Length(es)
    ensures LastTy(es, cx) == IntTy ==> ops != [] && Value(ops[|ops| - 1], regs) == I32(vs[|vs| - 1])
  {
    match es
    case NoExp =>
    case Cons(_, rest) =>
      LastMatches(rest, ops[1..], vs[1..], regs, cx);
  }

  lemma {:induction false} FollowArgs(es: Exps, env: Env, st: State, fuel: nat, b: Builder, fr: Frame, stack: Stack, s: Site)
    returns (n: nat)
    requires b.Valid() && ReadyAll(es, env, s) && Here(b, CompileArgs(es, b, s.cx).b, fr, env, st, s)
    ensures FollowsAll(MeantArgs(es, env, st, fuel, s.cx.pointerFirst), es, b, CompileArgs(es, b, s.cx), fr, stack,
                       Run(s.m, Running(fr, stack, st), n), n, fuel, s)
    decreases fuel, es, 1
  {
    hide Meant, Run, TypeOf, Unique, Closed, Linked, EnvOk, LocalsOk, LocsBelow;
    match es
    case NoExp =>
      n := 0;
      RunNothing(s.m, Running(fr, stack, st));
    case Cons(e, rest) =>
      ArgsMeant(e, rest, env, st, fuel, s.cx.pointerFirst);
      var g := Compile(e, b, s.cx);
      var gs := CompileArgs(rest, g.b, s.cx);
      ArgsGrow(rest, g.b, s.cx);
      n := Sub(e, env, st, fuel, b, gs.b, fr, stack, s);
      var o := Meant(e, env, st, fuel, s.cx.pointerFirst);
      if o.Val? {
        var c1 := Run(s.m, Running(fr, stack, st), n);
        var n2 := FollowArgs(rest, env, o.st, fuel, g.b, c1.frame, stack, s);
        n := FollowArgs2(e, rest, g, gs, o.value, MeantArgs(rest, env, o.st, fuel, s.cx.pointerFirst), b, fr, c1.frame, stack,
                         Running(fr, stack, st), n, n2, fuel, s);
      }
  }

  lemma FollowArgs2(e: Exp, rest: Exps, g: Gen<Operand>, gs: Gen<seq<Operand>>, v: int32, o: Outcome<seq<int32>>, b: Builder,
                    fr: Frame, fr1: Frame, stack: Stack, c0: Config, n1: nat, n2: nat, fuel: nat, s: Site) returns (n: nat)
    requires CodeGrows(b, g) && Grows(g.b, gs.b) && b.loopEnd == g.b.loopEnd
    requires fr.fn == fr1.fn && Keeps(fr.regs, fr1.regs, b.regs)
    requires TyOf(e, s.cx) == IntTy ==> Value(g.v, fr1.regs) == I32(v)
    requires FollowsAll(o, rest, g.b, gs, fr1, stack, Run(s.m, Run(s.m, c0, n1), n2), n2, fuel, s)
    ensures FollowsAll(if o.Val? then Val([v] + o.value, o.st) else o, Cons(e, rest), b, Gen(gs.b, [g.v] + gs.v), fr, stack,
                       Run(s.m, c0, n), n, fuel, s)
  {
    RunSplit(s.m, c0, n1, n2);
    n := n1 + n2;
    var c2 := Run(s.m, c0, n);
    if o.Val? {
      KeepsTransitive(fr.regs, fr1.regs, c2.frame.regs, b.regs, g.b.regs);
      if TyOf(e, s.cx) == IntTy { KeepsValue(g.v, fr1.regs, c2.frame.regs, g.b.regs); }
      assert ([g.v] + gs.v)[1..] == gs.v && ([v] + o.value)[1..] == o.value;
    } else {
      StopsLater(o, b, g.b, fr, fr1, stack, c2, n1, n2, fuel, s);
    }
  }

  // ----- if -----

  /** From the end of a clause through the jump and the phi. */
  lemma FollowJoin(o: Outcome<int32>, isInt: bool, gc: Gen<Operand>, merge: Builder, g: Gen<Operand>, bc: Builder,
                   fr: Frame, stack: Stack, c0: Config, n1: nat, fuel: nat, s: Site) returns (n: nat)
    requires gc.b.Valid() && merge.Valid() && merge.blocks[merge.at] == [] && bc.regs <= gc.b.regs <= merge.regs
    requires fr.fn in s.m && Extends(gc.b.Emit(Br(merge.at)), s.m[fr.fn]) && Extends(g.b, s.m[fr.fn])
    requires Follows(o, isInt, bc, gc, fr, stack, Run(s.m, c0, n1), n1, fuel, s)
    requires if isInt then Joins(gc, merge, g) else g.b == merge
    ensures Follows(o, isInt, bc, g, fr, stack, Run(s.m, c0, n), n, fuel, s)
  {
    n := n1;
    if o.Val? {
      var fr1 := Run(s.m, c0, n1).frame;
      RunEmit(s.m, gc.b, Br(merge.at), fr1, stack, o.st);
      RunSplit(s.m, c0, n1, 1);
      n := n1 + 1;
      if isInt {
        var fr2 := Jump(fr1, merge.at);
        var phi := g.b.blocks[merge.at][0];
        RunEmit(s.m, merge, phi, fr2, stack, o.st);
        RunSplit(s.m, c0, n, 1);
        n := n + 1;
      }
    }
  }

  /** `g` is the merge block with a phi that takes the value of `gc` when control comes from there. */
  ghost predicate Joins(gc: Gen<Operand>, merge: Builder, g: Gen<Operand>)
    requires merge.Valid()
  {
    exists v1, from1, v2, from2 ::
      && g == Gen(merge.Assign(Phi(merge.regs, v1, from1, v2, from2)), Reg(merge.regs))
      && ((gc.v == v1 && gc.b.at == from1) || (gc.v == v2 && gc.b.at == from2 && from1 != from2))
  }

  /** `g` finishes an `if` whose merge block is in `c`. */
  ghost predicate Finishes(c: IfCode, g: Gen<Operand>, isInt: bool) {
    && c.merge.Valid()
    && if isInt then
         g == Gen(c.merge.Assign(Phi(c.merge.regs, c.thn.v, c.thn.b.at, c.els.v, c.els.b.at)), Reg(c.merge.regs))
       else g.b == c.merge
  }

  lemma FinishExtends(b: Builder, c: IfCode, g: Gen<Operand>, isInt: bool, code: Code)
    requires IfShape(b, c) && IfChain(c) && Finishes(c, g, isInt) && Extends(g.b, code)
    ensures Extends(c.merge, code)
  {
    if isInt {
      var phi := Phi(c.merge.regs, c.thn.v, c.thn.b.at, c.els.v, c.els.b.at);
      EmitGrows(c.merge, phi);
      ExtendsShorter(c.merge, c.merge.Assign(phi), code);
    }
  }

  /** The generated `if` has the layout the simulation steps through. */
  lemma {:induction false} IfLayout(test: Exp, thn: Exp, els: Exp, b: Builder, cx: Context) returns (c: IfCode)
    requires b.Valid()
    ensures IfShape(b, c) && IfChain(c) && Finishes(c, Compile(IfExp(test, thn, els), b, cx), TyOf(thn, cx) == IntTy)
    ensures c.test == Compile(test, b, cx) && c.thn == Compile(thn, c.atThen, cx) && c.els == Compile(els, c.atElse, cx)
    ensures c.atThen.loopEnd == c.atElse.loopEnd == b.loopEnd
  {
    c := CompileIf(test, thn, els, b, cx);
    IfGrows(test, thn, els, b, cx);
  }

  /** Where the code of an `if` is, and what its parts may rely on. */
  lemma IfPlan(test: Exp, thn: Exp, els: Exp, env: Env, st: State, b: Builder, fr: Frame, s: Site) returns (c: IfCode)
    requires b.Valid() && Ready(IfExp(test, thn, els), env, s)
    requires Here(b, Compile(IfExp(test, thn, els), b, s.cx).b, fr, env, st, s)
    ensures IfShape(b, c) && IfChain(c) && Finishes(c, Compile(IfExp(test, thn, els), b, s.cx), TyOf(thn, s.cx) == IntTy)
    ensures c.test == Compile(test, b, s.cx) && c.thn == Compile(thn, c.atThen, s.cx) && c.els == Compile(els, c.atElse, s.cx)
    ensures c.atThen.loopEnd == c.atElse.loopEnd == c.test.b.loopEnd == b.loopEnd && b.regs <= c.test.b.regs
    ensures Ready(test, env, s) && Ready(thn, env, s) && Ready(els, env, s)
    ensures TyOf(test, s.cx) == IntTy && TyOf(els, s.cx) == TyOf(thn, s.cx)
    ensures Here(b, c.test.b, fr, env, st, s) && Grows(Compile(test, b, s.cx).b, c.test.b) && fr.fn in s.m
    ensures Extends(Compile(IfExp(test, thn, els), b, s.cx).b, s.m[fr.fn]) && Extends(c.merge, s.m[fr.fn])
  {
    hide TypeOf, Unique, Closed, Linked, Compile, EnvOk, TyOf, LocalsOk, LocsBelow, Ready;
    c := IfLayout(test, thn, els, b, s.cx);
    FinishExtends(b, c, Compile(IfExp(test, thn, els), b, s.cx), TyOf(thn, s.cx) == IntTy, s.m[fr.fn]);
    hide Finishes;
    IfExtends(b, c, s.m[fr.fn]);
    IfTypes(test, thn, els, env, s);
    CompileGrows(test, b, s.cx);
  }

  lemma {:induction false} FollowIf(test: Exp, thn: Exp, els: Exp, env: Env, st: State, fuel: nat, b: Builder, fr: Frame,
                                    stack: Stack, s: Site) returns (n: nat)
    requires b.Valid() && Ready(IfExp(test, thn, els), env, s)
    requires Here(b, Compile(IfExp(test, thn, els), b, s.cx).b, fr, env, st, s)
    ensures Follows(Meant(IfExp(test, thn, els), env, st, fuel, s.cx.pointerFirst), TyOf(thn, s.cx) == IntTy, b,
                    Compile(IfExp(test, thn, els), b, s.cx), fr, stack, Run(s.m, Running(fr, stack, st), n), n, fuel, s)
    decreases fuel, IfExp(test, thn, els), 1
  {
    hide TypeOf, Unique, Closed, Linked, Compile, EnvOk, TyOf, Meant, IfShape, IfChain, Finishes, Here, Ready, Grows, Extends, Keeps, Run;
    var c0 := Running(fr, stack, st);
    IfMeant(test, thn, els, env, st, fuel, s.cx.pointerFirst);
    var g := Compile(IfExp(test, thn, els), b, s.cx);
    var c := IfPlan(test, thn, els, env, st, b, fr, s);
    n := Sub(test, env, st, fuel, b, c.test.b, fr, stack, s);
    var o := Meant(test, env, st, fuel, s.cx.pointerFirst);
    var n2 := 0;
    if o.Val? {
      n2 := FollowBranch(test, thn, els, c, g, env, o.value, o.st, fuel, b, Run(s.m, c0, n).frame, stack, s);
    }
    n := Sequence(o, true, c.test, Meant(if o.Val? && o.value != 0 then thn else els, env, o.st, fuel, s.cx.pointerFirst), TyOf(thn, s.cx) == IntTy,
                  b, c.test.b, g, fr, stack, c0, n, n2, fuel, s);
  }

  lemma {:induction false} IfTypes(test: Exp, thn: Exp, els: Exp, env: Env, s: Site)
    requires Ready(IfExp(test, thn, els), env, s)
    ensures Ready(test, env, s) && Ready(thn, env, s) && Ready(els, env, s)
    ensures TyOf(test, s.cx) == IntTy && TyOf(els, s.cx) == TyOf(thn, s.cx)
  {
    EnvTable(env, s.cx, s.m);
    TypesAgree(test, ScopeOf(env), s.inLoop, s.cx, s.m);
    TypesAgree(thn, ScopeOf(env), s.inLoop, s.cx, s.m);
    TypesAgree(els, ScopeOf(env), s.inLoop, s.cx, s.m);
  }

  /** Into the clause the test picks. */
  lemma TakeBranch(thn: Exp, els: Exp, c: IfCode, g: Gen<Operand>, env: Env, v: int32, st: State, b: Builder, fr: Frame,
                   stack: Stack, s: Site)
    requires IfShape(b, c) && IfChain(c) && Finishes(c, g, TyOf(thn, s.cx) == IntTy)
    requires c.thn == Compile(thn, c.atThen, s.cx) && c.els == Compile(els, c.atElse, s.cx)
    requires c.atThen.loopEnd == c.atElse.loopEnd == c.test.b.loopEnd
    requires Ready(thn, env, s) && Ready(els, env, s)
    requires Here(c.test.b, c.test.b, fr, env, st, s) && Value(c.test.v, fr.regs) == I32(v)
    requires Extends(g.b, s.m[fr.fn]) && Extends(c.merge, s.m[fr.fn])
    ensures var c2 := Run(s.m, Running(fr, stack, st), 2);
      var bc, gc := if v != 0 then c.atThen else c.atElse, if v != 0 then c.thn else c.els;
      && c2.Running? && c2.stack == stack && c2.st == st && c2.frame.fn == fr.fn && Keeps(fr.regs, c2.frame.regs, c.test.b.regs)
      && bc.Valid() && Here(bc, gc.b, c2.frame, env, st, s) && c.test.b.regs <= bc.regs && bc.loopEnd == c.test.b.loopEnd
  {
    hide Run, TypeOf, Unique, Closed, Linked, Compile, EnvOk, TyOf, Ready, LocalsOk;
    var k := |c.test.b.blocks|;
    IfExtends(b, c, s.m[fr.fn]);
    FollowTest(c.test.v, v, k, k + 1, c.test.b.Create(3), fr, stack, st, s.m);
    ClauseReady(v != 0, thn, els, c, env, st, b, fr, Run(s.m, Running(fr, stack, st), 2).frame, s);
  }

  /** From the end of the test: the branch, the clause it picks, the jump and the phi. */
  lemma {:induction false} FollowBranch(test: Exp, thn: Exp, els: Exp, c: IfCode, g: Gen<Operand>, env: Env, v: int32,
                                        st: State, fuel: nat, b: Builder, fr: Frame, stack: Stack, s: Site) returns (n: nat)
    requires IfShape(b, c) && IfChain(c) && Finishes(c, g, TyOf(thn, s.cx) == IntTy)
    requires c.thn == Compile(thn, c.atThen, s.cx) && c.els == Compile(els, c.atElse, s.cx)
    requires c.atThen.loopEnd == c.atElse.loopEnd == c.test.b.loopEnd
    requires Ready(thn, env, s) && Ready(els, env, s) && TyOf(els, s.cx) == TyOf(thn, s.cx)
    requires Here(c.test.b, c.test.b, fr, env, st, s) && Value(c.test.v, fr.regs) == I32(v)
    requires Extends(g.b, s.m[fr.fn]) && Extends(c.merge, s.m[fr.fn])
    ensures Follows(Meant(if v != 0 then thn else els, env, st, fuel, s.cx.pointerFirst), TyOf(thn, s.cx) == IntTy, c.test.b, g, fr, stack,
                    Run(s.m, Running(fr, stack, st), n), n, fuel, s)
    decreases fuel, IfExp(test, thn, els), 0
  {
    hide TypeOf, Unique, Closed, Linked, Compile, EnvOk, TyOf, Meant, Run, Follows, Ready, Keeps;
    var e := if v != 0 then thn else els;
    var bc := if v != 0 then c.atThen else c.atElse;
    TakeBranch(thn, els, c, g, env, v, st, b, fr, stack, s);
    var c2 := Run(s.m, Running(fr, stack, st), 2);
    n := Follow(e, env, st, fuel, bc, c2.frame, stack, s);
    n := FollowClauseEnd(v != 0, c, g, Meant(e, env, st, fuel, s.cx.pointerFirst), TyOf(thn, s.cx) == IntTy, b, c2, n, fuel, s);
    RunSplit(s.m, Running(fr, stack, st), 2, n);
    FollowsLater(Meant(e, env, st, fuel, s.cx.pointerFirst), TyOf(thn, s.cx) == IntTy, c.test.b, bc, g, fr, c2.frame, stack,
                 Run(s.m, c2, n), 2, n, fuel, s);
    n := 2 + n;
  }

  /** The start of a clause: its block is empty and the locals are still in place. */
  lemma {:induction false} ClauseReady(taken: bool, thn: Exp, els: Exp, c: IfCode, env: Env, st: State, b: Builder,
                                       fr1: Frame, fr: Frame, s: Site)
    requires IfShape(b, c) && IfChain(c) && Ready(thn, env, s)
    requires c.thn == Compile(thn, c.atThen, s.cx) && c.els == Compile(els, c.atElse, s.cx)
    requires c.atThen.loopEnd == c.atElse.loopEnd == c.test.b.loopEnd
    requires Here(c.test.b, c.test.b, fr1, env, st, s) && Keeps(fr1.regs, fr.regs, c.test.b.regs) && fr.fn == fr1.fn
    requires fr.blk == |c.test.b.blocks| + (if taken then 0 else 1) && fr.pc == 0
    requires Extends(c.merge, s.m[fr.fn])
    ensures Here(if taken then c.atThen else c.atElse, if taken then c.thn.b else c.els.b, fr, env, st, s)
  {
    IfExtends(b, c, s.m[fr.fn]);
    TestGrows(c.test.v, |c.test.b.blocks|, |c.test.b.blocks| + 1, c.test.b.Create(3));
    CompileKeepsLocals(thn, c.atThen, s.cx, Vars(env));
    LocalsSurvive(env, c.test.b, if taken then c.atThen else c.atElse, fr1.regs, fr.regs, s.need);
  }

  lemma FollowClauseEnd(taken: bool, c: IfCode, g: Gen<Operand>, o: Outcome<int32>, isInt: bool, b: Builder, c0: Config,
                        n1: nat, fuel: nat, s: Site) returns (n: nat)
    requires IfShape(b, c) && IfChain(c) && Finishes(c, g, isInt) && c0.Running? && c0.frame.fn in s.m
    requires Extends(g.b, s.m[c0.frame.fn]) && Extends(c.merge, s.m[c0.frame.fn])
    requires Follows(o, isInt, if taken then c.atThen else c.atElse, if taken then c.thn else c.els, c0.frame, c0.stack,
                     Run(s.m, c0, n1), n1, fuel, s)
    ensures Follows(o, isInt, if taken then c.atThen else c.atElse, g, c0.frame, c0.stack, Run(s.m, c0, n), n, fuel, s)
  {
    IfExtends(b, c, s.m[c0.frame.fn]);
    n := FollowJoin(o, isInt, if taken then c.thn else c.els, c.merge, g, if taken then c.atThen else c.atElse,
                    c0.frame, c0.stack, c0, n1, fuel, s);
  }

  // ----- while -----

  lemma {:induction false} WhileLayout(test: Exp, body: Exp, b: Builder, cx: Context) returns (c: WhileCode)
    requires b.Valid()
    ensures WhileShape(b, c) && WhileChain(b, c) && Compile(WhileExp(test, body), b, cx) == Gen(c.after, c.body.v)
    ensures c.test == Compile(test, c.atTest, cx) && c.body == Compile(body, c.atBody, cx)
    ensures c.test.b.loopEnd == c.atTest.loopEnd
  {
    c := CompileWhile(test, body, b, cx);
    WhileGrows(test, body, b, cx);
  }

  lemma {:induction false} WhileTypes(test: Exp, body: Exp, env: Env, s: Site)
    requires Ready(WhileExp(test, body), env, s)
    ensures Ready(test, env, s) && Ready(body, env, s.(inLoop := true)) && TyOf(test, s.cx) == IntTy
  {
    EnvTable(env, s.cx, s.m);
    TypesAgree(test, ScopeOf(env), s.inLoop, s.cx, s.m);
  }

  lemma {:induction false} FollowWhile(test: Exp, body: Exp, env: Env, st: State, fuel: nat, b: Builder, fr: Frame,
                                       stack: Stack, s: Site) returns (n: nat)
    requires b.Valid() && Ready(WhileExp(test, body), env, s)
    requires Here(b, Compile(WhileExp(test, body), b, s.cx).b, fr, env, st, s)
    ensures Follows(Meant(WhileExp(test, body), env, st, fuel, s.cx.pointerFirst), false, b, Compile(WhileExp(test, body), b, s.cx), fr, stack,
                    Run(s.m, Running(fr, stack, st), n), n, fuel, s)
    decreases fuel, WhileExp(test, body), 1
  {
    var c := WhileLayout(test, body, b, s.cx);
    WhileTypes(test, body, env, s);
    WhileMeant(test, body, env, st, fuel, s.cx.pointerFirst);
    n := FollowEntered(test, body, c, env, st, fuel, b, fr, stack, s);
  }

  /** Into the loop. */
  lemma EnterLoop(test: Exp, body: Exp, c: WhileCode, env: Env, st: State, b: Builder, fr: Frame, stack: Stack, s: Site)
    requires LoopOk(test, body, c, env, b, s) && Here(b, c.after, fr, env, st, s)
    ensures var c1 := Run(s.m, Running(fr, stack, st), 1);
      && c1.Running? && c1.stack == stack && c1.st == st && c1.frame.fn == fr.fn && c1.frame.regs == fr.regs
      && Here(c.atTest, c.test.b, c1.frame, env, st, s) && fr.fn in s.m && Extends(c.after, s.m[fr.fn])
      && Keeps(fr.regs, c1.frame.regs, b.regs) && b.regs <= c.atTest.regs && b.loopEnd == c.atTest.loopEnd
  {
    hide Run, TypeOf, Unique, Closed, Linked, Compile, EnvOk, TyOf, Ready, LocalsOk;
    WhileExtends(b, c, s.m[fr.fn]);
    FollowEnter(c, env, st, b, fr, stack, s);
  }

  lemma {:induction false} FollowEntered(test: Exp, body: Exp, c: WhileCode, env: Env, st: State, fuel: nat, b: Builder,
                                         fr: Frame, stack: Stack, s: Site) returns (n: nat)
    requires LoopOk(test, body, c, env, b, s) && Here(b, c.after, fr, env, st, s)
    ensures Follows(MeantWhile(test, body, env, st, fuel, s.cx.pointerFirst), false, b, Gen(c.after, c.body.v), fr, stack,
                    Run(s.m, Running(fr, stack, st), n), n, fuel, s)
    decreases fuel, WhileExp(test, body), 0
  {
    hide TypeOf, Unique, Closed, Linked, Compile, EnvOk, TyOf, Meant, MeantWhile, Run, Follows, Here, Extends, Keeps, LoopOk;
    EnterLoop(test, body, c, env, st, b, fr, stack, s);
    var c1 := Run(s.m, Running(fr, stack, st), 1);
    var n1 := FollowLoop(test, body, c, env, st, fuel, b, c1.frame, stack, s);
    RunSplit(s.m, Running(fr, stack, st), 1, n1);
    n := 1 + n1;
    TurnLater(MeantWhile(test, body, env, st, fuel, s.cx.pointerFirst), b, c.atTest, Gen(c.after, c.body.v), fr, c1.frame, stack,
              Run(s.m, c1, n1), 1, n1, fuel, s);
  }

  /** Steps taken before a loop pay for one unit of fuel. */
  lemma TurnLater(o: Outcome<int32>, b1: Builder, b2: Builder, g: Gen<Operand>, fr1: Frame, fr2: Frame, stack: Stack,
                  c: Config, n1: nat, n2: nat, fuel: nat, s: Site)
    requires Follows(o, false, b2, g, fr2, stack, c, n2, if fuel > 0 then fuel - 1 else 0, s) && n1 > 0
    requires fr1.fn == fr2.fn && Keeps(fr1.regs, fr2.regs, b1.regs) && b1.regs <= b2.regs && b1.loopEnd == b2.loopEnd
    ensures Follows(o, false, b1, g, fr1, stack, c, n1 + n2, fuel, s)
  {
    FollowsLater(o, false, b1, b2, g, fr1, fr2, stack, c, n1, n2, if fuel > 0 then fuel - 1 else 0, s);
  }

  /** The fall-through into the test block. */
  lemma FollowEnter(c: WhileCode, env: Env, st: State, b: Builder, fr: Frame, stack: Stack, s: Site)
    requires WhileShape(b, c) && WhileChain(b, c) && At(fr, b) && fr.fn in s.m && Extends(c.test.b, s.m[fr.fn])
    requires Extends(b.Create(3).Emit(Br(|b.blocks|)), s.m[fr.fn])
    requires LocalsOk(env, b, fr.regs, s.need) && LocsBelow(env, |st.mem|) && (s.inLoop ==> b.loopEnd.Some?)
    ensures var c1 := Run(s.m, Running(fr, stack, st), 1);
      c1.Running? && c1.stack == stack && c1.st == st && c1.frame.fn == fr.fn && c1.frame.regs == fr.regs
      && Here(c.atTest, c.test.b, c1.frame, env, st, s)
  {
    RunEmit(s.m, b.Create(3), Br(|b.blocks|), fr, stack, st);
    LocalsSurvive(env, b, c.atTest, fr.regs, fr.regs, s.need);
  }

  /** What holds of a loop's code and expressions throughout the loop. */
  ghost predicate LoopOk(test: Exp, body: Exp, c: WhileCode, env: Env, b: Builder, s: Site) {
    && WhileShape(b, c) && WhileChain(b, c) && Ready(test, env, s) && Ready(body, env, s.(inLoop := true))
    && c.test == Compile(test, c.atTest, s.cx) && c.body == Compile(body, c.atBody, s.cx)
    && TyOf(test, s.cx) == IntTy && c.test.b.loopEnd == c.atTest.loopEnd
  }

  /** The loop, from the first instruction of its test block. */
  lemma {:induction false} FollowLoop(test: Exp, body: Exp, c: WhileCode, env: Env, st: State, fuel: nat, b: Builder,
                                      fr: Frame, stack: Stack, s: Site) returns (n: nat)
    requires LoopOk(test, body, c, env, b, s)
    requires Here(c.atTest, c.test.b, fr, env, st, s) && Extends(c.after, s.m[fr.fn])
    ensures Follows(MeantWhile(test, body, env, st, fuel, s.cx.pointerFirst), false, c.atTest, Gen(c.after, c.body.v), fr, stack,
                    Run(s.m, Running(fr, stack, st), n), n, if fuel > 0 then fuel - 1 else 0, s)
    decreases fuel, body, 3
  {
    hide Meant, TypeOf, Unique, Closed, Linked, Compile, EnvOk, TyOf, Run, Ready, LocalsOk, WhileChain, WhileTurn, MeantWhile;
    n := 0;
    RunNothing(s.m, Running(fr, stack, st));
    if fuel == 0 {
      NoTurnMeant(test, body, env, st, s.cx.pointerFirst);
    } else {
      TurnMeant(test, body, env, st, fuel, s.cx.pointerFirst);
      n := Sub(test, env, st, fuel - 1, c.atTest, c.test.b, fr, stack, s);
      var o := Meant(test, env, st, fuel - 1, s.cx.pointerFirst);
      var n2 := 0;
      if o.Val? {
        n2 := FollowTurn(test, body, c, env, o.value, o.st, fuel, b, fr, Run(s.m, Running(fr, stack, st), n).frame, stack, s);
      }
      n := Sequence(o, true, c.test, if o.Val? then WhileTurn(test, body, env, o.value, o.st, fuel, s.cx.pointerFirst) else o, false, c.atTest, c.atTest,
                    Gen(c.after, c.body.v), fr, stack, Running(fr, stack, st), n, n2, fuel - 1, s);
    }
  }

  /** The test's branch: into the body, or past the loop. */
  lemma TurnTest(test: Exp, body: Exp, c: WhileCode, env: Env, v: int32, st: State, fuel: nat, b: Builder,
                 fr0: Frame, fr: Frame, stack: Stack, s: Site)
    requires fuel > 0 && LoopOk(test, body, c, env, b, s) && fr0.fn == fr.fn
    requires LocalsOk(env, c.atTest, fr0.regs, s.need) && Keeps(fr0.regs, fr.regs, c.atTest.regs)
    requires Here(c.test.b, c.test.b, fr, env, st, s) && Value(c.test.v, fr.regs) == I32(v) && Extends(c.after, s.m[fr.fn])
    ensures var c1 := Run(s.m, Running(fr, stack, st), 2);
      && c1.Running? && c1.stack == stack && c1.st == st && c1.frame.fn == fr.fn && fr.fn in s.m
      && Keeps(fr.regs, c1.frame.regs, c.atTest.regs) && Keeps(fr0.regs, c1.frame.regs, c.atTest.regs)
      && (s.inLoop ==> b.loopEnd.Some?)
      && (v != 0 ==> Here(c.atBody, c.body.b, c1.frame, env, st, s.(inLoop := true)))
      && (v == 0 ==> Follows(Val(0, st), false, c.atTest, Gen(c.after, c.body.v), fr, stack, c1, 2, fuel - 1, s))
  {
    hide Run, TypeOf, Unique, Closed, Linked, Compile, EnvOk, TyOf, Ready, LocalsOk, LocsBelow, Keeps;
    var k := |b.blocks|;
    WhileExtends(b, c, s.m[fr.fn]);
    FollowTest(c.test.v, v, k + 1, k + 2, c.test.b, fr, stack, st, s.m);
    var c1 := Run(s.m, Running(fr, stack, st), 2);
    KeepsTransitive(fr0.regs, fr.regs, c1.frame.regs, c.atTest.regs, c.test.b.regs);
    KeepsFewer(fr.regs, c1.frame.regs, c.atTest.regs, c.test.b.regs);
    if v != 0 { BodyReady(c, env, st, b, fr, c1.frame, s); }
  }

  /** From the end of the test; `fr0` is the frame the turn started in. */
  lemma {:induction false} FollowTurn(test: Exp, body: Exp, c: WhileCode, env: Env, v: int32, st: State, fuel: nat, b: Builder,
                                      fr0: Frame, fr: Frame, stack: Stack, s: Site) returns (n: nat)
    requires fuel > 0 && LoopOk(test, body, c, env, b, s) && fr0.fn == fr.fn
    requires LocalsOk(env, c.atTest, fr0.regs, s.need) && Keeps(fr0.regs, fr.regs, c.atTest.regs)
    requires Here(c.test.b, c.test.b, fr, env, st, s) && Value(c.test.v, fr.regs) == I32(v) && Extends(c.after, s.m[fr.fn])
    ensures Follows(WhileTurn(test, body, env, v, st, fuel, s.cx.pointerFirst), false, c.atTest, Gen(c.after, c.body.v), fr, stack,
                    Run(s.m, Running(fr, stack, st), n), n, fuel - 1, s)
    decreases fuel, body, 2
  {
    hide Meant, MeantWhile, BodyTurn, TypeOf, Unique, Closed, Linked, Compile, EnvOk, TyOf, Run, Follows, Keeps, Here, LocalsOk, Extends;
    var c0 := Running(fr, stack, st);
    TurnTest(test, body, c, env, v, st, fuel, b, fr0, fr, stack, s);
    var c1 := Run(s.m, c0, 2);
    n := 2;
    if v != 0 {
      var n1 := FollowBody(test, body, c, env, st, fuel, b, fr0, c1, s);
      RunSplit(s.m, c0, 2, n1);
      FollowsLater(WhileTurn(test, body, env, v, st, fuel, s.cx.pointerFirst), false, c.atTest, c.atTest, Gen(c.after, c.body.v), fr, c1.frame, stack,
                   Run(s.m, c1, n1), 2, n1, fuel - 1, s);
      n := 2 + n1;
    }
  }

  /** From the first instruction of the body. */
  lemma {:induction false} FollowBody(test: Exp, body: Exp, c: WhileCode, env: Env, st: State, fuel: nat, b: Builder,
                                      fr0: Frame, c0: Config, s: Site) returns (n: nat)
    requires fuel > 0 && c0.Running? && c0.st == st && LoopOk(test, body, c, env, b, s) && fr0.fn == c0.frame.fn && fr0.fn in s.m
    requires LocalsOk(env, c.atTest, fr0.regs, s.need) && Keeps(fr0.regs, c0.frame.regs, c.atTest.regs)
    requires Here(c.atBody, c.body.b, c0.frame, env, st, s.(inLoop := true)) && (s.inLoop ==> b.loopEnd.Some?)
    requires Extends(c.after, s.m[fr0.fn])
    ensures Follows(BodyTurn(test, body, env, Meant(body, env, st, fuel - 1, s.cx.pointerFirst), fuel, s.cx.pointerFirst), false, c.atTest, Gen(c.after, c.body.v),
                    c0.frame, c0.stack, Run(s.m, c0, n), n, fuel - 1, s)
    decreases fuel, body, 1
  {
    hide TypeOf, Unique, Closed, Linked, Compile, EnvOk, TyOf, Meant, MeantWhile, BodyTurn, Grows;
    n := Follow(body, env, st, fuel - 1, c.atBody, c0.frame, c0.stack, s.(inLoop := true));
    var o := Meant(body, env, st, fuel - 1, s.cx.pointerFirst);
    if o.Val? {
      MeantIsEval(body, env, st, fuel - 1, s.cx.pointerFirst);
      MemGrows(body, env, st, fuel - 1);
      LocsStayBelow(env, |st.mem|, |o.st.mem|);
    }
    n := FollowBack(test, body, c, env, Meant(body, env, st, fuel - 1, s.cx.pointerFirst), fuel, b, fr0, c0, n, s);
  }

  lemma BodyReady(c: WhileCode, env: Env, st: State, b: Builder, fr1: Frame, fr: Frame, s: Site)
    requires WhileShape(b, c) && WhileChain(b, c)
    requires Here(c.test.b, c.test.b, fr1, env, st, s) && Keeps(fr1.regs, fr.regs, c.test.b.regs) && fr.fn == fr1.fn
    requires fr.blk == |b.blocks| + 1 && fr.pc == 0 && Extends(c.after, s.m[fr.fn])
    ensures Here(c.atBody, c.body.b, fr, env, st, s.(inLoop := true))
  {
    WhileExtends(b, c, s.m[fr.fn]);
    TestGrows(c.test.v, |b.blocks| + 1, |b.blocks| + 2, c.test.b);
    LocalsSurvive(env, c.test.b, c.atBody, fr1.regs, fr.regs, s.need);
  }

  /** From the end of the body, which started in `c0`: back to the test, or out of the loop. */
  lemma {:induction false} FollowBack(test: Exp, body: Exp, c: WhileCode, env: Env, o: Outcome<int32>, fuel: nat, b: Builder,
                                      fr0: Frame, c0: Config, n1: nat, s: Site) returns (n: nat)
    requires fuel > 0 && c0.Running? && LoopOk(test, body, c, env, b, s) && fr0.fn == c0.frame.fn && fr0.fn in s.m
    requires LocalsOk(env, c.atTest, fr0.regs, s.need) && Keeps(fr0.regs, c0.frame.regs, c.atTest.regs)
    requires (o.Val? ==> LocsBelow(env, |o.st.mem|)) && (s.inLoop ==> b.loopEnd.Some?) && Extends(c.after, s.m[fr0.fn])
    requires Follows(o, TyOf(body, s.cx) == IntTy, c.atBody, c.body, c0.frame, c0.stack, Run(s.m, c0, n1), n1, fuel - 1,
                     s.(inLoop := true))
    ensures Follows(BodyTurn(test, body, env, o, fuel, s.cx.pointerFirst), false, c.atTest, Gen(c.after, c.body.v), c0.frame, c0.stack,
                    Run(s.m, c0, n), n, fuel - 1, s)
    decreases fuel, body, 0
  {
    hide TypeOf, Unique, Closed, Linked, Compile, EnvOk, TyOf, Meant, MeantWhile, LocalsOk, LocsBelow, Run;
    n := n1;
    if o.Val? {
      var c1 := Run(s.m, c0, n1);
      KeepsTransitive(fr0.regs, c0.frame.regs, c1.frame.regs, c.atTest.regs, c.atBody.regs);
      FollowAgain(c, env, o.st, b, fr0, c1.frame, c1.stack, s);
      var c2 := Run(s.m, c1, 1);
      var n2 := FollowLoop(test, body, c, env, o.st, fuel - 1, b, c2.frame, c2.stack, s);
      RunSplit(s.m, c0, n1, 1);
      RunSplit(s.m, c0, n1 + 1, n2);
      TurnLater(MeantWhile(test, body, env, o.st, fuel - 1, s.cx.pointerFirst), c.atTest, c.atTest, Gen(c.after, c.body.v), c0.frame, c2.frame,
                c2.stack, Run(s.m, c2, n2), n1 + 1, n2, fuel - 1, s);
      n := n1 + 1 + n2;
    }
  }

  /** The jump back to the test. */
  lemma FollowAgain(c: WhileCode, env: Env, st: State, b: Builder, fr0: Frame, fr: Frame, stack: Stack, s: Site)
    requires WhileShape(b, c) && WhileChain(b, c) && At(fr, c.body.b) && fr0.fn == fr.fn && fr.fn in s.m
    requires LocalsOk(env, c.atTest, fr0.regs, s.need) && Keeps(fr0.regs, fr.regs, c.atTest.regs)
    requires LocsBelow(env, |st.mem|) && (s.inLoop ==> b.loopEnd.Some?) && Extends(c.after, s.m[fr.fn])
    ensures var c1 := Run(s.m, Running(fr, stack, st), 1);
      c1.Running? && c1.stack == stack && c1.st == st && c1.frame.fn == fr.fn && c1.frame.regs == fr.regs
      && Here(c.atTest, c.test.b, c1.frame, env, st, s)
  {
    hide Run;
    WhileExtends(b, c, s.m[fr.fn]);
    RunEmit(s.m, c.body.b, Br(|b.blocks|), fr, stack, st);
    LocalsSurvive(env, c.atTest, c.atTest, fr0.regs, fr.regs, s.need);
  }

  // ----- let -----

  lemma {:induction false} UniqueInFewer(e: Exp, vars: set<Sym>, fewer: set<Sym>)
    requires Unique(e, vars) && fewer <= vars
    ensures Unique(e, fewer)
  {
    match e
    case OpExp(l, _, r) => UniqueInFewer(l, vars, fewer); UniqueInFewer(r, vars, fewer);
    case SeqExp(es) => UniqueAllInFewer(es, vars, fewer);
    case AssignExp(_, e1) => UniqueInFewer(e1, vars, fewer);
    case IfExp(c, t, f) => UniqueInFewer(c, vars, fewer); UniqueInFewer(t, vars, fewer); UniqueInFewer(f, vars, fewer);
    case WhileExp(c, body) => UniqueInFewer(c, vars, fewer); UniqueInFewer(body, vars, fewer);
    case ForExp(i, lo, hi, body) =>
      UniqueInFewer(lo, vars, fewer); UniqueInFewer(hi, vars, fewer); UniqueInFewer(body, vars + {i}, fewer + {i});
    case CallExp(_, args) => UniqueAllInFewer(args, vars, fewer);
    case LetVar(x, init, body) =>
      UniqueInFewer(init, vars + {x}, fewer + {x}); UniqueInFewer(body, vars + {x}, fewer + {x});
    case LetFuns(ds, body) => UniqueFunsInFewer(ds, vars, fewer); UniqueInFewer(body, vars, fewer);
    case _ =>
  }

  lemma {:induction false} UniqueAllInFewer(es: Exps, vars: set<Sym>, fewer: set<Sym>)
    requires UniqueAll(es, vars) && fewer <= vars
    ensures UniqueAll(es, fewer)
  {
    if es.Cons? { UniqueInFewer(es.head, vars, fewer); UniqueAllInFewer(es.tail, vars, fewer); }
  }

  lemma {:induction false} UniqueFunsInFewer(ds: Funs, vars: set<Sym>, fewer: set<Sym>)
    requires UniqueFuns(ds, vars) && fewer <= vars
    ensures UniqueFuns(ds, fewer)
  {
    if ds.FunCons? {
      if ds.first.Function? {
        FormalsInFewer(ds.first.formals, vars, fewer);
        UniqueInFewer(ds.first.body, vars + Names(ds.first.formals), fewer + Names(ds.first.formals));
      }
      UniqueFunsInFewer(ds.rest, vars, fewer);
    }
  }

  lemma {:induction false} FormalsInFewer(xs: seq<Sym>, vars: set<Sym>, fewer: set<Sym>)
    requires UniqueFormals(xs, vars) && fewer <= vars
    ensures UniqueFormals(xs, fewer)
  {
    if xs != [] { FormalsInFewer(xs[1..], vars + {xs[0]}, fewer + {xs[0]}); }
  }

  /** The builders of a variable declaration. */
  datatype LetCode = LetCode(atInit: Builder, init: Gen<Operand>, atBody: Builder, body: Gen<Operand>)

  /** The store of the value `v` in the cell allocated at `b`. */
  function InitialStore(v: Operand, b: Builder, cx: Context): Instr { Cfg.Store(v, if cx.pointerFirst then Reg(b.regs) else v) }

  ghost predicate LetChain(x: Sym, b: Builder, c: LetCode, cx: Context) {
    && b.Valid() && c.init.b.Valid()
    && c.atInit == b.Assign(Alloca(b.regs)).(locals := b.locals[x := Reg(b.regs)])
    && c.atBody == c.init.b.Emit(InitialStore(c.init.v, b, cx))
    && CodeGrows(c.atInit, c.init) && CodeGrows(c.atBody, c.body)
  }

  lemma {:induction false} LetLayout(x: Sym, init: Exp, body: Exp, b: Builder, s: Site, code: Code) returns (c: LetCode)
    requires b.Valid() && Extends(Compile(LetVar(x, init, body), b, s.cx).b, code)
    ensures LetChain(x, b, c, s.cx) && c.body == Compile(LetVar(x, init, body), b, s.cx)
    ensures c.init == Compile(init, c.atInit, s.cx) && c.body == Compile(body, c.atBody, s.cx)
    ensures c.init.b.loopEnd == b.loopEnd && Extends(c.atBody, code) && Extends(c.init.b, code) && Extends(b.Assign(Alloca(b.regs)), code)
  {
    var a := b.Assign(Alloca(b.regs)).(locals := b.locals[x := Reg(b.regs)]);
    var v := Compile(init, a, s.cx);
    var at := v.b.Emit(InitialStore(v.v, b, s.cx));
    c := LetCode(a, v, at, Compile(body, at, s.cx));
    CompileGrows(init, a, s.cx);
    CompileGrows(body, at, s.cx);
    ExtendsShorter(at, c.body.b, code);
    JumpExtends(v.b, InitialStore(v.v, b, s.cx), code);
    ExtendsShorter(a, v.b, code);
  }

  lemma {:induction false} LetReady(x: Sym, init: Exp, body: Exp, env: Env, loc: nat, s: Site)
    requires Ready(LetVar(x, init, body), env, s)
    ensures Ready(init, env, s) && Ready(body, BindVar(x, loc, false, env), s.(need := s.need + {x}))
    ensures x !in Vars(env) && Unique(init, Vars(env) + {x}) && TyOf(init, s.cx) == IntTy
  {
    UniqueInFewer(init, Vars(env) + {x}, Vars(env));
    assert Vars(BindVar(x, loc, false, env)) == Vars(env) + {x};
    EnvTable(env, s.cx, s.m);
    TypesAgree(init, ScopeOf(env), s.inLoop, s.cx, s.m);
  }

  lemma {:induction false} FollowLetVar(x: Sym, init: Exp, body: Exp, env: Env, st: State, fuel: nat, b: Builder, fr: Frame,
                                        stack: Stack, s: Site) returns (n: nat)
    requires b.Valid() && Ready(LetVar(x, init, body), env, s)
    requires Here(b, Compile(LetVar(x, init, body), b, s.cx).b, fr, env, st, s)
    ensures Follows(Meant(LetVar(x, init, body), env, st, fuel, s.cx.pointerFirst), TyOf(body, s.cx) == IntTy, b,
                    Compile(LetVar(x, init, body), b, s.cx), fr, stack, Run(s.m, Running(fr, stack, st), n), n, fuel, s)
    decreases fuel, LetVar(x, init, body), 1
  {
    LetReady(x, init, body, env, |st.mem|, s);
    var c := LetLayout(x, init, body, b, s, s.m[fr.fn]);
    n := FollowLet(x, init, body, c, env, st, fuel, b, fr, stack, s);
  }

  lemma {:induction false} FollowLet(x: Sym, init: Exp, body: Exp, c: LetCode, env: Env, st: State, fuel: nat, b: Builder,
                                     fr: Frame, stack: Stack, s: Site) returns (n: nat)
    requires LetChain(x, b, c, s.cx) && Ready(init, env, s) && Ready(body, BindVar(x, |st.mem|, false, env), s.(need := s.need + {x}))
    requires c.init == Compile(init, c.atInit, s.cx) && c.body == Compile(body, c.atBody, s.cx) && c.init.b.loopEnd == b.loopEnd
    requires x !in Vars(env) && Unique(init, Vars(env) + {x}) && TyOf(init, s.cx) == IntTy
    requires Here(b, c.atBody, fr, env, st, s) && Extends(b.Assign(Alloca(b.regs)), s.m[fr.fn])
    requires Extends(c.body.b, s.m[fr.fn])
    ensures Follows(Meant(LetVar(x, init, body), env, st, fuel, s.cx.pointerFirst), TyOf(body, s.cx) == IntTy, b, c.body, fr, stack,
                    Run(s.m, Running(fr, stack, st), n), n, fuel, s)
    decreases fuel, LetVar(x, init, body), 0
  {
    hide TypeOf, Unique, Closed, Linked, Compile, EnvOk, TyOf, Run, Ready, Meant;
    var c0 := Running(fr, stack, st);
    LetVarMeant(x, init, body, env, st, fuel, s.cx.pointerFirst);
    FollowAlloca(x, c, env, st, b, fr, stack, s);
    var c1 := Run(s.m, c0, 1);
    EmitGrows(c.init.b, InitialStore(c.init.v, b, s.cx));
    n := Sub(init, env, st.Alloc(0), fuel, c.atInit, c.atBody, c1.frame, stack, s);
    var o := Meant(init, env, st.Alloc(0), fuel, s.cx.pointerFirst);
    var r := AfterInitial(x, body, env, |st.mem|, o, fuel, s.cx.pointerFirst);
    var n2 := 0;
    if o.Val? {
      MeantIsEval(init, env, st.Alloc(0), fuel, s.cx.pointerFirst);
      MemGrows(init, env, st.Alloc(0), fuel);
      CompileKeepsLocals(init, c.atInit, s.cx, Vars(env) + {x});
      if s.cx.pointerFirst {
        n2 := FollowScope(x, body, c, env, |st.mem|, o.value, o.st, fuel, b, Run(s.m, c1, n).frame, stack, s);
      } else {
        FollowLost(x, c, o.value, o.st, b, Run(s.m, c1, n).frame, stack, s);
        n2 := 1;
      }
    }
    n := Sequence(o, true, c.init, r, TyOf(body, s.cx) == IntTy, c.atInit, c.init.b, c.body, c1.frame, stack, c1, n, n2, fuel, s);
    RunSplit(s.m, c0, 1, n);
    FollowsLater(Meant(LetVar(x, init, body), env, st, fuel, s.cx.pointerFirst), TyOf(body, s.cx) == IntTy, b, c.atInit, c.body, fr, c1.frame, stack,
                 Run(s.m, c1, n), 1, n, fuel, s);
    n := 1 + n;
  }

  /** What is left of a declaration once its initial value has come to `o`. */
  function AfterInitial(x: Sym, body: Exp, env: Env, loc: nat, o: Outcome<int32>, fuel: nat, pf: bool): Outcome<int32> {
    if !o.Val? then o else if !pf then Lost() else Meant(body, BindVar(x, loc, false, env), o.st.Write(loc, o.value), fuel, pf)
  }

  /** With the value first, the store goes through the value. */
  lemma FollowLost(x: Sym, c: LetCode, v: int32, st: State, b: Builder, fr: Frame, stack: Stack, s: Site)
    requires LetChain(x, b, c, s.cx) && !s.cx.pointerFirst && At(fr, c.init.b) && fr.fn in s.m && Extends(c.atBody, s.m[fr.fn])
    requires Value(c.init.v, fr.regs) == I32(v)
    ensures Run(s.m, Running(fr, stack, st), 1) == Crashed(st)
  {
    RunEmit(s.m, c.init.b, InitialStore(c.init.v, b, s.cx), fr, stack, st);
  }

  lemma FollowAlloca(x: Sym, c: LetCode, env: Env, st: State, b: Builder, fr: Frame, stack: Stack, s: Site)
    requires LetChain(x, b, c, s.cx) && x !in Vars(env) && c.init.b.loopEnd == b.loopEnd
    requires Here(b, c.atBody, fr, env, st, s) && Extends(b.Assign(Alloca(b.regs)), s.m[fr.fn])
    ensures var c1 := Run(s.m, Running(fr, stack, st), 1);
      && Same(fr, stack, c1, b.regs) && c1.st == st.Alloc(0) && c1.frame.regs == fr.regs[b.regs := Ptr(|st.mem|)]
      && Here(c.atInit, c.atBody, c1.frame, env, st.Alloc(0), s)
  {
    RunEmit(s.m, b, Alloca(b.regs), fr, stack, st);
    LocalsSurvive(env, b, c.atInit, fr.regs, fr.regs[b.regs := Ptr(|st.mem|)], s.need);
    LocsStayBelow(env, |st.mem|, |st.mem| + 1);
  }

  /** From the store of the initial value on. */
  lemma {:induction false} FollowScope(x: Sym, body: Exp, c: LetCode, env: Env, loc: nat, v: int32, st: State, fuel: nat,
                                       b: Builder, fr: Frame, stack: Stack, s: Site) returns (n: nat)
    requires LetChain(x, b, c, s.cx) && s.cx.pointerFirst && Ready(body, BindVar(x, loc, false, env), s.(need := s.need + {x}))
    requires c.body == Compile(body, c.atBody, s.cx) && x !in Vars(env) && loc < |st.mem|
    requires Here(c.init.b, c.atBody, fr, env, st, s) && Value(c.init.v, fr.regs) == I32(v)
    requires b.regs in fr.regs && fr.regs[b.regs] == Ptr(loc) && x in c.init.b.locals && c.init.b.locals[x] == Reg(b.regs)
    requires Extends(c.body.b, s.m[fr.fn])
    ensures Follows(Meant(body, BindVar(x, loc, false, env), st.Write(loc, v), fuel, s.cx.pointerFirst), TyOf(body, s.cx) == IntTy, c.init.b, c.body,
                    fr, stack, Run(s.m, Running(fr, stack, st), n), n, fuel, s)
    decreases fuel, body, 4
  {
    hide Meant, TypeOf, Unique, Closed, Linked, Compile, EnvOk, TyOf;
    var env1, st1 := BindVar(x, loc, false, env), st.Write(loc, v);
    FollowInit(x, c, env, loc, v, st, b, fr, stack, s);
    var c1 := Run(s.m, Running(fr, stack, st), 1);
    n := Follow(body, env1, st1, fuel, c.atBody, c1.frame, stack, s.(need := s.need + {x}));
    RunSplit(s.m, Running(fr, stack, st), 1, n);
    var o := Meant(body, env1, st1, fuel, s.cx.pointerFirst);
    assert Follows(o, TyOf(body, s.cx) == IntTy, c.atBody, c.body, c1.frame, stack, Run(s.m, c1, n), n, fuel, s);
    FollowsLater(o, TyOf(body, s.cx) == IntTy, c.init.b, c.atBody, c.body, fr, c1.frame, stack, Run(s.m, c1, n), 1, n, fuel, s);
    n := 1 + n;
  }

  lemma FollowInit(x: Sym, c: LetCode, env: Env, loc: nat, v: int32, st: State, b: Builder, fr: Frame, stack: Stack, s: Site)
    requires LetChain(x, b, c, s.cx) && s.cx.pointerFirst && x !in Vars(env) && loc < |st.mem|
    requires Here(c.init.b, c.atBody, fr, env, st, s) && Value(c.init.v, fr.regs) == I32(v)
    requires b.regs in fr.regs && fr.regs[b.regs] == Ptr(loc) && x in c.init.b.locals && c.init.b.locals[x] == Reg(b.regs)
    requires Extends(c.body.b, s.m[fr.fn])
    ensures var c1 := Run(s.m, Running(fr, stack, st), 1);
      && Same(fr, stack, c1, c.init.b.regs) && c1.st == st.Write(loc, v) && c1.frame.regs == fr.regs
      && Here(c.atBody, c.body.b, c1.frame, BindVar(x, loc, false, env), st.Write(loc, v), s.(need := s.need + {x}))
  {
    RunEmit(s.m, c.init.b, InitialStore(c.init.v, b, s.cx), fr, stack, st);
    var env1 := BindVar(x, loc, false, env);
    assert Vars(env1) == Vars(env) + {x};
    forall y | y in s.need + {x} && y in Vars(env1) ensures Pointer(c.atBody, fr.regs, y) == Some(LookupVar(env1, y)) {
      if y != x { assert Pointer(c.init.b, fr.regs, y) == Some(LookupVar(env, y)); }
    }
  }

  lemma {:induction false} FollowLetFuns(ds: Funs, body: Exp, env: Env, st: State, fuel: nat, b: Builder, fr: Frame,
                                         stack: Stack, s: Site) returns (n: nat)
    requires b.Valid() && Ready(LetFuns(ds, body), env, s)
    requires Here(b, Compile(LetFuns(ds, body), b, s.cx).b, fr, env, st, s)
    ensures Follows(Meant(LetFuns(ds, body), env, st, fuel, s.cx.pointerFirst), TyOf(body, s.cx) == IntTy, b,
                    Compile(LetFuns(ds, body), b, s.cx), fr, stack, Run(s.m, Running(fr, stack, st), n), n, fuel, s)
    decreases fuel, LetFuns(ds, body), 1
  {
    LetFunsMeant(ds, body, env, st, fuel, s.cx.pointerFirst);
    var env1 := BindFuns(ds, env);
    assert Vars(env1) == Vars(env);
    assert LocalsOk(env1, b, fr.regs, s.need) by {
      forall x | x in s.need && x in Vars(env1) ensures Pointer(b, fr.regs, x) == Some(LookupVar(env1, x)) {
        assert Pointer(b, fr.regs, x) == Some(LookupVar(env, x));
      }
    }
    n := Follow(body, env1, st, fuel, b, fr, stack, s);
  }

  // ----- calls -----

  lemma {:induction false} AllIntTyped(es: Exps, env: Env, s: Site)
    requires AllInt(es, ScopeOf(env), s.inLoop) && LinkedAll(es, s.cx, s.m) && EnvOk(env, s.cx, s.m)
    ensures AllTyped(es, ScopeOf(env), s.inLoop) && AllIntTy(es, s.cx)
  {
    if es.Cons? {
      EnvTable(env, s.cx, s.m);
      TypesAgree(es.head, ScopeOf(env), s.inLoop, s.cx, s.m);
      AllIntTyped(es.tail, env, s);
    }
  }

  predicate AllIntTy(es: Exps, cx: Context) {
    match es
    case NoExp => true
    case Cons(e, rest) => TyOf(e, cx) == IntTy && AllIntTy(rest, cx)
  }

  lemma {:induction false} MatchInts(es: Exps, ops: seq<Operand>, vs: seq<int32>, regs: Regs, cx: Context)
    requires AllIntTy(es, cx) && Match(es, ops, vs, regs, cx)
    ensures |ops| == |vs| == Length(es) && forall i :: 0 <= i < |ops| ==> Value(ops[i], regs) == I32(vs[i])
  {
    if es.Cons? { MatchInts(es.tail, ops[1..], vs[1..], regs, cx); }
  }

  function Pointers(lifted: seq<Sym>, b: Builder): (ps: seq<Operand>)
    ensures |ps| == |lifted| && forall i :: 0 <= i < |lifted| ==> ps[i] == b.Local(lifted[i])
  {
    seq(|lifted|, i requires 0 <= i < |lifted| => b.Local(lifted[i]))
  }

  /** The arguments agree with what lexical scoping gives the callee. */
  ghost predicate ArgsOk(args: seq<MVal>, lifted: seq<Sym>, vs: seq<int32>, env: Env) {
    && |args| == |lifted| + |vs|
    && (forall i :: 0 <= i < |lifted| && lifted[i] in Vars(env) ==> args[i] == PointerTo(env, lifted[i]))
    && (forall i :: 0 <= i < |vs| ==> args[|lifted| + i] == I32(vs[i]))
  }

  ghost function PointerTo(env: Env, x: Sym): MVal {
    match LookupVar(env, x)
    case None => Undef
    case Some(l) => Ptr(l)
  }

  /** The code of a call behind its arguments. */
  ghost predicate CallChain(f: Sym, b: Builder, vs: Gen<seq<Operand>>, g: Gen<Operand>, cx: Context) {
    && vs.b.Valid() && Grows(b, vs.b) && b.loopEnd == vs.b.loopEnd
    && (forall i :: 0 <= i < |vs.v| ==> Below(vs.v[i], vs.b.regs))
    && var info := cx.Of(f);
    && g.b == vs.b.Assign(Call(vs.b.regs, if info.primitive then External(f) else Defined(f), info.result,
                               Pointers(info.lifted, b) + vs.v))
    && g.v == (if info.result == VoidTy then Const(0) else Reg(vs.b.regs))
  }

  lemma {:induction false} CallLayout(f: Sym, args: Exps, b: Builder, cx: Context)
    requires b.Valid()
    ensures CallChain(f, b, CompileArgs(args, b, cx), Compile(CallExp(f, args), b, cx), cx)
  {
    ArgsGrow(args, b, cx);
    var info := cx.Of(f);
    assert Pointers(info.lifted, b) == seq(|info.lifted|, i requires 0 <= i < |info.lifted| => b.Local(info.lifted[i]));
  }

  lemma {:induction false} FollowCall(f: Sym, args: Exps, env: Env, st: State, fuel: nat, b: Builder, fr: Frame,
                                      stack: Stack, s: Site) returns (n: nat)
    requires b.Valid() && Ready(CallExp(f, args), env, s)
    requires Here(b, Compile(CallExp(f, args), b, s.cx).b, fr, env, st, s)
    ensures Follows(Meant(CallExp(f, args), env, st, fuel, s.cx.pointerFirst), TyOf(CallExp(f, args), s.cx) == IntTy, b,
                    Compile(CallExp(f, args), b, s.cx), fr, stack, Run(s.m, Running(fr, stack, st), n), n, fuel, s)
    decreases fuel, CallExp(f, args), 1
  {
    hide TypeOf, Unique, Closed, Linked, Compile, EnvOk, ScopeOf, Meant, MeantCall, Run, Ready, ReadyAll, Here, CallChain, CalleeOk, Extends, Match;
    var vs, g := CompileArgs(args, b, s.cx), Compile(CallExp(f, args), b, s.cx);
    CallMeant(f, args, env, st, fuel, s.cx.pointerFirst);
    CallPlan(f, args, env, st, b, fr, s);
    n := FollowArgs(args, env, st, fuel, b, fr, stack, s);
    var o := MeantArgs(args, env, st, fuel, s.cx.pointerFirst);
    if o.Val? {
      ArgsMeantAreEval(args, env, st, fuel, s.cx.pointerFirst);
      MemGrowsArgs(args, env, st, fuel);
      MatchInts(args, vs.v, o.value, Run(s.m, Running(fr, stack, st), n).frame.regs, s.cx);
      ArgCount(args, env, st, fuel);
      n := FollowApply(f, args, LookupFun(env, f).value, vs, g, o.value, env, st, o.st, fuel, b, fr, stack, n, s);
    }
  }

  /** Where the code of a call is, and what its parts may rely on. */
  lemma CallPlan(f: Sym, args: Exps, env: Env, st: State, b: Builder, fr: Frame, s: Site)
    requires b.Valid() && Ready(CallExp(f, args), env, s) && Here(b, Compile(CallExp(f, args), b, s.cx).b, fr, env, st, s)
    ensures var vs, g := CompileArgs(args, b, s.cx), Compile(CallExp(f, args), b, s.cx);
      && Here(b, vs.b, fr, env, st, s) && CallChain(f, b, vs, g, s.cx) && Extends(g.b, s.m[fr.fn]) && fr.fn in s.m
      && b.loopEnd == vs.b.loopEnd && (TyOf(CallExp(f, args), s.cx) == IntTy <==> g.v.Reg?)
    ensures ReadyAll(args, env, s) && AllIntTy(args, s.cx) && Names(s.cx.Of(f).lifted) <= s.need
    ensures LocalsOk(env, b, fr.regs, s.need) && LocsBelow(env, |st.mem|)
    ensures var c := LookupFun(env, f);
      c.Some? && c.value.dec.name == f && CalleeOk(c.value, env, s.cx, s.m) && |c.value.dec.formals| == Length(args)
  {
    hide TypeOf, Unique, Closed, Linked, Compile, EnvOk, ScopeOf, LocalsOk, LocsBelow;
    var vs, g := CompileArgs(args, b, s.cx), Compile(CallExp(f, args), b, s.cx);
    CallReady(f, args, env, s);
    CallLayout(f, args, b, s.cx);
    CallExtends(f, b, vs, g, s.cx, s.m[fr.fn]);
  }

  lemma {:induction false} CallReady(f: Sym, args: Exps, env: Env, s: Site)
    requires Ready(CallExp(f, args), env, s)
    ensures ReadyAll(args, env, s) && AllIntTy(args, s.cx) && Names(s.cx.Of(f).lifted) <= s.need
    ensures var c := LookupFun(env, f);
      c.Some? && c.value.dec.name == f && CalleeOk(c.value, env, s.cx, s.m) && |c.value.dec.formals| == Length(args)
  {
    AllIntTyped(args, env, s);
    LookupFunFound(env, f, s.cx, s.m);
  }

  /** A call whose arguments have been computed. */
  lemma {:induction false} FollowApply(f: Sym, args: Exps, callee: Callee, vs: Gen<seq<Operand>>, g: Gen<Operand>, vals: seq<int32>, env: Env,
                                       st: State, st1: State, fuel: nat, b: Builder, fr: Frame, stack: Stack, n1: nat, s: Site)
    returns (n: nat)
    requires CallChain(f, b, vs, g, s.cx) && fr.fn in s.m && Extends(g.b, s.m[fr.fn])
    requires LocalsOk(env, b, fr.regs, s.need) && Names(s.cx.Of(f).lifted) <= s.need && LocsBelow(env, |st.mem|)
    requires LookupFun(env, f) == Some(callee) && callee.dec.name == f && CalleeOk(callee, env, s.cx, s.m)
    requires |callee.dec.formals| == |vals| && |st1.mem| >= |st.mem|
    requires var c1 := Run(s.m, Running(fr, stack, st), n1);
      && Same(fr, stack, c1, b.regs) && c1.st == st1 && At(c1.frame, vs.b)
      && |vs.v| == |vals| && forall i :: 0 <= i < |vals| ==> Value(vs.v[i], c1.frame.regs) == I32(vals[i])
    ensures Follows(MeantCall(f, callee, vals, st1, fuel, s.cx.pointerFirst), g.v.Reg?, b, g, fr, stack, Run(s.m, Running(fr, stack, st), n), n, fuel, s)
    decreases fuel, args, 1
  {
    hide EnvOk, TypeOf, Unique, Closed, Linked, Meant, MeantBody, Compile, CompileFunction, UniqueFormals;
    var c1 := Run(s.m, Running(fr, stack, st), n1);
    CallArgsOk(f, callee, vs, vals, env, b, fr, c1.frame, s);
    CalleeLocsBelow(env, f, |st.mem|);
    LocsStayBelow(callee.env, |st.mem|, |st1.mem|);
    n := FollowCallee(f, args, callee, vs, g, vals, env, st1, fuel, b, c1.frame, stack, s);
    RunSplit(s.m, Running(fr, stack, st), n1, n);
    FollowsLater(MeantCall(f, callee, vals, st1, fuel, s.cx.pointerFirst), g.v.Reg?, b, vs.b, g, fr, c1.frame, stack, Run(s.m, c1, n), n1, n, fuel, s);
    n := n1 + n;
  }

  lemma CallExtends(f: Sym, b: Builder, vs: Gen<seq<Operand>>, g: Gen<Operand>, cx: Context, code: Code)
    requires CallChain(f, b, vs, g, cx) && Extends(g.b, code)
    ensures Extends(vs.b, code)
  {
    var info := cx.Of(f);
    var call := Call(vs.b.regs, if info.primitive then External(f) else Defined(f), info.result, Pointers(info.lifted, b) + vs.v);
    EmitGrows(vs.b, call);
    ExtendsShorter(vs.b, g.b, code);
  }

  /** The pointers passed are the cells the callee's scope names, however the callee is reached. */
  lemma {:induction false} CallArgsOk(f: Sym, callee: Callee, vs: Gen<seq<Operand>>, vals: seq<int32>, env: Env, b: Builder,
                                      fr: Frame, fr1: Frame, s: Site)
    requires b.Valid() && LocalsOk(env, b, fr.regs, s.need) && Keeps(fr.regs, fr1.regs, b.regs)
    requires CalleeOk(callee, env, s.cx, s.m) && Names(s.cx.Of(f).lifted) <= s.need
    requires |vs.v| == |vals| && forall i :: 0 <= i < |vals| ==> Value(vs.v[i], fr1.regs) == I32(vals[i])
    ensures ArgsOk(Values(Pointers(s.cx.Of(f).lifted, b) + vs.v, fr1.regs), s.cx.Of(f).lifted, vals, callee.env)
    ensures Null !in Pointers(s.cx.Of(f).lifted, b)
  {
    var lifted := s.cx.Of(f).lifted;
    forall i | 0 <= i < |lifted|
      ensures b.Local(lifted[i]).Reg?
      ensures lifted[i] in Vars(callee.env) ==> Value(b.Local(lifted[i]), fr1.regs) == PointerTo(callee.env, lifted[i])
    {
      var x := lifted[i];
      assert x in Names(lifted);
      if x in Vars(callee.env) {
        assert Pointer(b, fr.regs, x) == Some(LookupVar(env, x));
        KeepsValue(b.locals[x], fr.regs, fr1.regs, b.regs);
      }
    }
  }

  /** The call instruction, the callee's code and the return. */
  lemma {:induction false} FollowCallee(f: Sym, es: Exps, callee: Callee, vs: Gen<seq<Operand>>, g: Gen<Operand>, vals: seq<int32>, env: Env,
                                        st: State, fuel: nat, b: Builder, fr: Frame, stack: Stack, s: Site) returns (n: nat)
    requires CallChain(f, b, vs, g, s.cx) && At(fr, vs.b) && fr.fn in s.m && Extends(g.b, s.m[fr.fn])
    requires callee.dec.name == f && CalleeOk(callee, env, s.cx, s.m) && |callee.dec.formals| == |vals|
    requires ArgsOk(Values(Pointers(s.cx.Of(f).lifted, b) + vs.v, fr.regs), s.cx.Of(f).lifted, vals, callee.env)
    requires |vs.v| == |vals| && (forall i :: 0 <= i < |vals| ==> Value(vs.v[i], fr.regs) == I32(vals[i]))
    requires Null !in Pointers(s.cx.Of(f).lifted, b) && LocsBelow(callee.env, |st.mem|)
    ensures Follows(MeantCall(f, callee, vals, st, fuel, s.cx.pointerFirst), g.v.Reg?, vs.b, g, fr, stack,
                    Run(s.m, Running(fr, stack, st), n), n, fuel, s)
    decreases fuel, es, 0
  {
    hide Run;
    var args := Pointers(s.cx.Of(f).lifted, b) + vs.v;
    hide MeantBody, EnvOk, Closed, Unique, Linked, TypeOf, Names, CompileFunction, Returns;
    IntArgs(vs.v, vals, fr.regs);
    n := 0;
    RunNothing(s.m, Running(fr, stack, st));
    if callee.dec.Primitive? {
      FollowPrimitive(f, vs, g, callee.dec.result, vals, st, fuel, b, fr, stack, s);
      n := 1;
    } else if fuel > 0 {
      RunEmit(s.m, vs.b, Call(vs.b.regs, Defined(f), callee.dec.result, args), fr, stack, st);
      var stack1 := Caller(fr, vs.b.regs, callee.dec.result, stack);
      hide ArgsOk, Linked, LocsBelow, Value;
      var n1 := FollowFunction(callee, env, Values(args, fr.regs), vals, st, fuel - 1, stack1, s);
      RunSplit(s.m, Running(fr, stack, st), 1, n1);
      n := 1 + n1;
      Returned(f, MeantBody(callee, vals, st, fuel - 1, s.cx.pointerFirst), vs, g, callee.dec.result, Run(s.m, Running(fr, stack, st), n),
               n1, fuel, b, fr, stack, s);
    }
  }

  /** Back behind the call, with the value in its register. */
  lemma Returned(f: Sym, o: Outcome<int32>, vs: Gen<seq<Operand>>, g: Gen<Operand>, result: Ty, c: Config, n1: nat, fuel: nat,
                 b: Builder, fr: Frame, stack: Stack, s: Site)
    requires CallChain(f, b, vs, g, s.cx) && At(fr, vs.b) && s.cx.Of(f).result == result && fuel > 0
    requires Returns(o, result, Caller(fr, vs.b.regs, result, stack), c, n1, fuel - 1, s.cx.pointerFirst)
    ensures Follows(o, g.v.Reg?, vs.b, g, fr, stack, c, 1 + n1, fuel, s)
  {
    hide Grows, LocalsBelow;
  }

  lemma FollowPrimitive(f: Sym, vs: Gen<seq<Operand>>, g: Gen<Operand>, result: Ty, vals: seq<int32>, st: State, fuel: nat,
                        b: Builder, fr: Frame, stack: Stack, s: Site)
    requires CallChain(f, b, vs, g, s.cx) && At(fr, vs.b) && fr.fn in s.m && Extends(g.b, s.m[fr.fn])
    requires s.cx.Of(f) == Info(true, result, [])
    requires |vs.v| == |vals| && (forall i :: 0 <= i < |vals| ==> Value(vs.v[i], fr.regs) == I32(vals[i]))
    ensures Follows(Val(st.Answer(result), st.Primitive(f, vals, result)), g.v.Reg?, vs.b, g, fr, stack,
                    Run(s.m, Running(fr, stack, st), 1), 1, fuel, s)
  {
    hide Grows, LocalsBelow, Run;
    assert Pointers([], b) + vs.v == vs.v;
    RunPrimitive(f, vs, result, vals, st, fr, stack, s.m);
  }

  lemma RunPrimitive(f: Sym, vs: Gen<seq<Operand>>, result: Ty, vals: seq<int32>, st: State, fr: Frame, stack: Stack, m: Module)
    requires vs.b.Valid() && At(fr, vs.b) && fr.fn in m && Extends(vs.b.Assign(Call(vs.b.regs, External(f), result, vs.v)), m[fr.fn])
    requires |vs.v| == |vals| && (forall i :: 0 <= i < |vals| ==> Value(vs.v[i], fr.regs) == I32(vals[i]))
    ensures Run(m, Running(fr, stack, st), 1)
      == Running(if result == IntTy then Next(fr, vs.b.regs, I32(st.Answer(result))) else fr.(pc := fr.pc + 1), stack,
                 st.Primitive(f, vals, result))
  {
    hide LocalsBelow, Run;
    IntArgs(vs.v, vals, fr.regs);
    RunEmit(m, vs.b, Call(vs.b.regs, External(f), result, vs.v), fr, stack, st);
  }

  lemma IntArgs(ops: seq<Operand>, vals: seq<int32>, regs: Regs)
    requires |ops| == |vals| && forall i :: 0 <= i < |vals| ==> Value(ops[i], regs) == I32(vals[i])
    ensures Null !in ops && AllInts(Values(ops, regs)) && Ints(Values(ops, regs)) == vals
  {
    assert forall i :: 0 <= i < |vals| ==> ops[i] != Null;
  }

  /** How a function's outcome shows when its frame is gone. */
  ghost predicate Returns(o: Outcome<int32>, result: Ty, stack: Stack, c: Config, n: nat, fuel: nat, pf: bool) {
    match o
    case Val(v, st) => c == Return(if result == VoidTy then Undef else I32(v), stack, st)
    case Brk(_) => false
    case Fault(st) => c == Trapped(st)
    case Stuck(_) => !pf && c.Crashed?
    case Timeout(st) => c.Running? && c.st == st && n >= fuel
  }

  /** The builders of a function. */
  datatype FunCode = FunCode(entry: Builder, atBody: Builder, body: Gen<Operand>, last: Instr)

  lemma {:induction false} FunctionLayout(d: FunDec, cx: Context) returns (c: FunCode)
    requires d.Function?
    ensures c.entry == EntryBuilder(d, cx.Of(d.name).lifted)
    ensures c.atBody.Valid() && c.atBody == CompileFormals(d.formals, |cx.Of(d.name).lifted|, c.entry)
    ensures c.body == Compile(d.body, c.atBody, cx) && CodeGrows(c.atBody, c.body)
    ensures c.last == (if d.result == VoidTy then RetVoid else Ret(c.body.v))
    ensures Extends(c.body.b.Emit(c.last), CompileFunction(d, cx)) && Extends(c.atBody, CompileFunction(d, cx))
  {
    var lifted := cx.Of(d.name).lifted;
    var entry := EntryBuilder(d, lifted);
    var atBody := CompileFormals(d.formals, |lifted|, entry);
    var g := Compile(d.body, atBody, cx);
    c := FunCode(entry, atBody, g, if d.result == VoidTy then RetVoid else Ret(g.v));
    assert CompileFunction(d, cx) == g.b.Emit(c.last).blocks;
    CompileGrows(d.body, atBody, cx);
    JumpExtends(g.b, c.last, CompileFunction(d, cx));
    ExtendsShorter(atBody, g.b, CompileFunction(d, cx));
  }

  lemma {:induction false} FollowFunction(callee: Callee, env: Env, args: seq<MVal>, vals: seq<int32>, st: State, fuel: nat,
                                          stack: Stack, s: Site) returns (n: nat)
    requires callee.dec.Function? && CalleeOk(callee, env, s.cx, s.m) && |callee.dec.formals| == |vals|
    requires ArgsOk(args, s.cx.Of(callee.dec.name).lifted, vals, callee.env) && LocsBelow(callee.env, |st.mem|)
    ensures Returns(MeantBody(callee, vals, st, fuel, s.cx.pointerFirst), callee.dec.result, stack,
                    Run(s.m, Running(Entry(callee.dec.name, args), stack, st), n), n, fuel, s.cx.pointerFirst)
    decreases fuel, callee.dec.body, 4
  {
    hide Compile, Meant, EnvOk, TypeOf, Closed, Linked, Unique, LocalsOk, CompileFunction, Run;
    var d := callee.dec;
    var c := FunctionLayout(d, s.cx);
    var c0 := Running(Entry(d.name, args), stack, st);
    var n0 := FollowEntry(callee, env, c, args, vals, st, stack, s);
    n := FollowToReturn(callee, env, c, vals, st, fuel, Run(s.m, c0, n0), s);
    RunSplit(s.m, c0, n0, n);
    n := n0 + n;
  }

  /** The body of a function and its return. */
  lemma {:induction false} FollowToReturn(callee: Callee, env: Env, c: FunCode, vals: seq<int32>, st: State, fuel: nat,
                                          c1: Config, s: Site) returns (n: nat)
    requires callee.dec.Function? && CalleeOk(callee, env, s.cx, s.m) && |callee.dec.formals| == |vals|
    requires LocsBelow(callee.env, |st.mem|) && c1.Running? && c1.st == st.(mem := st.mem + vals)
    requires c.atBody.Valid() && c.body == Compile(callee.dec.body, c.atBody, s.cx) && CodeGrows(c.atBody, c.body)
    requires c.last == (if callee.dec.result == VoidTy then RetVoid else Ret(c.body.v))
    requires c1.frame.fn in s.m && Extends(c.body.b.Emit(c.last), s.m[c1.frame.fn]) && At(c1.frame, c.atBody)
    requires LocalsOk(BindFormals(callee.dec.formals, |st.mem|, callee.env), c.atBody, c1.frame.regs,
                      Names(s.cx.Of(callee.dec.name).lifted) + Names(callee.dec.formals))
    ensures Returns(MeantBody(callee, vals, st, fuel, s.cx.pointerFirst), callee.dec.result, c1.stack, Run(s.m, c1, n), n, fuel, s.cx.pointerFirst)
    decreases fuel, callee.dec.body, 3
  {
    hide TypeOf, Unique, Closed, Linked, Compile, EnvOk, TyOf, Meant, Grows, Extends, UniqueFormals, Names, CompileFunction;
    var d := callee.dec;
    var s1 := Site(s.cx, s.m, Names(s.cx.Of(d.name).lifted) + Names(d.formals), false);
    FormalsBound(d.formals, |st.mem|, callee.env, s.cx, s.m);
    var env1 := BindFormals(d.formals, |st.mem|, callee.env);
    BodyMeant(callee, vals, st, fuel, s.cx.pointerFirst);
    JumpExtends(c.body.b, c.last, s.m[c1.frame.fn]);
    n := Follow(d.body, env1, c1.st, fuel, c.atBody, c1.frame, c1.stack, s1);
    EnvTable(env1, s.cx, s.m);
    TypesAgree(d.body, ScopeOf(env1), false, s.cx, s.m);
    n := FollowReturn(c, Meant(d.body, env1, c1.st, fuel, s.cx.pointerFirst), d.result, c1, n, fuel, s1);
  }

  /** From the function's entry to the first instruction of its body. */
  lemma {:induction false} FollowEntry(callee: Callee, env: Env, c: FunCode, args: seq<MVal>, vals: seq<int32>, st: State,
                                       stack: Stack, s: Site) returns (n: nat)
    requires callee.dec.Function? && CalleeOk(callee, env, s.cx, s.m) && |callee.dec.formals| == |vals|
    requires ArgsOk(args, s.cx.Of(callee.dec.name).lifted, vals, callee.env) && LocsBelow(callee.env, |st.mem|)
    requires c.entry == EntryBuilder(callee.dec, s.cx.Of(callee.dec.name).lifted) && c.atBody.Valid()
    requires c.atBody == CompileFormals(callee.dec.formals, |s.cx.Of(callee.dec.name).lifted|, c.entry)
    requires Extends(c.atBody, s.m[callee.dec.name])
    ensures var c1 := Run(s.m, Running(Entry(callee.dec.name, args), stack, st), n);
      && c1.Running? && c1.stack == stack && c1.st == st.(mem := st.mem + vals) && c1.frame.fn == callee.dec.name
      && At(c1.frame, c.atBody)
      && LocalsOk(BindFormals(callee.dec.formals, |st.mem|, callee.env), c.atBody, c1.frame.regs,
                  Names(s.cx.Of(callee.dec.name).lifted) + Names(callee.dec.formals))
  {
    hide EnvOk, TypeOf, Unique, Closed, Linked, Meant, Compile, CompileFunction;
    var d := callee.dec;
    var lifted := s.cx.Of(d.name).lifted;
    var fr := Entry(d.name, args);
    EntryLocals(d, lifted, args, vals, callee.env);
    n := FollowFormals(d.formals, vals, |lifted|, c.entry, fr, stack, callee.env, st, Names(lifted), s);
  }

  lemma EntryLocals(d: FunDec, lifted: seq<Sym>, args: seq<MVal>, vals: seq<int32>, env: Env)
    requires ArgsOk(args, lifted, vals, env) && |d.formals| == |vals|
    ensures LocalsOk(env, EntryBuilder(d, lifted), Entry(d.name, args).regs, Names(lifted))
    ensures forall i :: 0 <= i < |vals| ==> Value(Reg(|lifted| + i), Entry(d.name, args).regs) == I32(vals[i])
  {
    LiftedLocated(lifted, 0, map[]);
    var b := EntryBuilder(d, lifted);
    forall x | x in Names(lifted) && x in Vars(env) ensures Pointer(b, Entry(d.name, args).regs, x) == Some(LookupVar(env, x)) {
      assert LiftedAt(x, b.locals[x], lifted, 0);
      VarsLooked(env, x);
    }
  }

  lemma {:induction false} VarsLooked(env: Env, x: Sym)
    ensures x in Vars(env) <==> LookupVar(env, x).Some?
  {
    if env != Top { VarsLooked(env.outer, x); }
  }

  lemma FollowReturn(c: FunCode, o: Outcome<int32>, result: Ty, c0: Config, n1: nat, fuel: nat, s: Site) returns (n: nat)
    requires c0.Running? && !s.inLoop && c0.frame.fn in s.m && c.atBody.Valid() && c.body.b.Valid()
    requires Extends(c.body.b.Emit(c.last), s.m[c0.frame.fn])
    requires c.last == (if result == VoidTy then RetVoid else Ret(c.body.v))
    requires Follows(o, result == IntTy, c.atBody, c.body, c0.frame, c0.stack, Run(s.m, c0, n1), n1, fuel, s)
    ensures Returns(o, result, c0.stack, Run(s.m, c0, n), n, fuel, s.cx.pointerFirst)
  {
    n := n1;
    if o.Val? {
      RunEmit(s.m, c.body.b, c.last, Run(s.m, c0, n1).frame, c0.stack, o.st);
      RunSplit(s.m, c0, n1, 1);
      n := n1 + 1;
    }
  }

  /** Each lifted variable has a register, the one at its place in the order. */
  lemma {:induction false} LiftedLocated(lifted: seq<Sym>, first: nat, locals: map<Sym, Operand>)
    ensures var r := LiftedLocals(lifted, first, locals);
      && (forall x :: x in r <==> x in locals || x in lifted)
      && (forall x :: x in r ==> LiftedAt(x, r[x], lifted, first) || (x in locals && r[x] == locals[x]))
      && (forall x :: x in lifted ==> LiftedAt(x, r[x], lifted, first))
    decreases |lifted|
  {
    if lifted != [] {
      var locals1 := locals[lifted[0] := Reg(first)];
      LiftedLocated(lifted[1..], first + 1, locals1);
      var r := LiftedLocals(lifted, first, locals);
      assert lifted == [lifted[0]] + lifted[1..];
      assert r == LiftedLocals(lifted[1..], first + 1, locals1);
      assert forall x :: x in lifted <==> x == lifted[0] || x in lifted[1..];
      assert forall x :: x in locals1 <==> x == lifted[0] || x in locals;
      forall x | x in r && LiftedAt(x, r[x], lifted[1..], first + 1) ensures LiftedAt(x, r[x], lifted, first) {
        assert lifted[r[x].r - first] == lifted[1..][r[x].r - (first + 1)];
      }
    }
  }

  ghost predicate LiftedAt(x: Sym, o: Operand, lifted: seq<Sym>, first: nat) {
    o.Reg? && first <= o.r < first + |lifted| && lifted[o.r - first] == x
  }

  /** Formals come after the lifted parameters and grow the entry block only. */
  lemma {:induction false} FormalsLayout(xs: seq<Sym>, arg: nat, b: Builder)
    requires b.Valid()
    ensures Grows(b, CompileFormals(xs, arg, b))
    decreases |xs|
  {
    if xs != [] {
      var b1, b2 := OneFormal(xs[0], arg, b);
      FormalsLayout(xs[1..], arg + 1, b2);
      GrowsTransitive(b, b2, CompileFormals(xs, arg, b));
    }
  }

  lemma OneFormal(x: Sym, arg: nat, b: Builder) returns (b1: Builder, b2: Builder)
    requires b.Valid()
    ensures b1 == b.Assign(Alloca(b.regs)).(locals := b.locals[x := Reg(b.regs)])
    ensures b2 == b1.Emit(Cfg.Store(Reg(arg), Reg(b.regs)))
    ensures Grows(b, b1) && Grows(b1, b2) && Grows(b, b2)
  {
    b1 := b.Assign(Alloca(b.regs)).(locals := b.locals[x := Reg(b.regs)]);
    b2 := b1.Emit(Cfg.Store(Reg(arg), Reg(b.regs)));
    EmitGrows(b, Alloca(b.regs));
    EmitGrows(b1, Cfg.Store(Reg(arg), Reg(b.regs)));
    GrowsTransitive(b, b1, b2);
  }

  /** The allocas and stores of the formals. */
  lemma {:induction false} FollowFormals(xs: seq<Sym>, vals: seq<int32>, arg: nat, b: Builder, fr: Frame, stack: Stack, env: Env,
                                         st: State, need: set<Sym>, s: Site) returns (n: nat)
    requires |xs| == |vals| && b.Valid() && At(fr, b) && fr.fn in s.m && arg + |xs| <= b.regs
    requires Extends(CompileFormals(xs, arg, b), s.m[fr.fn])
    requires LocalsOk(env, b, fr.regs, need) && LocsBelow(env, |st.mem|) && UniqueFormals(xs, Vars(env))
    requires forall i :: 0 <= i < |xs| ==> Value(Reg(arg + i), fr.regs) == I32(vals[i])
    ensures var c := Run(s.m, Running(fr, stack, st), n);
      var b1 := CompileFormals(xs, arg, b);
      && Same(fr, stack, c, b.regs) && c.st == st.(mem := st.mem + vals) && At(c.frame, b1)
      && LocalsOk(BindFormals(xs, |st.mem|, env), b1, c.frame.regs, need + Names(xs))
    decreases |xs|
  {
    hide Grows, Extends, LocalsOk, EnvOk, Run, Value, Keeps;
    n := 0;
    RunNothing(s.m, Running(fr, stack, st));
    KeepsItself(fr.regs, b.regs);
    if xs == [] {
      assert need + Names(xs) == need;
      assert st.mem + vals == st.mem;
    } else {
      var x := xs[0];
      var b1, b2 := OneFormal(x, arg, b);
      FormalsUnfold(xs, arg, b, b2, |st.mem|, env);
      hide CompileFormals, BindFormals;
      FormalsLayout(xs[1..], arg + 1, b2);
      ExtendsShorter(b2, CompileFormals(xs, arg, b), s.m[fr.fn]);
      FollowFormal(x, vals[0], arg, b, b1, b2, fr, stack, env, st, need, s);
      var c2 := Run(s.m, Running(fr, stack, st), 2);
      LocsStayBelow(env, |st.mem|, |st.mem| + 1);
      assert Vars(BindVar(x, |st.mem|, false, env)) == Vars(env) + {x};
      ArgsKept(vals, arg, |xs|, fr.regs, c2.frame.regs, b.regs);
      n := FollowFormals(xs[1..], vals[1..], arg + 1, b2, c2.frame, stack, BindVar(x, |st.mem|, false, env), c2.st, need + {x}, s);
      RunSplit(s.m, Running(fr, stack, st), 2, n);
      KeepsTransitive(fr.regs, c2.frame.regs, Run(s.m, c2, n).frame.regs, b.regs, b2.regs);
      FirstAndRest(xs, vals, need, st.mem);
      n := 2 + n;
    }
  }

  lemma FormalsUnfold(xs: seq<Sym>, arg: nat, b: Builder, b2: Builder, base: nat, env: Env)
    requires xs != [] && b.Valid()
    requires b2 == b.Assign(Alloca(b.regs)).(locals := b.locals[xs[0] := Reg(b.regs)]).Emit(Cfg.Store(Reg(arg), Reg(b.regs)))
    ensures CompileFormals(xs, arg, b) == CompileFormals(xs[1..], arg + 1, b2)
    ensures BindFormals(xs, base, env) == BindFormals(xs[1..], base + 1, BindVar(xs[0], base, false, env))
  {}

  lemma KeepsFewer(r1: Regs, r2: Regs, below: nat, more: nat)
    requires Keeps(r1, r2, more) && below <= more
    ensures Keeps(r1, r2, below)
  {}

  lemma KeepsItself(regs: Regs, below: nat)
    ensures Keeps(regs, regs, below)
  {}

  lemma ArgsKept(vals: seq<int32>, arg: nat, k: nat, r1: Regs, r2: Regs, below: nat)
    requires |vals| == k > 0 && Keeps(r1, r2, below) && arg + k <= below
    requires forall i :: 0 <= i < k ==> Value(Reg(arg + i), r1) == I32(vals[i])
    ensures forall i :: 0 <= i < k - 1 ==> Value(Reg(arg + 1 + i), r2) == I32(vals[1..][i])
  {
    forall i | 0 <= i < k - 1 ensures Value(Reg(arg + 1 + i), r2) == I32(vals[1..][i]) {
      assert Value(Reg(arg + (1 + i)), r1) == I32(vals[1 + i]);
      KeepsValue(Reg(arg + (1 + i)), r1, r2, below);
    }
  }

  lemma FirstAndRest(xs: seq<Sym>, vals: seq<int32>, need: set<Sym>, mem: seq<int32>)
    requires |xs| == |vals| > 0
    ensures need + {xs[0]} + Names(xs[1..]) == need + Names(xs) && mem + [vals[0]] + vals[1..] == mem + vals
  {
    assert xs == [xs[0]] + xs[1..];
  }

  lemma FollowFormal(x: Sym, v: int32, arg: nat, b: Builder, b1: Builder, b2: Builder, fr: Frame, stack: Stack, env: Env,
                     st: State, need: set<Sym>, s: Site)
    requires b.Valid() && At(fr, b) && fr.fn in s.m && arg < b.regs && x !in Vars(env)
    requires b1 == b.Assign(Alloca(b.regs)).(locals := b.locals[x := Reg(b.regs)])
    requires b2 == b1.Emit(Cfg.Store(Reg(arg), Reg(b.regs))) && Grows(b1, b2) && Extends(b2, s.m[fr.fn])
    requires LocalsOk(env, b, fr.regs, need) && Value(Reg(arg), fr.regs) == I32(v)
    ensures var c := Run(s.m, Running(fr, stack, st), 2);
      && Same(fr, stack, c, b.regs) && c.st == st.(mem := st.mem + [v]) && At(c.frame, b2)
      && LocalsOk(BindVar(x, |st.mem|, false, env), b2, c.frame.regs, need + {x})
  {
    ExtendsShorter(b1, b2, s.m[fr.fn]);
    RunEmit(s.m, b, Alloca(b.regs), fr, stack, st);
    var fr1 := Next(fr, b.regs, Ptr(|st.mem|));
    RunEmit(s.m, b1, Cfg.Store(Reg(arg), Reg(b.regs)), fr1, stack, st.Alloc(0));
    RunSplit(s.m, Running(fr, stack, st), 1, 1);
    assert st.Alloc(0).Write(|st.mem|, v).mem == st.mem + [v];
    var env1 := BindVar(x, |st.mem|, false, env);
    assert Vars(env1) == Vars(env) + {x};
    forall y | y in need + {x} && y in Vars(env1) ensures Pointer(b2, fr1.regs, y) == Some(LookupVar(env1, y)) {
      if y != x {
        assert Pointer(b, fr.regs, y) == Some(LookupVar(env, y));
        KeepsValue(b.locals[y], fr.regs, fr1.regs, b.regs);
      }
    }
  }
}
