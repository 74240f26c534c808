/** The order of evaluation that storing an initial value relies on: what becomes of a program when
    the C++ compiler evaluates `value_` before `translate(init)` (src/llvmtranslate/translator.cc). */
module ValueFirst {
  import opened Int32
  import opened Options
  import opened Tiger
  import opened Cfg
  import opened Check
  import opened Translate
  import opened Programs
  import opened Codegen
  import opened Initials

  // ----- the two modules, instruction by instruction -----

  /** The same instruction, or the store of a variable's initial value that goes through the value. */
  predicate TwinInstr(i: Instr, j: Instr) { j == i || (i.Store? && j == Cfg.Store(i.val, i.val)) }

  predicate TwinBlock(a: Block, b: Block) { |b| == |a| && forall k :: 0 <= k < |a| ==> TwinInstr(a[k], b[k]) }

  predicate TwinCode(a: Code, b: Code) { |b| == |a| && forall k :: 0 <= k < |a| ==> TwinBlock(a[k], b[k]) }

  predicate TwinModule(m: Module, m2: Module) { m2.Keys == m.Keys && forall f :: f in m ==> TwinCode(m[f], m2[f]) }

  predicate TwinBuilder(b: Builder, b2: Builder) {
    b2.at == b.at && b2.regs == b.regs && b2.locals == b.locals && b2.loopEnd == b.loopEnd && TwinCode(b.blocks, b2.blocks)
  }

  ghost predicate TwinGen(g: Gen<Operand>, g2: Gen<Operand>) { TwinBuilder(g.b, g2.b) && g2.v == g.v }

  function ValueBefore(cx: Context): Context { cx.(pointerFirst := false) }

  lemma EmitTwin(b: Builder, b2: Builder, i: Instr, j: Instr)
    requires b.Valid() && TwinBuilder(b, b2) && TwinInstr(i, j)
    ensures b2.Valid() && TwinBuilder(b.Emit(i), b2.Emit(j)) && TwinBuilder(b.Assign(i), b2.Assign(j))
  {
    assert TwinBlock(b.blocks[b.at], b2.blocks[b.at]);
    assert TwinBlock(b.blocks[b.at] + [i], b2.blocks[b.at] + [j]);
  }

  lemma CreateTwin(b: Builder, b2: Builder, n: nat, at: nat)
    requires TwinBuilder(b, b2)
    ensures TwinBuilder(b.Create(n).InsertAt(at), b2.Create(n).InsertAt(at)) && TwinBuilder(b.Create(n), b2.Create(n))
  {}

  lemma OperTwin(op: Oper, l: Operand, r: Operand, b: Builder, b2: Builder)
    requires b.Valid() && TwinBuilder(b, b2)
    ensures b2.Valid() && TwinGen(CompileOper(op, l, r, b), CompileOper(op, l, r, b2))
  {
    match op
    case Arithmetic(a) => EmitTwin(b, b2, Binary(b.regs, a, l, r), Binary(b.regs, a, l, r));
    case Comparison(c) =>
      var i, z := ICmp(b.regs, c, l, r), ZExt(b.regs + 1, Reg(b.regs));
      EmitTwin(b, b2, i, i);
      EmitTwin(b.Assign(i), b2.Assign(i), z, z);
  }

  lemma TestTwin(v: Operand, yes: nat, no: nat, b: Builder, b2: Builder)
    requires b.Valid() && TwinBuilder(b, b2)
    ensures b2.Valid() && TwinBuilder(CompileTest(v, yes, no, b), CompileTest(v, yes, no, b2))
  {
    var i, j := ICmp(b.regs, Ne, v, Const(0)), CondBr(Reg(b.regs), yes, no);
    EmitTwin(b, b2, i, i);
    EmitTwin(b.Assign(i), b2.Assign(i), j, j);
  }

  lemma {:induction false} SameTypes(e: Exp, cx: Context)
    ensures TyOf(e, ValueBefore(cx)) == TyOf(e, cx)
  {
    match e
    case SeqExp(es) => SameLastTypes(es, cx);
    case IfExp(_, thn, _) => SameTypes(thn, cx);
    case LetVar(_, _, body) => SameTypes(body, cx);
    case LetFuns(_, body) => SameTypes(body, cx);
    case _ =>
  }

  lemma {:induction false} SameLastTypes(es: Exps, cx: Context)
    ensures LastTy(es, ValueBefore(cx)) == LastTy(es, cx)
  {
    match es
    case NoExp =>
    case Cons(e, NoExp) => SameTypes(e, cx);
    case Cons(_, rest) => SameLastTypes(rest, cx);
  }

  /** Only the stores of initial values differ. */
  lemma {:induction false} CompileTwin(e: Exp, b: Builder, b2: Builder, cx: Context)
    requires b.Valid() && TwinBuilder(b, b2) && cx.pointerFirst
    ensures b2.Valid() && TwinGen(Compile(e, b, cx), Compile(e, b2, ValueBefore(cx)))
    decreases e, 1
  {
    hide TwinCode, TwinInstr;
    StillValid(b, b2);
    match e
    case IntExp(_) =>
    case VarExp(x) => AssignTwin(b, b2, Load(b.regs, b.Local(x)));
    case OpExp(l, op, r) =>
      var lv, lv2 := Compile(l, b, cx), Compile(l, b2, ValueBefore(cx));
      CompileTwin(l, b, b2, cx);
      CompileTwin(r, lv.b, lv2.b, cx);
      OperTwin(op, lv.v, Compile(r, lv.b, cx).v, Compile(r, lv.b, cx).b, Compile(r, lv2.b, ValueBefore(cx)).b);
    case SeqExp(es) => ArgsTwin(es, b, b2, cx);
    case AssignExp(x, e1) =>
      var v, v2 := Compile(e1, b, cx), Compile(e1, b2, ValueBefore(cx));
      CompileTwin(e1, b, b2, cx);
      AssignTwin(v.b, v2.b, Cfg.Store(v.v, v.b.Local(x)));
    case IfExp(_, _, _) => IfTwin(e, b, b2, cx);
    case WhileExp(_, _) => WhileTwin(e, b, b2, cx);
    case ForExp(_, _, _, _) =>
    case BreakExp => AssignTwin(b, b2, Br(if b.loopEnd.Some? then b.loopEnd.value else 0));
    case CallExp(_, _) => CallTwin(e, b, b2, cx);
    case LetVar(_, _, _) => LetVarTwin(e, b, b2, cx);
    case LetFuns(_, body) => CompileTwin(body, b, b2, cx);
  }

  lemma StillValid(b: Builder, b2: Builder)
    requires b.Valid() && TwinBuilder(b, b2)
    ensures b2.Valid()
  {}

  lemma AssignTwin(b: Builder, b2: Builder, i: Instr)
    requires b.Valid() && TwinBuilder(b, b2)
    ensures b2.Valid() && TwinBuilder(b.Emit(i), b2.Emit(i)) && TwinBuilder(b.Assign(i), b2.Assign(i))
  {
    EmitTwin(b, b2, i, i);
  }

  lemma {:induction false} IfTwin(e: Exp, b: Builder, b2: Builder, cx: Context)
    requires e.IfExp? && b.Valid() && TwinBuilder(b, b2) && cx.pointerFirst
    ensures b2.Valid() && TwinGen(Compile(e, b, cx), Compile(e, b2, ValueBefore(cx)))
    decreases e, 0
  {
    hide TwinCode, TwinInstr, CompileTest;
    StillValid(b, b2);
    SameTypes(e.thenclause, cx);
    CompileTwin(e.test, b, b2, cx);
    var c, c2 := CompileIf(e.test, e.thenclause, e.elseclause, b, cx), CompileIf(e.test, e.thenclause, e.elseclause, b2, ValueBefore(cx));
    var n := |c.test.b.blocks|;
    SameBlocks(c.test.b, c2.test.b);
    CreateTwin(c.test.b, c2.test.b, 3, 0);
    TestTwin(c.test.v, n, n + 1, c.test.b.Create(3), c2.test.b.Create(3));
    CompileTwin(e.thenclause, c.atThen, c2.atThen, cx);
    AssignTwin(c.thn.b, c2.thn.b, Br(n + 2));
    CompileTwin(e.elseclause, c.atElse, c2.atElse, cx);
    AssignTwin(c.els.b, c2.els.b, Br(n + 2));
    AssignTwin(c.merge, c2.merge, Phi(c.merge.regs, c.thn.v, c.thn.b.at, c.els.v, c.els.b.at));
  }

  lemma SameBlocks(b: Builder, b2: Builder)
    requires TwinBuilder(b, b2)
    ensures |b2.blocks| == |b.blocks|
  {}

  lemma {:induction false} WhileTwin(e: Exp, b: Builder, b2: Builder, cx: Context)
    requires e.WhileExp? && b.Valid() && TwinBuilder(b, b2) && cx.pointerFirst
    ensures b2.Valid() && TwinGen(Compile(e, b, cx), Compile(e, b2, ValueBefore(cx)))
    decreases e, 0
  {
    hide TwinCode, TwinInstr, CompileTest;
    StillValid(b, b2);
    var n := |b.blocks|;
    SameBlocks(b, b2);
    var c, c2 := CompileWhile(e.test, e.body, b, cx), CompileWhile(e.test, e.body, b2, ValueBefore(cx));
    CreateTwin(b, b2, 3, 0);
    AssignTwin(b.Create(3), b2.Create(3), Br(n));
    CompileTwin(e.test, c.atTest, c2.atTest, cx);
    TestTwin(c.test.v, n + 1, n + 2, c.test.b, c2.test.b);
    CompileTwin(e.body, c.atBody, c2.atBody, cx);
    AssignTwin(c.body.b, c2.body.b, Br(n));
  }

  lemma {:induction false} CallTwin(e: Exp, b: Builder, b2: Builder, cx: Context)
    requires e.CallExp? && b.Valid() && TwinBuilder(b, b2) && cx.pointerFirst
    ensures b2.Valid() && TwinGen(Compile(e, b, cx), Compile(e, b2, ValueBefore(cx)))
    decreases e, 0
  {
    hide TwinCode, TwinInstr;
    StillValid(b, b2);
    var info := cx.Of(e.name);
    ArgsTwin(e.args, b, b2, cx);
    var vs, vs2 := CompileArgs(e.args, b, cx), CompileArgs(e.args, b2, ValueBefore(cx));
    var ps := seq(|info.lifted|, i requires 0 <= i < |info.lifted| => b.Local(info.lifted[i]));
    assert ps == seq(|info.lifted|, i requires 0 <= i < |info.lifted| => b2.Local(info.lifted[i]));
    AssignTwin(vs.b, vs2.b, Call(vs.b.regs, if info.primitive then External(e.name) else Defined(e.name), info.result, ps + vs.v));
  }

  /** The store that differs. */
  lemma {:induction false} LetVarTwin(e: Exp, b: Builder, b2: Builder, cx: Context)
    requires e.LetVar? && b.Valid() && TwinBuilder(b, b2) && cx.pointerFirst
    ensures b2.Valid() && TwinGen(Compile(e, b, cx), Compile(e, b2, ValueBefore(cx)))
    decreases e, 0
  {
    hide TwinCode;
    StillValid(b, b2);
    AssignTwin(b, b2, Alloca(b.regs));
    var a := b.Assign(Alloca(b.regs)).(locals := b.locals[e.name := Reg(b.regs)]);
    var a2 := b2.Assign(Alloca(b.regs)).(locals := b.locals[e.name := Reg(b.regs)]);
    CompileTwin(e.init, a, a2, cx);
    var v, v2 := Compile(e.init, a, cx), Compile(e.init, a2, ValueBefore(cx));
    EmitTwin(v.b, v2.b, Cfg.Store(v.v, Reg(b.regs)), Cfg.Store(v.v, v.v));
    CompileTwin(e.body, v.b.Emit(Cfg.Store(v.v, Reg(b.regs))), v2.b.Emit(Cfg.Store(v.v, v.v)), cx);
  }

  lemma {:induction false} ArgsTwin(es: Exps, b: Builder, b2: Builder, cx: Context)
    requires b.Valid() && TwinBuilder(b, b2) && cx.pointerFirst
    ensures b2.Valid()
    ensures var g, g2 := CompileArgs(es, b, cx), CompileArgs(es, b2, ValueBefore(cx)); TwinBuilder(g.b, g2.b) && g2.v == g.v
    decreases es, 1
  {
    hide TwinCode, TwinInstr;
    StillValid(b, b2);
    if es.Cons? {
      CompileTwin(es.head, b, b2, cx);
      ArgsTwin(es.tail, Compile(es.head, b, cx).b, Compile(es.head, b2, ValueBefore(cx)).b, cx);
    }
  }

  lemma TwinItself(b: Builder)
    ensures TwinBuilder(b, b)
  {}

  lemma FunctionTwin(d: FunDec, cx: Context)
    requires d.Function? && cx.pointerFirst
    ensures TwinCode(CompileFunction(d, cx), CompileFunction(d, ValueBefore(cx)))
  {
    hide TwinInstr, Compile, CompileFormals;
    var lifted := cx.Of(d.name).lifted;
    var b := CompileFormals(d.formals, |lifted|, EntryBuilder(d, lifted));
    TwinItself(b);
    CompileTwin(d.body, b, b, cx);
    var g, g2 := Compile(d.body, b, cx), Compile(d.body, b, ValueBefore(cx));
    AssignTwin(g.b, g2.b, if d.result == VoidTy then RetVoid else Ret(g.v));
  }

  lemma {:induction false} ModuleTwin(ds: seq<FunDec>, cx: Context)
    requires cx.pointerFirst
    ensures TwinModule(Generate(ds, cx), Generate(ds, ValueBefore(cx)))
    decreases |ds|
  {
    hide TwinCode, CompileFunction;
    if ds != [] {
      ModuleTwin(ds[1..], cx);
      if ds[0].Function? { FunctionTwin(ds[0], cx); }
    }
  }

  // ----- the two machines -----

  /** The machine is about to store the initial value of a variable. */
  predicate AtInitialStore(m: Module, m2: Module, c: Config) {
    && c.Running? && c.frame.fn in m && c.frame.fn in m2
    && var a, b, fr := m[c.frame.fn], m2[c.frame.fn], c.frame;
    && fr.blk < |a| && fr.blk < |b| && fr.pc < |a[fr.blk]| && fr.pc < |b[fr.blk]| && a[fr.blk][fr.pc] != b[fr.blk][fr.pc]
  }

  lemma TwinStep(m: Module, m2: Module, c: Config)
    requires TwinModule(m, m2)
    ensures Step(m2, c) == if AtInitialStore(m, m2, c) then Crashed(c.st) else Step(m, c)
  {
    if c.Running? && c.frame.fn in m && c.frame.blk < |m[c.frame.fn]| {
      assert TwinCode(m[c.frame.fn], m2[c.frame.fn]);
      assert TwinBlock(m[c.frame.fn][c.frame.blk], m2[c.frame.fn][c.frame.blk]);
      if c.frame.pc < |m[c.frame.fn][c.frame.blk]| {
        assert TwinInstr(m[c.frame.fn][c.frame.blk][c.frame.pc], m2[c.frame.fn][c.frame.blk][c.frame.pc]);
      }
    }
  }

  /** Within `n` steps the machine comes to store an initial value. */
  predicate StoresInitial(m: Module, m2: Module, c: Config, n: nat)
    decreases n
  {
    n > 0 && (AtInitialStore(m, m2, c) || StoresInitial(m, m2, Step(m, c), n - 1))
  }

  /** The machines do the same, step by step, until one comes to store an initial value: there the
      other crashes. */
  lemma {:induction false} Lockstep(m: Module, m2: Module, c: Config, n: nat)
    requires TwinModule(m, m2)
    ensures if StoresInitial(m, m2, c, n) then Run(m2, c, n).Crashed? else Run(m2, c, n) == Run(m, c, n)
    decreases n
  {
    hide TwinModule, AtInitialStore;
    if n > 0 {
      TwinStep(m, m2, c);
      if AtInitialStore(m, m2, c) {
        RunStopped(m2, Step(m2, c), n - 1);
      } else {
        Lockstep(m, m2, Step(m, c), n - 1);
      }
    }
  }

  /** With the value first, every program whose run completes the initial value of a variable crashes;
      on any other input the machine behaves as it should, down to the last step. */
  lemma ValueFirstExact(p: Program, escapes: map<Sym, seq<Sym>>, input: seq<int32>, junk: seq<MVal>)
    requires Compilable(p, ContextOf(p, escapes, true)) && |junk| == |ContextOf(p, escapes, true).Of(p.main.name).lifted|
    ensures var m, m2, c := Generate(p.Decs(), ContextOf(p, escapes, true)), Generate(p.Decs(), ContextOf(p, escapes, false)), Start(p, input, junk);
      && p.main.Function?
      && (Initializes(p, input) <==> exists st :: Reaches(m2, c, Crashed(st)))
      && (!Initializes(p, input) ==> forall n: nat :: Run(m2, c, n) == Run(m, c, n))
  {
    hide Compilable, Generate, Start, StoresInitial, TwinModule;
    var cx := ContextOf(p, escapes, true);
    assert ValueBefore(cx) == ContextOf(p, escapes, false);
    MainOk(p, cx);
    CompilableEitherWay(p, cx, ValueBefore(cx));
    if Initializes(p, input) {
      InitialLost(p, escapes, input, junk);
    } else {
      NeverCrashes(p, escapes, input, junk);
      var m, m2, c := Generate(p.Decs(), cx), Generate(p.Decs(), ValueBefore(cx)), Start(p, input, junk);
      ModuleTwin(p.Decs(), cx);
      forall n: nat ensures Run(m2, c, n) == Run(m, c, n) {
        Lockstep(m, m2, c, n);
        if StoresInitial(m, m2, c, n) { CrashReached(m2, c, n); }
      }
    }
  }

  lemma CrashReached(m: Module, c: Config, n: nat)
    requires Run(m, c, n).Crashed?
    ensures exists st :: Reaches(m, c, Crashed(st))
  {
    assert RunsTo(m, c, n, Crashed(Run(m, c, n).st));
  }

  lemma NeverCrashes(p: Program, escapes: map<Sym, seq<Sym>>, input: seq<int32>, junk: seq<MVal>)
    requires Compilable(p, ContextOf(p, escapes, false)) && |junk| == |ContextOf(p, escapes, false).Of(p.main.name).lifted|
    requires p.main.Function? && !Initializes(p, input)
    ensures forall st :: !Reaches(Generate(p.Decs(), ContextOf(p, escapes, false)), Start(p, input, junk), Crashed(st))
  {
    hide Compilable, Generate, Start;
    forall st ensures !Reaches(Generate(p.Decs(), ContextOf(p, escapes, false)), Start(p, input, junk), Crashed(st)) {
      CodegenCorrect(p, escapes, false, input, junk, st);
    }
  }

  /** A text that declares no variable is safe in either order: no input makes it complete an initial
      value, so that code generation is correct and the machine never crashes. */
  lemma WithoutVariables(p: Program, escapes: map<Sym, seq<Sym>>, pointerFirst: bool, input: seq<int32>, junk: seq<MVal>, st: State)
    requires Compilable(p, ContextOf(p, escapes, pointerFirst))
    requires |junk| == |ContextOf(p, escapes, pointerFirst).Of(p.main.name).lifted|
    requires NoVarFuns(p.prims) && NoVarFuns(p.Chunk())
    ensures p.main.Function? && !Initializes(p, input)
    ensures var m, c := Generate(p.Decs(), ContextOf(p, escapes, pointerFirst)), Start(p, input, junk);
      && (Ends(p, input, Val(0, st)) <==> Reaches(m, c, Halted(Undef, st)))
      && (Ends(p, input, Fault(st)) <==> Reaches(m, c, Trapped(st)))
      && (Diverges(p, input) <==> RunsForever(m, c))
      && !Reaches(m, c, Crashed(st))
  {
    hide Compilable, Generate, Start;
    MainOk(p, ContextOf(p, escapes, pointerFirst));
    assert NoVarEnv(BindFuns(p.prims, Top)) by { assert NoVarEnv(Top); }
    assert NoVar(p.main.body);
    forall fuel: nat ensures !CompletesBody(p.Callee(), [], State([], input, []), fuel) {
      WithoutVar(p.main.body, p.Env(), State([], input, []).(mem := [] + []), fuel);
    }
    CodegenCorrect(p, escapes, pointerFirst, input, junk, st);
  }
}
