/** Programs whose generated code crashes: what Crashes says of one construct, shown to happen. */
module CrashingPrograms {
  import opened Int32
  import opened Options
  import opened Tiger
  import opened Cfg
  import opened Check
  import opened Translate
  import opened Layout
  import opened Simulate
  import opened Programs
  import opened Codegen
  import opened Rename
  import opened Hygiene
  import opened Escapes
  import opened Collector
  import opened Pipeline
  import opened Compiler
  import Follow
  import Collected

  // ----- code that starts with a variable -----

  /** The builder with the variable's cell allocated, and after the store of `v`. */
  ghost function Allocated(b: Builder, x: Sym): Builder
    requires b.Valid()
  {
    b.Assign(Alloca(b.regs)).(locals := b.locals[x := Reg(b.regs)])
  }

  ghost function Stored(b: Builder, x: Sym, n: int32, cx: Context): Builder
    requires b.Valid()
  {
    Allocated(b, x).Emit(Cfg.Store(Const(n), if cx.pointerFirst then Reg(b.regs) else Const(n)))
  }

  ghost function Entered(d: FunDec, cx: Context): (b: Builder)
    ensures b.Valid()
  {
    EntryBuilder(d, cx.Of(d.name).lifted)
  }

  lemma StartsWithVar(d: FunDec, x: Sym, n: int32, body: Exp, cx: Context)
    requires d.Function? && d.formals == [] && d.body == LetVar(x, IntExp(n), body)
    ensures var b, code := Entered(d, cx), CompileFunction(d, cx);
      && Extends(Allocated(b, x), code) && Extends(Stored(b, x, n, cx), code)
      && Extends(Compile(body, Stored(b, x, n, cx), cx).b, code)
  {
    var c := Follow.FunctionLayout(d, cx);
    var b, code := Entered(d, cx), CompileFunction(d, cx);
    var stored := Stored(b, x, n, cx);
    assert c.atBody == b;
    JumpExtends(c.body.b, c.last, code);
    CompileGrows(body, stored, cx);
    ExtendsShorter(stored, Compile(body, stored, cx).b, code);
    JumpExtends(Allocated(b, x), Cfg.Store(Const(n), if cx.pointerFirst then Reg(b.regs) else Const(n)), code);
  }

  /** The machine after the allocation. */
  lemma AfterAlloca(d: FunDec, x: Sym, n: int32, body: Exp, cx: Context, m: Module, fr: Frame, st: State)
    requires d.Function? && d.formals == [] && d.body == LetVar(x, IntExp(n), body)
    requires d.name in m && m[d.name] == CompileFunction(d, cx) && fr.fn == d.name && At(fr, Entered(d, cx))
    ensures var r := Entered(d, cx).regs;
      Run(m, Running(fr, Bottom, st), 1) == Running(Next(fr, r, Ptr(|st.mem|)), Bottom, st.Alloc(0))
      && At(Next(fr, r, Ptr(|st.mem|)), Allocated(Entered(d, cx), x))
  {
    StartsWithVar(d, x, n, body, cx);
    var b := Entered(d, cx);
    assert Extends(b.Emit(Alloca(b.regs)), m[fr.fn]) by { assert Allocated(b, x).blocks == b.Emit(Alloca(b.regs)).blocks; }
    RunEmit(m, b, Alloca(b.regs), fr, Bottom, st);
  }

  lemma MainGenerated(q: Program, escapes: map<Sym, seq<Sym>>, cx: Context)
    requires Accepted(q) && Distinct(q.Decs())
    ensures MAIN in Generate(q.Decs(), cx) && Generate(q.Decs(), cx)[MAIN] == CompileFunction(q.main, cx)
  {
    MainVisits(q);
    assert q.Decs()[|DecsOf(q.prims)|] == q.main;
    TableEntry(q.Decs(), escapes, cx, |DecsOf(q.prims)|);
  }

  /** With the value first, every program whose text starts with the declaration of a variable by a
      literal crashes at its second instruction, whatever comes after and whatever is lifted. */
  lemma FirstVariableCrashes(q: Program, x: Sym, n: int32, body: Exp, escapes: map<Sym, seq<Sym>>, input: seq<int32>, junk: seq<MVal>)
    requires Accepted(q) && Distinct(q.Decs()) && q.main.body == LetVar(x, IntExp(n), body)
    ensures var m := Generate(q.Decs(), ContextOf(q, escapes, false));
      Reaches(m, Start(q, input, junk), Crashed(State([0], input, [])))
  {
    var cx := ContextOf(q, escapes, false);
    var m := Generate(q.Decs(), cx);
    var fr, st := Entry(MAIN, junk), State([], input, []);
    MainGenerated(q, escapes, cx);
    var b := Entered(q.main, cx);
    AfterAlloca(q.main, x, n, body, cx, m, fr, st);
    StartsWithVar(q.main, x, n, body, cx);
    var fr1 := Next(fr, b.regs, Ptr(0));
    RunEmit(m, Allocated(b, x), Cfg.Store(Const(n), Const(n)), fr1, Bottom, st.Alloc(0));
    RunSplit(m, Start(q, input, junk), 1, 1);
    assert RunsTo(m, Start(q, input, junk), 2, Crashed(State([0], input, [])));
  }

  /** Such a program: `let var x := 1 in () end`. */
  function OneVariable(x: Sym): Program { Program(NoFun, Function(MAIN, [], VoidTy, LetVar(x, IntExp(1), SeqExp(NoExp)))) }

  lemma OneVariableCrashes(x: Sym, escapes: map<Sym, seq<Sym>>, input: seq<int32>, junk: seq<MVal>)
    ensures var q := OneVariable(x);
      && Accepted(q) && Distinct(q.Decs())
      && Reaches(Generate(q.Decs(), ContextOf(q, escapes, false)), Start(q, input, junk), Crashed(State([0], input, [])))
  {
    var q := OneVariable(x);
    var sc := ScopeOf(q.Env());
    assert TypeOf(IntExp(1), sc, false) == Some(IntTy) && TypeOf(SeqExp(NoExp), sc.Var(x, false), false) == Some(VoidTy);
    assert Ordinary(SeqExp(NoExp));
    assert DecsIn(q.main.body) == [] by { assert DecsInAll(NoExp) == []; }
    assert DecsOf(NoFun) == [];
    FirstVariableCrashes(q, x, 1, SeqExp(NoExp), escapes, input, junk);
  }

  // ----- a callee declared later -----

  function Caller(f: Sym, h: Sym): FunDec { Function(f, [], IntTy, CallExp(h, NoExp)) }

  function Reader(h: Sym, x: Sym): FunDec { Function(h, [], IntTy, VarExp(x)) }

  function LaterChunk(f: Sym, h: Sym, x: Sym): Funs { FunCons(Caller(f, h), FunCons(Reader(h, x), NoFun)) }

  function LaterBody(f: Sym): Exp { SeqExp(Cons(CallExp(f, NoExp), Cons(SeqExp(NoExp), NoExp))) }

  /** `let var x := 1 function f(): int = h() function h(): int = x in f(); () end` */
  function Later(f: Sym, h: Sym, x: Sym): Program {
    Program(NoFun, Function(MAIN, [], VoidTy, LetVar(x, IntExp(1), LetFuns(LaterChunk(f, h, x), LaterBody(f)))))
  }

  lemma LaterTyped(f: Sym, h: Sym, x: Sym, sc: Scope)
    requires f != h
    ensures TypeOf(Later(f, h, x).main.body, sc, false) == Some(VoidTy)
  {
    var sc1 := sc.Var(x, false).Chunk(LaterChunk(f, h, x));
    assert Sigs(NoFun) == map[];
    assert Sigs(FunCons(Reader(h, x), NoFun)) == map[h := Sig(false, 0, IntTy)];
    assert Sigs(LaterChunk(f, h, x)) == map[h := Sig(false, 0, IntTy), f := Sig(false, 0, IntTy)];
    assert sc1.Formals([]) == sc1 && AllInt(NoExp, sc1, false);
    assert TypeOf(CallExp(h, NoExp), sc1, false) == Some(IntTy) && TypeOf(VarExp(x), sc1, false) == Some(IntTy);
    assert ChunkOk(NoFun, sc1);
    assert ChunkOk(FunCons(Reader(h, x), NoFun), sc1);
    assert ChunkOk(LaterChunk(f, h, x), sc1);
    assert TypeOf(CallExp(f, NoExp), sc1, false) == Some(IntTy);
    assert TypeOf(SeqExp(NoExp), sc1, false) == Some(VoidTy);
    assert TypeOfSeq(Cons(SeqExp(NoExp), NoExp), sc1, false) == Some(VoidTy);
    assert TypeOf(LaterBody(f), sc1, false) == Some(VoidTy);
    assert TypeOf(LetFuns(LaterChunk(f, h, x), LaterBody(f)), sc.Var(x, false), false) == Some(VoidTy);
    assert TypeOf(IntExp(1), sc, false) == Some(IntTy);
  }

  lemma PlainCallVisits(f: Sym, fn: Sym)
    ensures Visits(CallExp(f, NoExp), fn) == [Calls(fn, f)]
  {
    assert VisitsAll(NoExp, fn) == [];
  }

  lemma ChunkVisits(f: Sym, h: Sym, x: Sym)
    ensures VisitsOf(LaterChunk(f, h, x)) == [Calls(f, h), Reads(x, h)]
  {
    PlainCallVisits(h, f);
    assert VisitsFormals([], f) == [] && VisitsFormals([], h) == [] && VisitsOf(NoFun) == [];
    assert VisitsDec(Caller(f, h)) == [Calls(f, h)] && VisitsDec(Reader(h, x)) == [Reads(x, h)];
    assert VisitsOf(FunCons(Reader(h, x), NoFun)) == [Reads(x, h)];
  }

  lemma LaterVisits(f: Sym, h: Sym, x: Sym)
    ensures ProgramVisits(Later(f, h, x)) == [Declares(x, MAIN), Calls(f, h), Reads(x, h), Calls(MAIN, f)]
  {
    ChunkVisits(f, h, x);
    PlainCallVisits(f, MAIN);
    assert VisitsFormals([], MAIN) == [] && VisitsOf(NoFun) == [] && VisitsAll(NoExp, MAIN) == [];
    assert Visits(SeqExp(NoExp), MAIN) == [];
    assert VisitsAll(Cons(SeqExp(NoExp), NoExp), MAIN) == [];
    assert Visits(LaterBody(f), MAIN) == [Calls(MAIN, f)];
    assert VisitsDec(Later(f, h, x).main) == Visits(Later(f, h, x).main.body, MAIN);
  }

  lemma LaterDecs(f: Sym, h: Sym, x: Sym)
    ensures Later(f, h, x).Decs() == [Later(f, h, x).main, Caller(f, h), Reader(h, x)]
  {
    assert DecsOf(NoFun) == [] && DecsInAll(NoExp) == [];
    assert DecsIn(SeqExp(NoExp)) == [] && DecsIn(CallExp(f, NoExp)) == [] && DecsIn(CallExp(h, NoExp)) == [];
    assert DecsInAll(Cons(SeqExp(NoExp), NoExp)) == [];
    assert DecsIn(LaterBody(f)) == [];
    assert DecsOf(FunCons(Reader(h, x), NoFun)) == [Reader(h, x)];
    assert DecsOf(LaterChunk(f, h, x)) == [Caller(f, h), Reader(h, x)];
    assert DecsIn(Later(f, h, x).main.body) == [Caller(f, h), Reader(h, x)];
  }

  lemma LaterAccepted(f: Sym, h: Sym, x: Sym)
    requires f != h && f != MAIN && h != MAIN
    ensures var q := Later(f, h, x); Accepted(q) && Distinct(q.Decs()) && WellBound(ProgramVisits(q))
  {
    hide TypeOf, ScopeOf;
    var q := Later(f, h, x);
    LaterTyped(f, h, x, ScopeOf(q.Env()));
    LaterVisits(f, h, x);
    LaterDecs(f, h, x);
    assert OrdinaryAll(NoExp) && Ordinary(SeqExp(NoExp)) && Ordinary(CallExp(f, NoExp)) && Ordinary(CallExp(h, NoExp));
    assert OrdinaryAll(Cons(SeqExp(NoExp), NoExp));
    assert OrdinaryFuns(FunCons(Reader(h, x), NoFun));
    assert OrdinaryFuns(LaterChunk(f, h, x));
    assert Ordinary(LaterBody(f));
    assert DecsOf(NoFun) == [];
    assert Ordinary(IntExp(1)) && Ordinary(q.main.body);
    assert ProgramVisits(q)[..2][0] == Declares(x, MAIN);
    assert WellBound(ProgramVisits(q));
  }

  lemma LaterMarked(f: Sym, h: Sym, x: Sym, flags: set<Sym>)
    requires f != h && f != MAIN && h != MAIN
    ensures var m := MarksOf(Later(f, h, x), flags); x in m.flagged && x in m.site && m.site[x] == MAIN
  {
    var vs := ProgramVisits(Later(f, h, x));
    LaterAccepted(f, h, x);
    LaterVisits(f, h, x);
    assert vs[0] == Declares(x, MAIN) && vs[2] == Reads(x, h);
    assert DeclaredIn(vs, x);
    MarksExact(Marks(map[], flags), vs, x);
    OneSite(vs, x, MAIN);
  }

  lemma OnlyVariable(m: Marks, c: Needs, vs: seq<Visit>, x: Sym)
    requires Passed(m, {}, false, c, false, vs) && forall v :: v in vs && !v.Calls? ==> v.x == x
    ensures Direct(m, vs) <= c && forall n :: n in c ==> n.x == x
  {
    EverythingAbsorbs(m, {}, vs);
    assert c <= Everything({}, vs);
  }

  /** The pair the collector's single pass leaves out. */
  lemma LaterMissed(f: Sym, h: Sym, x: Sym, flags: set<Sym>, c: Needs)
    requires f != h && f != MAIN && h != MAIN
    requires var q := Later(f, h, x); var m := MarksOf(q, flags);
      !ClosedUnder(m, c, ProgramVisits(q)) && Passed(m, {}, false, c, false, ProgramVisits(q))
    ensures Need(h, x) in c && forall y :: Need(f, y) !in c
  {
    var m := MarksOf(Later(f, h, x), flags);
    var vs := ProgramVisits(Later(f, h, x));
    LaterMarked(f, h, x, flags);
    LaterVisits(f, h, x);
    OnlyVariable(m, c, vs, x);
    hide Everything, Passed;
    assert vs[2] in vs && Need(h, x) in Direct(m, vs);
    assert Handed(m, c, f, h) <= {Need(f, x)};
    assert Handed(m, c, MAIN, f) == {};
    assert Need(f, x) in c ==> ClosedUnder(m, c, vs);
  }

  lemma LaterFlat(f: Sym, h: Sym, x: Sym)
    ensures FlatText(Later(f, h, x).main.body)
  {
    assert FlatAll(NoExp) && Flat(SeqExp(NoExp)) && Flat(CallExp(f, NoExp)) && Flat(CallExp(h, NoExp));
    assert FlatAll(Cons(SeqExp(NoExp), NoExp));
    assert Flat(LaterBody(f));
    assert FlatFuns(FunCons(Reader(h, x), NoFun));
    assert FlatFuns(LaterChunk(f, h, x));
    assert FlatText(LetFuns(LaterChunk(f, h, x), LaterBody(f)));
  }

  /** The collector on this program ends with a map that is not closed. */
  lemma LaterEndsOpen(f: Sym, h: Sym, x: Sym, flags: set<Sym>)
    requires f != h && f != MAIN && h != MAIN
    ensures var body := Later(f, h, x).main.body;
      && FlatText(body) && Collected.MainNotCalled(body)
      && !EndsClosed(MarksOf(Later(f, h, x), flags), {}, VisitsOf(TextChunk(body)))
  {
    var m := MarksOf(Later(f, h, x), flags);
    ChunkVisits(f, h, x);
    LaterMarked(f, h, x, flags);
    LaterFlat(f, h, x);
    assert TextChunk(Later(f, h, x).main.body) == LaterChunk(f, h, x);
    LaterOrder(m, f, h, x);
  }

  lemma LaterOrder(m: Marks, f: Sym, h: Sym, x: Sym)
    requires f != h && f != MAIN && h != MAIN && x in m.flagged && x in m.site && m.site[x] == MAIN
    ensures !EndsClosed(m, {}, [Calls(f, h), Reads(x, h)])
  {
    var vs := [Calls(f, h), Reads(x, h)];
    var c := {} + Direct(m, vs);
    assert vs[1] in vs && Need(h, x) in c;
    assert Need(f, x) in Handed(m, c, f, h) && Need(f, x) !in c;
    assert vs[0] in vs;
    assert Direct(m, []) == {};
  }

  // ----- its code -----

  lemma NothingLifted(f: Sym, h: Sym, x: Sym, c: Needs, escapes: map<Sym, seq<Sym>>)
    requires f != h && f != MAIN && h != MAIN && Enumerates(escapes, c) && Need(h, x) in c && forall y :: Need(f, y) !in c
    ensures var q := Later(f, h, x);
      var cx := ContextOf(q, escapes, true);
      && cx.Of(f) == Info(false, IntTy, []) && !cx.Of(h).primitive && x in cx.Of(h).lifted
      && f in Generate(q.Decs(), cx) && Generate(q.Decs(), cx)[f] == CompileFunction(Caller(f, h), cx)
  {
    var q := Later(f, h, x);
    var cx := ContextOf(q, escapes, true);
    LaterAccepted(f, h, x);
    LaterDecs(f, h, x);
    TableEntry(q.Decs(), escapes, cx, 1);
    TableEntry(q.Decs(), escapes, cx, 2);
    assert f in escapes ==> forall k :: 0 <= k < |escapes[f]| ==> escapes[f][k] in escapes[f];
  }

  /** Entering `f`: its call to `h` passes a null pointer. */
  lemma CallerCrashes(f: Sym, h: Sym, x: Sym, cx: Context, m: Module, stack: Stack, st: State)
    requires cx.Of(f).lifted == [] && x in cx.Of(h).lifted && f in m && m[f] == CompileFunction(Caller(f, h), cx)
    ensures Run(m, Running(Entry(f, []), stack, st), 1) == Crashed(st)
  {
    hide Extends;
    var d := Caller(f, h);
    var c := Follow.FunctionLayout(d, cx);
    var b := c.atBody;
    assert b == EntryBuilder(d, []) && b.locals == map[];
    JumpExtends(c.body.b, c.last, m[f]);
    var info := cx.Of(h);
    var ps := Follow.Pointers(info.lifted, b);
    var call := Call(b.regs, if info.primitive then External(h) else Defined(h), info.result, ps);
    PlainCallCode(h, b, cx);
    var i :| 0 <= i < |info.lifted| && info.lifted[i] == x;
    assert ps[i] == Null;
    AssignEmits(b, call, m[f]);
    RunEmit(m, b, call, Entry(f, []), stack, st);
  }

  lemma CallCode(f: Sym, b: Builder, cx: Context, code: Code)
    requires b.Valid() && cx.Of(f) == Info(false, IntTy, []) && Extends(Compile(LaterBody(f), b, cx).b, code)
    ensures Extends(b.Emit(Call(b.regs, Defined(f), IntTy, [])), code)
  {
    hide Extends, Grows;
    var rest := Cons(SeqExp(NoExp), NoExp);
    var v := Compile(CallExp(f, NoExp), b, cx);
    PlainCallCode(f, b, cx);
    ArgsGrow(rest, v.b, cx);
    PartsInOrder(CallExp(f, NoExp), rest, b, cx);
    ExtendsShorter(v.b, CompileArgs(rest, v.b, cx).b, code);
    AssignEmits(b, Call(b.regs, Defined(f), IntTy, []), code);
  }

  lemma PlainCallCode(f: Sym, b: Builder, cx: Context)
    requires b.Valid()
    ensures var info := cx.Of(f);
      Compile(CallExp(f, NoExp), b, cx).b
      == b.Assign(Call(b.regs, if info.primitive then External(f) else Defined(f), info.result, Follow.Pointers(info.lifted, b)))
  {
    Follow.CallLayout(f, NoExp, b, cx);
    assert CompileArgs(NoExp, b, cx) == Gen(b, []);
    var ps := Follow.Pointers(cx.Of(f).lifted, b);
    assert ps + [] == ps;
  }

  lemma PartsInOrder(e: Exp, rest: Exps, b: Builder, cx: Context)
    requires b.Valid()
    ensures Compile(SeqExp(Cons(e, rest)), b, cx).b == CompileArgs(rest, Compile(e, b, cx).b, cx).b
  {}

  lemma AssignEmits(b: Builder, i: Instr, code: Code)
    requires b.Valid() && Extends(b.Assign(i), code)
    ensures Extends(b.Emit(i), code)
  {}

  /** Whatever `c` says of `_main`, and in any order: alloca, store, the call of `f`, and in `f` the crash. */
  lemma LaterRuns(f: Sym, h: Sym, x: Sym, c: Needs, escapes: map<Sym, seq<Sym>>, input: seq<int32>, junk: seq<MVal>)
    requires f != h && f != MAIN && h != MAIN && Enumerates(escapes, c) && Need(h, x) in c && forall y :: Need(f, y) !in c
    ensures var q := Later(f, h, x);
      Reaches(Generate(q.Decs(), ContextOf(q, escapes, true)), Start(q, input, junk), Crashed(State([1], input, [])))
  {
    hide Accepted, CompileFunction, Entered, Generate, Compile, ContextOf, Enumerates;
    var q := Later(f, h, x);
    var cx := ContextOf(q, escapes, true);
    var m := Generate(q.Decs(), cx);
    LaterAccepted(f, h, x);
    NothingLifted(f, h, x, c, escapes);
    MainGenerated(q, escapes, cx);
    assert cx.pointerFirst by { PointerComesFirst(q, escapes); }
    var start := Start(q, input, junk);
    var fr, st := Entry(MAIN, junk), State([], input, []);
    var body := LetFuns(LaterChunk(f, h, x), LaterBody(f));
    var b := Entered(q.main, cx);
    assert At(fr, b) by { EnteredAt(q.main, cx, junk); }
    AfterAlloca(q.main, x, 1, body, cx, m, fr, st);
    StartsWithVar(q.main, x, 1, body, cx);
    var a, b2 := Allocated(b, x), Stored(b, x, 1, cx);
    var fr1 := Next(fr, b.regs, Ptr(0));
    RunEmit(m, a, Cfg.Store(Const(1), Reg(b.regs)), fr1, Bottom, st.Alloc(0));
    var fr2, st2 := fr1.(pc := fr1.pc + 1), State([1], input, []);
    assert Run(m, Running(fr1, Bottom, st.Alloc(0)), 1) == Running(fr2, Bottom, st2);
    assert Compile(body, b2, cx) == Compile(LaterBody(f), b2, cx) by { ChunkNoCode(f, h, x, b2, cx); }
    CallCode(f, b2, cx, m[MAIN]);
    var call := Call(b2.regs, Defined(f), IntTy, []);
    RunEmit(m, b2, call, fr2, Bottom, st2);
    assert Values([], fr2.regs) == [];
    var stack := Cfg.Caller(fr2, b2.regs, IntTy, Bottom);
    CallerCrashes(f, h, x, cx, m, stack, st2);
    RunSplit(m, start, 1, 1);
    RunSplit(m, start, 2, 1);
    RunSplit(m, start, 3, 1);
    assert RunsTo(m, start, 4, Crashed(st2));
  }

  lemma PointerComesFirst(q: Program, escapes: map<Sym, seq<Sym>>)
    ensures ContextOf(q, escapes, true).pointerFirst
  {}

  lemma EnteredAt(d: FunDec, cx: Context, junk: seq<MVal>)
    ensures At(Entry(d.name, junk), Entered(d, cx))
  {}

  lemma ChunkNoCode(f: Sym, h: Sym, x: Sym, b: Builder, cx: Context)
    requires b.Valid()
    ensures Compile(LetFuns(LaterChunk(f, h, x), LaterBody(f)), b, cx) == Compile(LaterBody(f), b, cx)
  {}

  /** The analyses on a program that declares a callee after its caller: the collector leaves the
      caller without the pointer it has to hand on, and the code generated with that map crashes on
      every input. */
  method LaterCalleeCrashes(f: Sym, h: Sym, x: Sym, flags: set<Sym>) returns (c: Needs)
    requires f != h && f != MAIN && h != MAIN
    ensures Accepted(Later(f, h, x)) && c != LeastNeeds(MarksOf(Later(f, h, x), flags), ProgramVisits(Later(f, h, x)))
    ensures forall escapes, input, junk :: Enumerates(escapes, c) ==>
      var q := Later(f, h, x);
      Reaches(Generate(q.Decs(), ContextOf(q, escapes, true)), Start(q, input, junk), Crashed(State([1], input, [])))
  {
    hide Accepted, Generate, ContextOf, Enumerates, Start, MarksOf, ProgramVisits, EndsClosed, FlatText;
    LaterAccepted(f, h, x);
    LaterEndsOpen(f, h, x, flags);
    c := Collected.Collect(Later(f, h, x), flags);
    LaterMissed(f, h, x, flags, c);
    forall escapes, input, junk | Enumerates(escapes, c)
      ensures var q := Later(f, h, x);
        Reaches(Generate(q.Decs(), ContextOf(q, escapes, true)), Start(q, input, junk), Crashed(State([1], input, [])))
    {
      LaterRuns(f, h, x, c, escapes, input, junk);
    }
  }
}
