/** Whole programs: the module built from a program behaves as the program does. */
module Codegen {
  import opened Int32
  import opened Options
  import opened Tiger
  import opened Cfg
  import opened Check
  import opened Translate
  import opened Programs
  import opened Link
  import opened Simulate
  import opened Initials
  import Follow

  /** The annotations the translator reads: `escapes` lists the variables to lift, per function. */
  function TableOf(ds: seq<FunDec>, escapes: map<Sym, seq<Sym>>): map<Sym, Info> {
    if ds == [] then map[] else
    var d := ds[0];
    var lifted := if d.Function? && d.name in escapes then escapes[d.name] else [];
    TableOf(ds[1..], escapes)[d.name := Info(d.Primitive?, d.result, lifted)]
  }

  /** The module: every function with a body, translated. */
  function Generate(ds: seq<FunDec>, cx: Context): Module {
    if ds == [] then map[]
    else if ds[0].Function? then Generate(ds[1..], cx)[ds[0].name := CompileFunction(ds[0], cx)]
    else Generate(ds[1..], cx)
  }

  function ContextOf(p: Program, escapes: map<Sym, seq<Sym>>, pointerFirst: bool): Context {
    Context(TableOf(p.Decs(), escapes), pointerFirst)
  }

  /** What the passes before code generation guarantee of a program. */
  predicate Compilable(p: Program, cx: Context) {
    && p.main.Function? && p.main.formals == [] && p.main.result == VoidTy
    && ChunkOk(p.prims, ScopeOf(BindFuns(p.prims, Top))) && ChunkOk(p.Chunk(), ScopeOf(p.Env()))
    && UniqueFuns(p.prims, {}) && UniqueFuns(p.Chunk(), {})
    && ClosedFuns(p.prims, cx) && ClosedFuns(p.Chunk(), cx)
    && NoForFuns(p.prims) && NoForFuns(p.Chunk()) && Distinct(p.Decs())
  }

  lemma {:induction false} TableEntry(ds: seq<FunDec>, escapes: map<Sym, seq<Sym>>, cx: Context, i: nat)
    requires Distinct(ds) && i < |ds|
    ensures var t := TableOf(ds, escapes);
      var d := ds[i];
      d.name in t && t[d.name] == Info(d.Primitive?, d.result, if d.Function? && d.name in escapes then escapes[d.name] else [])
    ensures ds[i].Function? ==> ds[i].name in Generate(ds, cx) && Generate(ds, cx)[ds[i].name] == CompileFunction(ds[i], cx)
    decreases |ds|
  {
    if i > 0 {
      assert ds[1..][i - 1] == ds[i];
      TableEntry(ds[1..], escapes, cx, i - 1);
    }
  }

  ghost predicate AllLinked(ds: seq<FunDec>, cx: Context, m: Module) {
    forall d :: d in ds ==> LinkedDec(d, cx, m)
  }

  lemma {:induction false} LinkedByDecs(e: Exp, cx: Context, m: Module)
    requires NoFor(e) && AllLinked(DecsIn(e), cx, m)
    ensures Linked(e, cx, m)
  {
    match e
    case OpExp(l, _, r) => LinkedByDecs(l, cx, m); LinkedByDecs(r, cx, m);
    case SeqExp(es) => AllLinkedByDecs(es, cx, m);
    case AssignExp(_, e1) => LinkedByDecs(e1, cx, m);
    case IfExp(c, t, f) => LinkedByDecs(c, cx, m); LinkedByDecs(t, cx, m); LinkedByDecs(f, cx, m);
    case WhileExp(c, body) => LinkedByDecs(c, cx, m); LinkedByDecs(body, cx, m);
    case CallExp(_, args) => AllLinkedByDecs(args, cx, m);
    case LetVar(_, init, body) => LinkedByDecs(init, cx, m); LinkedByDecs(body, cx, m);
    case LetFuns(ds, body) => FunsLinkedByDecs(ds, cx, m); LinkedByDecs(body, cx, m);
    case _ =>
  }

  lemma {:induction false} AllLinkedByDecs(es: Exps, cx: Context, m: Module)
    requires NoForAll(es) && AllLinked(DecsInAll(es), cx, m)
    ensures LinkedAll(es, cx, m)
  {
    if es.Cons? { LinkedByDecs(es.head, cx, m); AllLinkedByDecs(es.tail, cx, m); }
  }

  lemma {:induction false} FunsLinkedByDecs(ds: Funs, cx: Context, m: Module)
    requires NoForFuns(ds) && AllLinked(DecsOf(ds), cx, m)
    ensures LinkedFuns(ds, cx, m)
  {
    if ds.FunCons? {
      assert ds.first in DecsOf(ds);
      if ds.first.Function? { LinkedByDecs(ds.first.body, cx, m); }
      FunsLinkedByDecs(ds.rest, cx, m);
    }
  }

  /** The table and module built from a program with distinct function names fit the program. */
  lemma {:induction false} ProgramLinked(p: Program, escapes: map<Sym, seq<Sym>>, pointerFirst: bool)
    requires Compilable(p, ContextOf(p, escapes, pointerFirst))
    ensures var cx := ContextOf(p, escapes, pointerFirst);
      EnvOk(p.Env(), cx, Generate(p.Decs(), cx))
  {
    var cx := ContextOf(p, escapes, pointerFirst);
    var m := Generate(p.Decs(), cx);
    forall d | d in p.Decs() ensures LinkedDec(d, cx, m) {
      var i :| 0 <= i < |p.Decs()| && p.Decs()[i] == d;
      TableEntry(p.Decs(), escapes, cx, i);
    }
    forall d | d in DecsOf(p.prims) || d in DecsOf(p.Chunk()) ensures LinkedDec(d, cx, m) { assert d in p.Decs(); }
    assert AllLinked(DecsOf(p.prims), cx, m) && AllLinked(DecsOf(p.Chunk()), cx, m);
    FunsLinkedByDecs(p.prims, cx, m);
    FunsLinkedByDecs(p.Chunk(), cx, m);
    var prelude := BindFuns(p.prims, Top);
    assert Vars(Top) == {};
    assert Vars(prelude) == Vars(Top);
    assert Vars(p.Env()) == Vars(prelude);
    assert EnvOk(prelude, cx, m);
  }

  /** The machine at the entry of `_main`; `junk` are the arguments the C runtime happens to pass. */
  function Start(p: Program, input: seq<int32>, junk: seq<MVal>): Config {
    Running(Entry(p.main.name, junk), Bottom, State([], input, []))
  }

  /** Running the program completes the initial value of some variable. */
  ghost predicate Initializes(p: Program, input: seq<int32>)
    requires p.main.Function?
  {
    exists fuel: nat :: CompletesBody(p.Callee(), [], State([], input, []), fuel)
  }

  lemma {:induction false} Forward(p: Program, escapes: map<Sym, seq<Sym>>, pointerFirst: bool, input: seq<int32>,
                                   junk: seq<MVal>, fuel: nat) returns (n: nat)
    requires Compilable(p, ContextOf(p, escapes, pointerFirst))
    requires |junk| == |ContextOf(p, escapes, pointerFirst).Of(p.main.name).lifted|
    ensures var m := Generate(p.Decs(), ContextOf(p, escapes, pointerFirst));
      Follow.Returns(MeantBody(p.Callee(), [], State([], input, []), fuel, pointerFirst), VoidTy, Bottom,
                     Run(m, Start(p, input, junk), n), n, fuel, pointerFirst)
  {
    var cx := ContextOf(p, escapes, pointerFirst);
    var m := Generate(p.Decs(), cx);
    ProgramLinked(p, escapes, pointerFirst);
    var f := p.main.name;
    LookupFunFound(p.Env(), f, cx, m);
    var st := State([], input, []);
    assert LocsBelow(Top, 0) && LocsBelow(BindFuns(p.prims, Top), 0);
    n := Follow.FollowFunction(p.Callee(), p.Env(), junk, [], st, fuel, Bottom, Site(cx, m, {}, false));
  }

  /** What is closed is so whichever argument is evaluated first. */
  lemma {:induction false} ClosedEitherWay(e: Exp, need: set<Sym>, cx: Context, cx2: Context)
    requires Closed(e, need, cx) && cx2.table == cx.table
    ensures Closed(e, need, cx2)
  {
    match e
    case OpExp(l, _, r) => ClosedEitherWay(l, need, cx, cx2); ClosedEitherWay(r, need, cx, cx2);
    case SeqExp(es) => AllClosedEitherWay(es, need, cx, cx2);
    case AssignExp(_, e1) => ClosedEitherWay(e1, need, cx, cx2);
    case IfExp(c, t, f) => ClosedEitherWay(c, need, cx, cx2); ClosedEitherWay(t, need, cx, cx2); ClosedEitherWay(f, need, cx, cx2);
    case WhileExp(c, body) => ClosedEitherWay(c, need, cx, cx2); ClosedEitherWay(body, need, cx, cx2);
    case ForExp(i, lo, hi, body) =>
      ClosedEitherWay(lo, need, cx, cx2);
      ClosedEitherWay(hi, need, cx, cx2);
      ClosedEitherWay(body, need + {i}, cx, cx2);
    case CallExp(_, args) => AllClosedEitherWay(args, need, cx, cx2);
    case LetVar(x, init, body) => ClosedEitherWay(init, need, cx, cx2); ClosedEitherWay(body, need + {x}, cx, cx2);
    case LetFuns(ds, body) => FunsClosedEitherWay(ds, cx, cx2); ClosedEitherWay(body, need, cx, cx2);
    case _ =>
  }

  lemma {:induction false} AllClosedEitherWay(es: Exps, need: set<Sym>, cx: Context, cx2: Context)
    requires ClosedAll(es, need, cx) && cx2.table == cx.table
    ensures ClosedAll(es, need, cx2)
  {
    if es.Cons? { ClosedEitherWay(es.head, need, cx, cx2); AllClosedEitherWay(es.tail, need, cx, cx2); }
  }

  lemma {:induction false} FunsClosedEitherWay(ds: Funs, cx: Context, cx2: Context)
    requires ClosedFuns(ds, cx) && cx2.table == cx.table
    ensures ClosedFuns(ds, cx2)
  {
    if ds.FunCons? {
      if ds.first.Function? { ClosedEitherWay(ds.first.body, Names(cx.Of(ds.first.name).lifted) + Names(ds.first.formals), cx, cx2); }
      FunsClosedEitherWay(ds.rest, cx, cx2);
    }
  }

  lemma CompilableEitherWay(p: Program, cx: Context, cx2: Context)
    requires Compilable(p, cx) && cx2.table == cx.table
    ensures Compilable(p, cx2)
  {
    FunsClosedEitherWay(p.prims, cx, cx2);
    FunsClosedEitherWay(p.Chunk(), cx, cx2);
  }

  /** The machine shows what the program does, as long as no initial value is lost. */
  lemma Shown(p: Program, escapes: map<Sym, seq<Sym>>, pointerFirst: bool, input: seq<int32>, junk: seq<MVal>, fuel: nat)
    requires Compilable(p, ContextOf(p, escapes, pointerFirst))
    requires |junk| == |ContextOf(p, escapes, pointerFirst).Of(p.main.name).lifted|
    requires pointerFirst || !CompletesBody(p.Callee(), [], State([], input, []), fuel)
    ensures Shows(p, Generate(p.Decs(), ContextOf(p, escapes, pointerFirst)), Start(p, input, junk), input, fuel)
  {
    hide Compilable, Generate, Start, Run, Follow.Returns, CompletesBody;
    var cx, right := ContextOf(p, escapes, pointerFirst), ContextOf(p, escapes, true);
    CompilableEitherWay(p, cx, right);
    var n := Forward(p, escapes, true, input, junk, fuel);
    NotStuck(Meaning(p, input, fuel), Run(Generate(p.Decs(), right), Start(p, input, junk), n), n, fuel);
    n := Forward(p, escapes, pointerFirst, input, junk, fuel);
    var m, c := Generate(p.Decs(), cx), Start(p, input, junk);
    NeverLost(Meaning(p, input, fuel), Run(m, c, n), n, fuel, pointerFirst);
    assert ShownAt(p, m, c, input, fuel, n);
  }

  lemma NotStuck(o: Outcome<int32>, c: Config, n: nat, fuel: nat)
    requires Follow.Returns(o, VoidTy, Bottom, c, n, fuel, true)
    ensures !o.Stuck?
  {}

  lemma NeverLost(o: Outcome<int32>, c: Config, n: nat, fuel: nat, pf: bool)
    requires Follow.Returns(o, VoidTy, Bottom, c, n, fuel, pf) && !o.Stuck?
    ensures Follow.Returns(o, VoidTy, Bottom, c, n, fuel, true)
  {}

  /** Correctness of code generation, both ways and for every run.  The machine halts with a
      state exactly when the program ends in it, traps exactly when the program divides by zero
      (or overflows a quotient), runs forever exactly when the program does, and never meets
      malformed code: with the pointer of an initial store evaluated first, and otherwise on every
      input on which no initial value is completed. */
  lemma {:induction false} CodegenCorrect(p: Program, escapes: map<Sym, seq<Sym>>, pointerFirst: bool, input: seq<int32>,
                                          junk: seq<MVal>, st: State)
    requires Compilable(p, ContextOf(p, escapes, pointerFirst)) && (pointerFirst || !Initializes(p, input))
    requires |junk| == |ContextOf(p, escapes, pointerFirst).Of(p.main.name).lifted|
    ensures var m := Generate(p.Decs(), ContextOf(p, escapes, pointerFirst));
      var c := Start(p, input, junk);
      && (Ends(p, input, Val(0, st)) <==> Reaches(m, c, Halted(Undef, st)))
      && (Ends(p, input, Fault(st)) <==> Reaches(m, c, Trapped(st)))
      && (Diverges(p, input) <==> RunsForever(m, c))
      && !Reaches(m, c, Crashed(st))
  {
    hide Compilable, Generate, Start, Shows;
    MainOk(p, ContextOf(p, escapes, pointerFirst));
    var m := Generate(p.Decs(), ContextOf(p, escapes, pointerFirst));
    var c := Start(p, input, junk);
    forall fuel: nat ensures Shows(p, m, c, input, fuel) { Shown(p, escapes, pointerFirst, input, junk, fuel); }
    Agree(p, m, c, input, st);
  }

  /** Otherwise, with the value first, the machine crashes. */
  lemma InitialLost(p: Program, escapes: map<Sym, seq<Sym>>, input: seq<int32>, junk: seq<MVal>)
    requires Compilable(p, ContextOf(p, escapes, false)) && |junk| == |ContextOf(p, escapes, false).Of(p.main.name).lifted|
    requires p.main.Function? && Initializes(p, input)
    ensures exists st :: Reaches(Generate(p.Decs(), ContextOf(p, escapes, false)), Start(p, input, junk), Crashed(st))
  {
    hide Compilable, Generate, Start, CompletesBody, Run;
    var fuel: nat :| CompletesBody(p.Callee(), [], State([], input, []), fuel);
    var m, c := Generate(p.Decs(), ContextOf(p, escapes, false)), Start(p, input, junk);
    var n := Forward(p, escapes, false, input, junk, fuel);
    assert RunsTo(m, c, n, Crashed(Run(m, c, n).st));
  }

  lemma MainOk(p: Program, cx: Context)
    requires Compilable(p, cx)
    ensures p.main.Function? && p.main.formals == [] && p.main.result == VoidTy
  {}

  /** Forward simulation at every fuel gives both directions. */
  lemma Agree(p: Program, m: Module, c: Config, input: seq<int32>, st: State)
    requires p.main.Function? && p.main.result == VoidTy && forall fuel: nat :: Shows(p, m, c, input, fuel)
    ensures Ends(p, input, Val(0, st)) <==> Reaches(m, c, Halted(Undef, st))
    ensures Ends(p, input, Fault(st)) <==> Reaches(m, c, Trapped(st))
    ensures Diverges(p, input) <==> RunsForever(m, c)
    ensures !Reaches(m, c, Crashed(st))
  {
    forall fuel: nat ensures MeaningShown(p, m, c, input, fuel) {
      assert Shows(p, m, c, input, fuel);
      var k: nat :| ShownAt(p, m, c, input, fuel, k);
      OutcomeShown(p, m, c, input, fuel, k);
    }
    forall n: nat ensures Backed(p, m, c, input, n) {
      Backward(p, m, c, input, n);
    }
    if Ends(p, input, Val(0, st)) { Ending(p, m, c, input, Val(0, st)); }
    if Ends(p, input, Fault(st)) { Ending(p, m, c, input, Fault(st)); }
    if Reaches(m, c, Halted(Undef, st)) { Reaching(p, m, c, input, Halted(Undef, st)); }
    if Reaches(m, c, Trapped(st)) { Reaching(p, m, c, input, Trapped(st)); }
    if Reaches(m, c, Crashed(st)) { Reaching(p, m, c, input, Crashed(st)); }
    Forever(p, m, c, input);
  }

  ghost predicate Reaches(m: Module, c: Config, r: Config) {
    exists n: nat :: RunsTo(m, c, n, r)
  }

  ghost predicate RunsTo(m: Module, c: Config, n: nat, r: Config) { Run(m, c, n) == r }

  ghost predicate RunsForever(m: Module, c: Config) {
    forall n: nat :: StillRuns(m, c, n)
  }

  ghost predicate StillRuns(m: Module, c: Config, n: nat) { Run(m, c, n).Running? }

  lemma Ending(p: Program, m: Module, c: Config, input: seq<int32>, o: Outcome<int32>)
    requires p.main.Function? && Ends(p, input, o) && forall fuel: nat :: MeaningShown(p, m, c, input, fuel)
    ensures o.Val? ==> Reaches(m, c, Halted(Undef, o.st))
    ensures o.Fault? ==> Reaches(m, c, Trapped(o.st))
  {
    var fuel: nat :| Meaning(p, input, fuel) == o;
    assert MeaningShown(p, m, c, input, fuel);
  }

  lemma Reaching(p: Program, m: Module, c: Config, input: seq<int32>, r: Config)
    requires p.main.Function? && !r.Running? && Reaches(m, c, r) && forall n: nat :: Backed(p, m, c, input, n)
    ensures r.Halted? ==> Ends(p, input, Val(0, r.st))
    ensures r.Trapped? ==> Ends(p, input, Fault(r.st))
    ensures !r.Crashed?
  {
    var n: nat :| RunsTo(m, c, n, r);
    assert Backed(p, m, c, input, n);
    var fuel: nat :| Explains(r, Meaning(p, input, fuel));
  }

  lemma Forever(p: Program, m: Module, c: Config, input: seq<int32>)
    requires p.main.Function? && forall fuel: nat :: MeaningShown(p, m, c, input, fuel)
    requires forall n: nat :: Backed(p, m, c, input, n)
    ensures Diverges(p, input) <==> RunsForever(m, c)
  {
    if Diverges(p, input) {
      forall n: nat ensures StillRuns(m, c, n) { assert Backed(p, m, c, input, n); }
    }
    if RunsForever(m, c) {
      forall fuel: nat ensures Meaning(p, input, fuel).Timeout? {
        assert MeaningShown(p, m, c, input, fuel);
        forall r | Reaches(m, c, r) ensures r.Running? {
          var n: nat :| RunsTo(m, c, n, r);
          assert StillRuns(m, c, n);
        }
      }
    }
  }

  /** What the machine does when the program stops. */
  ghost predicate MeaningShown(p: Program, m: Module, c: Config, input: seq<int32>, fuel: nat)
    requires p.main.Function?
  {
    var o := Meaning(p, input, fuel);
    || o.Timeout?
    || (o.Val? && o.value == 0 && Reaches(m, c, Halted(Undef, o.st)))
    || (o.Fault? && Reaches(m, c, Trapped(o.st)))
  }

  lemma OutcomeShown(p: Program, m: Module, c: Config, input: seq<int32>, fuel: nat, k: nat)
    requires p.main.Function? && p.main.result == VoidTy && ShownAt(p, m, c, input, fuel, k)
    ensures MeaningShown(p, m, c, input, fuel)
  {
    var o := Meaning(p, input, fuel);
    if o.Val? { assert RunsTo(m, c, k, Halted(Undef, o.st)); }
    if o.Fault? { assert RunsTo(m, c, k, Trapped(o.st)); }
  }

  ghost predicate ShownAt(p: Program, m: Module, c: Config, input: seq<int32>, fuel: nat, n: nat)
    requires p.main.Function?
  {
    Follow.Returns(Meaning(p, input, fuel), VoidTy, Bottom, Run(m, c, n), n, fuel, true)
  }

  /** The machine shows what the program does with `fuel`. */
  ghost predicate Shows(p: Program, m: Module, c: Config, input: seq<int32>, fuel: nat)
    requires p.main.Function?
  {
    exists n: nat :: ShownAt(p, m, c, input, fuel, n)
  }

  /** Some fuel explains what the machine does in `n` steps. */
  ghost predicate Backed(p: Program, m: Module, c: Config, input: seq<int32>, n: nat)
    requires p.main.Function?
  {
    var r := Run(m, c, n);
    r.Running? || exists fuel: nat :: Explains(r, Meaning(p, input, fuel))
  }

  ghost predicate Explains(r: Config, o: Outcome<int32>) {
    (o.Val? && o.value == 0 && r == Halted(Undef, o.st)) || (o.Fault? && r == Trapped(o.st))
  }

  lemma Backward(p: Program, m: Module, c: Config, input: seq<int32>, n: nat)
    requires p.main.Function? && p.main.result == VoidTy && forall fuel: nat :: Shows(p, m, c, input, fuel)
    ensures Backed(p, m, c, input, n)
  {
    if !Run(m, c, n).Running? {
      var o := Meaning(p, input, n + 1);
      assert Shows(p, m, c, input, n + 1);
      var k: nat :| ShownAt(p, m, c, input, n + 1, k);
      if o.Timeout? {
        RunSplit(m, c, n, k - n);
        RunStopped(m, Run(m, c, n), k - n);
        assert false;
      }
      RunDeterministic(m, c, n, k);
      assert Explains(Run(m, c, n), o);
    }
  }
}
