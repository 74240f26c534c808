/** The passes one after another: rename, desugar, bind, generate code. */
module Pipeline {
  import opened Int32
  import opened Options
  import opened Tiger
  import opened Cfg
  import opened Check
  import opened Translate
  import opened Evaluation
  import opened Programs
  import opened Link
  import opened Codegen
  import opened Desugar
  import opened Rename
  import opened Hygiene

  /** The prelude: primitives, each under one name that no renamed function can have. */
  ghost predicate Prelude(ds: Funs) {
    match ds
    case NoFun => true
    case FunCons(d, rest) => d.Primitive? && !LooksFresh(d.name) && d.name != MAIN && Prelude(rest)
  }

  /** A program that parsing, binding and type checking let through. */
  ghost predicate Accepted(p: Program) {
    && p.main.Function? && p.main.name == MAIN && p.main.formals == [] && p.main.result == VoidTy
    && Prelude(p.prims) && Distinct(DecsOf(p.prims)) && Ordinary(p.main.body)
    && TypeOf(p.main.body, ScopeOf(p.Env()), false) == Some(VoidTy)
  }

  /** What an observer sees of an outcome: everything but the layout of the storage. */
  function Observed(o: Outcome<int32>): Outcome<int32> {
    match o
    case Val(v, st) => Val(v, st.(mem := []))
    case Brk(st) => Brk(st.(mem := []))
    case Fault(st) => Fault(st.(mem := []))
    case Stuck(st) => Stuck(st.(mem := []))
    case Timeout(st) => Timeout(st.(mem := []))
  }

  // ----- desugaring a program -----

  function DesugarProgram(p: Program): Program { Program(DesugarFuns(p.prims), DesugarDec(p.main)) }

  lemma {:induction false} PreludeDesugared(ds: Funs)
    requires Prelude(ds)
    ensures DesugarFuns(ds) == ds
  {
    if ds.FunCons? { PreludeDesugared(ds.rest); }
  }

  lemma {:induction false} PreludeOk(ds: Funs, sc: Scope)
    requires Prelude(ds)
    ensures ChunkOk(ds, sc) && PlainFuns(ds) && NoForFuns(ds)
  {
    if ds.FunCons? { PreludeOk(ds.rest, sc); }
  }

  /** The desugared program shows the same behaviour with the same fuel. */
  lemma DesugarProgramKeeps(p: Program, input: seq<int32>, fuel: nat)
    requires Accepted(p) && Clean(p.main.body) && CleanFuns(p.prims)
    ensures Observed(Meaning(DesugarProgram(p), input, fuel)) == Observed(Meaning(p, input, fuel))
  {
    var q := DesugarProgram(p);
    PreludeOk(p.prims, ScopeOf(BindFuns(p.prims, Top)));
    var st := State([], input, []);
    assert EnvRel(BindFuns(p.prims, Top), BindFuns(q.prims, Top), []);
    assert q.Chunk() == DesugarFuns(p.Chunk());
    assert EnvRel(p.Env(), q.Env(), []);
    var j2 := BodyKeeps(p.Callee(), q.Callee(), [], st, st, [], fuel);
  }

  lemma DesugarAccepted(p: Program)
    requires Accepted(p) && Clean(p.main.body) && CleanFuns(p.prims)
    ensures Accepted(DesugarProgram(p)) && NoFor(DesugarProgram(p).main.body)
  {
    var q := DesugarProgram(p);
    PreludeDesugared(p.prims);
    assert ScopeOf(q.Env()) == ScopeOf(p.Env());
    TypedDesugared(p.main.body, ScopeOf(p.Env()), ScopeOf(q.Env()), false);
    OrdinaryDesugared(p.main.body);
    ForsGone(p.main.body, ScopeOf(p.Env()), false);
  }

  // ----- renaming a program -----

  /** The scopes and trees of the two chunks of a program. */
  datatype Renaming = Renaming(outer: RScope, prims: Out<Funs>, inner: RScope, body: Out<Exp>)

  function RenamingOf(p: Program): Renaming
    requires p.main.Function?
  {
    var hs := RenameHeaders(p.prims, 0);
    var sc := RFuns(hs.tree, 0, RTop);
    var ps := RenameBodies(p.prims, 0, sc, hs.count);
    var hs2 := RenameHeaders(p.Chunk(), ps.count);
    var sc2 := RFuns(hs2.tree, ps.count, sc);
    Renaming(sc, ps, sc2, RenameExp(p.main.body, FormalsScopeOf(p.main.formals, ps.count, sc2), hs2.count))
  }

  /** The renamer visits the prelude's chunk, then `_main`'s. */
  function RenameProgram(p: Program): Program
    requires p.main.Function?
  {
    var r := RenamingOf(p);
    var ms := RenameBodies(p.Chunk(), r.prims.count, r.inner, RenameHeaders(p.Chunk(), r.prims.count).count);
    Program(r.prims.tree, ms.tree.first)
  }

  /** `_main` keeps its name; so do the primitives. */
  lemma MainRenamed(p: Program)
    requires Accepted(p)
    ensures RenameProgram(p).main == Function(MAIN, [], VoidTy, RenamingOf(p).body.tree)
    ensures EnvR(RenamingOf(p).inner, p.Env(), RenameProgram(p).Env())
    ensures FormalsScopeOf(p.main.formals, RenamingOf(p).prims.count, RenamingOf(p).inner) == RenamingOf(p).inner
  {
    var r := RenamingOf(p);
    var q := RenameProgram(p);
    PreludeOk(p.prims, ScopeOf(BindFuns(p.prims, Top)));
    OrdinaryIsPlain(p.main.body);
    assert RenameFormals([], r.prims.count) == [];
    assert EnvR(r.outer, BindFuns(p.prims, Top), BindFuns(q.prims, Top));
    assert p.Chunk() == FunCons(Function(MAIN, [], VoidTy, p.main.body), NoFun);
    assert PlainFuns(NoFun) && PlainFuns(p.Chunk());
  }

  /** The renamed program does exactly what the program does, cell by cell. */
  lemma RenameProgramKeeps(p: Program, input: seq<int32>, fuel: nat)
    requires Accepted(p)
    ensures RenameProgram(p).main.Function?
    ensures Meaning(RenameProgram(p), input, fuel) == Meaning(p, input, fuel)
  {
    var r := RenamingOf(p);
    var q := RenameProgram(p);
    MainRenamed(p);
    OrdinaryIsPlain(p.main.body);
    PreludeOk(p.prims, ScopeOf(BindFuns(p.prims, Top)));
    var count := RenameHeaders(p.Chunk(), r.prims.count).count;
    var st := State([], input, []);
    assert st.(mem := st.mem + []) == st;
    assert ChunkOk(p.Chunk(), ScopeOf(p.Env()));
    RenameKeeps(p.main.body, r.inner, count, p.Env(), q.Env(), st, fuel, false);
  }

  lemma {:induction false} PreludeRenamed(ds: Funs, h: nat, sc: RScope, n: nat)
    requires Prelude(ds)
    ensures var ds2 := RenameBodies(ds, h, sc, n).tree;
      && Prelude(ds2) && CleanFuns(ds2) && |DecsOf(ds2)| == |DecsOf(ds)|
      && forall i :: 0 <= i < |DecsOf(ds)| ==> DecsOf(ds2)[i].name == DecsOf(ds)[i].name
  {
    if ds.FunCons? {
      FormalsClean(ds.first.formals, h);
      PreludeRenamed(ds.rest, h + |ds.first.formals|, sc, n);
    }
  }

  lemma {:induction false} PreludeNames(ds: Funs, d: FunDec)
    requires Prelude(ds) && d in DecsOf(ds)
    ensures !LooksFresh(d.name) && d.name != MAIN
  {
    if ds.FunCons? && d != ds.first { PreludeNames(ds.rest, d); }
  }

  /** The prelude, `_main` and the renamed functions all have different names. */
  lemma AllDistinct(prims: Funs, main: FunDec, stamps: set<nat>)
    requires Prelude(prims) && Distinct(DecsOf(prims)) && main.Function? && main.name == MAIN
    requires Numbered(DecsIn(main.body), stamps)
    ensures Distinct(Program(prims, main).Decs())
  {
    var p := Program(prims, main);
    var ps, fs := DecsOf(prims), DecsIn(main.body);
    assert DecsOf(NoFun) == [];
    assert DecsOf(p.Chunk()) == [main] + fs;
    assert p.Decs() == ps + ([main] + fs);
    forall d | d in fs ensures LooksFresh(d.name) {
      var i :| 0 <= i < |fs| && fs[i] == d;
      assert Stamped(fs[i], stamps);
    }
    MainIsPlain();
    forall d | d in ps ensures !LooksFresh(d.name) && d.name != MAIN { PreludeNames(prims, d); }
    forall i, j | 0 <= i < j < |p.Decs()| ensures p.Decs()[i].name != p.Decs()[j].name {
      if i < |ps| && j >= |ps| {
        assert p.Decs()[i] in ps;
      } else if i == |ps| {
        assert p.Decs()[j] in fs;
      }
    }
  }

  /** What renaming establishes: still accepted, no `_lo` or `_hi`, one declaration per name. */
  lemma RenameAccepted(p: Program)
    requires Accepted(p)
    ensures var q := RenameProgram(p);
      Accepted(q) && Clean(q.main.body) && CleanFuns(q.prims) && Unique(q.main.body, {}) && Distinct(q.Decs())
      && (NoFor(p.main.body) ==> NoFor(q.main.body))
  {
    var r := RenamingOf(p);
    var q := RenameProgram(p);
    var count := RenameHeaders(p.Chunk(), r.prims.count).count;
    MainRenamed(p);
    OrdinaryIsPlain(p.main.body);
    PreludeRenamed(p.prims, 0, r.outer, RenameHeaders(p.prims, 0).count);
    TypedRenamed(p.main.body, r.inner, count, p.Env(), q.Env(), false);
    CleanRenamed(p.main.body, r.inner, count, p.Env(), q.Env(), false);
    UniqueRenamed(p.main.body, r.inner, count, {});
    OrdinaryRenamed(p.main.body, r.inner, count);
    NumberedRenamed(p.main.body, r.inner, count);
    if NoFor(p.main.body) { NoForRenamed(p.main.body, r.inner, count); }
    assert Distinct(DecsOf(q.prims)) by {
      var a, b := DecsOf(p.prims), DecsOf(q.prims);
      forall i, j | 0 <= i < j < |b| ensures b[i].name != b[j].name { assert a[i].name != a[j].name; }
    }
    AllDistinct(q.prims, q.main, Range(count, r.body.count));
  }

  // ----- all passes -----

  /** The tree code is generated from: renamed, desugared and bound again.  Binding resolves each
      use to one declaration node; the second renaming gives that node a name of its own. */
  ghost function Prepared(p: Program): Program
    requires Accepted(p)
  {
    RenameAccepted(p);
    RenameProgram(DesugarProgram(RenameProgram(p)))
  }

  lemma PreparedKeeps(p: Program, input: seq<int32>, fuel: nat)
    requires Accepted(p)
    ensures Accepted(Prepared(p)) && Observed(Meaning(Prepared(p), input, fuel)) == Observed(Meaning(p, input, fuel))
  {
    var q := RenameProgram(p);
    RenameAccepted(p);
    RenameProgramKeeps(p, input, fuel);
    DesugarProgramKeeps(q, input, fuel);
    DesugarAccepted(q);
    RenameProgramKeeps(DesugarProgram(q), input, fuel);
    RenameAccepted(DesugarProgram(q));
  }

  lemma PreparedCompiles(p: Program, cx: Context)
    requires Accepted(p) && ClosedFuns(Prepared(p).Chunk(), cx)
    ensures Compilable(Prepared(p), cx)
  {
    var q := RenameProgram(p);
    var t := Prepared(p);
    RenameAccepted(p);
    DesugarAccepted(q);
    RenameAccepted(DesugarProgram(q));
    PreludeOk(t.prims, ScopeOf(BindFuns(t.prims, Top)));
    PreludeLinks(t.prims, {}, cx);
    assert Names(t.main.formals) == {};
    assert Unique(t.main.body, {} + Names(t.main.formals)) by { assert {} + Names(t.main.formals) == {}; }
  }

  lemma {:induction false} PreludeLinks(ds: Funs, vars: set<Sym>, cx: Context)
    requires Prelude(ds)
    ensures UniqueFuns(ds, vars) && ClosedFuns(ds, cx)
  {
    if ds.FunCons? { PreludeLinks(ds.rest, vars, cx); }
  }

  /** The program ends, and an observer sees `o`. */
  ghost predicate EndsAs(p: Program, input: seq<int32>, o: Outcome<int32>)
    requires p.main.Function?
  {
    exists fuel: nat :: Observed(Meaning(p, input, fuel)) == o
  }

  /** The machine halts (traps) in a state an observer takes for `s`. */
  ghost predicate Halts(m: Module, c: Config, s: State) { exists st: State :: st.(mem := []) == s && Reaches(m, c, Halted(Undef, st)) }

  ghost predicate Traps(m: Module, c: Config, s: State) { exists st: State :: st.(mem := []) == s && Reaches(m, c, Trapped(st)) }

  /** The whole compiler: the code generated from the renamed, desugared and bound tree of an
      accepted program makes the same primitive calls and ends in the same way, for every input. */
  lemma PipelineCorrect(p: Program, escapes: map<Sym, seq<Sym>>, pointerFirst: bool, input: seq<int32>, junk: seq<MVal>, s: State)
    requires Accepted(p) && ClosedFuns(Prepared(p).Chunk(), ContextOf(Prepared(p), escapes, pointerFirst)) && s.mem == []
    requires pointerFirst || (Prepared(p).main.Function? && !Initializes(Prepared(p), input))
    requires |junk| == |ContextOf(Prepared(p), escapes, pointerFirst).Of(MAIN).lifted|
    ensures var q := Prepared(p);
      var m := Generate(q.Decs(), ContextOf(q, escapes, pointerFirst));
      var c := Start(q, input, junk);
      && (EndsAs(p, input, Val(0, s)) <==> Halts(m, c, s))
      && (EndsAs(p, input, Fault(s)) <==> Traps(m, c, s))
      && (Diverges(p, input) <==> RunsForever(m, c))
      && forall st: State :: !Reaches(m, c, Crashed(st))
  {
    var q := Prepared(p);
    var m := Generate(q.Decs(), ContextOf(q, escapes, pointerFirst));
    var c := Start(q, input, junk);
    PreparedKeeps(p, input, 0);
    PreparedCompiles(p, ContextOf(q, escapes, pointerFirst));
    forall fuel: nat ensures SameShow(p, q, input, fuel) { PreparedKeeps(p, input, fuel); }
    forall st: State
      ensures Ends(q, input, Val(0, st)) <==> Reaches(m, c, Halted(Undef, st))
      ensures Ends(q, input, Fault(st)) <==> Reaches(m, c, Trapped(st))
      ensures Diverges(q, input) <==> RunsForever(m, c)
      ensures !Reaches(m, c, Crashed(st))
    {
      CodegenCorrect(q, escapes, pointerFirst, input, junk, st);
    }
    Observing(p, q, m, c, input, s);
  }

  ghost predicate SameShow(p: Program, q: Program, input: seq<int32>, fuel: nat)
    requires p.main.Function? && q.main.Function?
  {
    Observed(Meaning(q, input, fuel)) == Observed(Meaning(p, input, fuel))
  }

  lemma Observing(p: Program, q: Program, m: Module, c: Config, input: seq<int32>, s: State)
    requires p.main.Function? && q.main.Function? && s.mem == [] && forall fuel: nat :: SameShow(p, q, input, fuel)
    requires forall st: State :: Ends(q, input, Val(0, st)) <==> Reaches(m, c, Halted(Undef, st))
    requires forall st: State :: Ends(q, input, Fault(st)) <==> Reaches(m, c, Trapped(st))
    ensures EndsAs(p, input, Val(0, s)) <==> Halts(m, c, s)
    ensures EndsAs(p, input, Fault(s)) <==> Traps(m, c, s)
    ensures Diverges(p, input) <==> Diverges(q, input)
  {
    ObservingEnd(p, q, m, c, input, s);
    ObservingFault(p, q, m, c, input, s);
    forall fuel: nat ensures Meaning(p, input, fuel).Timeout? <==> Meaning(q, input, fuel).Timeout? {
      assert SameShow(p, q, input, fuel);
    }
  }

  lemma ObservingEnd(p: Program, q: Program, m: Module, c: Config, input: seq<int32>, s: State)
    requires p.main.Function? && q.main.Function? && s.mem == [] && forall fuel: nat :: SameShow(p, q, input, fuel)
    requires forall st: State :: Ends(q, input, Val(0, st)) <==> Reaches(m, c, Halted(Undef, st))
    ensures EndsAs(p, input, Val(0, s)) <==> Halts(m, c, s)
  {
    hide Ends, EndsAs, Reaches;
    if EndsAs(p, input, Val(0, s)) {
      var o := EndsFrom(p, q, input, Val(0, s));
      assert Reaches(m, c, Halted(Undef, o.st));
    }
    if Halts(m, c, s) {
      var st: State :| st.(mem := []) == s && Reaches(m, c, Halted(Undef, st));
      EndsTo(p, q, input, Val(0, st));
    }
  }

  lemma ObservingFault(p: Program, q: Program, m: Module, c: Config, input: seq<int32>, s: State)
    requires p.main.Function? && q.main.Function? && s.mem == [] && forall fuel: nat :: SameShow(p, q, input, fuel)
    requires forall st: State :: Ends(q, input, Fault(st)) <==> Reaches(m, c, Trapped(st))
    ensures EndsAs(p, input, Fault(s)) <==> Traps(m, c, s)
  {
    hide Ends, EndsAs, Reaches;
    if EndsAs(p, input, Fault(s)) {
      var o := EndsFrom(p, q, input, Fault(s));
      assert Reaches(m, c, Trapped(o.st));
    }
    if Traps(m, c, s) {
      var st: State :| st.(mem := []) == s && Reaches(m, c, Trapped(st));
      EndsTo(p, q, input, Fault(st));
    }
  }

  lemma EndsFrom(p: Program, q: Program, input: seq<int32>, o: Outcome<int32>) returns (r: Outcome<int32>)
    requires p.main.Function? && q.main.Function? && EndsAs(p, input, o) && forall fuel: nat :: SameShow(p, q, input, fuel)
    ensures Ends(q, input, r) && Observed(r) == o
  {
    var fuel: nat :| Observed(Meaning(p, input, fuel)) == o;
    assert SameShow(p, q, input, fuel);
    r := Meaning(q, input, fuel);
  }

  lemma EndsTo(p: Program, q: Program, input: seq<int32>, o: Outcome<int32>)
    requires p.main.Function? && q.main.Function? && Ends(q, input, o) && forall fuel: nat :: SameShow(p, q, input, fuel)
    ensures EndsAs(p, input, Observed(o))
  {
    var fuel: nat :| Meaning(q, input, fuel) == o;
    assert SameShow(p, q, input, fuel);
  }
}
