/** A recursive function that recursion detection misses: the call graph does not look into arguments. */
module InlineMissed {
  import opened Int32
  import opened Options
  import opened Tiger
  import opened Check
  import opened Programs
  import opened Rename
  import opened Hygiene
  import opened Escapes
  import opened Pipeline
  import opened Compiler
  import opened CallGraph
  import opened Inline
  import opened Inliner
  import opened InlineProgram

  const NOT: Sym := Sym("not")

  function F(): Sym { Fresh(Sym("f"), 2) }

  function X(): Sym { Fresh(Sym("x"), 1) }

  function OfF(arg: Exp): Exp { CallExp(F(), Cons(arg, NoExp)) }

  /** `if x then not(f(x - 1)) else 0` */
  function Body(): Exp {
    IfExp(VarExp(X()), CallExp(NOT, Cons(OfF(OpExp(VarExp(X()), Arithmetic(Sub), IntExp(1))), NoExp)), IntExp(0))
  }

  function Chunk(): Funs { FunCons(Function(F(), [X()], IntTy, Body()), NoFun) }

  /** `let function f(x: int): int = if x then not(f(x - 1)) else 0 in f(7); () end`, renamed. */
  function Text(): Exp { LetFuns(Chunk(), SeqExp(Cons(OfF(IntExp(7)), Cons(SeqExp(NoExp), NoExp)))) }

  function Missed(): Program {
    Program(FunCons(Primitive(NOT, [Fresh(Sym("i"), 0)], IntTy), NoFun), Function(MAIN, [], VoidTy, Text()))
  }

  lemma NamesDiffer()
    ensures F() != NOT && F() != MAIN && MAIN != NOT && X() != Fresh(Sym("i"), 0) && !LooksFresh(NOT)
  {
    FreshEnds(Sym("f"), 2);
    assert MAIN.text[|MAIN.text| - 1] == 'n' && NOT.text[|NOT.text| - 1] == 't';
    if X() == Fresh(Sym("i"), 0) { FreshInjective(Sym("x"), 1, Sym("i"), 0); }
    forall x, n: nat ensures NOT != Fresh(x, n) { FreshEnds(x, n); }
  }

  lemma BodyTyped(sc: Scope)
    requires X() in sc.vars && NOT in sc.funs && sc.funs[NOT] == Sig(true, 1, IntTy)
    requires F() in sc.funs && sc.funs[F()] == Sig(false, 1, IntTy)
    ensures TypeOf(Body(), sc, false) == Some(IntTy)
  {
    hide F, X;
    var arg := OpExp(VarExp(X()), Arithmetic(Sub), IntExp(1));
    assert TypeOf(arg, sc, false) == Some(IntTy);
    assert AllInt(NoExp, sc, false);
    assert TypeOf(OfF(arg), sc, false) == Some(IntTy);
    assert TypeOf(CallExp(NOT, Cons(OfF(arg), NoExp)), sc, false) == Some(IntTy);
  }

  lemma TextTyped(sc: Scope)
    requires NOT in sc.funs && sc.funs[NOT] == Sig(true, 1, IntTy)
    ensures TypeOf(Text(), sc, false) == Some(VoidTy)
  {
    hide F, X, Body;
    NamesDiffer();
    var sc1 := sc.Chunk(Chunk());
    assert Sigs(NoFun) == map[];
    assert Sigs(Chunk()) == map[F() := Sig(false, 1, IntTy)];
    var inner := sc1.Formals([X()]);
    assert inner.vars == sc1.vars[X() := false] by { assert [X()][1..] == []; }
    BodyTyped(inner);
    assert ChunkOk(NoFun, sc1);
    assert AllInt(NoExp, sc1, false);
    assert AllInt(Cons(IntExp(7), NoExp), sc1, false) && Length(Cons(IntExp(7), NoExp)) == 1;
    assert TypeOf(OfF(IntExp(7)), sc1, false) == Some(IntTy);
    assert TypeOf(SeqExp(NoExp), sc1, false) == Some(VoidTy);
    assert TypeOfSeq(Cons(SeqExp(NoExp), NoExp), sc1, false) == Some(VoidTy);
    assert TypeOf(Text().body, sc1, false) == Some(VoidTy);
    assert ChunkOk(Chunk(), sc1);
  }

  lemma MissedAccepted()
    ensures Accepted(Missed())
  {
    hide F, X, LooksFresh, TypeOf;
    NamesDiffer();
    var p := Missed();
    assert Sigs(NoFun) == map[];
    assert Sigs(p.prims) == map[NOT := Sig(true, 1, IntTy)];
    TopScopes(p);
    TextTyped(ScopeOf(p.Env()));
    assert DecsOf(NoFun) == [];
    assert |DecsOf(p.prims)| == 1;
    assert Prelude(NoFun);
    assert Ordinary(Text());
  }

  lemma OfFVisits(arg: Exp, fn: Sym, vs: seq<Visit>)
    requires Visits(arg, fn) == vs
    ensures Visits(OfF(arg), fn) == vs + [Calls(fn, F())]
  {
    assert VisitsAll(NoExp, fn) == [];
    assert VisitsAll(Cons(arg, NoExp), fn) == vs + [];
  }

  lemma BodyVisits()
    ensures Visits(Body(), F()) == [Reads(X(), F()), Reads(X(), F()), Calls(F(), F()), Calls(F(), NOT)]
  {
    hide F, X;
    var arg := OpExp(VarExp(X()), Arithmetic(Sub), IntExp(1));
    assert Visits(arg, F()) == [Reads(X(), F())];
    OfFVisits(arg, F(), [Reads(X(), F())]);
    var inner := OfF(arg);
    hide OfF;
    assert VisitsAll(NoExp, F()) == [];
    assert VisitsAll(Cons(inner, NoExp), F()) == [Reads(X(), F()), Calls(F(), F())];
    assert Visits(CallExp(NOT, Cons(inner, NoExp)), F()) == [Reads(X(), F()), Calls(F(), F()), Calls(F(), NOT)];
  }

  lemma ChunkVisits()
    ensures VisitsOf(Chunk()) == [Declares(X(), F()), Reads(X(), F()), Reads(X(), F()), Calls(F(), F()), Calls(F(), NOT)]
  {
    hide F, X, Body;
    BodyVisits();
    assert VisitsFormals([X()], F()) == [Declares(X(), F())] && VisitsOf(NoFun) == [];
  }

  lemma TextVisits()
    ensures Visits(Text(), MAIN) == VisitsOf(Chunk()) + [Calls(MAIN, F())]
  {
    hide F, X, Body, Chunk;
    OfFVisits(IntExp(7), MAIN, []);
    hide OfF;
    assert VisitsAll(NoExp, MAIN) == [];
    assert VisitsAll(Cons(SeqExp(NoExp), NoExp), MAIN) == [];
    assert Visits(Text().body, MAIN) == [Calls(MAIN, F())];
  }

  lemma MissedVisits()
    ensures ProgramVisits(Missed()) ==
      [Declares(Fresh(Sym("i"), 0), NOT), Declares(X(), F()), Reads(X(), F()), Reads(X(), F()), Calls(F(), F()), Calls(F(), NOT), Calls(MAIN, F())]
  {
    hide F, X, Chunk, Text;
    ChunkVisits();
    TextVisits();
    var q := Missed();
    assert VisitsOf(NoFun) == [] && VisitsFormals([], MAIN) == [];
    assert VisitsDec(q.main) == Visits(Text(), MAIN);
    assert VisitsOf(q.Chunk()) == Visits(Text(), MAIN);
    assert VisitsFormals([Fresh(Sym("i"), 0)], NOT) == [Declares(Fresh(Sym("i"), 0), NOT)];
    assert VisitsOf(q.prims) == [Declares(Fresh(Sym("i"), 0), NOT)];
  }

  lemma MissedDecs()
    ensures Missed().Decs() == [Missed().prims.first, Missed().main, Chunk().first]
  {
    hide F, X, Body;
    TextDecs();
    assert DecsOf(NoFun) == [];
  }

  lemma TextDecs()
    ensures DecsIn(Text()) == [Chunk().first]
  {
    assert DecsInAll(NoExp) == [] && DecsOf(NoFun) == [];
    assert DecsIn(Body()) == [];
  }

  lemma MissedRenamed()
    ensures Renamed(Missed())
  {
    hide F, X, Accepted, Body;
    MissedAccepted();
    MissedVisits();
    MissedDecs();
    NamesDiffer();
    var vs := ProgramVisits(Missed());
    assert vs[..2][1] == Declares(X(), F()) && vs[..3][1] == Declares(X(), F());
    MissedCounted();
    MissedUnique();
  }

  lemma XNamed()
    ensures X() == Fresh(Sym("x"), 1)
  {}

  lemma MissedCounted()
    ensures InlineProgram.AllCounted(ProgramVisits(Missed()))
  {
    hide F, X, ProgramVisits, Missed;
    MissedVisits();
    NamesDiffer();
    assert X() == Fresh(Sym("x"), 1) by { XNamed(); }
    assert StampedName(Fresh(Sym("i"), 0), {0, 1}) && StampedName(Fresh(Sym("x"), 1), {0, 1});
    assert Counted(ProgramVisits(Missed()), {0, 1});
  }

  lemma MissedUnique()
    ensures Unique(Text(), {})
  {
    hide F, X;
    var vars := {} + Names([X()]);
    var arg := OpExp(VarExp(X()), Arithmetic(Sub), IntExp(1));
    assert Unique(arg, vars) && UniqueAll(NoExp, vars) && UniqueAll(NoExp, {});
    assert Unique(OfF(arg), vars);
    assert Unique(CallExp(NOT, Cons(OfF(arg), NoExp)), vars);
    assert Unique(Body(), vars);
    assert UniqueFormals([X()][1..], {} + {X()});
    assert UniqueFuns(Chunk(), {});
    assert Unique(OfF(IntExp(7)), {});
  }

  lemma MissedEdges()
    ensures Edges(Text(), MAIN) == {Edge(F(), NOT), Edge(MAIN, F())}
    ensures Closure(Edges(Text(), MAIN)) == {Edge(F(), NOT), Edge(MAIN, F()), Edge(MAIN, NOT)}
  {
    hide F;
    NamesDiffer();
    assert Edges(Body(), F()) == {Edge(F(), NOT)};
    hide Body;
    assert EdgesOf(Chunk()) == {Edge(F(), NOT)};
    assert Edges(OfF(IntExp(7)), MAIN) == {Edge(MAIN, F())};
    assert EdgesAll(NoExp, MAIN) == {};
    var r := Edges(Text(), MAIN);
    assert r == {Edge(F(), NOT), Edge(MAIN, F())};
    hide Edges;
    assert Compose(r) == {Edge(MAIN, NOT)};
    var r2 := r + Compose(r);
    assert Compose(r2) == {Edge(MAIN, NOT)};
    assert Closure(r2) == r2;
  }

  /** `f` is called in its own body, but in an argument: the inliner takes it for a function it may
      expand, and no expansion exists, however deep. */
  lemma ArgumentCallMissed(e2: Exp, d: nat)
    ensures var q := Missed();
      var cx := UnitOf(q, ProgramLinks(q));
      Renamed(q) && cx.Expands(F()) && F() in Callees(cx.defs[F()].body) && !Inlined(q.main.body, e2, cx, d)
  {
    hide F, X, Body, Renamed, RecFuns, Edges, ProgramLinks, DefsOf, Closure;
    var q := Missed();
    var cx := UnitOf(q, ProgramLinks(q));
    MissedRenamed();
    FDefined();
    NotDetected();
    CallsInBody();
    assert cx.defs[F()] == Chunk().first && cx.defs[F()].body == Body();
    assert F() in Callees(Body()) * {F()};
    assert Looping({F()}, cx);
    if Inlined(q.main.body, e2, cx, d) { Endless(F(), {F()}, q.main.body, e2, cx, d); }
  }

  lemma FDefined()
    ensures F() in DefsOf(Missed().Decs()) && DefsOf(Missed().Decs())[F()] == Chunk().first
  {
    hide F, X, Body, DefsOf, Accepted;
    var q := Missed();
    MissedRenamed();
    MissedDecs();
    DefsFound(q.Decs());
    assert q.Decs()[2] == Chunk().first;
    assert Chunk().first in q.Decs();
  }

  lemma CallsInBody()
    ensures F() in Callees(Body()) && F() in Callees(Text())
  {
    var arg := OpExp(VarExp(X()), Arithmetic(Sub), IntExp(1));
    assert F() in Callees(OfF(arg));
    assert F() in CalleesAll(Cons(OfF(arg), NoExp));
    assert F() in Callees(CallExp(NOT, Cons(OfF(arg), NoExp)));
    assert F() in Callees(OfF(IntExp(7)));
  }

  /** Neither edge to `f` comes from a function that has `f` among its parents. */
  lemma NotDetected()
    ensures F() !in RecFuns(Edges(Text(), MAIN), ProgramLinks(Missed()))
  {
    hide F, X, Body, Closure, Edges, ProgramLinks;
    NamesDiffer();
    MissedEdges();
    MissedLinks();
    var links := ProgramLinks(Missed());
    assert forall n: nat :: !Within(NOT, F(), links, n);
    assert forall n: nat :: !Within(MAIN, F(), links, n);
  }

  lemma BodyPlain()
    ensures Parents(Body(), F()) == map[]
  {
    hide F, X;
    var arg := OpExp(VarExp(X()), Arithmetic(Sub), IntExp(1));
    assert Parents(arg, F()) == map[] && ParentsAll(NoExp, F()) == map[];
    assert Parents(OfF(arg), F()) == map[];
  }

  lemma MissedLinks()
    ensures ProgramLinks(Missed()) == map[NOT := NOT, MAIN := NOT, F() := MAIN]
  {
    hide F, X;
    BodyPlain();
    hide Body;
    assert Inner(NoFun) == map[] && Links(NoFun, MAIN) == map[] && Links(NoFun, NOT) == map[];
    assert Parents(Text().body, MAIN) == map[];
    assert ParentsOf(Chunk(), MAIN) == map[F() := MAIN];
    assert ParentsOf(Missed().prims, NOT) == map[NOT := NOT];
    assert Parents(Text(), MAIN) == map[F() := MAIN];
  }
}
