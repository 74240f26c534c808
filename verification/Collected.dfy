/** What the collector leaves of a whole program, and what becomes of the program then. */
module Collected {
  import opened Int32
  import opened Options
  import opened Tiger
  import opened Cfg
  import opened Check
  import opened Link
  import opened Programs
  import opened Codegen
  import opened Rename
  import opened Hygiene
  import opened Escapes
  import opened Collector
  import opened Lifting
  import opened Pipeline
  import opened Compiler

  // ----- a text whose functions hold no functions -----

  ghost predicate AllBy(vs: seq<Visit>, fn: Sym) { forall v :: v in vs ==> v.fn == fn }

  lemma {:induction false} FlatBy(e: Exp, fn: Sym)
    requires Flat(e)
    ensures AllBy(Visits(e, fn), fn)
  {
    match e
    case OpExp(l, _, r) => FlatBy(l, fn); FlatBy(r, fn);
    case SeqExp(es) => AllFlatBy(es, fn);
    case AssignExp(_, e1) => FlatBy(e1, fn);
    case IfExp(c, t, f) => FlatBy(c, fn); FlatBy(t, fn); FlatBy(f, fn);
    case WhileExp(c, body) => FlatBy(c, fn); FlatBy(body, fn);
    case ForExp(_, lo, hi, body) => FlatBy(lo, fn); FlatBy(hi, fn); FlatBy(body, fn);
    case CallExp(_, args) => AllFlatBy(args, fn);
    case LetVar(_, init, body) => FlatBy(init, fn); FlatBy(body, fn);
    case _ =>
  }

  lemma {:induction false} AllFlatBy(es: Exps, fn: Sym)
    requires FlatAll(es)
    ensures AllBy(VisitsAll(es, fn), fn)
  {
    if es.Cons? { FlatBy(es.head, fn); AllFlatBy(es.tail, fn); }
  }

  lemma {:induction false} TextBy(e: Exp, fn: Sym)
    requires FlatText(e)
    ensures AllBy(BeforeChunk(e, fn), fn) && AllBy(AfterChunk(e, fn), fn)
  {
    if e.LetVar? {
      FlatBy(e.init, fn);
      TextBy(e.body, fn);
    } else {
      FlatBy(e.body, fn);
    }
  }

  // ----- only variables of `_main` escape -----

  /** A use is of a variable of the function it stands in, or of `fn`. */
  ghost predicate OwnOrOf(vs: seq<Visit>, fn: Sym, all: seq<Visit>) {
    forall v :: v in vs && v.Reads? ==> Declares(v.x, fn) in all || Declares(v.x, v.fn) in all
  }

  lemma BoundOwn(vs: seq<Visit>, pre: set<Sym>, g: Sym, fn: Sym, all: seq<Visit>)
    requires ReadsBound(pre, vs) && AllBy(vs, g) && (forall v :: v in vs ==> v in all) && forall x :: x in pre ==> Declares(x, fn) in all
    ensures OwnOrOf(vs, fn, all)
  {
    forall v | v in vs && v.Reads? ensures Declares(v.x, fn) in all || Declares(v.x, v.fn) in all {
      var i :| 0 <= i < |vs| && vs[i] == v;
      if v.x !in pre {
        var f :| Declares(v.x, f) in vs[..i];
        assert Declares(v.x, f) in vs;
      }
    }
  }

  lemma DecBy(d: FunDec)
    requires FlatDec(d)
    ensures AllBy(VisitsDec(d), d.name)
  {
    if d.Function? { FlatBy(d.body, d.name); }
  }

  lemma {:induction false} ChunkOwn(ds: Funs, sc: Scope, fn: Sym, all: seq<Visit>)
    requires ChunkOk(ds, sc) && FlatFuns(ds) && (forall v :: v in VisitsOf(ds) ==> v in all)
    requires forall x :: x in sc.vars ==> Declares(x, fn) in all
    ensures OwnOrOf(VisitsOf(ds), fn, all)
    decreases ds
  {
    if ds.FunCons? {
      var d := ds.first;
      assert VisitsOf(NoFun) == [] && VisitsOf(FunCons(d, NoFun)) == VisitsDec(d);
      assert ChunkOk(NoFun, sc) && ChunkOk(FunCons(d, NoFun), sc);
      FunsTypedReads(FunCons(d, NoFun), sc);
      DecBy(d);
      forall v | v in VisitsDec(d) ensures v in all { assert v in VisitsOf(ds); }
      forall v | v in VisitsOf(ds.rest) ensures v in all { assert v in VisitsOf(ds); }
      BoundOwn(VisitsDec(d), sc.vars.Keys, d.name, fn, all);
      ChunkOwn(ds.rest, sc, fn, all);
    }
  }

  lemma {:induction false} TextOwn(e: Exp, sc: Scope, inLoop: bool, fn: Sym, all: seq<Visit>)
    requires FlatText(e) && TypeOf(e, sc, inLoop).Some? && (forall v :: v in Visits(e, fn) ==> v in all)
    requires forall x :: x in sc.vars ==> Declares(x, fn) in all
    ensures OwnOrOf(Visits(e, fn), fn, all)
    decreases e
  {
    hide ReadsBound;
    match e
    case LetVar(x, init, body) =>
      forall v | v in Visits(init, fn) ensures v in all { assert v in Visits(e, fn); }
      forall v | v in Visits(body, fn) ensures v in all { assert v in Visits(e, fn); }
      assert Declares(x, fn) in Visits(e, fn) by { assert Visits(e, fn)[0] == Declares(x, fn); }
      TypedReads(init, sc, inLoop, fn);
      FlatBy(init, fn);
      BoundOwn(Visits(init, fn), sc.vars.Keys, fn, fn, all);
      TextOwn(body, sc.Var(x, false), inLoop, fn, all);
    case LetFuns(ds, body) =>
      forall v | v in VisitsOf(ds) ensures v in all { assert v in Visits(e, fn); }
      forall v | v in Visits(body, fn) ensures v in all { assert v in Visits(e, fn); }
      ChunkOwn(ds, sc.Chunk(ds), fn, all);
      TypedReads(body, sc.Chunk(ds), inLoop, fn);
      FlatBy(body, fn);
      BoundOwn(Visits(body, fn), sc.vars.Keys, fn, fn, all);
  }

  /** Every pair recorded is of a flagged variable, declared in `fn`. */
  ghost predicate NeedsOf(m: Marks, c: Needs, fn: Sym) {
    forall n :: n in c ==> n.x in m.flagged && n.x in m.site && m.site[n.x] == fn
  }

  ghost predicate FlaggedIn(m: Marks, vs: seq<Visit>, fn: Sym) {
    forall v :: v in vs && v.Reads? && v.x in m.flagged ==> v.x in m.site && m.site[v.x] == fn
  }

  lemma FlaggedInMain(q: Program, flags: set<Sym>)
    requires Accepted(q) && WellBound(ProgramVisits(q)) && FlatText(q.main.body)
    ensures FlaggedIn(MarksOf(q, flags), ProgramVisits(q), MAIN)
  {
    var all, m := ProgramVisits(q), MarksOf(q, flags);
    MainVisits(q);
    TopScopes(q);
    TextOwn(q.main.body, MainScope(q), false, MAIN, all);
    forall v | v in all && v.Reads? && v.x in m.flagged ensures v.x in m.site && m.site[v.x] == MAIN {
      var i :| 0 <= i < |all| && all[i] == v;
      assert DeclaredIn(all[..i], v.x);
      var h :| Declares(v.x, h) in all[..i];
      assert Declares(v.x, h) in all;
      MarksExact(Marks(map[], flags), all, v.x);
      var f, g :| Declares(v.x, f) in all && Reads(v.x, g) in all && f != g;
      OneSite(all, v.x, f);
      PreludeReadsNothing(q.prims);
      assert Reads(v.x, g) in Visits(q.main.body, MAIN);
    }
  }

  lemma {:induction false} PreludeReadsNothing(ds: Funs)
    requires Prelude(ds)
    ensures forall v :: v in VisitsOf(ds) ==> v.Declares?
  {
    if ds.FunCons? { PreludeReadsNothing(ds.rest); }
  }

  // ----- traversals of `_main` -----

  lemma {:induction false} CollectNeedsOf(m: Marks, c: Needs, vs: seq<Visit>, fn: Sym)
    requires NeedsOf(m, c, fn) && FlaggedIn(m, vs, fn)
    ensures NeedsOf(m, CollectAll(m, c, vs), fn)
    decreases |vs|
  {
    if vs != [] {
      forall v | v in vs[..|vs| - 1] && v.Reads? && v.x in m.flagged ensures v.x in m.site && m.site[v.x] == fn { assert v in vs; }
      CollectNeedsOf(m, c, vs[..|vs| - 1], fn);
      assert vs[|vs| - 1] in vs;
    }
  }

  lemma PassedNeedsOf(m: Marks, c0: Needs, mod0: bool, c1: Needs, mod1: bool, vs: seq<Visit>, fn: Sym)
    requires NeedsOf(m, c0, fn) && FlaggedIn(m, vs, fn) && Passed(m, c0, mod0, c1, mod1, vs)
    ensures NeedsOf(m, c1, fn)
  {
    hide Passed, Everything;
    var all := set n | n in Everything(c0, vs) && n.x in m.flagged && n.x in m.site && m.site[n.x] == fn;
    EverythingAbsorbs(m, c0, vs);
    assert Absorbs(m, all, vs);
    PassedWithin(m, c0, mod0, c1, mod1, vs, all);
  }

  lemma PassedWithin(m: Marks, c0: Needs, mod0: bool, c1: Needs, mod1: bool, vs: seq<Visit>, all: Needs)
    requires Passed(m, c0, mod0, c1, mod1, vs) && Absorbs(m, all, vs) && c0 <= all
    ensures c1 <= all
  {}

  /** Calls of `fn` hand nothing on to it: what is recorded are its own variables. */
  lemma NothingHanded(m: Marks, c: Needs, fn: Sym, g: Sym)
    requires NeedsOf(m, c, fn)
    ensures Handed(m, c, fn, g) == {}
  {}

  lemma {:induction false} QuietInMain(m: Marks, c0: Needs, c1: Needs, mod1: bool, vs: seq<Visit>, fn: Sym)
    requires AllBy(vs, fn) && FlaggedIn(m, vs, fn) && NeedsOf(m, c0, fn) && PassedOnce(m, c0, false, c1, mod1, vs)
    ensures c1 == c0 + Direct(m, vs) && !mod1 && NeedsOf(m, c1, fn)
  {
    CollectNeedsOf(m, c0, vs, fn);
    forall i | 0 <= i < |vs| ensures !AddsAt(m, CollectAll(m, c0, vs[..i]), vs[i]) {
      forall v | v in vs[..i] && v.Reads? && v.x in m.flagged ensures v.x in m.site && m.site[v.x] == fn { assert v in vs; }
      CollectNeedsOf(m, c0, vs[..i], fn);
      assert vs[i] in vs;
      if vs[i].Calls? { NothingHanded(m, CollectAll(m, c0, vs[..i]), fn, vs[i].callee); }
    }
    QuietPass(m, c0, vs);
  }

  // ----- the chunk does not see what `_main` needs -----

  /** Neither made by `fn` nor to it. */
  ghost predicate Apart(vs: seq<Visit>, fn: Sym) { forall v :: v in vs && v.Calls? ==> v.fn != fn && v.callee != fn }

  ghost predicate NeedsBy(c: Needs, fn: Sym) { forall n :: n in c ==> n.fn == fn }

  lemma ElsewhereAdds(m: Marks, c: Needs, more: Needs, v: Visit, fn: Sym)
    requires NeedsBy(more, fn) && (v.Calls? ==> v.fn != fn && v.callee != fn)
    ensures AddsAt(m, c + more, v) <==> AddsAt(m, c, v)
  {
    if v.Calls? { assert Handed(m, c + more, v.fn, v.callee) == Handed(m, c, v.fn, v.callee); }
  }

  lemma ElsewhereClosed(m: Marks, c: Needs, more: Needs, vs: seq<Visit>, fn: Sym)
    requires NeedsBy(more, fn) && Apart(vs, fn)
    ensures ClosedUnder(m, c + more, vs) <==> ClosedUnder(m, c, vs)
  {
    forall v | v in vs ensures AddsAt(m, c + more, v) <==> AddsAt(m, c, v) { ElsewhereAdds(m, c, more, v, fn); }
    hide Handed;
    if v :| v in vs && AddsAt(m, c, v) { assert AddsAt(m, c + more, v); }
    if v :| v in vs && AddsAt(m, c + more, v) { assert AddsAt(m, c, v); }
  }

  lemma ElsewhereEnds(m: Marks, more: Needs, vs: seq<Visit>, fn: Sym)
    requires NeedsBy(more, fn) && Apart(vs, fn)
    ensures EndsClosed(m, more, vs) <==> EndsClosed(m, {}, vs)
  {
    hide Handed, Direct;
    var d := Direct(m, vs);
    assert more + d == {} + d + more;
    ElsewhereClosed(m, {} + d, more, vs, fn);
    forall i | 0 <= i < |vs| ensures AddsAt(m, more + Direct(m, vs[..i]), vs[i]) <==> AddsAt(m, {} + Direct(m, vs[..i]), vs[i]) {
      assert vs[i] in vs;
      assert more + Direct(m, vs[..i]) == {} + Direct(m, vs[..i]) + more;
      ElsewhereAdds(m, {} + Direct(m, vs[..i]), more, vs[i], fn);
    }
  }

  // ----- whole programs -----

  lemma DirectBy(m: Marks, vs: seq<Visit>, fn: Sym)
    requires AllBy(vs, fn)
    ensures NeedsBy(Direct(m, vs), fn)
  {}

  /** No function of the text calls `_main`. */
  ghost predicate MainNotCalled(e: Exp)
    requires FlatText(e)
  {
    forall v :: v in VisitsOf(TextChunk(e)) && v.Calls? ==> v.callee != MAIN
  }

  /** What one traversal of `_main` leaves, and that there is no other. */
  lemma TextCollected(m: Marks, e: Exp, c: Needs)
    requires FlatText(e) && FlaggedIn(m, Visits(e, MAIN), MAIN) && Apart(VisitsOf(TextChunk(e)), MAIN)
    requires exists c1, mod1 :: TextWent(m, {}, false, c1, mod1, e, MAIN) && (!mod1 ==> c == c1)
    ensures ClosedUnder(m, c, Visits(e, MAIN)) <==> EndsClosed(m, {}, VisitsOf(TextChunk(e)))
  {
    hide ClosedUnder, EndsClosed, Passed, PassedOnce, Handed, Direct;
    var before, vs, after := BeforeChunk(e, MAIN), VisitsOf(TextChunk(e)), AfterChunk(e, MAIN);
    TextVisits(e, MAIN);
    TextBy(e, MAIN);
    FlaggedParts(m, before, vs, after, MAIN);
    var c1, mod1 :| TextWent(m, {}, false, c1, mod1, e, MAIN) && (!mod1 ==> c == c1);
    var b, modb, b2 :| TextSteps(m, {}, false, b, modb, b2, c1, mod1, e, MAIN);
    QuietInMain(m, {}, b, modb, before, MAIN);
    PassedNeedsOf(m, b, modb, b2, modb, vs, MAIN);
    QuietInMain(m, b2, c1, mod1, after, MAIN);
    DirectBy(m, before, MAIN);
    DirectBy(m, after, MAIN);
    assert b == Direct(m, before);
    ElsewhereEnds(m, b, vs, MAIN);
    ElsewhereClosed(m, b2, Direct(m, after), vs, MAIN);
    ClosedBoth(m, c, before + vs, after);
    ClosedBoth(m, c, before, vs);
    MainClosed(m, c, before, MAIN);
    MainClosed(m, c, after, MAIN);
  }

  lemma FlaggedParts(m: Marks, a: seq<Visit>, b: seq<Visit>, c: seq<Visit>, fn: Sym)
    requires FlaggedIn(m, a + b + c, fn)
    ensures FlaggedIn(m, a, fn) && FlaggedIn(m, b, fn) && FlaggedIn(m, c, fn)
  {
    forall v | v in a || v in b || v in c ensures v in a + b + c {}
  }

  lemma MainClosed(m: Marks, c: Needs, vs: seq<Visit>, fn: Sym)
    requires AllBy(vs, fn) && NeedsOf(m, c, fn)
    ensures ClosedUnder(m, c, vs)
  {
    forall v | v in vs && v.Calls? ensures Handed(m, c, v.fn, v.callee) <= c { NothingHanded(m, c, fn, v.callee); }
  }

  lemma {:induction false} ChunkCallers(ds: Funs)
    requires FlatFuns(ds)
    ensures forall v :: v in VisitsOf(ds) ==> exists d :: d in DecsOf(ds) && d.name == v.fn
  {
    if ds.FunCons? {
      ChunkCallers(ds.rest);
      DecBy(ds.first);
      forall v | v in VisitsOf(ds) ensures exists d :: d in DecsOf(ds) && d.name == v.fn {
        if v in VisitsDec(ds.first) {
          assert ds.first in DecsOf(ds);
        } else {
          var d :| d in DecsOf(ds.rest) && d.name == v.fn;
          assert d in DecsOf(ds);
        }
      }
    }
  }

  lemma {:induction false} ChunkInText(e: Exp, d: FunDec)
    requires FlatText(e) && d in DecsOf(TextChunk(e))
    ensures d in DecsIn(e)
  {
    if e.LetVar? { ChunkInText(e.body, d); }
  }

  lemma TextApart(q: Program)
    requires Accepted(q) && Distinct(q.Decs()) && FlatText(q.main.body) && MainNotCalled(q.main.body)
    ensures Apart(VisitsOf(TextChunk(q.main.body)), MAIN)
  {
    var ds := TextChunk(q.main.body);
    TextFlat(q.main.body);
    ChunkCallers(ds);
    BodyNames(q);
    forall v | v in VisitsOf(ds) && v.Calls? ensures v.fn != MAIN {
      var d :| d in DecsOf(ds) && d.name == v.fn;
      ChunkInText(q.main.body, d);
    }
  }

  lemma {:induction false} TextFlat(e: Exp)
    requires FlatText(e)
    ensures FlatFuns(TextChunk(e))
  {
    if e.LetVar? { TextFlat(e.body); }
  }

  /** The two analyses on a whole program.  The map collected is the least closed one exactly if it is
      closed; where no function holds another and none calls `_main`, this is told from the text: some
      call comes after a use that it has to hand on, or no call hands anything on. */
  method Collect(q: Program, flags: set<Sym>) returns (c: Needs)
    requires Accepted(q) && Distinct(q.Decs()) && WellBound(ProgramVisits(q))
    ensures Passed(MarksOf(q, flags), {}, false, c, false, ProgramVisits(q))
    ensures c == LeastNeeds(MarksOf(q, flags), ProgramVisits(q)) <==> ClosedUnder(MarksOf(q, flags), c, ProgramVisits(q))
    ensures FlatText(q.main.body) && MainNotCalled(q.main.body) ==>
      (c == LeastNeeds(MarksOf(q, flags), ProgramVisits(q))
       <==> EndsClosed(MarksOf(q, flags), {}, VisitsOf(TextChunk(q.main.body))))
  {
    hide Passed, ClosedUnder, EndsClosed, FlatText, FirstTraversal;
    var marks := Analyse(q, flags);
    var collector := new EscapesCollector(marks);
    collector.VisitFunctionChunk(q.prims);
    ghost var c0 := collector.escaped;
    collector.VisitFunctionChunk(q.Chunk());
    c := collector.escaped;
    PreludeCollected(q, marks, c0);
    PassedBoth(marks, {}, false, c0, false, c, false, VisitsOf(q.prims), VisitsOf(q.Chunk()));
    LeastIffClosed(marks, {}, false, c, false, ProgramVisits(q));
    if FlatText(q.main.body) && MainNotCalled(q.main.body) { ProgramCollected(q, flags, c); }
  }

  /** The marks of escape analysis. */
  method Analyse(q: Program, flags: set<Sym>) returns (marks: Marks)
    requires Accepted(q)
    ensures marks == MarksOf(q, flags)
  {
    var visitor := new EscapesVisitor(flags);
    visitor.VisitFunctionChunk(q.prims);
    visitor.VisitFunctionChunk(q.Chunk());
    MarkBoth(Marks(map[], flags), VisitsOf(q.prims), VisitsOf(q.Chunk()));
    marks := visitor.Marked();
  }

  lemma PreludeCollected(q: Program, m: Marks, c: Needs)
    requires Accepted(q) && Passed(m, {}, false, c, false, VisitsOf(q.prims))
    ensures c == {}
  {
    PreludeAbsorbs(q.prims, m, {});
  }

  lemma ProgramCollected(q: Program, flags: set<Sym>, c: Needs)
    requires Accepted(q) && Distinct(q.Decs()) && WellBound(ProgramVisits(q))
    requires FlatText(q.main.body) && MainNotCalled(q.main.body)
    requires TextAlone(q.Chunk()) ==> FirstTraversal(MarksOf(q, flags), {}, c, q.Chunk())
    ensures ClosedUnder(MarksOf(q, flags), c, ProgramVisits(q))
       <==> EndsClosed(MarksOf(q, flags), {}, VisitsOf(TextChunk(q.main.body)))
  {
    hide ClosedUnder, EndsClosed, TextWent, FlaggedIn;
    var m := MarksOf(q, flags);
    MainVisits(q);
    FlaggedInMain(q, flags);
    FlaggedParts(m, VisitsOf(q.prims), VisitsOf(q.Chunk()), [], MAIN) by {
      assert VisitsOf(q.prims) + VisitsOf(q.Chunk()) + [] == ProgramVisits(q);
    }
    TextApart(q);
    var c1, mod1 :| TraversalThen(m, {}, c1, mod1, c, q.Chunk());
    assert TextWent(m, {}, false, c1, mod1, q.main.body, MAIN);
    TextCollected(m, q.main.body, c);
    PreludeAbsorbs(q.prims, m, c);
    ClosedBoth(m, c, VisitsOf(q.prims), VisitsOf(q.Chunk()));
  }

  /** The compiler with the map its own collector computes: correct whenever that map is closed. */
  lemma CollectedCorrect(p: Program, flags: set<Sym>, c: Needs, escapes: map<Sym, seq<Sym>>, input: seq<int32>, junk: seq<MVal>, s: State)
    requires Accepted(p) && s.mem == []
    requires Passed(MarksOf(Prepared(p), flags), {}, false, c, false, ProgramVisits(Prepared(p)))
    requires ClosedUnder(MarksOf(Prepared(p), flags), c, ProgramVisits(Prepared(p))) && Enumerates(escapes, c)
    requires |junk| == |ContextOf(Prepared(p), escapes, true).Of(MAIN).lifted|
    ensures var q := Prepared(p);
      var m := Generate(q.Decs(), ContextOf(q, escapes, true));
      var start := Start(q, input, junk);
      && (EndsAs(p, input, Val(0, s)) <==> Halts(m, start, s))
      && (EndsAs(p, input, Fault(s)) <==> Traps(m, start, s))
      && (Diverges(p, input) <==> RunsForever(m, start))
      && forall st: State :: !Reaches(m, start, Crashed(st))
  {
    hide Halts, Traps, RunsForever, Reaches, EndsAs, Diverges, Generate, Start, Accepted, Passed, ClosedUnder;
    LeastIffClosed(MarksOf(Prepared(p), flags), {}, false, c, false, ProgramVisits(Prepared(p)));
    CompilerCorrect(p, flags, escapes, input, junk, s);
  }
}
