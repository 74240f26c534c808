/** Inlining a whole renamed program. */
module InlineProgram {
  import opened Int32
  import opened Options
  import opened Tiger
  import opened Check
  import opened Evaluation
  import opened Storage
  import opened Programs
  import opened Link
  import opened Rename
  import opened Escapes
  import opened Inline
  import opened CallGraph
  import opened Inliner
  import opened Lifting
  import opened Pipeline
  import opened Compiler
  import Follow

  // ----- a renamed program is hygienic -----

  /** What renaming gives for the whole program: `all` is what a traversal meets. */
  ghost predicate Sound(cx: Unit, all: seq<Visit>) {
    && WellBound(all) && (forall x, f :: Declares(x, f) in all ==> x != RES)
    && (forall g, x :: g in cx.defs && x in cx.defs[g].formals ==> Declares(x, g) in all)
    && (MAIN in cx.defs ==> cx.defs[MAIN].formals == [])
  }

  ghost predicate Owned(x: Sym, outer: set<Sym>, all: seq<Visit>) { exists f :: f in outer && Declares(x, f) in all }

  /** A point inside the functions `outer`, whose bodies have the calls `calls` of this point. */
  ghost predicate Inside(calls: set<Sym>, sc: Scope, outer: set<Sym>, cx: Unit, all: seq<Visit>) {
    && (forall x :: x in sc.vars ==> Owned(x, outer, all))
    && (forall h :: h in outer ==> h == MAIN || (h in cx.defs && cx.defs[h].Function? && calls <= Callees(cx.defs[h].body)))
  }

  ghost predicate Known(vs: seq<Visit>, ds: seq<FunDec>, keys: set<Sym>, cx: Unit, all: seq<Visit>) {
    && (forall v :: v in vs ==> v in all) && NewNames(ds, keys)
    && (forall d :: d in ds ==> d.name in cx.defs && cx.defs[d.name] == d)
  }

  lemma KnownParts(vs: seq<Visit>, ds: seq<FunDec>, ws: seq<Visit>, es: seq<FunDec>, keys: set<Sym>, cx: Unit, all: seq<Visit>)
    requires Known(vs + ws, ds + es, keys, cx, all)
    ensures Known(vs, ds, keys, cx, all) && Known(ws, es, keys, cx, all)
  {
    NewNamesParts(ds, es, keys);
    forall v | v in vs ensures v in all { assert v in vs + ws; }
    forall v | v in ws ensures v in all { assert v in vs + ws; }
    forall d | d in ds ensures d.name in cx.defs && cx.defs[d.name] == d { assert d in ds + es; }
    forall d | d in es ensures d.name in cx.defs && cx.defs[d.name] == d { assert d in ds + es; }
  }

  lemma InsideLess(calls: set<Sym>, fewer: set<Sym>, sc: Scope, outer: set<Sym>, cx: Unit, all: seq<Visit>)
    requires Inside(calls, sc, outer, cx, all) && fewer <= calls
    ensures Inside(fewer, sc, outer, cx, all)
  {}

  lemma InsideVar(calls: set<Sym>, sc: Scope, x: Sym, ro: bool, fn: Sym, outer: set<Sym>, cx: Unit, all: seq<Visit>)
    requires Inside(calls, sc, outer, cx, all) && fn in outer && Declares(x, fn) in all
    ensures Inside(calls, sc.Var(x, ro), outer, cx, all)
  {}

  /** No formal of an expandable function is visible at a call to it. */
  lemma CallHygienic(f: Sym, args: Exps, e2: Exp, sc: Scope, outer: set<Sym>, cx: Unit, d: nat, all: seq<Visit>)
    requires Sound(cx, all) && Inside(Callees(CallExp(f, args)), sc, outer, cx, all) && cx.Expands(f)
    requires Inlined(CallExp(f, args), e2, cx, d)
    ensures forall x :: x in cx.defs[f].formals ==> x !in sc.vars
  {
    forall x | x in cx.defs[f].formals ensures x !in sc.vars {
      if x in sc.vars {
        assert Owned(x, outer, all);
        var h :| h in outer && Declares(x, h) in all;
        OneSite(all, x, h);
        assert Declares(x, f) in all;
        assert Looping({f}, cx);
        Endless(f, {f}, CallExp(f, args), e2, cx, d);
      }
    }
  }

  /** What is known of an expression of function `fn`. */
  ghost predicate Placed(e: Exp, sc: Scope, inLoop: bool, fn: Sym, outer: set<Sym>, cx: Unit, all: seq<Visit>) {
    && TypeOf(e, sc, inLoop).Some? && Unique(e, sc.vars.Keys) && Known(Visits(e, fn), DecsIn(e), sc.funs.Keys, cx, all)
    && Inside(Callees(e), sc, outer, cx, all) && fn in outer && Sound(cx, all)
  }

  ghost predicate PlacedAll(es: Exps, sc: Scope, inLoop: bool, fn: Sym, outer: set<Sym>, cx: Unit, all: seq<Visit>) {
    && SeqTyped(es, sc, inLoop) && UniqueAll(es, sc.vars.Keys) && Known(VisitsAll(es, fn), DecsInAll(es), sc.funs.Keys, cx, all)
    && Inside(CalleesAll(es), sc, outer, cx, all) && fn in outer && Sound(cx, all)
  }

  lemma {:induction false} RenamedHygienic(e: Exp, e2: Exp, sc: Scope, inLoop: bool, fn: Sym, outer: set<Sym>, cx: Unit, d: nat,
                                           all: seq<Visit>)
    requires Placed(e, sc, inLoop, fn, outer, cx, all) && Inlined(e, e2, cx, d)
    ensures Hygienic(e, sc, cx)
    decreases e
  {
    hide Sound, Known, Inside;
    match e
    case IntExp(_) =>
    case VarExp(_) =>
    case OpExp(l, _, r) =>
      KnownParts(Visits(l, fn), DecsIn(l), Visits(r, fn), DecsIn(r), sc.funs.Keys, cx, all);
      InsideLess(Callees(e), Callees(l), sc, outer, cx, all);
      InsideLess(Callees(e), Callees(r), sc, outer, cx, all);
      RenamedHygienic(l, e2.left, sc, inLoop, fn, outer, cx, d, all);
      RenamedHygienic(r, e2.right, sc, inLoop, fn, outer, cx, d, all);
    case SeqExp(es) =>
      TypedParts(es, sc, inLoop);
      AllRenamedHygienic(es, e2.exps, sc, inLoop, fn, outer, cx, d, all);
    case AssignExp(x, e1) =>
      assert [] + DecsIn(e1) == DecsIn(e1);
      KnownParts([Reads(x, fn)], [], Visits(e1, fn), DecsIn(e1), sc.funs.Keys, cx, all);
      RenamedHygienic(e1, e2.exp, sc, inLoop, fn, outer, cx, d, all);
    case IfExp(c, t, f) => IfHygienic(e, e2, sc, inLoop, fn, outer, cx, d, all);
    case WhileExp(c, body) =>
      KnownParts(Visits(c, fn), DecsIn(c), Visits(body, fn), DecsIn(body), sc.funs.Keys, cx, all);
      InsideLess(Callees(e), Callees(c), sc, outer, cx, all);
      InsideLess(Callees(e), Callees(body), sc, outer, cx, all);
      RenamedHygienic(c, e2.test, sc, inLoop, fn, outer, cx, d, all);
      RenamedHygienic(body, e2.body, sc, true, fn, outer, cx, d, all);
    case ForExp(i, lo, hi, body) => ForHygienic(e, e2, sc, inLoop, fn, outer, cx, d, all);
    case BreakExp =>
    case CallExp(f, args) => CallRenamedHygienic(e, e2, sc, inLoop, fn, outer, cx, d, all);
    case LetVar(x, init, body) => LetVarHygienic(e, e2, sc, inLoop, fn, outer, cx, d, all);
    case LetFuns(ds, body) => LetFunsHygienic(e, e2, sc, inLoop, fn, outer, cx, d, all);
  }

  lemma {:induction false} IfHygienic(e: Exp, e2: Exp, sc: Scope, inLoop: bool, fn: Sym, outer: set<Sym>, cx: Unit, d: nat, all: seq<Visit>)
    requires e.IfExp? && Placed(e, sc, inLoop, fn, outer, cx, all) && Inlined(e, e2, cx, d)
    ensures Hygienic(e, sc, cx)
    decreases e, 0
  {
    hide Sound, Known, Inside;
    var c, t, f := e.test, e.thenclause, e.elseclause;
    assert DecsIn(c) + DecsIn(t) + DecsIn(f) == DecsIn(c) + (DecsIn(t) + DecsIn(f));
    KnownParts(Visits(c, fn), DecsIn(c), Visits(t, fn) + Visits(f, fn), DecsIn(t) + DecsIn(f), sc.funs.Keys, cx, all);
    KnownParts(Visits(t, fn), DecsIn(t), Visits(f, fn), DecsIn(f), sc.funs.Keys, cx, all);
    InsideLess(Callees(e), Callees(c), sc, outer, cx, all);
    InsideLess(Callees(e), Callees(t), sc, outer, cx, all);
    InsideLess(Callees(e), Callees(f), sc, outer, cx, all);
    RenamedHygienic(c, e2.test, sc, inLoop, fn, outer, cx, d, all);
    RenamedHygienic(t, e2.thenclause, sc, inLoop, fn, outer, cx, d, all);
    RenamedHygienic(f, e2.elseclause, sc, inLoop, fn, outer, cx, d, all);
  }

  lemma {:induction false} ForHygienic(e: Exp, e2: Exp, sc: Scope, inLoop: bool, fn: Sym, outer: set<Sym>, cx: Unit, d: nat, all: seq<Visit>)
    requires e.ForExp? && Placed(e, sc, inLoop, fn, outer, cx, all) && Inlined(e, e2, cx, d)
    ensures Hygienic(e, sc, cx)
    decreases e, 0
  {
    hide Known, Inside;
    var i, lo, hi, body := e.index, e.lo, e.hi, e.body;
    var vb, db := Visits(hi, fn) + Visits(body, fn), DecsIn(hi) + DecsIn(body);
    assert DecsIn(lo) + DecsIn(hi) + DecsIn(body) == [] + (DecsIn(lo) + db);
    KnownParts([Declares(i, fn)], [], Visits(lo, fn) + vb, DecsIn(lo) + db, sc.funs.Keys, cx, all);
    KnownParts(Visits(lo, fn), DecsIn(lo), vb, db, sc.funs.Keys, cx, all);
    KnownParts(Visits(hi, fn), DecsIn(hi), Visits(body, fn), DecsIn(body), sc.funs.Keys, cx, all);
    KnownDeclares(i, fn, sc.funs.Keys, cx, all);
    InsideLess(Callees(e), Callees(hi), sc, outer, cx, all);
    InsideLess(Callees(e), Callees(body), sc, outer, cx, all);
    InsideVar(Callees(body), sc, i, true, fn, outer, cx, all);
    assert sc.Var(i, true).vars.Keys == sc.vars.Keys + {i};
    RenamedHygienic(hi, e2.hi, sc, inLoop, fn, outer, cx, d, all);
    RenamedHygienic(body, e2.body, sc.Var(i, true), true, fn, outer, cx, d, all);
  }

  lemma {:induction false} LetVarHygienic(e: Exp, e2: Exp, sc: Scope, inLoop: bool, fn: Sym, outer: set<Sym>, cx: Unit, d: nat,
                                          all: seq<Visit>)
    requires e.LetVar? && Placed(e, sc, inLoop, fn, outer, cx, all) && Inlined(e, e2, cx, d)
    ensures Hygienic(e, sc, cx)
    decreases e, 0
  {
    hide Known, Inside;
    var x, init, body := e.name, e.init, e.body;
    var vb, db := Visits(init, fn) + Visits(body, fn), DecsIn(init) + DecsIn(body);
    assert db == [] + db;
    KnownParts([Declares(x, fn)], [], vb, db, sc.funs.Keys, cx, all);
    KnownParts(Visits(init, fn), DecsIn(init), Visits(body, fn), DecsIn(body), sc.funs.Keys, cx, all);
    KnownDeclares(x, fn, sc.funs.Keys, cx, all);
    InsideLess(Callees(e), Callees(init), sc, outer, cx, all);
    InsideLess(Callees(e), Callees(body), sc, outer, cx, all);
    InsideVar(Callees(body), sc, x, false, fn, outer, cx, all);
    assert sc.Var(x, false).vars.Keys == sc.vars.Keys + {x};
    Follow.UniqueInFewer(init, sc.vars.Keys + {x}, sc.vars.Keys);
    RenamedHygienic(init, e2.init, sc, inLoop, fn, outer, cx, d, all);
    RenamedHygienic(body, e2.body, sc.Var(x, false), inLoop, fn, outer, cx, d, all);
  }

  lemma KnownDeclares(x: Sym, fn: Sym, keys: set<Sym>, cx: Unit, all: seq<Visit>)
    requires Known([Declares(x, fn)], [], keys, cx, all)
    ensures Declares(x, fn) in all
  {
    assert Declares(x, fn) in [Declares(x, fn)];
  }

  lemma {:induction false} CallRenamedHygienic(e: Exp, e2: Exp, sc: Scope, inLoop: bool, fn: Sym, outer: set<Sym>, cx: Unit, d: nat,
                                               all: seq<Visit>)
    requires e.CallExp? && Placed(e, sc, inLoop, fn, outer, cx, all) && Inlined(e, e2, cx, d)
    ensures Hygienic(e, sc, cx)
    decreases e, 0
  {
    hide Known, Inside, Sound;
    var f, args := e.name, e.args;
    TypedParts(args, sc, inLoop);
    assert DecsInAll(args) + [] == DecsInAll(args);
    KnownParts(VisitsAll(args, fn), DecsInAll(args), [Calls(fn, f)], [], sc.funs.Keys, cx, all);
    InsideLess(Callees(e), CalleesAll(args), sc, outer, cx, all);
    if cx.Expands(f) {
      CallHygienic(f, args, e2, sc, outer, cx, d, all);
      ExpandedArgsHygienic(cx.defs[f].formals, args, cx.defs[f].body, e2, sc, inLoop, fn, outer, cx, d, all);
    } else {
      AllRenamedHygienic(args, e2.args, sc, inLoop, fn, outer, cx, d, all);
    }
  }

  lemma {:induction false} ExpandedArgsHygienic(xs: seq<Sym>, args: Exps, body: Exp, e2: Exp, sc: Scope, inLoop: bool, fn: Sym,
                                                outer: set<Sym>, cx: Unit, d: nat, all: seq<Visit>)
    requires PlacedAll(args, sc, inLoop, fn, outer, cx, all) && Expanded(xs, args, body, e2, cx, d)
    ensures HygienicAll(args, sc, cx)
    decreases args
  {
    hide Known, Inside, Sound;
    if args.Cons? {
      PlacedTail(args, sc, inLoop, fn, outer, cx, all);
      RenamedHygienic(args.head, e2.init, sc, inLoop, fn, outer, cx, d, all);
      ExpandedArgsHygienic(xs[1..], args.tail, body, e2.body, sc, inLoop, fn, outer, cx, d, all);
    }
  }

  lemma PlacedTail(es: Exps, sc: Scope, inLoop: bool, fn: Sym, outer: set<Sym>, cx: Unit, all: seq<Visit>)
    requires es.Cons? && PlacedAll(es, sc, inLoop, fn, outer, cx, all)
    ensures Placed(es.head, sc, inLoop, fn, outer, cx, all) && PlacedAll(es.tail, sc, inLoop, fn, outer, cx, all)
  {
    KnownParts(Visits(es.head, fn), DecsIn(es.head), VisitsAll(es.tail, fn), DecsInAll(es.tail), sc.funs.Keys, cx, all);
  }

  lemma {:induction false} AllRenamedHygienic(es: Exps, es2: Exps, sc: Scope, inLoop: bool, fn: Sym, outer: set<Sym>, cx: Unit, d: nat,
                                              all: seq<Visit>)
    requires PlacedAll(es, sc, inLoop, fn, outer, cx, all) && InlinedAll(es, es2, cx, d)
    ensures HygienicAll(es, sc, cx)
    decreases es
  {
    hide Known, Inside, Sound;
    if es.Cons? {
      PlacedTail(es, sc, inLoop, fn, outer, cx, all);
      RenamedHygienic(es.head, es2.head, sc, inLoop, fn, outer, cx, d, all);
      AllRenamedHygienic(es.tail, es2.tail, sc, inLoop, fn, outer, cx, d, all);
    }
  }

  // ----- chunks -----

  /** The functions inside the bodies of a chunk have names that are not visible there. */
  ghost predicate BodiesNew(ds: Funs, keys: set<Sym>) {
    match ds
    case NoFun => true
    case FunCons(d, rest) => NewNames(BodyDecs(d), keys) && BodiesNew(rest, keys)
  }

  lemma {:induction false} SigsNamed(ds: Funs)
    ensures forall f :: f in Sigs(ds) ==> Named(f, DecsOf(ds))
  {
    if ds.FunCons? {
      SigsNamed(ds.rest);
      forall f | f in Sigs(ds) ensures Named(f, DecsOf(ds)) {
        if f == ds.first.name {
          assert ds.first in DecsOf(ds);
        } else {
          assert Named(f, DecsOf(ds.rest));
          var e :| e in DecsOf(ds.rest) && e.name == f;
          assert e in DecsOf(ds);
        }
      }
    }
  }

  lemma {:induction false} ChunkBodiesNew(ds: Funs, keys: set<Sym>)
    requires NewNames(DecsOf(ds), keys)
    ensures BodiesNew(ds, keys + Sigs(ds).Keys) && forall f :: f in Sigs(ds) ==> f !in keys
    decreases ds
  {
    if ds.FunCons? {
      var d := ds.first;
      var own := [d] + BodyDecs(d);
      NewNamesParts(own, DecsOf(ds.rest), keys);
      NewNamesParts([d], BodyDecs(d), keys);
      assert d in own && d in [d];
      ChunkBodiesNew(ds.rest, keys + {d.name});
      SigsNamed(ds.rest);
      forall e | e in BodyDecs(d) ensures e.name !in Sigs(ds.rest) { assert e in own; }
      assert keys + {d.name} + Sigs(ds.rest).Keys == keys + Sigs(ds).Keys;
    }
  }

  lemma LetFunsPlaced(e: Exp, sc: Scope, inLoop: bool, fn: Sym, outer: set<Sym>, cx: Unit, all: seq<Visit>)
    requires e.LetFuns? && Placed(e, sc, inLoop, fn, outer, cx, all)
    ensures Placed(e.body, sc.Chunk(e.funs), inLoop, fn, outer, cx, all)
    ensures BodiesNew(e.funs, sc.Chunk(e.funs).funs.Keys) && forall f :: f in Sigs(e.funs) ==> f !in sc.funs
    ensures forall v :: v in VisitsOf(e.funs) ==> v in all
    ensures forall d :: d in DecsOf(e.funs) ==> d.name in cx.defs && cx.defs[d.name] == d
    ensures Inside(CalleesOf(e.funs), sc.Chunk(e.funs), outer, cx, all)
  {
    hide Inside, Sound;
    var ds, body := e.funs, e.body;
    KnownParts(VisitsOf(ds), DecsOf(ds), Visits(body, fn), DecsIn(body), sc.funs.Keys, cx, all);
    NewNamesParts(DecsOf(ds), DecsIn(body), sc.funs.Keys);
    ChunkBodiesNew(ds, sc.funs.Keys);
    SigsNamed(ds);
    assert NewNames(DecsIn(body), sc.Chunk(ds).funs.Keys);
    InsideLess(Callees(e), CalleesOf(ds), sc, outer, cx, all);
    InsideLess(Callees(e), Callees(body), sc, outer, cx, all);
    InsideChunk(CalleesOf(ds), sc, ds, outer, cx, all);
    InsideChunk(Callees(body), sc, ds, outer, cx, all);
  }

  lemma {:induction false} LetFunsHygienic(e: Exp, e2: Exp, sc: Scope, inLoop: bool, fn: Sym, outer: set<Sym>, cx: Unit, d: nat,
                                           all: seq<Visit>)
    requires e.LetFuns? && Placed(e, sc, inLoop, fn, outer, cx, all) && Inlined(e, e2, cx, d)
    ensures Hygienic(e, sc, cx)
    decreases e, 0
  {
    hide Inside, Sound, Known, BodiesNew;
    LetFunsPlaced(e, sc, inLoop, fn, outer, cx, all);
    FunsRenamedHygienic(e.funs, e2.funs, sc.Chunk(e.funs), fn, outer, cx, all);
    RenamedHygienic(e.body, e2.body, sc.Chunk(e.funs), inLoop, fn, outer, cx, d, all);
  }

  lemma InsideChunk(calls: set<Sym>, sc: Scope, ds: Funs, outer: set<Sym>, cx: Unit, all: seq<Visit>)
    requires Inside(calls, sc, outer, cx, all)
    ensures Inside(calls, sc.Chunk(ds), outer, cx, all)
  {}

  /** The functions of a chunk, in the scope `sc` of the chunk. */
  lemma {:induction false} FunsRenamedHygienic(ds: Funs, ds2: Funs, sc: Scope, fn: Sym, outer: set<Sym>, cx: Unit, all: seq<Visit>)
    requires ChunkOk(ds, sc) && UniqueFuns(ds, sc.vars.Keys) && BodiesNew(ds, sc.funs.Keys) && InlinedFuns(ds, ds2, cx)
    requires (forall v :: v in VisitsOf(ds) ==> v in all) && (forall d :: d in DecsOf(ds) ==> d.name in cx.defs && cx.defs[d.name] == d)
    requires Inside(CalleesOf(ds), sc, outer, cx, all) && Sound(cx, all)
    ensures HygienicFuns(ds, sc, cx)
    decreases ds
  {
    hide Inside, Sound;
    if ds.FunCons? {
      var d := ds.first;
      assert d in DecsOf(ds);
      forall v | v in VisitsDec(d) ensures v in all { assert v in VisitsOf(ds); }
      forall v | v in VisitsOf(ds.rest) ensures v in all { assert v in VisitsOf(ds); }
      InsideLess(CalleesOf(ds), CalleesOf(ds.rest), sc, outer, cx, all);
      FormalsFresh(d, sc, cx, all);
      if d.Function? {
        InsideLess(CalleesOf(ds), Callees(d.body), sc, outer, cx, all);
        DecHygienic(d, ds2.first, sc, outer, cx, all);
      }
      FunsRenamedHygienic(ds.rest, ds2.rest, sc, fn, outer, cx, all);
    }
  }

  lemma {:induction false} UniqueDistinct(xs: seq<Sym>, vars: set<Sym>)
    requires UniqueFormals(xs, vars)
    ensures (forall i :: 0 <= i < |xs| ==> xs[i] !in vars) && (forall i, j :: 0 <= i < j < |xs| ==> xs[i] != xs[j])
    decreases |xs|
  {
    if xs != [] {
      UniqueDistinct(xs[1..], vars + {xs[0]});
      forall i | 0 < i < |xs| ensures xs[i] !in vars + {xs[0]} { assert xs[i] == xs[1..][i - 1]; }
      forall i, j | 0 < i < j < |xs| ensures xs[i] != xs[j] { assert xs[i] == xs[1..][i - 1] && xs[j] == xs[1..][j - 1]; }
    }
  }

  lemma FormalsFresh(d: FunDec, sc: Scope, cx: Unit, all: seq<Visit>)
    requires d.Function? ==> UniqueFormals(d.formals, sc.vars.Keys)
    requires Sound(cx, all) && d.name in cx.defs && cx.defs[d.name] == d
    ensures d.Function? ==> FreshFormals(d.formals, sc.vars.Keys)
  {
    if d.Function? {
      UniqueDistinct(d.formals, sc.vars.Keys);
      forall i | 0 <= i < |d.formals| ensures d.formals[i] != RES { assert Declares(d.formals[i], d.name) in all; }
    }
  }

  lemma {:induction false} DecHygienic(d: FunDec, d2: FunDec, sc: Scope, outer: set<Sym>, cx: Unit, all: seq<Visit>)
    requires d.Function? && TypeOf(d.body, sc.Formals(d.formals), false) == Some(d.result) && UniqueFormals(d.formals, sc.vars.Keys)
    requires Unique(d.body, sc.vars.Keys + Names(d.formals)) && NewNames(DecsIn(d.body), sc.funs.Keys) && InlinedDec(d, d2, cx)
    requires (forall v :: v in VisitsDec(d) ==> v in all) && (forall e :: e in DecsIn(d.body) ==> e.name in cx.defs && cx.defs[e.name] == e)
    requires d.name in cx.defs && cx.defs[d.name] == d && Inside(Callees(d.body), sc, outer, cx, all) && Sound(cx, all)
    ensures Hygienic(d.body, sc.Formals(d.formals), cx)
    decreases d
  {
    hide Sound, Inlined;
    var fs := VisitsFormals(d.formals, d.name);
    FormalsScopeKeys(sc, d.formals);
    forall v | v in fs ensures v in all { assert v in VisitsDec(d); }
    forall v | v in Visits(d.body, d.name) ensures v in all { assert v in VisitsDec(d); }
    InsideFormals(Callees(d.body), sc, d.formals, d.name, outer + {d.name}, cx, all);
    RenamedHygienic(d.body, d2.body, sc.Formals(d.formals), false, d.name, outer + {d.name}, cx, cx.bound, all);
  }

  lemma {:induction false} InsideFormals(calls: set<Sym>, sc: Scope, xs: seq<Sym>, fn: Sym, outer: set<Sym>, cx: Unit, all: seq<Visit>)
    requires Inside(calls, sc, outer, cx, all) && fn in outer && forall v :: v in VisitsFormals(xs, fn) ==> v in all
    ensures Inside(calls, sc.Formals(xs), outer, cx, all)
    decreases |xs|
  {
    if xs != [] {
      var vs := VisitsFormals(xs, fn);
      assert vs[0] in vs && vs == [vs[0]] + VisitsFormals(xs[1..], fn);
      InsideVar(calls, sc, xs[0], false, fn, outer, cx, all);
      InsideFormals(calls, sc.Var(xs[0], false), xs[1..], fn, outer, cx, all);
    }
  }

  // ----- programs -----

  /** The definitions of a program by name. */
  function DefsOf(ds: seq<FunDec>): map<Sym, FunDec> {
    if ds == [] then map[] else DefsOf(ds[1..])[ds[0].name := ds[0]]
  }

  lemma {:induction false} DefsFound(ds: seq<FunDec>)
    requires Distinct(ds)
    ensures forall d :: d in ds ==> d.name in DefsOf(ds) && DefsOf(ds)[d.name] == d
    ensures forall f :: f in DefsOf(ds) ==> DefsOf(ds)[f] in ds && DefsOf(ds)[f].name == f
    decreases |ds|
  {
    if ds != [] {
      var rest := ds[1..];
      FirstDiffers(ds);
      hide Distinct;
      DefsFound(rest);
      assert ds == [ds[0]] + rest;
      assert forall d :: d in ds <==> d == ds[0] || d in rest;
    }
  }

  lemma FirstDiffers(ds: seq<FunDec>)
    requires Distinct(ds) && ds != []
    ensures Distinct(ds[1..]) && forall d :: d in ds[1..] ==> d.name != ds[0].name
  {
    forall d | d in ds[1..] ensures d.name != ds[0].name {
      var i :| 0 <= i < |ds[1..]| && ds[1..][i] == d;
      assert ds[i + 1] == d;
    }
  }

  /** The program with the inlined text. */
  function WithBody(q: Program, e2: Exp): Program { Program(q.prims, Function(MAIN, [], VoidTy, e2)) }

  lemma FormalsVisited(q: Program, d: FunDec, x: Sym)
    requires d in q.Decs() && x in d.formals
    ensures Declares(x, d.name) in ProgramVisits(q)
  {
    if d in DecsOf(q.prims) { DecVisited(q.prims, d, x); } else { DecVisited(q.Chunk(), d, x); }
  }

  lemma {:induction false} DecVisited(ds: Funs, d: FunDec, x: Sym)
    requires d in DecsOf(ds) && x in d.formals
    ensures Declares(x, d.name) in VisitsOf(ds)
  {
    if d == ds.first {
      var i :| 0 <= i < |d.formals| && d.formals[i] == x;
      assert VisitsFormals(d.formals, d.name)[i] == Declares(x, d.name);
      assert Declares(x, d.name) in VisitsDec(d);
    } else if ds.first.Function? && d in DecsIn(ds.first.body) {
      BodyVisited(ds.first.body, ds.first.name, d, x);
      assert Declares(x, d.name) in VisitsDec(ds.first);
    } else {
      DecVisited(ds.rest, d, x);
    }
  }

  lemma {:induction false} BodyVisited(e: Exp, fn: Sym, d: FunDec, x: Sym)
    requires d in DecsIn(e) && x in d.formals
    ensures Declares(x, d.name) in Visits(e, fn)
  {
    match e
    case OpExp(l, _, r) => if d in DecsIn(l) { BodyVisited(l, fn, d, x); } else { BodyVisited(r, fn, d, x); }
    case SeqExp(es) => AllVisited(es, fn, d, x);
    case AssignExp(_, e1) => BodyVisited(e1, fn, d, x);
    case IfExp(c, t, f) =>
      if d in DecsIn(c) { BodyVisited(c, fn, d, x); } else if d in DecsIn(t) { BodyVisited(t, fn, d, x); } else { BodyVisited(f, fn, d, x); }
    case WhileExp(c, body) => if d in DecsIn(c) { BodyVisited(c, fn, d, x); } else { BodyVisited(body, fn, d, x); }
    case ForExp(_, lo, hi, body) =>
      if d in DecsIn(lo) { BodyVisited(lo, fn, d, x); } else if d in DecsIn(hi) { BodyVisited(hi, fn, d, x); }
      else { BodyVisited(body, fn, d, x); }
    case CallExp(_, args) => AllVisited(args, fn, d, x);
    case LetVar(_, init, body) => if d in DecsIn(init) { BodyVisited(init, fn, d, x); } else { BodyVisited(body, fn, d, x); }
    case LetFuns(ds, body) => if d in DecsOf(ds) { DecVisited(ds, d, x); } else { BodyVisited(body, fn, d, x); }
    case _ =>
  }

  lemma {:induction false} AllVisited(es: Exps, fn: Sym, d: FunDec, x: Sym)
    requires d in DecsInAll(es) && x in d.formals
    ensures Declares(x, d.name) in VisitsAll(es, fn)
  {
    if d in DecsIn(es.head) { BodyVisited(es.head, fn, d, x); } else { AllVisited(es.tail, fn, d, x); }
  }

  /** Names given by the renamer end with a digit. */
  lemma FreshNotRes(x: Sym, n: nat)
    ensures Fresh(x, n) != RES
  {
    FreshEnds(x, n);
    assert RES.text[|RES.text| - 1] == 's';
  }

  /** All variables have been given counted names. */
  ghost predicate AllCounted(vs: seq<Visit>) { exists stamps: set<nat> :: Counted(vs, stamps) }

  lemma CountedNotRes(vs: seq<Visit>, x: Sym, f: Sym)
    requires AllCounted(vs) && Declares(x, f) in vs
    ensures x != RES
  {
    var stamps: set<nat> :| Counted(vs, stamps);
    var i :| 0 <= i < |vs| && vs[i] == Declares(x, f);
    assert StampedName(vs[i].x, stamps);
    var y, k: nat :| x == Fresh(y, k) && k in stamps;
    FreshNotRes(y, k);
  }

  /** A program that has been renamed. */
  ghost predicate Renamed(q: Program) {
    && Accepted(q) && Distinct(q.Decs()) && WellBound(ProgramVisits(q)) && AllCounted(ProgramVisits(q))
    && Unique(q.main.body, {})
  }

  lemma RenamedIsRenamed(p: Program)
    requires Accepted(p)
    ensures Renamed(RenameProgram(p))
  {
    RenameAccepted(p);
    RenamedCounted(p);
    RenamedWellBound(p);
  }

  lemma RenamedSound(q: Program, recs: set<Sym>, bound: nat)
    requires Renamed(q)
    ensures Sound(Unit(DefsOf(q.Decs()), recs, bound), ProgramVisits(q))
  {
    var all := ProgramVisits(q);
    DefsFound(q.Decs());
    forall x, f | Declares(x, f) in all ensures x != RES { CountedNotRes(all, x, f); }
    forall g, x | g in DefsOf(q.Decs()) && x in DefsOf(q.Decs())[g].formals ensures Declares(x, g) in all {
      FormalsVisited(q, DefsOf(q.Decs())[g], x);
    }
    assert q.main in q.Decs() by { MainVisits(q); assert q.Decs()[|DecsOf(q.prims)|] == q.main; }
  }

  /** The functions of the text are found under their names. */
  lemma TextFound(q: Program)
    requires q.main.Function? && Distinct(q.Decs())
    ensures forall d :: d in DecsIn(q.main.body) ==> d.name in DefsOf(q.Decs()) && DefsOf(q.Decs())[d.name] == d
  {
    DefsFound(q.Decs());
    forall d | d in DecsIn(q.main.body) ensures d in q.Decs() { assert d in DecsOf(q.Chunk()); }
  }

  /** `_main`'s body is hygienic wherever its inlining ends. */
  lemma MainHygienic(q: Program, e2: Exp, recs: set<Sym>, bound: nat)
    requires Renamed(q) && Inlined(q.main.body, e2, Unit(DefsOf(q.Decs()), recs, bound), bound)
    ensures Hygienic(q.main.body, MainScope(q), Unit(DefsOf(q.Decs()), recs, bound))
  {
    hide Sound, Inlined, DefsOf;
    var cx, all, sc := Unit(DefsOf(q.Decs()), recs, bound), ProgramVisits(q), MainScope(q);
    RenamedSound(q, recs, bound);
    TopScopes(q);
    MainVisits(q);
    BodyNames(q);
    TextFound(q);
    MainNew(q);
    assert Known(Visits(q.main.body, MAIN), DecsIn(q.main.body), sc.funs.Keys, cx, all);
    RenamedHygienic(q.main.body, e2, sc, false, MAIN, {MAIN}, cx, bound, all);
  }

  /** The functions of the program text have names of their own. */
  lemma MainNew(q: Program)
    requires Renamed(q)
    ensures NewNames(DecsIn(q.main.body), MainScope(q).funs.Keys)
  {
    TopScopes(q);
    MainVisits(q);
    SigsNamed(q.prims);
    SigsNamed(q.Chunk());
    var ps, ds := DecsOf(q.prims), DecsIn(q.main.body);
    assert NewNames(ps + ([q.main] + ds), {});
    NewNamesParts(ps, [q.main] + ds, {});
    NewNamesParts([q.main], ds, {});
    assert q.main in [q.main];
    assert Sigs(q.Chunk()).Keys == {MAIN} by { assert Sigs(NoFun) == map[]; }
    forall d | d in ds ensures d.name !in MainScope(q).funs.Keys {
      assert d in [q.main] + ds;
      assert !Named(d.name, ps);
    }
  }

  lemma {:induction false} PreludeInlines(ds: Funs, sc: Scope, cx: Unit)
    requires Prelude(ds) && forall d :: d in DecsOf(ds) ==> d.name in cx.defs && cx.defs[d.name] == d
    ensures InlinedFuns(ds, ds, cx) && HygienicFuns(ds, sc, cx)
  {
    if ds.FunCons? {
      assert ds.first in DecsOf(ds);
      forall d | d in DecsOf(ds.rest) ensures d in DecsOf(ds) {}
      PreludeInlines(ds.rest, sc, cx);
    }
  }

  /** The static chains of the two programs correspond. */
  lemma ProgramSim(q: Program, e2: Exp, recs: set<Sym>, bound: nat)
    requires Renamed(q) && Inlined(q.main.body, e2, Unit(DefsOf(q.Decs()), recs, bound), bound)
    ensures var cx := Unit(DefsOf(q.Decs()), recs, bound);
      && EnvHygienic(q.Env(), cx) && HygienicDec(q.main, ScopeOf(q.Env()), cx)
      && EnvSim(q.Env(), WithBody(q, e2).Env(), [], cx) && InlinedDec(q.main, WithBody(q, e2).main, cx)
  {
    hide Inlined, Hygienic;
    var cx, q2, outer := Unit(DefsOf(q.Decs()), recs, bound), WithBody(q, e2), BindFuns(q.prims, Top);
    MainHygienic(q, e2, recs, bound);
    DefsFound(q.Decs());
    TopScopes(q);
    MainVisits(q);
    forall d | d in DecsOf(q.prims) ensures d in q.Decs() {}
    assert q.main in q.Decs() by { assert q.Decs()[|DecsOf(q.prims)|] == q.main; }
    PreludeInlines(q.prims, ScopeOf(outer), cx);
    assert EnvSim(Top, Top, [], cx) && ScopeOf(Top).funs == map[];
    SimChunk(q.prims, q.prims, Top, Top, [], cx);
    assert EnvHygienic(outer, cx);
    PreludeWithoutMain(q.prims);
    MainChunk(q, e2, cx);
    SimChunk(q.Chunk(), q2.Chunk(), outer, BindFuns(q2.prims, Top), [], cx);
  }

  lemma {:induction false} PreludeWithoutMain(ds: Funs)
    requires Prelude(ds)
    ensures MAIN !in Sigs(ds)
  {
    if ds.FunCons? { PreludeWithoutMain(ds.rest); }
  }

  lemma MainChunk(q: Program, e2: Exp, cx: Unit)
    requires Accepted(q) && Inlined(q.main.body, e2, cx, cx.bound) && MAIN in cx.defs && cx.defs[MAIN] == q.main
    requires Hygienic(q.main.body, ScopeOf(q.Env()), cx)
    ensures InlinedDec(q.main, WithBody(q, e2).main, cx) && InlinedFuns(q.Chunk(), WithBody(q, e2).Chunk(), cx)
    ensures HygienicFuns(q.Chunk(), ScopeOf(q.Env()), cx) && Sigs(q.Chunk()).Keys == {MAIN}
  {
    hide Inlined, Hygienic;
    assert Sigs(NoFun) == map[];
    assert InlinedFuns(NoFun, NoFun, cx) && HygienicFuns(NoFun, ScopeOf(q.Env()), cx);
    assert ScopeOf(q.Env()).Formals([]) == ScopeOf(q.Env());
  }

  lemma ProgramTyped(q: Program)
    requires Accepted(q)
    ensures EnvTyped(q.Env()) && TypeOf(q.main.body, ScopeOf(q.Env()).Formals(q.main.formals), false) == Some(VoidTy)
  {
    hide TypeOf;
    var outer, sc := BindFuns(q.prims, Top), ScopeOf(q.Env());
    PreludeOk(q.prims, ScopeOf(outer));
    assert EnvTyped(Top);
    assert EnvTyped(outer);
    assert sc.Formals([]) == sc;
    assert ChunkOk(NoFun, sc);
    assert ChunkOk(FunCons(q.main, NoFun), sc);
    assert q.Env() == BindFuns(FunCons(q.main, NoFun), outer);
  }

  lemma ProgramKeeps(q: Program, e2: Exp, recs: set<Sym>, bound: nat, input: seq<int32>, f: nat, g: nat, w: Way) returns (j2: Cells)
    requires Renamed(q) && Inlined(q.main.body, e2, Unit(DefsOf(q.Decs()), recs, bound), bound)
    requires Fuels(f, g, bound, Unit(DefsOf(q.Decs()), recs, bound), w)
    ensures Sim(Meaning(q, input, f), Meaning(WithBody(q, e2), input, g), State([], input, []), [], j2, w)
  {
    hide Inlined, EnvSim, Hygienic, EnvHygienic;
    var cx, st := Unit(DefsOf(q.Decs()), recs, bound), State([], input, []);
    ProgramSim(q, e2, recs, bound);
    ProgramTyped(q);
    j2 := BodyKeeps(q.Callee(), WithBody(q, e2).Callee(), [], st, st, [], f, g, cx, w);
  }

  /** Inlining is correct: when expansion ends, whatever functions it was told to leave alone, the
      expanded program makes the same primitive calls and ends in the same way, or runs forever
      when the program does. */
  lemma InlineCorrect(q: Program, e2: Exp, recs: set<Sym>, bound: nat, input: seq<int32>, o: Outcome<int32>)
    requires Renamed(q) && Inlined(q.main.body, e2, Unit(DefsOf(q.Decs()), recs, bound), bound) && !o.Timeout?
    ensures EndsAs(q, input, o) <==> EndsAs(WithBody(q, e2), input, o)
    ensures Diverges(q, input) <==> Diverges(WithBody(q, e2), input)
  {
    hide Inlined, Renamed;
    RenamedMain(q);
    var q2 := WithBody(q, e2);
    forall f: nat ensures Up(q, q2, input, f) { GoUp(q, e2, recs, bound, input, f); }
    forall g: nat ensures Down(q, q2, input, g, bound) { GoDown(q, e2, recs, bound, input, g); }
    BothWays(q, q2, input, bound, o);
  }

  lemma RenamedMain(q: Program)
    requires Renamed(q)
    ensures q.main.Function?
  {}

  /** What the program shows with `f`, the expanded one shows with as much. */
  ghost predicate Up(q: Program, q2: Program, input: seq<int32>, f: nat)
    requires q.main.Function? && q2.main.Function?
  {
    Meaning(q, input, f).Timeout? || Observed(Meaning(q2, input, f)) == Observed(Meaning(q, input, f))
  }

  /** What the expanded program shows with `g`, the program shows with a unit more for each expansion. */
  ghost predicate Down(q: Program, q2: Program, input: seq<int32>, g: nat, bound: nat)
    requires q.main.Function? && q2.main.Function?
  {
    Meaning(q2, input, g).Timeout? || Observed(Meaning(q, input, g * (bound + 1) + bound)) == Observed(Meaning(q2, input, g))
  }

  lemma GoUp(q: Program, e2: Exp, recs: set<Sym>, bound: nat, input: seq<int32>, f: nat)
    requires Renamed(q) && Inlined(q.main.body, e2, Unit(DefsOf(q.Decs()), recs, bound), bound)
    ensures q.main.Function? && Up(q, WithBody(q, e2), input, f)
  {
    hide Inlined;
    var j2 := ProgramKeeps(q, e2, recs, bound, input, f, f, Way(true, false));
  }

  lemma GoDown(q: Program, e2: Exp, recs: set<Sym>, bound: nat, input: seq<int32>, g: nat)
    requires Renamed(q) && Inlined(q.main.body, e2, Unit(DefsOf(q.Decs()), recs, bound), bound)
    ensures q.main.Function? && Down(q, WithBody(q, e2), input, g, bound)
  {
    hide Inlined;
    var j2 := ProgramKeeps(q, e2, recs, bound, input, g * (bound + 1) + bound, g, Way(false, true));
  }

  lemma BothWays(q: Program, q2: Program, input: seq<int32>, bound: nat, o: Outcome<int32>)
    requires q.main.Function? && q2.main.Function? && !o.Timeout?
    requires (forall f: nat :: Up(q, q2, input, f)) && (forall g: nat :: Down(q, q2, input, g, bound))
    ensures EndsAs(q, input, o) <==> EndsAs(q2, input, o)
    ensures Diverges(q, input) <==> Diverges(q2, input)
  {
    if EndsAs(q, input, o) {
      var f: nat :| Observed(Meaning(q, input, f)) == o;
      assert Up(q, q2, input, f);
    }
    if EndsAs(q2, input, o) {
      var g: nat :| Observed(Meaning(q2, input, g)) == o;
      assert Down(q, q2, input, g, bound);
    }
    if Diverges(q, input) {
      forall g: nat ensures Meaning(q2, input, g).Timeout? { assert Down(q, q2, input, g, bound); }
    }
    if Diverges(q2, input) {
      forall f: nat ensures Meaning(q, input, f).Timeout? { assert Up(q, q2, input, f); }
    }
  }

  // ----- the inliner on a program -----

  ghost predicate ArityScope(sc: Scope, defs: map<Sym, FunDec>) {
    forall f :: f in sc.funs && f in defs ==> sc.funs[f].arity == |defs[f].formals|
  }

  ghost predicate AllDefined(ds: seq<FunDec>, defs: map<Sym, FunDec>) { forall d :: d in ds ==> d.name in defs && defs[d.name] == d }

  lemma AllDefinedParts(a: seq<FunDec>, b: seq<FunDec>, defs: map<Sym, FunDec>)
    requires AllDefined(a + b, defs)
    ensures AllDefined(a, defs) && AllDefined(b, defs)
  {
    forall d | d in a ensures d.name in defs && defs[d.name] == d { assert d in a + b; }
    forall d | d in b ensures d.name in defs && defs[d.name] == d { assert d in a + b; }
  }

  lemma {:induction false} SigsArity(ds: Funs, defs: map<Sym, FunDec>)
    requires AllDefined(DecsOf(ds), defs)
    ensures forall f :: f in Sigs(ds) ==> f in defs && Sigs(ds)[f].arity == |defs[f].formals|
  {
    if ds.FunCons? {
      assert ds.first in DecsOf(ds);
      AllDefinedParts([ds.first] + BodyDecs(ds.first), DecsOf(ds.rest), defs);
      SigsArity(ds.rest, defs);
    }
  }

  /** A checked tree calls every function with as many arguments as it has formals. */
  lemma {:induction false} TypedArity(e: Exp, sc: Scope, inLoop: bool, defs: map<Sym, FunDec>)
    requires TypeOf(e, sc, inLoop).Some? && ArityScope(sc, defs) && AllDefined(DecsIn(e), defs)
    ensures ArityOk(e, defs)
    decreases e
  {
    hide ArityScope, AllDefined;
    match e
    case OpExp(l, _, r) =>
      AllDefinedParts(DecsIn(l), DecsIn(r), defs);
      TypedArity(l, sc, inLoop, defs);
      TypedArity(r, sc, inLoop, defs);
    case SeqExp(es) =>
      TypedParts(es, sc, inLoop);
      AllTypedArity(es, sc, inLoop, defs);
    case AssignExp(_, e1) => TypedArity(e1, sc, inLoop, defs);
    case IfExp(c, t, f) =>
      AllDefinedParts(DecsIn(c) + DecsIn(t), DecsIn(f), defs);
      AllDefinedParts(DecsIn(c), DecsIn(t), defs);
      TypedArity(c, sc, inLoop, defs);
      TypedArity(t, sc, inLoop, defs);
      TypedArity(f, sc, inLoop, defs);
    case WhileExp(c, body) =>
      AllDefinedParts(DecsIn(c), DecsIn(body), defs);
      TypedArity(c, sc, inLoop, defs);
      TypedArity(body, sc, true, defs);
    case ForExp(i, lo, hi, body) =>
      AllDefinedParts(DecsIn(lo) + DecsIn(hi), DecsIn(body), defs);
      AllDefinedParts(DecsIn(lo), DecsIn(hi), defs);
      SameArities(sc, sc.Var(i, true), defs);
      TypedArity(hi, sc, inLoop, defs);
      TypedArity(body, sc.Var(i, true), true, defs);
    case CallExp(f, args) =>
      TypedParts(args, sc, inLoop);
      AllTypedArity(args, sc, inLoop, defs);
      CallArity(f, args, sc, defs);
    case LetVar(x, init, body) =>
      AllDefinedParts(DecsIn(init), DecsIn(body), defs);
      SameArities(sc, sc.Var(x, false), defs);
      TypedArity(init, sc, inLoop, defs);
      TypedArity(body, sc.Var(x, false), inLoop, defs);
    case LetFuns(ds, body) =>
      AllDefinedParts(DecsOf(ds), DecsIn(body), defs);
      ChunkArities(ds, sc, defs);
      FunsTypedArity(ds, sc.Chunk(ds), defs);
      TypedArity(body, sc.Chunk(ds), inLoop, defs);
    case _ =>
  }

  lemma CallArity(f: Sym, args: Exps, sc: Scope, defs: map<Sym, FunDec>)
    requires ArityScope(sc, defs) && f in sc.funs && sc.funs[f].arity == Length(args)
    ensures f in defs ==> |defs[f].formals| == Length(args)
  {}

  lemma SameArities(sc: Scope, sc2: Scope, defs: map<Sym, FunDec>)
    requires ArityScope(sc, defs) && sc2.funs == sc.funs
    ensures ArityScope(sc2, defs)
  {}

  lemma ChunkArities(ds: Funs, sc: Scope, defs: map<Sym, FunDec>)
    requires ArityScope(sc, defs) && AllDefined(DecsOf(ds), defs)
    ensures ArityScope(sc.Chunk(ds), defs)
  {
    SigsArity(ds, defs);
  }

  lemma {:induction false} AllTypedArity(es: Exps, sc: Scope, inLoop: bool, defs: map<Sym, FunDec>)
    requires SeqTyped(es, sc, inLoop) && ArityScope(sc, defs) && AllDefined(DecsInAll(es), defs)
    ensures ArityOkAll(es, defs)
    decreases es
  {
    if es.Cons? {
      AllDefinedParts(DecsIn(es.head), DecsInAll(es.tail), defs);
      TypedArity(es.head, sc, inLoop, defs);
      AllTypedArity(es.tail, sc, inLoop, defs);
    }
  }

  lemma {:induction false} FunsTypedArity(ds: Funs, sc: Scope, defs: map<Sym, FunDec>)
    requires ChunkOk(ds, sc) && ArityScope(sc, defs) && AllDefined(DecsOf(ds), defs)
    ensures ArityOkFuns(ds, defs)
    decreases ds
  {
    if ds.FunCons? {
      var d := ds.first;
      AllDefinedParts([d] + BodyDecs(d), DecsOf(ds.rest), defs);
      AllDefinedParts([d], BodyDecs(d), defs);
      SameArities(sc, sc.Formals(d.formals), defs);
      if d.Function? { TypedArity(d.body, sc.Formals(d.formals), false, defs); }
      FunsTypedArity(ds.rest, sc, defs);
    }
  }

  /** What holds of a body holds of the bodies of the functions inside it. */
  lemma {:induction false} BodyArity(e: Exp, d: FunDec, defs: map<Sym, FunDec>)
    requires ArityOk(e, defs) && d in DecsIn(e) && d.Function?
    ensures ArityOk(d.body, defs)
  {
    match e
    case OpExp(l, _, r) => if d in DecsIn(l) { BodyArity(l, d, defs); } else { BodyArity(r, d, defs); }
    case SeqExp(es) => BodyArityAll(es, d, defs);
    case AssignExp(_, e1) => BodyArity(e1, d, defs);
    case IfExp(c, t, f) =>
      if d in DecsIn(c) { BodyArity(c, d, defs); } else if d in DecsIn(t) { BodyArity(t, d, defs); } else { BodyArity(f, d, defs); }
    case WhileExp(c, body) => if d in DecsIn(c) { BodyArity(c, d, defs); } else { BodyArity(body, d, defs); }
    case ForExp(_, lo, hi, body) =>
      if d in DecsIn(lo) { BodyArity(lo, d, defs); } else if d in DecsIn(hi) { BodyArity(hi, d, defs); } else { BodyArity(body, d, defs); }
    case CallExp(_, args) => BodyArityAll(args, d, defs);
    case LetVar(_, init, body) => if d in DecsIn(init) { BodyArity(init, d, defs); } else { BodyArity(body, d, defs); }
    case LetFuns(ds, body) => if d in DecsOf(ds) { BodyArityFuns(ds, d, defs); } else { BodyArity(body, d, defs); }
    case _ =>
  }

  lemma {:induction false} BodyArityAll(es: Exps, d: FunDec, defs: map<Sym, FunDec>)
    requires ArityOkAll(es, defs) && d in DecsInAll(es) && d.Function?
    ensures ArityOk(d.body, defs)
  {
    if d in DecsIn(es.head) { BodyArity(es.head, d, defs); } else { BodyArityAll(es.tail, d, defs); }
  }

  lemma {:induction false} BodyArityFuns(ds: Funs, d: FunDec, defs: map<Sym, FunDec>)
    requires ArityOkFuns(ds, defs) && d in DecsOf(ds) && d.Function?
    ensures ArityOk(d.body, defs)
  {
    if d != ds.first {
      if d in BodyDecs(ds.first) { BodyArity(ds.first.body, d, defs); } else { BodyArityFuns(ds.rest, d, defs); }
    }
  }

  /** The inliner's view of a program: every definition, the recursive functions found in `links`. */
  function UnitOf(q: Program, links: map<Sym, Sym>): Unit
    requires q.main.Function?
  {
    var defs := DefsOf(q.Decs());
    Unit(defs, RecFuns(Edges(q.main.body, MAIN), links), |defs.Keys|)
  }

  lemma ProgramDefined(q: Program)
    requires Renamed(q)
    ensures AllDefined(q.Decs(), DefsOf(q.Decs()))
    ensures AllDefined(DecsIn(q.main.body), DefsOf(q.Decs())) && ArityScope(MainScope(q), DefsOf(q.Decs()))
  {
    var defs := DefsOf(q.Decs());
    DefsFound(q.Decs());
    AllDefinedParts(DecsOf(q.prims), DecsOf(q.Chunk()), defs);
    MainVisits(q);
    AllDefinedParts([q.main], DecsIn(q.main.body), defs);
    TopScopes(q);
    SigsArity(q.prims, defs);
    SigsArity(q.Chunk(), defs);
  }

  /** A function with a body is `_main` or declared in its text. */
  lemma {:induction false} PrimsOnly(ds: Funs, d: FunDec)
    requires Prelude(ds) && d in DecsOf(ds)
    ensures d.Primitive?
  {
    if d != ds.first { PrimsOnly(ds.rest, d); }
  }

  lemma DefinedInText(q: Program, f: Sym)
    requires Renamed(q) && f in DefsOf(q.Decs()) && DefsOf(q.Decs())[f].Function?
    ensures DefsOf(q.Decs())[f].name == f && (DefsOf(q.Decs())[f] == q.main || DefsOf(q.Decs())[f] in DecsIn(q.main.body))
  {
    var d := DefsOf(q.Decs())[f];
    DefsFound(q.Decs());
    MainVisits(q);
    if d in DecsOf(q.prims) { PrimsOnly(q.prims, d); }
    assert d in [q.main] + DecsIn(q.main.body);
  }

  lemma ProgramArities(q: Program, links: map<Sym, Sym>)
    requires Renamed(q)
    ensures Arities(UnitOf(q, links)) && ArityOk(q.main.body, DefsOf(q.Decs()))
  {
    hide ArityOk, RecFuns, Edges;
    var defs := DefsOf(q.Decs());
    ProgramDefined(q);
    TypedArity(q.main.body, MainScope(q), false, defs);
    forall f | UnitOf(q, links).Expands(f) ensures ArityOk(defs[f].body, defs) {
      DefinedInText(q, f);
      if defs[f] != q.main { BodyArity(q.main.body, defs[f], defs); }
    }
  }

  /** A renamed program can be expanded if and only if no call of it comes to a cycle of functions
      the inliner expands. */
  lemma ProgramInlines(q: Program, links: map<Sym, Sym>)
    requires Renamed(q)
    ensures (exists e2 :: Inlined(q.main.body, e2, UnitOf(q, links), UnitOf(q, links).bound))
       <==> Acyclic(Callees(q.main.body), UnitOf(q, links))
  {
    hide Inlined, Acyclic, Callees, UnitOf, ArityOk, Arities;
    ProgramArities(q, links);
    ProgramDefs(q, links);
    InlinedExactly(q.main.body, UnitOf(q, links));
  }

  lemma ProgramDefs(q: Program, links: map<Sym, Sym>)
    requires q.main.Function?
    ensures UnitOf(q, links).defs == DefsOf(q.Decs())
  {}

  /** Where the call graph has every call of a body, it has every call of the functions inside. */
  lemma {:induction false} TracedWithin(fn: Sym, e: Exp, d: FunDec, closure: set<Edge>)
    requires Traced(fn, e, closure) && d in DecsIn(e) && d.Function?
    ensures Traced(d.name, d.body, closure)
    decreases e
  {
    match e
    case OpExp(l, _, r) => if d in DecsIn(l) { TracedWithin(fn, l, d, closure); } else { TracedWithin(fn, r, d, closure); }
    case SeqExp(es) => TracedWithinAll(fn, es, d, closure);
    case AssignExp(_, e1) => TracedWithin(fn, e1, d, closure);
    case IfExp(c, t, f) =>
      if d in DecsIn(c) { TracedWithin(fn, c, d, closure); }
      else if d in DecsIn(t) { TracedWithin(fn, t, d, closure); }
      else { TracedWithin(fn, f, d, closure); }
    case WhileExp(c, body) => if d in DecsIn(c) { TracedWithin(fn, c, d, closure); } else { TracedWithin(fn, body, d, closure); }
    case ForExp(_, lo, hi, body) =>
      if d in DecsIn(lo) { TracedWithin(fn, lo, d, closure); }
      else if d in DecsIn(hi) { TracedWithin(fn, hi, d, closure); }
      else { TracedWithin(fn, body, d, closure); }
    case CallExp(_, args) =>
      NoCallsNoEdgesAll(args, fn);
      TracedWithinAll(fn, args, d, closure);
    case LetVar(_, init, body) =>
      if d in DecsIn(init) { TracedWithin(fn, init, d, closure); } else { TracedWithin(fn, body, d, closure); }
    case LetFuns(ds, body) =>
      if d in DecsOf(ds) { TracedWithinFuns(fn, ds, d, closure); } else { TracedWithin(fn, body, d, closure); }
    case _ =>
  }

  lemma {:induction false} TracedWithinAll(fn: Sym, es: Exps, d: FunDec, closure: set<Edge>)
    requires NoCallsInArgsAll(es) && NestedCalledAll(es, fn, closure) && EdgesAll(es, fn) <= closure
    requires d in DecsInAll(es) && d.Function?
    ensures Traced(d.name, d.body, closure)
    decreases es
  {
    if d in DecsIn(es.head) { TracedWithin(fn, es.head, d, closure); } else { TracedWithinAll(fn, es.tail, d, closure); }
  }

  lemma {:induction false} TracedWithinFuns(fn: Sym, ds: Funs, d: FunDec, closure: set<Edge>)
    requires NoCallsInArgsFuns(ds) && NestedCalledFuns(ds, fn, closure) && EdgesOf(ds) <= closure
    requires d in DecsOf(ds) && d.Function?
    ensures Traced(d.name, d.body, closure)
    decreases ds
  {
    if d != ds.first {
      if d in BodyDecs(ds.first) { TracedWithin(ds.first.name, ds.first.body, d, closure); }
      else { TracedWithinFuns(fn, ds.rest, d, closure); }
    }
  }

  /** Expansion ends on a program none of whose calls stands in the arguments of another, and whose
      functions are all reached by calls from the function around them. */
  lemma PlainCallsAcyclic(q: Program, links: map<Sym, Sym>)
    requires Renamed(q) && NoCallsInArgs(q.main.body)
    requires NestedCalled(q.main.body, MAIN, Closure(Edges(q.main.body, MAIN)))
    ensures Acyclic(Callees(q.main.body), UnitOf(q, links))
  {
    hide RecFuns, NoCallsInArgs, NestedCalled;
    var edges, cx := Edges(q.main.body, MAIN), UnitOf(q, links);
    var closure := Closure(edges);
    ClosureIsLeast(edges, {});
    forall f | cx.Expands(f) ensures Traced(f, cx.defs[f].body, closure) {
      DefinedInText(q, f);
      if cx.defs[f] != q.main { TracedWithin(MAIN, q.main.body, cx.defs[f], closure); }
    }
    RecursiveLeft(edges, links);
    TracedAcyclic(Callees(q.main.body), cx, closure);
  }

  lemma {:induction false} PreludeSilent(ds: Funs)
    requires Prelude(ds)
    ensures EdgesOf(ds) == {}
  {
    if ds.FunCons? { PreludeSilent(ds.rest); }
  }

  /** The first vertex of the parent graph: the first function of the first chunk. */
  function FirstVertex(q: Program): Sym { if q.prims.FunCons? then q.prims.first.name else MAIN }

  /** The parent graph of a program; its first vertex stands for the missing parent. */
  function ProgramLinks(q: Program): map<Sym, Sym> { ParentsOf(q.prims, FirstVertex(q)) + ParentsOf(q.Chunk(), FirstVertex(q)) }

  lemma ProgramEdges(q: Program)
    requires Renamed(q)
    ensures EdgesOf(q.prims) + EdgesOf(q.Chunk()) == Edges(q.main.body, MAIN)
  {
    PreludeSilent(q.prims);
    assert EdgesOf(NoFun) == {};
  }

  /** What the inliner's constructor has computed of a program. */
  method Graphs(q: Program) returns (edges: set<Edge>, links: map<Sym, Sym>)
    requires Renamed(q)
    ensures edges == Edges(q.main.body, MAIN) && links == ProgramLinks(q)
  {
    hide Renamed, EdgesOf, ParentsOf;
    var calls := new CallGraphVisitor();
    calls.VisitChunk(q.prims);
    calls.VisitChunk(q.Chunk());
    var parents := new ParentGraphVisitor(FirstVertex(q));
    parents.VisitChunk(q.prims);
    parents.VisitChunk(q.Chunk());
    ProgramEdges(q);
    return calls.edges, parents.links;
  }

  /** For every input, the same primitive calls and the same end, or none. */
  ghost predicate Alike(q: Program, q2: Program)
    requires q.main.Function? && q2.main.Function?
  {
    && (forall input: seq<int32>, o: Outcome<int32> :: !o.Timeout? ==> (EndsAs(q, input, o) <==> EndsAs(q2, input, o)))
    && (forall input: seq<int32> :: Diverges(q, input) <==> Diverges(q2, input))
  }

  lemma InlinedAlike(q: Program, e2: Exp, recs: set<Sym>, bound: nat)
    requires Renamed(q) && Inlined(q.main.body, e2, Unit(DefsOf(q.Decs()), recs, bound), bound)
    ensures q.main.Function? && Alike(q, WithBody(q, e2))
  {
    hide Inlined, EndsAs, Diverges;
    var q2 := WithBody(q, e2);
    forall input: seq<int32>, o: Outcome<int32> | !o.Timeout? ensures EndsAs(q, input, o) <==> EndsAs(q2, input, o) {
      InlineCorrect(q, e2, recs, bound, input, o);
    }
    forall input: seq<int32> ensures Diverges(q, input) <==> Diverges(q2, input) {
      InlineCorrect(q, e2, recs, bound, input, Brk(State([], input, [])));
    }
  }

  /** The inliner at work: where expansion ends, it makes a program in which only recursive functions
      and primitives are called, and which behaves as the given one. */
  method InlineMain(q: Program) returns (q2: Program)
    requires Renamed(q) && Acyclic(Callees(q.main.body), UnitOf(q, ProgramLinks(q)))
    ensures q2.main.Function? && q2 == WithBody(q, q2.main.body) && Alike(q, q2)
    ensures var cx := UnitOf(q, ProgramLinks(q)); Inlined(q.main.body, q2.main.body, cx, cx.bound)
    ensures forall g :: g in Callees(q2.main.body) ==> !UnitOf(q, ProgramLinks(q)).Expands(g)
  {
    hide Renamed, Acyclic, Inlined, Arities, ArityOk, Alike;
    RenamedMain(q);
    var edges, links := Graphs(q);
    var inliner := new Inliner(DefsOf(q.Decs()), edges, links);
    ghost var cx := inliner.Scope();
    ProgramArities(q, links);
    AcyclicEnough(Callees(q.main.body), cx);
    var e2 := inliner.InlineExp(q.main.body, cx.bound);
    OnlyRecursiveLeft(q.main.body, e2, cx, cx.bound);
    q2 := WithBody(q, e2);
    InlinedAlike(q, e2, cx.recs, cx.bound);
  }
}
