/** What renaming and desugaring establish for the passes after them: checked programs stay
    checked, every name stands for one declaration, and no `for` is left. */
module Hygiene {
  import opened Int32
  import opened Options
  import opened Tiger
  import opened Check
  import opened Evaluation
  import opened Programs
  import opened Desugar
  import opened Rename

  // ----- desugared programs stay checked -----

  /** `sc2` sees what `sc` sees, and may assign the loop indices. */
  ghost predicate Refines(sc: Scope, sc2: Scope) {
    sc2.funs == sc.funs && forall x :: x in sc.vars && !Reserved(x) ==> x in sc2.vars && (sc2.vars[x] ==> sc.vars[x])
  }

  lemma {:induction false} SigsDesugared(ds: Funs)
    ensures Sigs(DesugarFuns(ds)) == Sigs(ds)
  {
    if ds.FunCons? { SigsDesugared(ds.rest); }
  }

  lemma {:induction false} FormalsRefine(xs: seq<Sym>, sc: Scope, sc2: Scope)
    requires Refines(sc, sc2)
    ensures Refines(sc.Formals(xs), sc2.Formals(xs))
    decreases |xs|
  {
    if xs != [] { FormalsRefine(xs[1..], sc.Var(xs[0], false), sc2.Var(xs[0], false)); }
  }

  lemma TemplateTyped(i: Sym, n: int32, hi: Exp, body: Exp, sc: Scope, inLoop: bool)
    requires !Reserved(i) && TypeOf(hi, sc.Var(LO, false), inLoop) == Some(IntTy)
    requires TypeOf(body, sc.Var(LO, false).Var(HI, false).Var(i, false), true) == Some(VoidTy)
    ensures TypeOf(Template(i, IntExp(n), hi, body), sc, inLoop) == Some(VoidTy)
  {
    var sc3 := sc.Var(LO, false).Var(HI, false).Var(i, false);
    LoopBodyTyped(i, body, sc3);
    assert TypeOf(WhileExp(Int(1), LoopBody(i, body)), sc3, inLoop) == Some(VoidTy);
    assert TypeOf(Unit(), sc3, inLoop) == Some(VoidTy);
    assert TypeOf(OpExp(VarExp(LO), Comparison(Le), VarExp(HI)), sc3, inLoop) == Some(IntTy);
    assert TypeOf(Loop(i, body), sc3, inLoop) == Some(VoidTy);
    assert TypeOf(LetVar(i, VarExp(LO), Loop(i, body)), sc.Var(LO, false).Var(HI, false), inLoop) == Some(VoidTy);
  }

  lemma LoopBodyTyped(i: Sym, body: Exp, sc: Scope)
    requires i in sc.vars && !sc.vars[i] && HI in sc.vars && TypeOf(body, sc, true) == Some(VoidTy)
    ensures TypeOf(LoopBody(i, body), sc, true) == Some(VoidTy)
  {
    var step := Cons(AssignExp(i, OpExp(VarExp(i), Arithmetic(Add), Int(1))), NoExp);
    var test := IfExp(OpExp(VarExp(i), Comparison(Eq), VarExp(HI)), BreakExp, Unit());
    assert TypeOf(OpExp(VarExp(i), Arithmetic(Add), Int(1)), sc, true) == Some(IntTy);
    assert TypeOfSeq(step, sc, true) == Some(VoidTy);
    assert TypeOf(Unit(), sc, true) == Some(VoidTy);
    assert TypeOf(OpExp(VarExp(i), Comparison(Eq), VarExp(HI)), sc, true) == Some(IntTy);
    assert TypeOf(test, sc, true) == Some(VoidTy);
    assert TypeOfSeq(Cons(test, step), sc, true) == Some(VoidTy);
  }

  lemma {:induction false} TypedDesugared(e: Exp, sc: Scope, sc2: Scope, inLoop: bool)
    requires Clean(e) && TypeOf(e, sc, inLoop).Some? && Refines(sc, sc2)
    ensures TypeOf(DesugarExp(e), sc2, inLoop) == TypeOf(e, sc, inLoop)
  {
    match e
    case IntExp(_) =>
    case VarExp(_) =>
    case OpExp(l, _, r) => TypedDesugared(l, sc, sc2, inLoop); TypedDesugared(r, sc, sc2, inLoop);
    case SeqExp(es) => SeqDesugared(es, sc, sc2, inLoop);
    case AssignExp(_, e1) => TypedDesugared(e1, sc, sc2, inLoop);
    case IfExp(c, t, f) =>
      TypedDesugared(c, sc, sc2, inLoop);
      TypedDesugared(t, sc, sc2, inLoop);
      TypedDesugared(f, sc, sc2, inLoop);
    case WhileExp(c, body) => TypedDesugared(c, sc, sc2, inLoop); TypedDesugared(body, sc, sc2, true);
    case ForExp(i, lo, hi, body) =>
      var sc3 := sc2.Var(LO, false);
      TypedDesugared(hi, sc, sc3, inLoop);
      TypedDesugared(body, sc.Var(i, true), sc3.Var(HI, false).Var(i, false), true);
      TemplateTyped(i, lo.value, DesugarExp(hi), DesugarExp(body), sc2, inLoop);
    case BreakExp =>
    case CallExp(_, args) => IntsDesugared(args, sc, sc2, inLoop);
    case LetVar(x, init, body) =>
      TypedDesugared(init, sc, sc2, inLoop);
      TypedDesugared(body, sc.Var(x, false), sc2.Var(x, false), inLoop);
    case LetFuns(ds, body) =>
      SigsDesugared(ds);
      ChunkDesugared(ds, sc.Chunk(ds), sc2.Chunk(ds));
      TypedDesugared(body, sc.Chunk(ds), sc2.Chunk(ds), inLoop);
  }

  lemma {:induction false} SeqDesugared(es: Exps, sc: Scope, sc2: Scope, inLoop: bool)
    requires CleanAll(es) && TypeOfSeq(es, sc, inLoop).Some? && Refines(sc, sc2)
    ensures TypeOfSeq(DesugarExps(es), sc2, inLoop) == TypeOfSeq(es, sc, inLoop)
  {
    match es
    case NoExp =>
    case Cons(e, NoExp) => TypedDesugared(e, sc, sc2, inLoop);
    case Cons(e, rest) => TypedDesugared(e, sc, sc2, inLoop); SeqDesugared(rest, sc, sc2, inLoop);
  }

  lemma {:induction false} IntsDesugared(es: Exps, sc: Scope, sc2: Scope, inLoop: bool)
    requires CleanAll(es) && AllInt(es, sc, inLoop) && Refines(sc, sc2)
    ensures AllInt(DesugarExps(es), sc2, inLoop)
  {
    if es.Cons? { TypedDesugared(es.head, sc, sc2, inLoop); IntsDesugared(es.tail, sc, sc2, inLoop); }
  }

  lemma {:induction false} ChunkDesugared(ds: Funs, sc: Scope, sc2: Scope)
    requires CleanFuns(ds) && ChunkOk(ds, sc) && Refines(sc, sc2)
    ensures ChunkOk(DesugarFuns(ds), sc2)
  {
    if ds.FunCons? {
      var d := ds.first;
      if d.Function? {
        FormalsRefine(d.formals, sc, sc2);
        TypedDesugared(d.body, sc.Formals(d.formals), sc2.Formals(d.formals), false);
      }
      ChunkDesugared(ds.rest, sc, sc2);
    }
  }

  lemma LoopBodyNoFor(i: Sym, body: Exp)
    requires NoFor(body)
    ensures NoFor(LoopBody(i, body))
  {
    var step := Cons(AssignExp(i, OpExp(VarExp(i), Arithmetic(Add), Int(1))), NoExp);
    var test := IfExp(OpExp(VarExp(i), Comparison(Eq), VarExp(HI)), BreakExp, Unit());
    assert NoFor(VarExp(i)) && NoFor(Int(1)) && NoFor(VarExp(HI));
    assert NoFor(OpExp(VarExp(i), Arithmetic(Add), Int(1)));
    assert NoFor(step.head);
    assert NoForAll(step);
    assert NoFor(OpExp(VarExp(i), Comparison(Eq), VarExp(HI))) && NoFor(Unit());
    assert NoFor(test);
    assert NoForAll(Cons(test, step));
  }

  lemma LoopNoFor(i: Sym, body: Exp)
    requires NoFor(body)
    ensures NoFor(Loop(i, body))
  {
    LoopBodyNoFor(i, body);
    hide LoopBody;
    assert NoFor(Int(1)) && NoFor(Unit());
    assert NoFor(WhileExp(Int(1), LoopBody(i, body)));
    assert NoFor(OpExp(VarExp(LO), Comparison(Le), VarExp(HI)));
  }

  lemma TemplateNoFor(i: Sym, lo: Exp, hi: Exp, body: Exp)
    requires lo.IntExp? && NoFor(hi) && NoFor(body)
    ensures NoFor(Template(i, lo, hi, body))
  {
    LoopNoFor(i, body);
    hide Loop;
    assert NoFor(LetVar(i, VarExp(LO), Loop(i, body)));
  }

  /** No `for` survives; a checked `for` starts from a literal. */
  lemma {:induction false} ForsGone(e: Exp, sc: Scope, inLoop: bool)
    requires TypeOf(e, sc, inLoop).Some?
    ensures NoFor(DesugarExp(e))
  {
    match e
    case OpExp(l, _, r) => ForsGone(l, sc, inLoop); ForsGone(r, sc, inLoop);
    case SeqExp(es) => TypedParts(es, sc, inLoop); AllForsGone(es, sc, inLoop);
    case AssignExp(_, e1) => ForsGone(e1, sc, inLoop);
    case IfExp(c, t, f) => ForsGone(c, sc, inLoop); ForsGone(t, sc, inLoop); ForsGone(f, sc, inLoop);
    case WhileExp(c, body) => ForsGone(c, sc, inLoop); ForsGone(body, sc, true);
    case ForExp(i, lo, hi, body) =>
      ForsGone(hi, sc, inLoop);
      ForsGone(body, sc.Var(i, true), true);
      TemplateNoFor(i, lo, DesugarExp(hi), DesugarExp(body));
    case CallExp(_, args) => TypedParts(args, sc, inLoop); AllForsGone(args, sc, inLoop);
    case LetVar(x, init, body) => ForsGone(init, sc, inLoop); ForsGone(body, sc.Var(x, false), inLoop);
    case LetFuns(ds, body) => FunsForsGone(ds, sc.Chunk(ds)); ForsGone(body, sc.Chunk(ds), inLoop);
    case _ =>
  }

  lemma {:induction false} AllForsGone(es: Exps, sc: Scope, inLoop: bool)
    requires SeqTyped(es, sc, inLoop)
    ensures NoForAll(DesugarExps(es))
  {
    if es.Cons? { ForsGone(es.head, sc, inLoop); AllForsGone(es.tail, sc, inLoop); }
  }

  lemma {:induction false} FunsForsGone(ds: Funs, sc: Scope)
    requires ChunkOk(ds, sc)
    ensures NoForFuns(DesugarFuns(ds))
  {
    if ds.FunCons? {
      if ds.first.Function? { ForsGone(ds.first.body, sc.Formals(ds.first.formals), false); }
      FunsForsGone(ds.rest, sc);
    }
  }

  // ----- renamed programs stay checked -----

  lemma {:induction false} SigsFind(ds: Funs, f: Sym)
    ensures f in Sigs(ds) <==> FindFun(ds, f).FunCons?
    ensures f in Sigs(ds) ==> Sigs(ds)[f] == SigOf(FindFun(ds, f).first)
  {
    if ds.FunCons? { SigsFind(ds.rest, f); }
  }

  lemma {:induction false} ScopedVar(sc: RScope, env: Env, env2: Env, x: Sym)
    requires EnvR(sc, env, env2) && x in ScopeOf(env).vars
    ensures var y := ResolveVar(sc, x); y in ScopeOf(env2).vars && ScopeOf(env2).vars[y] == ScopeOf(env).vars[x]
  {
    match sc
    case RTop =>
    case RVar(y, k, outer) =>
      if x != y {
        ScopedVar(outer, env.outer, env2.outer, x);
        ResolvedVar(outer, env.outer, env2.outer, x);
        var s: nat :| ResolveVar(outer, x) == Fresh(x, s);
        if Fresh(x, s) == Fresh(y, k) { FreshInjective(x, s, y, k); }
      }
    case RFuns(_, _, outer) => ScopedVar(outer, env.outer, env2.outer, x);
  }

  lemma {:induction false} ScopedFun(sc: RScope, env: Env, env2: Env, f: Sym)
    requires EnvR(sc, env, env2) && f in ScopeOf(env).funs
    ensures var g := ResolveFun(sc, f);
      GivenFor(f, g) && g in ScopeOf(env2).funs && ScopeOf(env2).funs[g] == ScopeOf(env).funs[f]
  {
    match sc
    case RTop =>
    case RVar(_, _, outer) => ScopedFun(outer, env.outer, env2.outer, f);
    case RFuns(hs, k, outer) =>
      var count := RenameHeaders(env.funs, k).count;
      SigsFind(env.funs, f);
      HeadersGiven(env.funs, k);
      HeadFound(env.funs, k, f);
      SigsFind(env2.funs, ResolveFun(sc, f));
      if FindFun(env.funs, f).FunCons? {
        var h, n := FoundRenamed(env.funs, k, sc, count, f);
      } else {
        ScopedFun(outer, env.outer, env2.outer, f);
        NotFoundRenamed(env.funs, k, sc, count, f, ResolveFun(outer, f));
      }
  }

  lemma {:induction false} TypedRenamed(e: Exp, sc: RScope, n: nat, env: Env, env2: Env, inLoop: bool)
    requires TypeOf(e, ScopeOf(env), inLoop).Some? && Plain(e) && EnvR(sc, env, env2)
    ensures TypeOf(RenameExp(e, sc, n).tree, ScopeOf(env2), inLoop) == TypeOf(e, ScopeOf(env), inLoop)
    decreases e
  {
    match e
    case IntExp(_) =>
    case VarExp(x) => ScopedVar(sc, env, env2, x);
    case OpExp(l, _, r) =>
      TypedRenamed(l, sc, n, env, env2, inLoop);
      TypedRenamed(r, sc, RenameExp(l, sc, n).count, env, env2, inLoop);
    case SeqExp(es) => SeqRenamed(es, sc, n, env, env2, inLoop);
    case AssignExp(x, e1) =>
      ScopedVar(sc, env, env2, x);
      TypedRenamed(e1, sc, n, env, env2, inLoop);
    case IfExp(c, t, f) =>
      var c2 := RenameExp(c, sc, n);
      TypedRenamed(c, sc, n, env, env2, inLoop);
      TypedRenamed(t, sc, c2.count, env, env2, inLoop);
      TypedRenamed(f, sc, RenameExp(t, sc, c2.count).count, env, env2, inLoop);
    case WhileExp(c, body) =>
      TypedRenamed(c, sc, n, env, env2, inLoop);
      TypedRenamed(body, sc, RenameExp(c, sc, n).count, env, env2, true);
    case ForExp(i, lo, hi, body) => ForRenamed(i, lo, hi, body, sc, n, env, env2, inLoop);
    case BreakExp =>
    case CallExp(f, args) =>
      ScopedFun(sc, env, env2, f);
      IntsRenamed(args, sc, n, env, env2, inLoop);
    case LetVar(x, init, body) => LetVarRenamed(x, init, body, sc, n, env, env2, inLoop);
    case LetFuns(ds, body) => LetFunsRenamed(ds, body, sc, n, env, env2, inLoop);
  }

  lemma {:induction false} ForRenamed(i: Sym, lo: Exp, hi: Exp, body: Exp, sc: RScope, n: nat, env: Env, env2: Env, inLoop: bool)
    requires TypeOf(ForExp(i, lo, hi, body), ScopeOf(env), inLoop).Some? && Plain(ForExp(i, lo, hi, body)) && EnvR(sc, env, env2)
    ensures TypeOf(RenameExp(ForExp(i, lo, hi, body), sc, n).tree, ScopeOf(env2), inLoop) == Some(VoidTy)
    decreases ForExp(i, lo, hi, body), 0
  {
    var hi2 := RenameExp(hi, sc, n + 1);
    TypedRenamed(hi, sc, n + 1, env, env2, inLoop);
    TypedRenamed(body, RVar(i, n, sc), hi2.count, BindVar(i, 0, true, env), BindVar(Fresh(i, n), 0, true, env2), true);
  }

  lemma {:induction false} LetVarRenamed(x: Sym, init: Exp, body: Exp, sc: RScope, n: nat, env: Env, env2: Env, inLoop: bool)
    requires TypeOf(LetVar(x, init, body), ScopeOf(env), inLoop).Some? && Plain(LetVar(x, init, body)) && EnvR(sc, env, env2)
    ensures TypeOf(RenameExp(LetVar(x, init, body), sc, n).tree, ScopeOf(env2), inLoop)
         == TypeOf(LetVar(x, init, body), ScopeOf(env), inLoop)
    decreases LetVar(x, init, body), 0
  {
    TypedRenamed(init, sc, n + 1, env, env2, inLoop);
    TypedRenamed(body, RVar(x, n, sc), RenameExp(init, sc, n + 1).count, BindVar(x, 0, false, env),
                 BindVar(Fresh(x, n), 0, false, env2), inLoop);
  }

  lemma {:induction false} LetFunsRenamed(ds: Funs, body: Exp, sc: RScope, n: nat, env: Env, env2: Env, inLoop: bool)
    requires TypeOf(LetFuns(ds, body), ScopeOf(env), inLoop).Some? && Plain(LetFuns(ds, body)) && EnvR(sc, env, env2)
    ensures TypeOf(RenameExp(LetFuns(ds, body), sc, n).tree, ScopeOf(env2), inLoop) == TypeOf(LetFuns(ds, body), ScopeOf(env), inLoop)
    decreases LetFuns(ds, body), 0
  {
    var hs := RenameHeaders(ds, n);
    var sc1 := RFuns(hs.tree, n, sc);
    var ds2 := RenameBodies(ds, n, sc1, hs.count);
    var e1, e2 := BindFuns(ds, env), BindFuns(ds2.tree, env2);
    ChunkRenamed(ds, n, sc1, hs.count, e1, e2);
    TypedRenamed(body, sc1, ds2.count, e1, e2, inLoop);
  }

  lemma {:induction false} SeqRenamed(es: Exps, sc: RScope, n: nat, env: Env, env2: Env, inLoop: bool)
    requires TypeOfSeq(es, ScopeOf(env), inLoop).Some? && PlainAll(es) && EnvR(sc, env, env2)
    ensures TypeOfSeq(RenameExps(es, sc, n).tree, ScopeOf(env2), inLoop) == TypeOfSeq(es, ScopeOf(env), inLoop)
    decreases es
  {
    if es.Cons? {
      TypedRenamed(es.head, sc, n, env, env2, inLoop);
      if es.tail.Cons? { SeqRenamed(es.tail, sc, RenameExp(es.head, sc, n).count, env, env2, inLoop); }
    }
  }

  lemma {:induction false} IntsRenamed(es: Exps, sc: RScope, n: nat, env: Env, env2: Env, inLoop: bool)
    requires AllInt(es, ScopeOf(env), inLoop) && PlainAll(es) && EnvR(sc, env, env2)
    ensures AllInt(RenameExps(es, sc, n).tree, ScopeOf(env2), inLoop)
    decreases es
  {
    if es.Cons? {
      TypedRenamed(es.head, sc, n, env, env2, inLoop);
      IntsRenamed(es.tail, sc, RenameExp(es.head, sc, n).count, env, env2, inLoop);
    }
  }

  lemma {:induction false} BodyRenamed(d: FunDec, h: nat, sc: RScope, n: nat, env: Env, env2: Env)
    requires d.Function? && TypeOf(d.body, ScopeOf(env).Formals(d.formals), false) == Some(d.result) && Plain(d.body) && EnvR(sc, env, env2)
    ensures TypeOf(RenameExp(d.body, FormalsScopeOf(d.formals, h, sc), n).tree, ScopeOf(env2).Formals(RenameFormals(d.formals, h)), false)
         == Some(d.result)
    decreases d
  {
    FormalsR(d.formals, h, 0, sc, env, env2);
    FormalsScope(d.formals, 0, env);
    FormalsScope(RenameFormals(d.formals, h), 0, env2);
    TypedRenamed(d.body, FormalsScopeOf(d.formals, h, sc), n, BindFormals(d.formals, 0, env),
                 BindFormals(RenameFormals(d.formals, h), 0, env2), false);
  }

  lemma {:induction false} ChunkRenamed(ds: Funs, h: nat, sc: RScope, n: nat, env: Env, env2: Env)
    requires ChunkOk(ds, ScopeOf(env)) && PlainFuns(ds) && EnvR(sc, env, env2)
    ensures ChunkOk(RenameBodies(ds, h, sc, n).tree, ScopeOf(env2))
    decreases ds
  {
    hide TypeOf, RenameExp, EnvR, Plain;
    if ds.FunCons? {
      var d := ds.first;
      var k := h + |d.formals|;
      if d.Function? { BodyRenamed(d, h, sc, n, env, env2); }
      BodiesUnfold(ds, h, sc, n);
      ChunkRenamed(ds.rest, if Renames(d) then k + 1 else k, sc,
                   if d.Function? then RenameExp(d.body, FormalsScopeOf(d.formals, h, sc), n).count else n, env, env2);
    }
  }

  // ----- every name stands for one declaration -----

  /** The variables in scope were named before count `n`. */
  ghost predicate Older(vars: set<Sym>, n: nat) {
    forall x: Sym, k: nat :: Fresh(x, k) in vars ==> k < n
  }

  lemma OlderLater(vars: set<Sym>, n: nat, m: nat)
    requires Older(vars, n) && n <= m
    ensures Older(vars, m)
  {}

  lemma OlderWith(vars: set<Sym>, n: nat, x: Sym)
    requires Older(vars, n)
    ensures Fresh(x, n) !in vars && Older(vars + {Fresh(x, n)}, n + 1)
  {
    forall y: Sym, k: nat | Fresh(y, k) in vars + {Fresh(x, n)} ensures k < n + 1 {
      if Fresh(y, k) !in vars { FreshInjective(y, k, x, n); }
    }
  }

  lemma {:induction false} UniqueRenamed(e: Exp, sc: RScope, n: nat, vars: set<Sym>)
    requires Older(vars, n)
    ensures Unique(RenameExp(e, sc, n).tree, vars)
    decreases e
  {
    match e
    case OpExp(l, _, r) =>
      UniqueRenamed(l, sc, n, vars);
      UniqueRenamed(r, sc, RenameExp(l, sc, n).count, vars);
    case SeqExp(es) => AllUniqueRenamed(es, sc, n, vars);
    case AssignExp(_, e1) => UniqueRenamed(e1, sc, n, vars);
    case IfExp(_, _, _) => IfUniqueRenamed(e, sc, n, vars);
    case WhileExp(c, body) =>
      UniqueRenamed(c, sc, n, vars);
      UniqueRenamed(body, sc, RenameExp(c, sc, n).count, vars);
    case ForExp(_, _, _, _) => ForUniqueRenamed(e, sc, n, vars);
    case CallExp(_, args) => AllUniqueRenamed(args, sc, n, vars);
    case LetVar(x, init, body) =>
      OlderWith(vars, n, x);
      UniqueRenamed(init, sc, n + 1, vars + {Fresh(x, n)});
      UniqueRenamed(body, RVar(x, n, sc), RenameExp(init, sc, n + 1).count, vars + {Fresh(x, n)});
    case LetFuns(ds, body) =>
      var hs := RenameHeaders(ds, n);
      var sc1 := RFuns(hs.tree, n, sc);
      FunsUniqueRenamed(ds, n, sc1, hs.count, vars);
      UniqueRenamed(body, sc1, RenameBodies(ds, n, sc1, hs.count).count, vars);
    case _ =>
  }

  lemma {:induction false} IfUniqueRenamed(e: Exp, sc: RScope, n: nat, vars: set<Sym>)
    requires e.IfExp?
    requires Older(vars, n)
    ensures Unique(RenameExp(e, sc, n).tree, vars)
    decreases e, 0
  {
    var c, t, f := e.test, e.thenclause, e.elseclause;
    var c2 := RenameExp(c, sc, n);
    UniqueRenamed(c, sc, n, vars);
    UniqueRenamed(t, sc, c2.count, vars);
    UniqueRenamed(f, sc, RenameExp(t, sc, c2.count).count, vars);
  }

  lemma {:induction false} ForUniqueRenamed(e: Exp, sc: RScope, n: nat, vars: set<Sym>)
    requires e.ForExp?
    requires Older(vars, n)
    ensures Unique(RenameExp(e, sc, n).tree, vars)
    decreases e, 0
  {
    var i, lo, hi, body := e.index, e.lo, e.hi, e.body;
    var lo2 := RenameExp(lo, sc, n + 1);
    OlderWith(vars, n, i);
    UniqueRenamed(lo, sc, n + 1, vars);
    UniqueRenamed(hi, sc, lo2.count, vars);
    UniqueRenamed(body, RVar(i, n, sc), RenameExp(hi, sc, lo2.count).count, vars + {Fresh(i, n)});
  }

  lemma {:induction false} AllUniqueRenamed(es: Exps, sc: RScope, n: nat, vars: set<Sym>)
    requires Older(vars, n)
    ensures UniqueAll(RenameExps(es, sc, n).tree, vars)
    decreases es
  {
    if es.Cons? {
      UniqueRenamed(es.head, sc, n, vars);
      AllUniqueRenamed(es.tail, sc, RenameExp(es.head, sc, n).count, vars);
    }
  }

  lemma {:induction false} FormalsUnique(xs: seq<Sym>, h: nat, vars: set<Sym>)
    requires Older(vars, h)
    ensures UniqueFormals(RenameFormals(xs, h), vars) && Older(vars + Names(RenameFormals(xs, h)), h + |xs|)
    decreases |xs|
  {
    var ys := RenameFormals(xs, h);
    if xs == [] {
      assert vars + Names(ys) == vars;
    } else {
      OlderWith(vars, h, xs[0]);
      FormalsUnique(xs[1..], h + 1, vars + {ys[0]});
      assert ys[1..] == RenameFormals(xs[1..], h + 1);
      assert vars + {ys[0]} + Names(ys[1..]) == vars + Names(ys) by { assert ys == [ys[0]] + ys[1..]; }
    }
  }

  lemma {:induction false} FunsUniqueRenamed(ds: Funs, h: nat, sc: RScope, n: nat, vars: set<Sym>)
    requires Older(vars, h) && n >= RenameHeaders(ds, h).count
    ensures UniqueFuns(RenameBodies(ds, h, sc, n).tree, vars)
    decreases ds
  {
    hide Older, Unique, RenameExp, FormalsScopeOf, RenameFormals, Fresh;
    if ds.FunCons? {
      BodiesUnfold(ds, h, sc, n);
      var d := ds.first;
      var k := h + |d.formals|;
      OlderLater(vars, h, if Renames(d) then k + 1 else k);
      if d.Function? {
        FormalsUnique(d.formals, h, vars);
        OlderLater(vars + Names(RenameFormals(d.formals, h)), k, n);
        UniqueRenamed(d.body, FormalsScopeOf(d.formals, h, sc), n, vars + Names(RenameFormals(d.formals, h)));
      }
      FunsUniqueRenamed(ds.rest, if Renames(d) then k + 1 else k, sc,
                        if d.Function? then RenameExp(d.body, FormalsScopeOf(d.formals, h, sc), n).count else n, vars);
    }
  }

  // ----- every function has a name of its own -----

  /** The declarations of a program text: functions with a body, other than `_main`. */
  ghost predicate Ordinary(e: Exp) {
    match e
    case IntExp(_) => true
    case VarExp(_) => true
    case OpExp(l, _, r) => Ordinary(l) && Ordinary(r)
    case SeqExp(es) => OrdinaryAll(es)
    case AssignExp(_, e1) => Ordinary(e1)
    case IfExp(c, t, f) => Ordinary(c) && Ordinary(t) && Ordinary(f)
    case WhileExp(c, body) => Ordinary(c) && Ordinary(body)
    case ForExp(_, lo, hi, body) => Ordinary(lo) && Ordinary(hi) && Ordinary(body)
    case BreakExp => true
    case CallExp(_, args) => OrdinaryAll(args)
    case LetVar(_, init, body) => Ordinary(init) && Ordinary(body)
    case LetFuns(ds, body) => OrdinaryFuns(ds) && Ordinary(body)
  }

  ghost predicate OrdinaryAll(es: Exps) {
    match es
    case NoExp => true
    case Cons(e, rest) => Ordinary(e) && OrdinaryAll(rest)
  }

  ghost predicate OrdinaryFuns(ds: Funs) {
    match ds
    case NoFun => true
    case FunCons(d, rest) => d.Function? && Renames(d) && Ordinary(d.body) && OrdinaryFuns(rest)
  }

  lemma {:induction false} OrdinaryIsPlain(e: Exp)
    requires Ordinary(e)
    ensures Plain(e)
  {
    match e
    case OpExp(l, _, r) => OrdinaryIsPlain(l); OrdinaryIsPlain(r);
    case SeqExp(es) => OrdinaryArePlain(es);
    case AssignExp(_, e1) => OrdinaryIsPlain(e1);
    case IfExp(c, t, f) => OrdinaryIsPlain(c); OrdinaryIsPlain(t); OrdinaryIsPlain(f);
    case WhileExp(c, body) => OrdinaryIsPlain(c); OrdinaryIsPlain(body);
    case ForExp(_, lo, hi, body) => OrdinaryIsPlain(lo); OrdinaryIsPlain(hi); OrdinaryIsPlain(body);
    case CallExp(_, args) => OrdinaryArePlain(args);
    case LetVar(_, init, body) => OrdinaryIsPlain(init); OrdinaryIsPlain(body);
    case LetFuns(ds, body) => OrdinaryFunsArePlain(ds); OrdinaryIsPlain(body);
    case _ =>
  }

  lemma {:induction false} OrdinaryArePlain(es: Exps)
    requires OrdinaryAll(es)
    ensures PlainAll(es)
  {
    if es.Cons? { OrdinaryIsPlain(es.head); OrdinaryArePlain(es.tail); }
  }

  lemma {:induction false} OrdinaryFunsArePlain(ds: Funs)
    requires OrdinaryFuns(ds)
    ensures PlainFuns(ds)
  {
    if ds.FunCons? { OrdinaryIsPlain(ds.first.body); OrdinaryFunsArePlain(ds.rest); }
  }

  lemma {:induction false} OrdinaryDesugared(e: Exp)
    requires Ordinary(e)
    ensures Ordinary(DesugarExp(e))
  {
    match e
    case OpExp(l, _, r) => OrdinaryDesugared(l); OrdinaryDesugared(r);
    case SeqExp(es) => AllOrdinaryDesugared(es);
    case AssignExp(_, e1) => OrdinaryDesugared(e1);
    case IfExp(c, t, f) => OrdinaryDesugared(c); OrdinaryDesugared(t); OrdinaryDesugared(f);
    case WhileExp(c, body) => OrdinaryDesugared(c); OrdinaryDesugared(body);
    case ForExp(i, lo, hi, body) =>
      OrdinaryDesugared(hi);
      OrdinaryDesugared(body);
      TemplateOrdinary(i, lo, DesugarExp(hi), DesugarExp(body));
    case CallExp(_, args) => AllOrdinaryDesugared(args);
    case LetVar(_, init, body) => OrdinaryDesugared(init); OrdinaryDesugared(body);
    case LetFuns(ds, body) => FunsOrdinaryDesugared(ds); OrdinaryDesugared(body);
    case _ =>
  }

  lemma {:induction false} AllOrdinaryDesugared(es: Exps)
    requires OrdinaryAll(es)
    ensures OrdinaryAll(DesugarExps(es))
  {
    if es.Cons? { OrdinaryDesugared(es.head); AllOrdinaryDesugared(es.tail); }
  }

  lemma {:induction false} FunsOrdinaryDesugared(ds: Funs)
    requires OrdinaryFuns(ds)
    ensures OrdinaryFuns(DesugarFuns(ds))
  {
    if ds.FunCons? { OrdinaryDesugared(ds.first.body); FunsOrdinaryDesugared(ds.rest); }
  }

  lemma LoopBodyOrdinary(i: Sym, body: Exp)
    requires Ordinary(body)
    ensures Ordinary(LoopBody(i, body))
  {
    var step := Cons(AssignExp(i, OpExp(VarExp(i), Arithmetic(Add), Int(1))), NoExp);
    var test := IfExp(OpExp(VarExp(i), Comparison(Eq), VarExp(HI)), BreakExp, Unit());
    assert Ordinary(VarExp(i)) && Ordinary(Int(1)) && Ordinary(VarExp(HI));
    assert Ordinary(OpExp(VarExp(i), Arithmetic(Add), Int(1)));
    assert Ordinary(step.head);
    assert OrdinaryAll(step);
    assert Ordinary(OpExp(VarExp(i), Comparison(Eq), VarExp(HI))) && Ordinary(Unit());
    assert Ordinary(test);
    assert OrdinaryAll(Cons(test, step));
  }

  lemma LoopOrdinary(i: Sym, body: Exp)
    requires Ordinary(body)
    ensures Ordinary(Loop(i, body))
  {
    LoopBodyOrdinary(i, body);
    hide LoopBody;
    assert Ordinary(Int(1)) && Ordinary(Unit());
    assert Ordinary(WhileExp(Int(1), LoopBody(i, body)));
    assert Ordinary(OpExp(VarExp(LO), Comparison(Le), VarExp(HI)));
  }

  lemma TemplateOrdinary(i: Sym, lo: Exp, hi: Exp, body: Exp)
    requires Ordinary(lo) && Ordinary(hi) && Ordinary(body)
    ensures Ordinary(Template(i, lo, hi, body))
  {
    LoopOrdinary(i, body);
    hide Loop;
    assert Ordinary(LetVar(i, VarExp(LO), Loop(i, body)));
  }

  function Range(lo: nat, hi: nat): (r: set<nat>)
    ensures forall k: nat :: k in r <==> lo <= k < hi
  {
    if hi <= lo then {} else Range(lo, hi - 1) + {hi - 1}
  }

  ghost predicate Stamped(d: FunDec, stamps: set<nat>) {
    d.Function? && exists x, k: nat :: d.name == Fresh(x, k) && k in stamps
  }

  /** Different functions, each named with a count from `stamps`. */
  ghost predicate Numbered(ds: seq<FunDec>, stamps: set<nat>) {
    (forall i :: 0 <= i < |ds| ==> Stamped(ds[i], stamps)) && Distinct(ds)
  }

  lemma StampsDiffer(d: FunDec, stamps: set<nat>, d2: FunDec, stamps2: set<nat>)
    requires Stamped(d, stamps) && Stamped(d2, stamps2) && stamps !! stamps2
    ensures d.name != d2.name
  {
    var x, k: nat :| d.name == Fresh(x, k) && k in stamps;
    var y, l: nat :| d2.name == Fresh(y, l) && l in stamps2;
    if d.name == d2.name { FreshInjective(x, k, y, l); }
  }

  lemma NumberedBoth(a: seq<FunDec>, s: set<nat>, b: seq<FunDec>, t: set<nat>, u: set<nat>)
    requires Numbered(a, s) && Numbered(b, t) && s !! t && s <= u && t <= u
    ensures Numbered(a + b, u)
  {
    var ds := a + b;
    forall i | 0 <= i < |ds| ensures Stamped(ds[i], u) {
      assert if i < |a| then Stamped(a[i], s) else Stamped(b[i - |a|], t);
    }
    forall i, j | 0 <= i < j < |ds| ensures ds[i].name != ds[j].name {
      if i < |a| && j >= |a| { StampsDiffer(a[i], s, b[j - |a|], t); }
    }
  }

  /** Counts from `n` to `m`, then from `m` to `k`. */
  lemma NumberedOn(low: nat, a: seq<FunDec>, n: nat, m: nat, b: seq<FunDec>, k: nat)
    requires Numbered(a, Range(n, m)) && Numbered(b, Range(m, k)) && low <= n <= m <= k
    ensures Numbered(a + b, Range(low, k))
  {
    NumberedBoth(a, Range(n, m), b, Range(m, k), Range(low, k));
  }

  lemma NoneNumbered(n: nat)
    ensures Numbered([], Range(n, n)) && forall k: nat :: Numbered([], Range(n, k))
  {}

  lemma NothingNumbered(stamps: set<nat>)
    ensures Numbered([], stamps)
  {}

  lemma OneNumbered(d: FunDec, f: Sym, k: nat)
    requires d.Function? && d.name == Fresh(f, k)
    ensures Numbered([d], {k})
  {}

  lemma RangesJoin(n: nat, m: nat, k: nat)
    requires n <= m <= k
    ensures Range(n, m) + Range(m, k) == Range(n, k)
  {}

  lemma {:induction false} NumberedRenamed(e: Exp, sc: RScope, n: nat)
    requires Ordinary(e)
    ensures Numbered(DecsIn(RenameExp(e, sc, n).tree), Range(n, RenameExp(e, sc, n).count))
    decreases e, 1
  {
    hide Numbered, Range, Fresh;
    NoneNumbered(n);
    match e
    case OpExp(l, _, r) =>
      NumberedRenamed(l, sc, n);
      NumberedRenamed(r, sc, RenameExp(l, sc, n).count);
      TwoNumbered(n, l, sc, n, r, sc);
    case SeqExp(es) => AllNumbered(es, sc, n);
    case AssignExp(_, e1) => NumberedRenamed(e1, sc, n);
    case IfExp(_, _, _) => IfNumbered(e, sc, n);
    case WhileExp(c, body) =>
      NumberedRenamed(c, sc, n);
      NumberedRenamed(body, sc, RenameExp(c, sc, n).count);
      TwoNumbered(n, c, sc, n, body, sc);
    case ForExp(_, _, _, _) => ForNumbered(e, sc, n);
    case CallExp(_, args) => AllNumbered(args, sc, n);
    case LetVar(x, init, body) =>
      NumberedRenamed(init, sc, n + 1);
      NumberedRenamed(body, RVar(x, n, sc), RenameExp(init, sc, n + 1).count);
      TwoNumbered(n, init, sc, n + 1, body, RVar(x, n, sc));
    case LetFuns(_, _) => LetFunsNumbered(e, sc, n);
    case _ =>
  }

  lemma {:induction false} IfNumbered(e: Exp, sc: RScope, n: nat)
    requires e.IfExp?
    requires Ordinary(e)
    ensures Numbered(DecsIn(RenameExp(e, sc, n).tree), Range(n, RenameExp(e, sc, n).count))
    decreases e, 0
  {
    hide Numbered, Range, Fresh;
    var c, t, f := e.test, e.thenclause, e.elseclause;
    var c2 := RenameExp(c, sc, n);
    var t2 := RenameExp(t, sc, c2.count);
    NumberedRenamed(c, sc, n);
    NumberedRenamed(t, sc, c2.count);
    TwoNumbered(n, c, sc, n, t, sc);
    NumberedRenamed(f, sc, t2.count);
    NumberedOn(n, DecsIn(c2.tree) + DecsIn(t2.tree), n, t2.count, DecsIn(RenameExp(f, sc, t2.count).tree), RenameExp(f, sc, t2.count).count);
  }

  lemma {:induction false} ForNumbered(e: Exp, sc: RScope, n: nat)
    requires e.ForExp? && Ordinary(e)
    ensures Numbered(DecsIn(RenameExp(e, sc, n).tree), Range(n, RenameExp(e, sc, n).count))
    decreases e, 0
  {
    hide Numbered, Range, Fresh;
    var i, lo, hi, body := e.index, e.lo, e.hi, e.body;
    var lo2 := RenameExp(lo, sc, n + 1);
    var hi2 := RenameExp(hi, sc, lo2.count);
    var b2 := RenameExp(body, RVar(i, n, sc), hi2.count);
    NumberedRenamed(lo, sc, n + 1);
    NumberedRenamed(hi, sc, lo2.count);
    TwoNumbered(n, lo, sc, n + 1, hi, sc);
    NumberedRenamed(body, RVar(i, n, sc), hi2.count);
    NumberedOn(n, DecsIn(lo2.tree) + DecsIn(hi2.tree), n, hi2.count, DecsIn(b2.tree), b2.count);
  }

  lemma {:induction false} LetFunsNumbered(e: Exp, sc: RScope, n: nat)
    requires e.LetFuns? && Ordinary(e)
    ensures Numbered(DecsIn(RenameExp(e, sc, n).tree), Range(n, RenameExp(e, sc, n).count))
    decreases e, 0
  {
    hide Numbered, Range, Fresh;
    var ds, body := e.funs, e.body;
    var hs := RenameHeaders(ds, n);
    var sc1 := RFuns(hs.tree, n, sc);
    var ds2 := RenameBodies(ds, n, sc1, hs.count);
    var b2 := RenameExp(body, sc1, ds2.count);
    FunsNumbered(ds, n, sc1, hs.count);
    RangesJoin(n, hs.count, ds2.count);
    NumberedRenamed(body, sc1, ds2.count);
    NumberedOn(n, DecsOf(ds2.tree), n, ds2.count, DecsIn(b2.tree), b2.count);
  }

  lemma TwoNumbered(low: nat, a: Exp, sc: RScope, n: nat, b: Exp, sc2: RScope)
    requires low <= n && Numbered(DecsIn(RenameExp(a, sc, n).tree), Range(n, RenameExp(a, sc, n).count))
    requires var m := RenameExp(a, sc, n).count;
      Numbered(DecsIn(RenameExp(b, sc2, m).tree), Range(m, RenameExp(b, sc2, m).count))
    ensures var a2 := RenameExp(a, sc, n);
      var b2 := RenameExp(b, sc2, a2.count);
      Numbered(DecsIn(a2.tree) + DecsIn(b2.tree), Range(low, b2.count))
  {
    var a2 := RenameExp(a, sc, n);
    var b2 := RenameExp(b, sc2, a2.count);
    NumberedOn(low, DecsIn(a2.tree), n, a2.count, DecsIn(b2.tree), b2.count);
  }

  lemma {:induction false} AllNumbered(es: Exps, sc: RScope, n: nat)
    requires OrdinaryAll(es)
    ensures Numbered(DecsInAll(RenameExps(es, sc, n).tree), Range(n, RenameExps(es, sc, n).count))
    decreases es, 0
  {
    if es.Cons? {
      var e2 := RenameExp(es.head, sc, n);
      var r := RenameExps(es.tail, sc, e2.count);
      NumberedRenamed(es.head, sc, n);
      AllNumbered(es.tail, sc, e2.count);
      NumberedOn(n, DecsIn(e2.tree), n, e2.count, DecsInAll(r.tree), r.count);
    }
  }

  /** Headers and bodies are counted apart. */
  lemma {:induction false} FunsNumbered(ds: Funs, h: nat, sc: RScope, n: nat)
    requires OrdinaryFuns(ds) && n >= RenameHeaders(ds, h).count
    ensures Numbered(DecsOf(RenameBodies(ds, h, sc, n).tree), Range(h, RenameHeaders(ds, h).count) + Range(n, RenameBodies(ds, h, sc, n).count))
    decreases ds, 0
  {
    hide RenameExp, FormalsScopeOf, RenameFormals, Fresh, Numbered;
    if ds.NoFun? {
      assert DecsOf(RenameBodies(ds, h, sc, n).tree) == [];
      NothingNumbered(Range(h, RenameHeaders(ds, h).count) + Range(n, RenameBodies(ds, h, sc, n).count));
    } else {
      BodiesUnfold(ds, h, sc, n);
      var d := ds.first;
      var k := h + |d.formals|;
      var hs := RenameHeaders(ds.rest, k + 1);
      var b2 := RenameExp(d.body, FormalsScopeOf(d.formals, h, sc), n);
      var r := RenameBodies(ds.rest, k + 1, sc, b2.count);
      var d2 := RenameBodies(ds, h, sc, n).tree.first;
      NumberedRenamed(d.body, FormalsScopeOf(d.formals, h, sc), n);
      FunsNumbered(ds.rest, k + 1, sc, b2.count);
      OneNumbered(d2, d.name, k);
      NumberedBoth([d2], {k}, DecsIn(b2.tree), Range(n, b2.count), {k} + Range(n, b2.count));
      NumberedBoth([d2] + DecsIn(b2.tree), {k} + Range(n, b2.count), DecsOf(r.tree), Range(k + 1, hs.count) + Range(b2.count, r.count),
                   Range(h, hs.count) + Range(n, r.count));
    }
  }

  lemma {:induction false} OrdinaryRenamed(e: Exp, sc: RScope, n: nat)
    requires Ordinary(e)
    ensures Ordinary(RenameExp(e, sc, n).tree)
    decreases e
  {
    match e
    case OpExp(l, _, r) => OrdinaryRenamed(l, sc, n); OrdinaryRenamed(r, sc, RenameExp(l, sc, n).count);
    case SeqExp(es) => AllOrdinaryRenamed(es, sc, n);
    case AssignExp(_, e1) => OrdinaryRenamed(e1, sc, n);
    case IfExp(c, t, f) =>
      var c2 := RenameExp(c, sc, n);
      OrdinaryRenamed(c, sc, n);
      OrdinaryRenamed(t, sc, c2.count);
      OrdinaryRenamed(f, sc, RenameExp(t, sc, c2.count).count);
    case WhileExp(c, body) => OrdinaryRenamed(c, sc, n); OrdinaryRenamed(body, sc, RenameExp(c, sc, n).count);
    case ForExp(i, lo, hi, body) =>
      var lo2 := RenameExp(lo, sc, n + 1);
      OrdinaryRenamed(lo, sc, n + 1);
      OrdinaryRenamed(hi, sc, lo2.count);
      OrdinaryRenamed(body, RVar(i, n, sc), RenameExp(hi, sc, lo2.count).count);
    case CallExp(_, args) => AllOrdinaryRenamed(args, sc, n);
    case LetVar(x, init, body) =>
      OrdinaryRenamed(init, sc, n + 1);
      OrdinaryRenamed(body, RVar(x, n, sc), RenameExp(init, sc, n + 1).count);
    case LetFuns(ds, body) =>
      var hs := RenameHeaders(ds, n);
      var sc1 := RFuns(hs.tree, n, sc);
      FunsOrdinaryRenamed(ds, n, sc1, hs.count);
      OrdinaryRenamed(body, sc1, RenameBodies(ds, n, sc1, hs.count).count);
    case _ =>
  }

  lemma {:induction false} AllOrdinaryRenamed(es: Exps, sc: RScope, n: nat)
    requires OrdinaryAll(es)
    ensures OrdinaryAll(RenameExps(es, sc, n).tree)
    decreases es
  {
    if es.Cons? { OrdinaryRenamed(es.head, sc, n); AllOrdinaryRenamed(es.tail, sc, RenameExp(es.head, sc, n).count); }
  }

  lemma {:induction false} FunsOrdinaryRenamed(ds: Funs, h: nat, sc: RScope, n: nat)
    requires OrdinaryFuns(ds)
    ensures OrdinaryFuns(RenameBodies(ds, h, sc, n).tree)
    decreases ds
  {
    if ds.FunCons? {
      var d := ds.first;
      var k := h + |d.formals|;
      MainIsPlain();
      assert LooksFresh(Fresh(d.name, k));
      OrdinaryRenamed(d.body, FormalsScopeOf(d.formals, h, sc), n);
      FunsOrdinaryRenamed(ds.rest, k + 1, sc, RenameExp(d.body, FormalsScopeOf(d.formals, h, sc), n).count);
    }
  }

  // ----- renamed programs have no variable `_lo` or `_hi`, and keep having no `for` -----

  lemma FreshNotReserved(x: Sym, n: nat)
    ensures !Reserved(Fresh(x, n))
  {
    var s, d := x.text + "_" + Decimal(n), Decimal(n);
    assert s[|s| - 1] == d[|d| - 1];
    assert LO.text[|LO.text| - 1] == 'o' && HI.text[|HI.text| - 1] == 'i';
  }

  lemma ResolvedClean(sc: RScope, env: Env, env2: Env, x: Sym)
    requires EnvR(sc, env, env2) && x in ScopeOf(env).vars
    ensures !Reserved(ResolveVar(sc, x))
  {
    ResolvedVar(sc, env, env2, x);
    var k: nat :| ResolveVar(sc, x) == Fresh(x, k);
    FreshNotReserved(x, k);
  }

  lemma {:induction false} CleanRenamed(e: Exp, sc: RScope, n: nat, env: Env, env2: Env, inLoop: bool)
    requires TypeOf(e, ScopeOf(env), inLoop).Some? && Plain(e) && EnvR(sc, env, env2)
    ensures Clean(RenameExp(e, sc, n).tree)
    decreases e
  {
    match e
    case IntExp(_) =>
    case VarExp(x) => ResolvedClean(sc, env, env2, x);
    case OpExp(l, _, r) =>
      CleanRenamed(l, sc, n, env, env2, inLoop);
      CleanRenamed(r, sc, RenameExp(l, sc, n).count, env, env2, inLoop);
    case SeqExp(es) =>
      TypedParts(es, ScopeOf(env), inLoop);
      AllCleanRenamed(es, sc, n, env, env2, inLoop);
    case AssignExp(x, e1) =>
      ResolvedClean(sc, env, env2, x);
      CleanRenamed(e1, sc, n, env, env2, inLoop);
    case IfExp(_, _, _) => CleanIf(e, sc, n, env, env2, inLoop);
    case WhileExp(_, _) => CleanWhile(e, sc, n, env, env2, inLoop);
    case ForExp(i, lo, hi, body) => CleanFor(i, lo, hi, body, sc, n, env, env2, inLoop);
    case BreakExp =>
    case CallExp(f, args) =>
      TypedParts(args, ScopeOf(env), inLoop);
      AllCleanRenamed(args, sc, n, env, env2, inLoop);
    case LetVar(x, init, body) => CleanLetVar(x, init, body, sc, n, env, env2, inLoop);
    case LetFuns(ds, body) => CleanLetFuns(ds, body, sc, n, env, env2, inLoop);
  }

  lemma {:induction false} CleanWhile(e: Exp, sc: RScope, n: nat, env: Env, env2: Env, inLoop: bool)
    requires e.WhileExp?
    requires TypeOf(e, ScopeOf(env), inLoop).Some? && Plain(e) && EnvR(sc, env, env2)
    ensures Clean(RenameExp(e, sc, n).tree)
    decreases e, 0
  {
    var c, body := e.test, e.body;
    CleanRenamed(c, sc, n, env, env2, inLoop);
    CleanRenamed(body, sc, RenameExp(c, sc, n).count, env, env2, true);
  }

  lemma {:induction false} CleanIf(e: Exp, sc: RScope, n: nat, env: Env, env2: Env, inLoop: bool)
    requires e.IfExp?
    requires TypeOf(e, ScopeOf(env), inLoop).Some? && Plain(e) && EnvR(sc, env, env2)
    ensures Clean(RenameExp(e, sc, n).tree)
    decreases e, 0
  {
    var c, t, f := e.test, e.thenclause, e.elseclause;
    var c2 := RenameExp(c, sc, n);
    CleanRenamed(c, sc, n, env, env2, inLoop);
    CleanRenamed(t, sc, c2.count, env, env2, inLoop);
    CleanRenamed(f, sc, RenameExp(t, sc, c2.count).count, env, env2, inLoop);
  }

  lemma {:induction false} CleanFor(i: Sym, lo: Exp, hi: Exp, body: Exp, sc: RScope, n: nat, env: Env, env2: Env, inLoop: bool)
    requires TypeOf(ForExp(i, lo, hi, body), ScopeOf(env), inLoop).Some? && Plain(ForExp(i, lo, hi, body)) && EnvR(sc, env, env2)
    ensures Clean(RenameExp(ForExp(i, lo, hi, body), sc, n).tree)
    decreases ForExp(i, lo, hi, body), 0
  {
    FreshNotReserved(i, n);
    CleanRenamed(hi, sc, n + 1, env, env2, inLoop);
    CleanRenamed(body, RVar(i, n, sc), RenameExp(hi, sc, n + 1).count, BindVar(i, 0, true, env), BindVar(Fresh(i, n), 0, true, env2), true);
  }

  lemma {:induction false} CleanLetVar(x: Sym, init: Exp, body: Exp, sc: RScope, n: nat, env: Env, env2: Env, inLoop: bool)
    requires TypeOf(LetVar(x, init, body), ScopeOf(env), inLoop).Some? && Plain(LetVar(x, init, body)) && EnvR(sc, env, env2)
    ensures Clean(RenameExp(LetVar(x, init, body), sc, n).tree)
    decreases LetVar(x, init, body), 0
  {
    FreshNotReserved(x, n);
    CleanRenamed(init, sc, n + 1, env, env2, inLoop);
    CleanRenamed(body, RVar(x, n, sc), RenameExp(init, sc, n + 1).count, BindVar(x, 0, false, env),
                 BindVar(Fresh(x, n), 0, false, env2), inLoop);
  }

  lemma {:induction false} CleanLetFuns(ds: Funs, body: Exp, sc: RScope, n: nat, env: Env, env2: Env, inLoop: bool)
    requires TypeOf(LetFuns(ds, body), ScopeOf(env), inLoop).Some? && Plain(LetFuns(ds, body)) && EnvR(sc, env, env2)
    ensures Clean(RenameExp(LetFuns(ds, body), sc, n).tree)
    decreases LetFuns(ds, body), 0
  {
    var hs := RenameHeaders(ds, n);
    var sc1 := RFuns(hs.tree, n, sc);
    var ds2 := RenameBodies(ds, n, sc1, hs.count);
    var e1, e2 := BindFuns(ds, env), BindFuns(ds2.tree, env2);
    FunsCleanRenamed(ds, n, sc1, hs.count, e1, e2);
    CleanRenamed(body, sc1, ds2.count, e1, e2, inLoop);
  }

  lemma {:induction false} AllCleanRenamed(es: Exps, sc: RScope, n: nat, env: Env, env2: Env, inLoop: bool)
    requires SeqTyped(es, ScopeOf(env), inLoop) && PlainAll(es) && EnvR(sc, env, env2)
    ensures CleanAll(RenameExps(es, sc, n).tree)
    decreases es
  {
    if es.Cons? {
      CleanRenamed(es.head, sc, n, env, env2, inLoop);
      AllCleanRenamed(es.tail, sc, RenameExp(es.head, sc, n).count, env, env2, inLoop);
    }
  }

  lemma FormalsClean(xs: seq<Sym>, h: nat)
    ensures forall y :: y in RenameFormals(xs, h) ==> !Reserved(y)
  {
    var ys := RenameFormals(xs, h);
    forall y | y in ys ensures !Reserved(y) {
      var i :| 0 <= i < |ys| && ys[i] == y;
      FreshNotReserved(xs[i], h + i);
    }
  }

  lemma {:induction false} FunsCleanRenamed(ds: Funs, h: nat, sc: RScope, n: nat, env: Env, env2: Env)
    requires ChunkOk(ds, ScopeOf(env)) && PlainFuns(ds) && EnvR(sc, env, env2)
    ensures CleanFuns(RenameBodies(ds, h, sc, n).tree)
    decreases ds
  {
    if ds.FunCons? {
      var d := ds.first;
      var k := h + |d.formals|;
      var ys := RenameFormals(d.formals, h);
      FormalsClean(d.formals, h);
      if d.Function? {
        FormalsR(d.formals, h, 0, sc, env, env2);
        FormalsScope(d.formals, 0, env);
        CleanRenamed(d.body, FormalsScopeOf(d.formals, h, sc), n, BindFormals(d.formals, 0, env), BindFormals(ys, 0, env2), false);
      }
      FunsCleanRenamed(ds.rest, if Renames(d) then k + 1 else k, sc,
                       if d.Function? then RenameExp(d.body, FormalsScopeOf(d.formals, h, sc), n).count else n, env, env2);
    }
  }

  lemma {:induction false} NoForRenamed(e: Exp, sc: RScope, n: nat)
    requires NoFor(e)
    ensures NoFor(RenameExp(e, sc, n).tree)
    decreases e
  {
    match e
    case OpExp(l, _, r) => NoForRenamed(l, sc, n); NoForRenamed(r, sc, RenameExp(l, sc, n).count);
    case SeqExp(es) => AllNoForRenamed(es, sc, n);
    case AssignExp(_, e1) => NoForRenamed(e1, sc, n);
    case IfExp(c, t, f) =>
      var c2 := RenameExp(c, sc, n);
      NoForRenamed(c, sc, n);
      NoForRenamed(t, sc, c2.count);
      NoForRenamed(f, sc, RenameExp(t, sc, c2.count).count);
    case WhileExp(c, body) => NoForRenamed(c, sc, n); NoForRenamed(body, sc, RenameExp(c, sc, n).count);
    case CallExp(_, args) => AllNoForRenamed(args, sc, n);
    case LetVar(x, init, body) =>
      NoForRenamed(init, sc, n + 1);
      NoForRenamed(body, RVar(x, n, sc), RenameExp(init, sc, n + 1).count);
    case LetFuns(ds, body) =>
      var hs := RenameHeaders(ds, n);
      var sc1 := RFuns(hs.tree, n, sc);
      FunsNoForRenamed(ds, n, sc1, hs.count);
      NoForRenamed(body, sc1, RenameBodies(ds, n, sc1, hs.count).count);
    case _ =>
  }

  lemma {:induction false} AllNoForRenamed(es: Exps, sc: RScope, n: nat)
    requires NoForAll(es)
    ensures NoForAll(RenameExps(es, sc, n).tree)
    decreases es
  {
    if es.Cons? { NoForRenamed(es.head, sc, n); AllNoForRenamed(es.tail, sc, RenameExp(es.head, sc, n).count); }
  }

  lemma {:induction false} FunsNoForRenamed(ds: Funs, h: nat, sc: RScope, n: nat)
    requires NoForFuns(ds)
    ensures NoForFuns(RenameBodies(ds, h, sc, n).tree)
    decreases ds
  {
    if ds.FunCons? {
      var d := ds.first;
      var k := h + |d.formals|;
      if d.Function? { NoForRenamed(d.body, FormalsScopeOf(d.formals, h, sc), n); }
      FunsNoForRenamed(ds.rest, if Renames(d) then k + 1 else k, sc,
                       if d.Function? then RenameExp(d.body, FormalsScopeOf(d.formals, h, sc), n).count else n);
    }
  }
}
