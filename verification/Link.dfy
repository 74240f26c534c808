/** What ties a bound, checked program to its translation: lifted variables, function table, module. */
module Link {
  import opened Int32
  import opened Options
  import opened Tiger
  import opened Cfg
  import opened Check
  import opened Translate
  import opened Layout

  /** Every variable the code of the current function touches has a pointer there: `need` holds
      the lifted variables and the function's own variables in scope.  At a call this includes
      every variable lifted into the callee. */
  predicate Closed(e: Exp, need: set<Sym>, cx: Context) {
    match e
    case IntExp(_) => true
    case VarExp(x) => x in need
    case OpExp(l, _, r) => Closed(l, need, cx) && Closed(r, need, cx)
    case SeqExp(es) => ClosedAll(es, need, cx)
    case AssignExp(x, e1) => x in need && Closed(e1, need, cx)
    case IfExp(c, t, f) => Closed(c, need, cx) && Closed(t, need, cx) && Closed(f, need, cx)
    case WhileExp(c, body) => Closed(c, need, cx) && Closed(body, need, cx)
    case ForExp(i, lo, hi, body) => Closed(lo, need, cx) && Closed(hi, need, cx) && Closed(body, need + {i}, cx)
    case BreakExp => true
    case CallExp(f, args) => Names(cx.Of(f).lifted) <= need && ClosedAll(args, need, cx)
    case LetVar(x, init, body) => Closed(init, need, cx) && Closed(body, need + {x}, cx)
    case LetFuns(ds, body) => ClosedFuns(ds, cx) && Closed(body, need, cx)
  }

  predicate ClosedAll(es: Exps, need: set<Sym>, cx: Context) {
    match es
    case NoExp => true
    case Cons(e, rest) => Closed(e, need, cx) && ClosedAll(rest, need, cx)
  }

  predicate ClosedFuns(ds: Funs, cx: Context) {
    match ds
    case NoFun => true
    case FunCons(d, rest) =>
      (d.Function? ==> Closed(d.body, Names(cx.Of(d.name).lifted) + Names(d.formals), cx)) && ClosedFuns(rest, cx)
  }

  /** The table and the module agree with the declarations of `e`; the `for` loops are gone. */
  predicate Linked(e: Exp, cx: Context, m: Module) {
    match e
    case IntExp(_) => true
    case VarExp(_) => true
    case OpExp(l, _, r) => Linked(l, cx, m) && Linked(r, cx, m)
    case SeqExp(es) => LinkedAll(es, cx, m)
    case AssignExp(_, e1) => Linked(e1, cx, m)
    case IfExp(c, t, f) => Linked(c, cx, m) && Linked(t, cx, m) && Linked(f, cx, m)
    case WhileExp(c, body) => Linked(c, cx, m) && Linked(body, cx, m)
    case ForExp(_, _, _, _) => false
    case BreakExp => true
    case CallExp(_, args) => LinkedAll(args, cx, m)
    case LetVar(_, init, body) => Linked(init, cx, m) && Linked(body, cx, m)
    case LetFuns(ds, body) => LinkedFuns(ds, cx, m) && Linked(body, cx, m)
  }

  predicate LinkedAll(es: Exps, cx: Context, m: Module) {
    match es
    case NoExp => true
    case Cons(e, rest) => Linked(e, cx, m) && LinkedAll(rest, cx, m)
  }

  predicate LinkedDec(d: FunDec, cx: Context, m: Module) {
    && d.name in cx.table && cx.table[d.name].primitive == d.Primitive? && cx.table[d.name].result == d.result
    && (d.Primitive? ==> cx.table[d.name].lifted == [])
    && (d.Function? ==> d.name in m && m[d.name] == CompileFunction(d, cx))
  }

  predicate LinkedFuns(ds: Funs, cx: Context, m: Module) {
    match ds
    case NoFun => true
    case FunCons(d, rest) =>
      LinkedDec(d, cx, m) && (d.Function? ==> Linked(d.body, cx, m)) && LinkedFuns(rest, cx, m)
  }

  function Vars(env: Env): set<Sym> { ScopeOf(env).vars.Keys }

  /** All of the above for every declaration a static chain holds; no name is bound twice. */
  predicate EnvOk(env: Env, cx: Context, m: Module) {
    match env
    case Top => true
    case BindVar(x, _, _, outer) => x !in Vars(outer) && EnvOk(outer, cx, m)
    case BindFuns(ds, outer) =>
      && ChunkOk(ds, ScopeOf(env)) && UniqueFuns(ds, Vars(outer)) && ClosedFuns(ds, cx) && LinkedFuns(ds, cx, m)
      && EnvOk(outer, cx, m)
  }

  predicate LocsBelow(env: Env, k: nat) {
    match env
    case Top => true
    case BindVar(_, loc, _, outer) => loc < k && LocsBelow(outer, k)
    case BindFuns(_, outer) => LocsBelow(outer, k)
  }

  lemma {:induction false} LocsStayBelow(env: Env, k: nat, k2: nat)
    requires LocsBelow(env, k) && k <= k2
    ensures LocsBelow(env, k2)
  {
    if env != Top { LocsStayBelow(env.outer, k, k2); }
  }

  lemma {:induction false} LookupVarFound(env: Env, x: Sym, k: nat)
    requires LocsBelow(env, k)
    ensures x in Vars(env) <==> LookupVar(env, x).Some?
    ensures LookupVar(env, x).Some? ==> LookupVar(env, x).value < k
  {
    if env != Top { LookupVarFound(env.outer, x, k); }
  }

  /** What is known of the declaration a call reaches. */
  ghost predicate CalleeOk(c: Callee, env: Env, cx: Context, m: Module) {
    var d := c.dec;
    && EnvOk(c.env, cx, m) && LinkedDec(d, cx, m)
    && (forall x :: x in Vars(c.env) ==> x in Vars(env) && LookupVar(c.env, x) == LookupVar(env, x))
    && (d.Function? ==>
        && TypeOf(d.body, ScopeOf(c.env).Formals(d.formals), false) == Some(d.result)
        && UniqueFormals(d.formals, Vars(c.env)) && Unique(d.body, Vars(c.env) + Names(d.formals))
        && Closed(d.body, Names(cx.Of(d.name).lifted) + Names(d.formals), cx)
        && Linked(d.body, cx, m))
  }

  lemma {:induction false} FoundInChunk(ds: Funs, f: Sym, sc: Scope, vars: set<Sym>, cx: Context, m: Module)
    requires ChunkOk(ds, sc) && UniqueFuns(ds, vars) && ClosedFuns(ds, cx) && LinkedFuns(ds, cx, m)
    ensures var r := FindFun(ds, f);
      && (r.FunCons? <==> f in Sigs(ds))
      && (r.FunCons? ==>
        var d := r.first;
        && d.name == f && Sigs(ds)[f] == SigOf(d) && LinkedDec(d, cx, m)
        && (d.Function? ==>
          && TypeOf(d.body, sc.Formals(d.formals), false) == Some(d.result)
          && UniqueFormals(d.formals, vars) && Unique(d.body, vars + Names(d.formals))
          && Closed(d.body, Names(cx.Of(d.name).lifted) + Names(d.formals), cx)
          && Linked(d.body, cx, m)))
  {
    if ds.FunCons? && ds.first.name != f { FoundInChunk(ds.rest, f, sc, vars, cx, m); }
  }

  lemma {:induction false} LookupFunFound(env: Env, f: Sym, cx: Context, m: Module)
    requires EnvOk(env, cx, m) && f in ScopeOf(env).funs
    ensures var c := LookupFun(env, f);
      c.Some? && c.value.dec.name == f && SigOf(c.value.dec) == ScopeOf(env).funs[f] && CalleeOk(c.value, env, cx, m)
  {
    match env
    case BindVar(x, _, _, outer) =>
      LookupFunFound(outer, f, cx, m);
    case BindFuns(ds, outer) =>
      FoundInChunk(ds, f, ScopeOf(env), Vars(outer), cx, m);
      if FindFun(ds, f).NoFun? {
        hide CalleeOk;
        LookupFunFound(outer, f, cx, m);
        SameCallees(LookupFun(outer, f), ds, outer, cx, m);
      }
  }

  lemma SameCallees(c: Option<Callee>, ds: Funs, outer: Env, cx: Context, m: Module)
    requires c.Some? && CalleeOk(c.value, outer, cx, m)
    ensures CalleeOk(c.value, BindFuns(ds, outer), cx, m)
  {}

  /** The callee's cells are the caller's. */
  lemma {:induction false} CalleeLocsBelow(env: Env, f: Sym, k: nat)
    requires LocsBelow(env, k) && LookupFun(env, f).Some?
    ensures LocsBelow(LookupFun(env, f).value.env, k)
  {
    match env
    case BindVar(_, _, _, outer) => CalleeLocsBelow(outer, f, k);
    case BindFuns(ds, outer) => if FindFun(ds, f).NoFun? { CalleeLocsBelow(outer, f, k); }
  }

  lemma {:induction false} FormalsBound(xs: seq<Sym>, base: nat, env: Env, cx: Context, m: Module)
    requires UniqueFormals(xs, Vars(env)) && EnvOk(env, cx, m) && LocsBelow(env, base)
    ensures var r := BindFormals(xs, base, env);
      EnvOk(r, cx, m) && LocsBelow(r, base + |xs|) && ScopeOf(r) == ScopeOf(env).Formals(xs)
      && Vars(r) == Vars(env) + Names(xs)
    decreases |xs|
  {
    if xs != [] {
      var env1 := BindVar(xs[0], base, false, env);
      FirstBound(xs, base, env, cx, m);
      hide EnvOk, LocsBelow, UniqueFormals, Names;
      FormalsBound(xs[1..], base + 1, env1, cx, m);
      FirstName(xs, Vars(env));
    }
  }

  lemma FirstBound(xs: seq<Sym>, base: nat, env: Env, cx: Context, m: Module)
    requires xs != [] && UniqueFormals(xs, Vars(env)) && EnvOk(env, cx, m) && LocsBelow(env, base)
    ensures var env1 := BindVar(xs[0], base, false, env);
      EnvOk(env1, cx, m) && LocsBelow(env1, base + 1) && Vars(env1) == Vars(env) + {xs[0]} && UniqueFormals(xs[1..], Vars(env1))
  {
    LocsStayBelow(env, base, base + 1);
    assert Vars(BindVar(xs[0], base, false, env)) == Vars(env) + {xs[0]};
  }

  lemma FirstName(xs: seq<Sym>, vars: set<Sym>)
    requires xs != []
    ensures vars + {xs[0]} + Names(xs[1..]) == vars + Names(xs)
  {
    assert xs == [xs[0]] + xs[1..];
  }

  /** The type the translator reads off the tree is the checker's. */
  lemma {:induction false} TypesAgree(e: Exp, sc: Scope, inLoop: bool, cx: Context, m: Module)
    requires TypeOf(e, sc, inLoop).Some? && Linked(e, cx, m)
    requires forall f :: f in sc.funs ==> f in cx.table && cx.table[f].result == sc.funs[f].result
    ensures TypeOf(e, sc, inLoop) == Some(TyOf(e, cx))
  {
    match e
    case SeqExp(es) => SeqTypesAgree(es, sc, inLoop, cx, m);
    case IfExp(_, t, _) => TypesAgree(t, sc, inLoop, cx, m);
    case LetVar(x, _, body) => TypesAgree(body, sc.Var(x, false), inLoop, cx, m);
    case LetFuns(ds, body) =>
      ChunkTable(ds, cx, m);
      TypesAgree(body, sc.Chunk(ds), inLoop, cx, m);
    case _ =>
  }

  lemma {:induction false} SeqTypesAgree(es: Exps, sc: Scope, inLoop: bool, cx: Context, m: Module)
    requires TypeOfSeq(es, sc, inLoop).Some? && LinkedAll(es, cx, m)
    requires forall f :: f in sc.funs ==> f in cx.table && cx.table[f].result == sc.funs[f].result
    ensures TypeOfSeq(es, sc, inLoop) == Some(LastTy(es, cx))
  {
    match es
    case NoExp =>
    case Cons(e, NoExp) => TypesAgree(e, sc, inLoop, cx, m);
    case Cons(_, rest) => SeqTypesAgree(rest, sc, inLoop, cx, m);
  }

  lemma {:induction false} ChunkTable(ds: Funs, cx: Context, m: Module)
    requires LinkedFuns(ds, cx, m)
    ensures forall f :: f in Sigs(ds) ==> f in cx.table && cx.table[f].result == Sigs(ds)[f].result
  {
    if ds.FunCons? { ChunkTable(ds.rest, cx, m); }
  }

  lemma {:induction false} EnvTable(env: Env, cx: Context, m: Module)
    requires EnvOk(env, cx, m)
    ensures forall f :: f in ScopeOf(env).funs ==> f in cx.table && cx.table[f].result == ScopeOf(env).funs[f].result
  {
    match env
    case Top =>
    case BindVar(_, _, _, outer) => EnvTable(outer, cx, m);
    case BindFuns(ds, outer) =>
      EnvTable(outer, cx, m);
      ChunkTable(ds, cx, m);
  }

  /** Every local is held in a register already allotted. */
  ghost predicate LocalsBelow(b: Builder) {
    forall x :: x in b.locals ==> b.locals[x].Reg? && b.locals[x].r < b.regs
  }

  ghost predicate SameLocals(b1: Builder, b2: Builder, vars: set<Sym>) {
    forall x :: x in vars && x in b1.locals ==> x in b2.locals && b2.locals[x] == b1.locals[x]
  }

  /** Compiling an expression that declares no name of `vars` leaves their locals alone. */
  lemma {:induction false} CompileKeepsLocals(e: Exp, b: Builder, cx: Context, vars: set<Sym>)
    requires b.Valid() && LocalsBelow(b) && Unique(e, vars)
    ensures LocalsBelow(Compile(e, b, cx).b) && SameLocals(b, Compile(e, b, cx).b, vars)
    decreases e
  {
    match e
    case IntExp(_) =>
    case VarExp(_) =>
    case OpExp(l, op, r) =>
      CompileKeepsLocals(l, b, cx, vars);
      CompileKeepsLocals(r, Compile(l, b, cx).b, cx, vars);
    case SeqExp(es) => ArgsKeepLocals(es, b, cx, vars);
    case AssignExp(_, e1) => CompileKeepsLocals(e1, b, cx, vars);
    case IfExp(_, _, _) => IfKeepsLocals(e, b, cx, vars);
    case WhileExp(_, _) => WhileKeepsLocals(e, b, cx, vars);
    case ForExp(_, _, _, _) =>
    case BreakExp =>
    case CallExp(f, args) => ArgsKeepLocals(args, b, cx, vars);
    case LetVar(_, _, _) => LetVarKeepsLocals(e, b, cx, vars);
    case LetFuns(_, body) => CompileKeepsLocals(body, b, cx, vars);
  }

  lemma {:induction false} LetVarKeepsLocals(e: Exp, b: Builder, cx: Context, vars: set<Sym>)
    requires e.LetVar?
    requires b.Valid() && LocalsBelow(b) && Unique(e, vars)
    ensures LocalsBelow(Compile(e, b, cx).b) && SameLocals(b, Compile(e, b, cx).b, vars)
    decreases e, 0
  {
    var x, init, body := e.name, e.init, e.body;
    var a := b.Assign(Alloca(b.regs)).(locals := b.locals[x := Reg(b.regs)]);
    CompileKeepsLocals(init, a, cx, vars + {x});
    var v := Compile(init, a, cx);
    CompileKeepsLocals(body, v.b.Emit(Cfg.Store(v.v, if cx.pointerFirst then Reg(b.regs) else v.v)), cx, vars + {x});
  }

  lemma {:induction false} WhileKeepsLocals(e: Exp, b: Builder, cx: Context, vars: set<Sym>)
    requires e.WhileExp?
    requires b.Valid() && LocalsBelow(b) && Unique(e, vars)
    ensures LocalsBelow(Compile(e, b, cx).b) && SameLocals(b, Compile(e, b, cx).b, vars)
    decreases e, 0
  {
    var test, body := e.test, e.body;
    var c := CompileWhile(test, body, b, cx);
    CompileKeepsLocals(test, c.atTest, cx, vars);
    CompileKeepsLocals(body, c.atBody, cx, vars);
  }

  lemma {:induction false} IfKeepsLocals(e: Exp, b: Builder, cx: Context, vars: set<Sym>)
    requires e.IfExp?
    requires b.Valid() && LocalsBelow(b) && Unique(e, vars)
    ensures LocalsBelow(Compile(e, b, cx).b) && SameLocals(b, Compile(e, b, cx).b, vars)
    decreases e, 0
  {
    var test, thn, els := e.test, e.thenclause, e.elseclause;
    var c := CompileIf(test, thn, els, b, cx);
    CompileKeepsLocals(test, b, cx, vars);
    CompileKeepsLocals(thn, c.atThen, cx, vars);
    CompileKeepsLocals(els, c.atElse, cx, vars);
  }

  lemma {:induction false} ArgsKeepLocals(es: Exps, b: Builder, cx: Context, vars: set<Sym>)
    requires b.Valid() && LocalsBelow(b) && UniqueAll(es, vars)
    ensures LocalsBelow(CompileArgs(es, b, cx).b) && SameLocals(b, CompileArgs(es, b, cx).b, vars)
    decreases es
  {
    match es
    case NoExp =>
    case Cons(e, rest) =>
      CompileKeepsLocals(e, b, cx, vars);
      ArgsKeepLocals(rest, Compile(e, b, cx).b, cx, vars);
  }
}
