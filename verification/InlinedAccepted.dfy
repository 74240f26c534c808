/** The expanded program is bound and checked again (src/inlining/libinlining.cc), and compiled. */
module InlinedAccepted {
  import opened Int32
  import opened Options
  import opened Tiger
  import opened Cfg
  import opened Check
  import opened Translate
  import opened Evaluation
  import opened Programs
  import opened Codegen
  import opened Rename
  import opened Hygiene
  import opened Escapes
  import opened Collector
  import opened Inline
  import opened CallGraph
  import opened Inliner
  import opened Lifting
  import opened Pipeline
  import opened Compiler
  import opened InlineProgram

  // ----- an expanded body in the scope of the call -----

  /** `sc` has every name of `env`, with the meaning it has there, whatever else it has. */
  ghost predicate Under(env: Env, sc: Scope) {
    match env
    case Top => true
    case BindVar(x, _, ro, outer) => x in sc.vars && sc.vars[x] == ro && Under(outer, sc)
    case BindFuns(ds, outer) => (forall f :: f in Sigs(ds) ==> f in sc.funs && sc.funs[f] == Sigs(ds)[f]) && Under(outer, sc)
  }

  lemma {:induction false} UnderScope(env: Env, sc: Scope)
    requires Under(env, sc)
    ensures forall x :: x in ScopeOf(env).vars ==> x in sc.vars && sc.vars[x] == ScopeOf(env).vars[x]
    ensures forall f :: f in ScopeOf(env).funs ==> f in sc.funs && sc.funs[f] == ScopeOf(env).funs[f]
  {
    match env
    case Top =>
    case BindVar(_, _, _, outer) => UnderScope(outer, sc);
    case BindFuns(_, outer) => UnderScope(outer, sc);
  }

  /** So it has the names of the scope a visible function was declared in. */
  lemma {:induction false} UnderCallee(env: Env, sc: Scope, f: Sym)
    requires Under(env, sc) && LookupFun(env, f).Some?
    ensures Under(LookupFun(env, f).value.env, sc)
  {
    match env
    case BindVar(_, _, _, outer) => UnderCallee(outer, sc, f);
    case BindFuns(ds, outer) => if FindFun(ds, f).NoFun? { UnderCallee(outer, sc, f); }
  }

  lemma {:induction false} UnderVar(env: Env, sc: Scope, x: Sym, ro: bool)
    requires Under(env, sc) && x !in ScopeOf(env).vars
    ensures Under(env, sc.Var(x, ro))
  {
    match env
    case Top =>
    case BindVar(_, _, _, outer) => UnderVar(outer, sc, x, ro);
    case BindFuns(_, outer) => UnderVar(outer, sc, x, ro);
  }

  lemma UnderDeclared(env: Env, sc: Scope, x: Sym, ro: bool)
    requires Under(env, sc) && x !in ScopeOf(env).vars
    ensures Under(BindVar(x, 0, ro, env), sc.Var(x, ro))
  {
    UnderVar(env, sc, x, ro);
  }

  lemma {:induction false} UnderFuns(env: Env, sc: Scope, ds: Funs)
    requires Under(env, sc) && forall f :: f in Sigs(ds) ==> f !in ScopeOf(env).funs
    ensures Under(env, sc.Chunk(ds))
  {
    match env
    case Top =>
    case BindVar(_, _, _, outer) => UnderFuns(outer, sc, ds);
    case BindFuns(_, outer) => UnderFuns(outer, sc, ds);
  }

  lemma {:induction false} UnderFormals(xs: seq<Sym>, env: Env, sc: Scope)
    requires Under(env, sc) && FreshFormals(xs, ScopeOf(env).vars.Keys)
    ensures Under(BindFormals(xs, 0, env), sc.Formals(xs))
  {
    UnderFormalsFrom(xs, 0, env, sc);
  }

  lemma {:induction false} UnderFormalsFrom(xs: seq<Sym>, base: nat, env: Env, sc: Scope)
    requires Under(env, sc) && FreshFormals(xs, ScopeOf(env).vars.Keys)
    ensures Under(BindFormals(xs, base, env), sc.Formals(xs))
    decreases |xs|
  {
    if xs != [] {
      UnderVar(env, sc, xs[0], false);
      var env1 := BindVar(xs[0], base, false, env);
      forall i | 0 <= i < |xs[1..]| ensures xs[1..][i] !in ScopeOf(env1).vars.Keys { assert xs[1..][i] == xs[i + 1]; }
      UnderFormalsFrom(xs[1..], base + 1, env1, sc.Var(xs[0], false));
    }
  }

  lemma {:induction false} InlinedSigs(ds: Funs, ds2: Funs, cx: Unit)
    requires InlinedFuns(ds, ds2, cx)
    ensures Sigs(ds2) == Sigs(ds)
  {
    hide Inlined;
    if ds.FunCons? { InlinedSigs(ds.rest, ds2.rest, cx); }
  }

  // ----- types -----

  /** Those of the functions that are expanded return integers. */
  ghost predicate Valued(calls: set<Sym>, cx: Unit) { forall f :: f in calls && cx.Expands(f) ==> cx.defs[f].result == IntTy }

  /** Expanding a function of `all` leads to functions of `all` only. */
  ghost predicate Closing(all: set<Sym>, cx: Unit) {
    forall f :: f in all && cx.Expands(f) ==> Callees(cx.defs[f].body) <= all
  }

  /** The type `t2` after expansion against the type `t` before. */
  ghost predicate Agree(t: Option<Ty>, t2: Option<Ty>, calls: set<Sym>, all: set<Sym>, cx: Unit) {
    (Valued(all, cx) ==> t2 == t) && (t2.Some? ==> t2 == t && Valued(calls, cx))
  }

  /** Everything that the expansion of `e` in `env`, checked in `sc`, needs. */
  ghost predicate Placed(e: Exp, e2: Exp, env: Env, sc: Scope, cx: Unit, d: nat, inLoop: bool, inLoop2: bool, all: set<Sym>) {
    Static(e, e2, env, cx, d, inLoop) && Under(env, sc) && (inLoop ==> inLoop2) && Callees(e) <= all && Closing(all, cx)
  }

  ghost predicate PlacedAll(es: Exps, es2: Exps, env: Env, sc: Scope, cx: Unit, d: nat, inLoop: bool, inLoop2: bool, all: set<Sym>) {
    StaticAll(es, es2, env, cx, d, inLoop) && Under(env, sc) && (inLoop ==> inLoop2) && CalleesAll(es) <= all && Closing(all, cx)
  }

  /** The expanded tree has its type, in the fragment without variables of type void, exactly if every
      function that was expanded returns an integer: `res` is a variable of the result's type. */
  lemma {:induction false} InlinedTyped(e: Exp, e2: Exp, env: Env, sc: Scope, cx: Unit, d: nat, inLoop: bool, inLoop2: bool, all: set<Sym>)
    requires Placed(e, e2, env, sc, cx, d, inLoop, inLoop2, all)
    ensures Agree(TypeOf(e, ScopeOf(env), inLoop), TypeOf(e2, sc, inLoop2), Callees(e), all, cx)
    decreases e2, 2
  {
    hide Static, Under, Closing;
    match e
    case IntExp(_) => LeafTyped(e, e2, env, sc, cx, d, inLoop, inLoop2, all);
    case VarExp(_) => LeafTyped(e, e2, env, sc, cx, d, inLoop, inLoop2, all);
    case BreakExp => LeafTyped(e, e2, env, sc, cx, d, inLoop, inLoop2, all);
    case OpExp(l, _, r) =>
      StaticOp(e, e2, env, cx, d, inLoop);
      InlinedTyped(l, e2.left, env, sc, cx, d, inLoop, inLoop2, all);
      InlinedTyped(r, e2.right, env, sc, cx, d, inLoop, inLoop2, all);
      OpAgrees(e, e2, env, sc, cx, d, inLoop, inLoop2, all);
    case SeqExp(es) =>
      StaticSeq(es, e2, env, cx, d, inLoop);
      SeqInlinedTyped(es, e2.exps, env, sc, cx, d, inLoop, inLoop2, all);
    case AssignExp(_, e1) =>
      StaticAssign(e.name, e1, e2, env, cx, d, inLoop);
      InlinedTyped(e1, e2.exp, env, sc, cx, d, inLoop, inLoop2, all);
      AssignAgrees(e, e2, env, sc, cx, d, inLoop, inLoop2, all);
    case IfExp(c, t, f) =>
      StaticIf(e, e2, env, cx, d, inLoop);
      InlinedTyped(c, e2.test, env, sc, cx, d, inLoop, inLoop2, all);
      InlinedTyped(t, e2.thenclause, env, sc, cx, d, inLoop, inLoop2, all);
      InlinedTyped(f, e2.elseclause, env, sc, cx, d, inLoop, inLoop2, all);
      IfAgrees(e, e2, env, sc, cx, d, inLoop, inLoop2, all);
    case WhileExp(c, body) =>
      StaticWhile(e, e2, env, cx, d, inLoop);
      InlinedTyped(c, e2.test, env, sc, cx, d, inLoop, inLoop2, all);
      InlinedTyped(body, e2.body, env, sc, cx, d, true, true, all);
      WhileAgrees(e, e2, env, sc, cx, d, inLoop, inLoop2, all);
    case ForExp(i, _, hi, body) =>
      StaticFor(e, e2, env, cx, d, inLoop, 0);
      UnderDeclared(env, sc, i, true);
      InlinedTyped(hi, e2.hi, env, sc, cx, d, inLoop, inLoop2, all);
      InlinedTyped(body, e2.body, BindVar(i, 0, true, env), sc.Var(i, true), cx, d, true, true, all);
      ForAgrees(e, e2, env, sc, cx, d, inLoop, inLoop2, all);
    case CallExp(f, args) => CallTyped(f, args, e2, env, sc, cx, d, inLoop, inLoop2, all);
    case LetVar(x, init, body) =>
      StaticLetVar(e, e2, env, cx, d, inLoop, 0);
      UnderDeclared(env, sc, x, false);
      InlinedTyped(init, e2.init, env, sc, cx, d, inLoop, inLoop2, all);
      InlinedTyped(body, e2.body, BindVar(x, 0, false, env), sc.Var(x, false), cx, d, inLoop, inLoop2, all);
      LetVarAgrees(e, e2, env, sc, cx, d, inLoop, inLoop2, all);
    case LetFuns(_, _) => LetFunsTyped(e, e2, env, sc, cx, d, inLoop, inLoop2, all);
  }

  lemma StaticHas(e: Exp, e2: Exp, env: Env, cx: Unit, d: nat, inLoop: bool)
    requires Static(e, e2, env, cx, d, inLoop)
    ensures TypeOf(e, ScopeOf(env), inLoop).Some? && Inlined(e, e2, cx, d)
  {}

  lemma LeafTyped(e: Exp, e2: Exp, env: Env, sc: Scope, cx: Unit, d: nat, inLoop: bool, inLoop2: bool, all: set<Sym>)
    requires Placed(e, e2, env, sc, cx, d, inLoop, inLoop2, all) && (e.IntExp? || e.VarExp? || e.BreakExp?)
    ensures Agree(TypeOf(e, ScopeOf(env), inLoop), TypeOf(e2, sc, inLoop2), Callees(e), all, cx)
  {
    hide Under, Closing, EnvTyped, EnvHygienic;
    UnderScope(env, sc);
  }

  lemma OpAgrees(e: Exp, e2: Exp, env: Env, sc: Scope, cx: Unit, d: nat, inLoop: bool, inLoop2: bool, all: set<Sym>)
    requires e.OpExp? && e2.OpExp? && Placed(e, e2, env, sc, cx, d, inLoop, inLoop2, all)
    requires Agree(TypeOf(e.left, ScopeOf(env), inLoop), TypeOf(e2.left, sc, inLoop2), Callees(e.left), all, cx)
    requires Agree(TypeOf(e.right, ScopeOf(env), inLoop), TypeOf(e2.right, sc, inLoop2), Callees(e.right), all, cx)
    ensures Agree(TypeOf(e, ScopeOf(env), inLoop), TypeOf(e2, sc, inLoop2), Callees(e), all, cx)
  {
    hide Static, Under, Closing;
    StaticHas(e, e2, env, cx, d, inLoop);
    hide Inlined;
  }

  lemma AssignAgrees(e: Exp, e2: Exp, env: Env, sc: Scope, cx: Unit, d: nat, inLoop: bool, inLoop2: bool, all: set<Sym>)
    requires e.AssignExp? && e2.AssignExp? && Placed(e, e2, env, sc, cx, d, inLoop, inLoop2, all)
    requires Agree(TypeOf(e.exp, ScopeOf(env), inLoop), TypeOf(e2.exp, sc, inLoop2), Callees(e.exp), all, cx)
    ensures Agree(TypeOf(e, ScopeOf(env), inLoop), TypeOf(e2, sc, inLoop2), Callees(e), all, cx)
  {
    hide Static, Under, Closing;
    StaticHas(e, e2, env, cx, d, inLoop);
    UnderScope(env, sc);
  }

  lemma IfAgrees(e: Exp, e2: Exp, env: Env, sc: Scope, cx: Unit, d: nat, inLoop: bool, inLoop2: bool, all: set<Sym>)
    requires e.IfExp? && e2.IfExp? && Placed(e, e2, env, sc, cx, d, inLoop, inLoop2, all)
    requires Agree(TypeOf(e.test, ScopeOf(env), inLoop), TypeOf(e2.test, sc, inLoop2), Callees(e.test), all, cx)
    requires Agree(TypeOf(e.thenclause, ScopeOf(env), inLoop), TypeOf(e2.thenclause, sc, inLoop2), Callees(e.thenclause), all, cx)
    requires Agree(TypeOf(e.elseclause, ScopeOf(env), inLoop), TypeOf(e2.elseclause, sc, inLoop2), Callees(e.elseclause), all, cx)
    ensures Agree(TypeOf(e, ScopeOf(env), inLoop), TypeOf(e2, sc, inLoop2), Callees(e), all, cx)
  {
    hide Static, Under, Closing;
    StaticHas(e, e2, env, cx, d, inLoop);
    hide Inlined;
  }

  lemma WhileAgrees(e: Exp, e2: Exp, env: Env, sc: Scope, cx: Unit, d: nat, inLoop: bool, inLoop2: bool, all: set<Sym>)
    requires e.WhileExp? && e2.WhileExp? && Placed(e, e2, env, sc, cx, d, inLoop, inLoop2, all)
    requires Agree(TypeOf(e.test, ScopeOf(env), inLoop), TypeOf(e2.test, sc, inLoop2), Callees(e.test), all, cx)
    requires Agree(TypeOf(e.body, ScopeOf(env), true), TypeOf(e2.body, sc, true), Callees(e.body), all, cx)
    ensures Agree(TypeOf(e, ScopeOf(env), inLoop), TypeOf(e2, sc, inLoop2), Callees(e), all, cx)
  {
    hide Static, Under, Closing;
    StaticHas(e, e2, env, cx, d, inLoop);
    hide Inlined;
  }

  lemma ForAgrees(e: Exp, e2: Exp, env: Env, sc: Scope, cx: Unit, d: nat, inLoop: bool, inLoop2: bool, all: set<Sym>)
    requires e.ForExp? && e2.ForExp? && e.lo.IntExp? && e2.lo == e.lo && e2.index == e.index
    requires Placed(e, e2, env, sc, cx, d, inLoop, inLoop2, all)
    requires Agree(TypeOf(e.hi, ScopeOf(env), inLoop), TypeOf(e2.hi, sc, inLoop2), Callees(e.hi), all, cx)
    requires Agree(TypeOf(e.body, ScopeOf(env).Var(e.index, true), true), TypeOf(e2.body, sc.Var(e.index, true), true), Callees(e.body), all, cx)
    ensures Agree(TypeOf(e, ScopeOf(env), inLoop), TypeOf(e2, sc, inLoop2), Callees(e), all, cx)
  {
    hide Static, Under, Closing;
    StaticHas(e, e2, env, cx, d, inLoop);
    hide Inlined;
  }

  lemma LetVarAgrees(e: Exp, e2: Exp, env: Env, sc: Scope, cx: Unit, d: nat, inLoop: bool, inLoop2: bool, all: set<Sym>)
    requires e.LetVar? && e2.LetVar? && e2.name == e.name && Placed(e, e2, env, sc, cx, d, inLoop, inLoop2, all)
    requires Agree(TypeOf(e.init, ScopeOf(env), inLoop), TypeOf(e2.init, sc, inLoop2), Callees(e.init), all, cx)
    requires Agree(TypeOf(e.body, ScopeOf(env).Var(e.name, false), inLoop), TypeOf(e2.body, sc.Var(e.name, false), inLoop2), Callees(e.body), all, cx)
    ensures Agree(TypeOf(e, ScopeOf(env), inLoop), TypeOf(e2, sc, inLoop2), Callees(e), all, cx)
  {
    hide Static, Under, Closing;
    StaticHas(e, e2, env, cx, d, inLoop);
    hide Inlined;
  }

  lemma {:induction false} SeqInlinedTyped(es: Exps, es2: Exps, env: Env, sc: Scope, cx: Unit, d: nat, inLoop: bool, inLoop2: bool, all: set<Sym>)
    requires PlacedAll(es, es2, env, sc, cx, d, inLoop, inLoop2, all)
    ensures Agree(TypeOfSeq(es, ScopeOf(env), inLoop), TypeOfSeq(es2, sc, inLoop2), CalleesAll(es), all, cx)
    decreases es2, 1
  {
    hide Static, StaticAll, Under, Closing;
    StaticParts(es, es2, env, cx, d, inLoop);
    if es.Cons? {
      InlinedTyped(es.head, es2.head, env, sc, cx, d, inLoop, inLoop2, all);
      SeqInlinedTyped(es.tail, es2.tail, env, sc, cx, d, inLoop, inLoop2, all);
      StaticParts(es.tail, es2.tail, env, cx, d, inLoop);
      StaticHas(es.head, es2.head, env, cx, d, inLoop);
      hide Inlined, TypeOf;
    }
  }

  /** Arguments are integers. */
  ghost predicate ArgsAgree(es: Exps, es2: Exps, sc: Scope, inLoop2: bool, all: set<Sym>, cx: Unit) {
    && (Valued(all, cx) ==> AllInt(es2, sc, inLoop2)) && (AllInt(es2, sc, inLoop2) ==> Valued(CalleesAll(es), cx))
    && Length(es2) == Length(es)
  }

  lemma {:induction false} ArgsTyped(es: Exps, es2: Exps, env: Env, sc: Scope, cx: Unit, d: nat, inLoop: bool, inLoop2: bool, all: set<Sym>)
    requires PlacedAll(es, es2, env, sc, cx, d, inLoop, inLoop2, all) && AllInt(es, ScopeOf(env), inLoop)
    ensures ArgsAgree(es, es2, sc, inLoop2, all, cx)
    decreases es2, 1
  {
    hide Static, StaticAll, Under, Closing;
    StaticParts(es, es2, env, cx, d, inLoop);
    if es.Cons? {
      InlinedTyped(es.head, es2.head, env, sc, cx, d, inLoop, inLoop2, all);
      ArgsTyped(es.tail, es2.tail, env, sc, cx, d, inLoop, inLoop2, all);
      hide TypeOf;
    }
  }

  lemma {:induction false} CallTyped(f: Sym, args: Exps, e2: Exp, env: Env, sc: Scope, cx: Unit, d: nat, inLoop: bool, inLoop2: bool, all: set<Sym>)
    requires Placed(CallExp(f, args), e2, env, sc, cx, d, inLoop, inLoop2, all)
    ensures Agree(TypeOf(CallExp(f, args), ScopeOf(env), inLoop), TypeOf(e2, sc, inLoop2), Callees(CallExp(f, args)), all, cx)
    decreases e2, 1
  {
    hide Static, StaticAll, Under, Closing;
    StaticCall(f, args, e2, env, cx, d, inLoop);
    UnderScope(env, sc);
    if cx.Expands(f) {
      var c := LookupFun(env, f).value;
      UnderCallee(env, sc, f);
      CalleeUnder(f, args, e2, env, sc, cx, d, inLoop);
      BodyClosing(f, args, all, cx);
      ExpandedTyped(c, c.dec.formals, args, e2, env, sc, cx, d, inLoop, inLoop2, all);
    } else {
      ArgsTyped(args, e2.args, env, sc, cx, d, inLoop, inLoop2, all);
    }
  }

  lemma BodyClosing(f: Sym, args: Exps, all: set<Sym>, cx: Unit)
    requires Callees(CallExp(f, args)) <= all && Closing(all, cx) && cx.Expands(f)
    ensures CalleesAll(args) <= all && Callees(cx.defs[f].body) <= all && f in all
  {
    assert f in Callees(CallExp(f, args));
  }

  lemma StaticCall(f: Sym, args: Exps, e2: Exp, env: Env, cx: Unit, d: nat, inLoop: bool)
    requires Static(CallExp(f, args), e2, env, cx, d, inLoop)
    ensures f in ScopeOf(env).funs && ScopeOf(env).funs[f].arity == Length(args) && AllInt(args, ScopeOf(env), inLoop)
    ensures EnvTyped(env) && EnvHygienic(env, cx) && SeqTyped(args, ScopeOf(env), inLoop) && HygienicAll(args, ScopeOf(env), cx)
    ensures LookupFun(env, f).Some? && SigOf(LookupFun(env, f).value.dec) == ScopeOf(env).funs[f]
    ensures if cx.Expands(f) then
        var c := LookupFun(env, f).value;
        c.dec == cx.defs[f] && Reached(c, env, cx) && Expanded(c.dec.formals, args, c.dec.body, e2, cx, d)
      else e2.CallExp? && e2.name == f && StaticAll(args, e2.args, env, cx, d, inLoop)
  {
    TypedParts(args, ScopeOf(env), inLoop);
    TypedCallee(env, f);
    CalleeHygienic(env, f, cx);
  }

  /** The scope of the call, with the formals declared, has what the body needs. */
  lemma CalleeUnder(f: Sym, args: Exps, e2: Exp, env: Env, sc: Scope, cx: Unit, d: nat, inLoop: bool)
    requires Static(CallExp(f, args), e2, env, cx, d, inLoop) && cx.Expands(f) && Under(env, sc)
    requires LookupFun(env, f).Some? && Reached(LookupFun(env, f).value, env, cx) && Under(LookupFun(env, f).value.env, sc)
    ensures var c := LookupFun(env, f).value; Under(BindFormals(c.dec.formals, 0, c.env), sc.Formals(c.dec.formals))
  {
    var c := LookupFun(env, f).value;
    UnderFormals(c.dec.formals, c.env, sc);
  }

  /** The bindings of the formals, the variable for the result, and the body. */
  lemma {:induction false} ExpandedTyped(c: Callee, xs: seq<Sym>, args: Exps, e2: Exp, env: Env, sc: Scope, cx: Unit, d: nat, inLoop: bool,
                                         inLoop2: bool, all: set<Sym>)
    requires c.dec.Function? && Reached(c, env, cx) && Expanded(xs, args, c.dec.body, e2, cx, d) && (forall x :: x in xs ==> x in c.dec.formals)
    requires AllInt(args, ScopeOf(env), inLoop) && SeqTyped(args, ScopeOf(env), inLoop) && HygienicAll(args, ScopeOf(env), cx)
    requires EnvTyped(env) && EnvHygienic(env, cx) && Under(env, sc) && (inLoop ==> inLoop2)
    requires Under(BindFormals(c.dec.formals, 0, c.env), sc.Formals(xs))
    requires CalleesAll(args) <= all && Callees(c.dec.body) <= all && Closing(all, cx)
    ensures Valued(all, cx) && c.dec.result == IntTy ==> TypeOf(e2, sc, inLoop2) == Some(IntTy)
    ensures TypeOf(e2, sc, inLoop2).Some? ==> TypeOf(e2, sc, inLoop2) == Some(IntTy) && c.dec.result == IntTy && Valued(CalleesAll(args), cx)
    decreases e2, 0
  {
    hide Static, Under, Closing, EnvTyped, EnvHygienic, Reached, Inlined, Hygienic, Expanded;
    ExpandedParts(xs, args, c.dec.body, e2, cx, d);
    if xs == [] {
      BodyStatic(c, 0, c.dec.body, e2.init, env, cx, d - 1);
      ReachedType(c, env, cx);
      InlinedTyped(c.dec.body, e2.init, BindFormals(c.dec.formals, 0, c.env), sc, cx, d - 1, false, inLoop2, all);
      LastTyped(e2, sc, inLoop2);
    } else {
      var sc1 := sc.Var(xs[0], false);
      assert xs[0] in xs;
      ReachedFresh(c, env, cx, xs[0]);
      UnderVar(env, sc, xs[0], false);
      ArgStatic(args, e2.init, env, cx, d, inLoop);
      InlinedTyped(args.head, e2.init, env, sc, cx, d, inLoop, inLoop2, all);
      forall x | x in xs[1..] ensures x in c.dec.formals { assert x in xs; }
      ExpandedTyped(c, xs[1..], args.tail, e2.body, env, sc1, cx, d, inLoop, inLoop2, all);
    }
  }

  lemma LastTyped(e2: Exp, sc: Scope, inLoop: bool)
    requires e2.LetVar? && e2.name == RES && e2.body == VarExp(RES)
    ensures TypeOf(e2, sc, inLoop) == if TypeOf(e2.init, sc, inLoop) == Some(IntTy) then Some(IntTy) else None
  {}

  lemma ExpandedParts(xs: seq<Sym>, args: Exps, body: Exp, e2: Exp, cx: Unit, d: nat)
    requires Expanded(xs, args, body, e2, cx, d)
    ensures e2.LetVar?
    ensures if xs == [] then args == NoExp && e2.name == RES && e2.body == VarExp(RES) && d > 0 && Inlined(body, e2.init, cx, d - 1)
      else args.Cons? && e2.name == xs[0] && Inlined(args.head, e2.init, cx, d) && Expanded(xs[1..], args.tail, body, e2.body, cx, d)
  {}

  lemma ReachedType(c: Callee, env: Env, cx: Unit)
    requires Reached(c, env, cx)
    ensures TypeOf(c.dec.body, ScopeOf(BindFormals(c.dec.formals, 0, c.env)), false) == Some(c.dec.result)
  {
    FormalsScope(c.dec.formals, 0, c.env);
  }

  lemma ReachedFresh(c: Callee, env: Env, cx: Unit, x: Sym)
    requires Reached(c, env, cx) && x in c.dec.formals
    ensures x !in ScopeOf(env).vars
  {}

  lemma ArgStatic(args: Exps, e2: Exp, env: Env, cx: Unit, d: nat, inLoop: bool)
    requires args.Cons? && AllInt(args, ScopeOf(env), inLoop) && SeqTyped(args, ScopeOf(env), inLoop)
    requires HygienicAll(args, ScopeOf(env), cx) && EnvTyped(env) && EnvHygienic(env, cx) && Inlined(args.head, e2, cx, d)
    ensures Static(args.head, e2, env, cx, d, inLoop) && TypeOf(args.head, ScopeOf(env), inLoop) == Some(IntTy)
  {}

  lemma {:induction false} LetFunsTyped(e: Exp, e2: Exp, env: Env, sc: Scope, cx: Unit, d: nat, inLoop: bool, inLoop2: bool, all: set<Sym>)
    requires e.LetFuns? && Placed(e, e2, env, sc, cx, d, inLoop, inLoop2, all)
    ensures Agree(TypeOf(e, ScopeOf(env), inLoop), TypeOf(e2, sc, inLoop2), Callees(e), all, cx)
    decreases e2, 1
  {
    hide Static, Under, Closing, Inlined, Hygienic, EnvTyped, EnvHygienic, ChunkOk, InlinedFuns, HygienicFuns;
    var inner := BindFuns(e.funs, env);
    StaticChunk(e, e2, env, cx, d, inLoop);
    InlinedSigs(e.funs, e2.funs, cx);
    UnderChunk(e.funs, env, sc);
    FunsTyped(e.funs, e2.funs, inner, sc.Chunk(e.funs), cx, all);
    InlinedTyped(e.body, e2.body, inner, sc.Chunk(e.funs), cx, d, inLoop, inLoop2, all);
  }

  lemma UnderChunk(ds: Funs, env: Env, sc: Scope)
    requires Under(env, sc) && forall f :: f in Sigs(ds) ==> f !in ScopeOf(env).funs
    ensures Under(BindFuns(ds, env), sc.Chunk(ds))
  {
    UnderFuns(env, sc, ds);
  }

  lemma StaticChunk(e: Exp, e2: Exp, env: Env, cx: Unit, d: nat, inLoop: bool)
    requires e.LetFuns? && Static(e, e2, env, cx, d, inLoop)
    ensures e2.LetFuns? && Static(e.body, e2.body, BindFuns(e.funs, env), cx, d, inLoop) && InlinedFuns(e.funs, e2.funs, cx)
    ensures var sc := ScopeOf(BindFuns(e.funs, env)); ChunkOk(e.funs, sc) && HygienicFuns(e.funs, sc, cx)
    ensures EnvTyped(BindFuns(e.funs, env)) && EnvHygienic(BindFuns(e.funs, env), cx)
    ensures forall f :: f in Sigs(e.funs) ==> f !in ScopeOf(env).funs
  {}

  lemma {:induction false} FunsTyped(ds: Funs, ds2: Funs, env: Env, sc: Scope, cx: Unit, all: set<Sym>)
    requires InlinedFuns(ds, ds2, cx) && HygienicFuns(ds, ScopeOf(env), cx) && ChunkOk(ds, ScopeOf(env))
    requires EnvTyped(env) && EnvHygienic(env, cx) && Under(env, sc) && CalleesOf(ds) <= all && Closing(all, cx)
    ensures Valued(all, cx) ==> ChunkOk(ds2, sc)
    ensures ChunkOk(ds2, sc) ==> Valued(CalleesOf(ds), cx)
    decreases ds2, 1
  {
    hide Static, Under, Closing, EnvTyped, EnvHygienic, Inlined, Hygienic, TypeOf;
    if ds.FunCons? {
      var d, d2 := ds.first, ds2.first;
      FunsTyped(ds.rest, ds2.rest, env, sc, cx, all);
      if d.Function? {
        var inner := BindFormals(d.formals, 0, env);
        FormalsScope(d.formals, 0, env);
        FormalsHygienic(d.formals, 0, env, cx);
        UnderFormals(d.formals, env, sc);
        StaticFolds(d.body, d2.body, inner, cx, cx.bound, false);
        InlinedTyped(d.body, d2.body, inner, sc.Formals(d.formals), cx, cx.bound, false, false, all);
      }
    }
  }

  // ----- functions -----

  /** The bodies that replace calls declare functions of the program text only. */
  ghost predicate BodiesOrdinary(cx: Unit) { forall f :: cx.Expands(f) ==> Ordinary(cx.defs[f].body) }

  lemma {:induction false} OrdinaryInlined(e: Exp, e2: Exp, cx: Unit, d: nat)
    requires Inlined(e, e2, cx, d) && Ordinary(e) && BodiesOrdinary(cx)
    ensures Ordinary(e2)
    decreases e2, 1
  {
    match e
    case OpExp(l, _, r) => OrdinaryInlined(l, e2.left, cx, d); OrdinaryInlined(r, e2.right, cx, d);
    case SeqExp(es) => AllOrdinaryInlined(es, e2.exps, cx, d);
    case AssignExp(_, e1) => OrdinaryInlined(e1, e2.exp, cx, d);
    case IfExp(c, t, f) =>
      OrdinaryInlined(c, e2.test, cx, d);
      OrdinaryInlined(t, e2.thenclause, cx, d);
      OrdinaryInlined(f, e2.elseclause, cx, d);
    case WhileExp(c, body) => OrdinaryInlined(c, e2.test, cx, d); OrdinaryInlined(body, e2.body, cx, d);
    case ForExp(_, lo, hi, body) =>
      OrdinaryInlined(lo, e2.lo, cx, d);
      OrdinaryInlined(hi, e2.hi, cx, d);
      OrdinaryInlined(body, e2.body, cx, d);
    case CallExp(f, args) =>
      if cx.Expands(f) { ExpandedOrdinary(cx.defs[f].formals, args, cx.defs[f].body, e2, cx, d); }
      else { AllOrdinaryInlined(args, e2.args, cx, d); }
    case LetVar(_, init, body) => OrdinaryInlined(init, e2.init, cx, d); OrdinaryInlined(body, e2.body, cx, d);
    case LetFuns(ds, body) => FunsOrdinaryInlined(ds, e2.funs, cx); OrdinaryInlined(body, e2.body, cx, d);
    case _ =>
  }

  lemma {:induction false} AllOrdinaryInlined(es: Exps, es2: Exps, cx: Unit, d: nat)
    requires InlinedAll(es, es2, cx, d) && OrdinaryAll(es) && BodiesOrdinary(cx)
    ensures OrdinaryAll(es2)
    decreases es2, 1
  {
    if es.Cons? { OrdinaryInlined(es.head, es2.head, cx, d); AllOrdinaryInlined(es.tail, es2.tail, cx, d); }
  }

  lemma {:induction false} FunsOrdinaryInlined(ds: Funs, ds2: Funs, cx: Unit)
    requires InlinedFuns(ds, ds2, cx) && OrdinaryFuns(ds) && BodiesOrdinary(cx)
    ensures OrdinaryFuns(ds2)
    decreases ds2, 1
  {
    if ds.FunCons? {
      OrdinaryInlined(ds.first.body, ds2.first.body, cx, cx.bound);
      FunsOrdinaryInlined(ds.rest, ds2.rest, cx);
    }
  }

  lemma {:induction false} ExpandedOrdinary(xs: seq<Sym>, args: Exps, body: Exp, e2: Exp, cx: Unit, d: nat)
    requires Expanded(xs, args, body, e2, cx, d) && OrdinaryAll(args) && Ordinary(body) && BodiesOrdinary(cx)
    ensures Ordinary(e2)
    decreases e2, 0
  {
    if xs == [] {
      OrdinaryInlined(body, e2.init, cx, d - 1);
    } else {
      OrdinaryInlined(args.head, e2.init, cx, d);
      ExpandedOrdinary(xs[1..], args.tail, body, e2.body, cx, d);
    }
  }

  /** A function declared somewhere in `e` calls what `e` calls. */
  lemma {:induction false} Within(e: Exp, d: FunDec)
    requires d in DecsIn(e) && d.Function?
    ensures Callees(d.body) <= Callees(e) && (Ordinary(e) ==> Ordinary(d.body))
    decreases e
  {
    match e
    case OpExp(l, _, r) => if d in DecsIn(l) { Within(l, d); } else { Within(r, d); }
    case SeqExp(es) => WithinAll(es, d);
    case AssignExp(_, e1) => Within(e1, d);
    case IfExp(c, t, f) => if d in DecsIn(c) { Within(c, d); } else if d in DecsIn(t) { Within(t, d); } else { Within(f, d); }
    case WhileExp(c, body) => if d in DecsIn(c) { Within(c, d); } else { Within(body, d); }
    case ForExp(_, lo, hi, body) =>
      if d in DecsIn(lo) { Within(lo, d); } else if d in DecsIn(hi) { Within(hi, d); } else { Within(body, d); }
    case CallExp(_, args) => WithinAll(args, d);
    case LetVar(_, init, body) => if d in DecsIn(init) { Within(init, d); } else { Within(body, d); }
    case LetFuns(ds, body) => if d in DecsOf(ds) { WithinFuns(ds, d); } else { Within(body, d); }
    case _ =>
  }

  lemma {:induction false} WithinAll(es: Exps, d: FunDec)
    requires d in DecsInAll(es) && d.Function?
    ensures Callees(d.body) <= CalleesAll(es) && (OrdinaryAll(es) ==> Ordinary(d.body))
    decreases es
  {
    if d in DecsIn(es.head) { Within(es.head, d); } else { WithinAll(es.tail, d); }
  }

  lemma {:induction false} WithinFuns(ds: Funs, d: FunDec)
    requires d in DecsOf(ds) && d.Function?
    ensures Callees(d.body) <= CalleesOf(ds) && (OrdinaryFuns(ds) ==> Ordinary(d.body))
    decreases ds
  {
    if d != ds.first {
      if ds.first.Function? && d in DecsIn(ds.first.body) { Within(ds.first.body, d); } else { WithinFuns(ds.rest, d); }
    }
  }

  // ----- programs -----

  lemma ProgramClosing(q: Program, cx: Unit)
    requires Renamed(q) && cx.defs == DefsOf(q.Decs())
    ensures Closing(Callees(q.main.body), cx) && BodiesOrdinary(cx)
  {
    hide Callees, Ordinary;
    forall f | cx.Expands(f) ensures Callees(cx.defs[f].body) <= Callees(q.main.body) && Ordinary(cx.defs[f].body) {
      DefinedInText(q, f);
      if cx.defs[f] != q.main { Within(q.main.body, cx.defs[f]); }
    }
  }

  lemma SameEnvScope(q: Program, e2: Exp)
    requires Accepted(q)
    ensures ScopeOf(WithBody(q, e2).Env()) == ScopeOf(q.Env())
  {
    assert Sigs(WithBody(q, e2).Chunk()) == Sigs(q.Chunk());
  }

  /** The check that follows expansion finds a program of the same fragment exactly if every function
      expanded returns an integer. */
  lemma ExpandedAccepted(q: Program, e2: Exp, recs: set<Sym>, bound: nat)
    requires Renamed(q) && Inlined(q.main.body, e2, Unit(DefsOf(q.Decs()), recs, bound), bound)
    ensures Accepted(WithBody(q, e2)) <==> Valued(Callees(q.main.body), Unit(DefsOf(q.Decs()), recs, bound))
  {
    hide Inlined, Callees, Ordinary, TypeOf, Closing, BodiesOrdinary, Renamed, EnvTyped, EnvHygienic, Hygienic, DefsOf, Under, Valued;
    var cx, env := Unit(DefsOf(q.Decs()), recs, bound), q.Env();
    MainStatic(q, e2, recs, bound);
    ProgramClosing(q, cx);
    InlinedTyped(q.main.body, e2, env, ScopeOf(env), cx, bound, false, false, Callees(q.main.body));
    OrdinaryInlined(q.main.body, e2, cx, bound);
    SameEnvScope(q, e2);
  }

  lemma MainStatic(q: Program, e2: Exp, recs: set<Sym>, bound: nat)
    requires Renamed(q) && Inlined(q.main.body, e2, Unit(DefsOf(q.Decs()), recs, bound), bound)
    ensures Accepted(q) && Static(q.main.body, e2, q.Env(), Unit(DefsOf(q.Decs()), recs, bound), bound, false)
    ensures Under(q.Env(), ScopeOf(q.Env()))
  {
    hide Inlined, Hygienic, TypeOf;
    var cx := Unit(DefsOf(q.Decs()), recs, bound);
    ProgramSim(q, e2, recs, bound);
    ProgramTyped(q);
    assert ScopeOf(q.Env()).Formals([]) == ScopeOf(q.Env());
    StaticFolds(q.main.body, e2, q.Env(), cx, bound, false);
    ProgramUnder(q);
  }

  lemma ProgramUnder(q: Program)
    requires Accepted(q)
    ensures Under(q.Env(), ScopeOf(q.Env()))
  {
    hide TypeOf, Ordinary;
    var outer, sc := BindFuns(q.prims, Top), ScopeOf(q.Env());
    PreludeWithoutMain(q.prims);
    assert Sigs(NoFun) == map[];
    assert Sigs(q.Chunk()).Keys == {MAIN};
    assert ScopeOf(outer).funs == Sigs(q.prims);
    assert sc.funs == ScopeOf(outer).funs + Sigs(q.Chunk());
    assert Under(Top, sc);
    assert Under(outer, sc);
  }

  /** From a program as written to its expansion: renamed, expanded, with the same behaviour. */
  ghost predicate ExpandsTo(p: Program, links: map<Sym, Sym>, q2: Program)
    requires Accepted(p)
  {
    var q := RenameProgram(p);
    && q.main.Function? && q2.main.Function? && q2 == WithBody(q, q2.main.body)
    && Inlined(q.main.body, q2.main.body, UnitOf(q, links), UnitOf(q, links).bound)
  }

  /** The functions of the program that are expanded return integers. */
  ghost predicate ValuesOnly(p: Program, links: map<Sym, Sym>)
    requires Accepted(p)
  {
    var q := RenameProgram(p); q.main.Function? && Valued(Callees(q.main.body), UnitOf(q, links))
  }

  /** No call comes to a cycle of functions that are not found recursive. */
  ghost predicate Expandable(p: Program, links: map<Sym, Sym>)
    requires Accepted(p)
  {
    var q := RenameProgram(p); q.main.Function? && Acyclic(Callees(q.main.body), UnitOf(q, links))
  }

  /** A program can be expanded exactly if, once it is renamed, no call comes to a cycle of functions
      that are not found recursive; and expanded it behaves as it was written. */
  lemma AcceptedInlines(p: Program, links: map<Sym, Sym>)
    requires Accepted(p)
    ensures (exists q2 :: ExpandsTo(p, links, q2)) <==> Expandable(p, links)
  {
    hide Acyclic, Callees, UnitOf, Renamed;
    var q := RenameProgram(p);
    RenamedIsRenamed(p);
    RenamedMain(q);
    ProgramInlines(q, links);
    var cx := UnitOf(q, links);
    if Expandable(p, links) {
      var e2 :| Inlined(q.main.body, e2, cx, cx.bound);
      assert ExpandsTo(p, links, WithBody(q, e2));
    }
    if q2 :| ExpandsTo(p, links, q2) {
      OnlyAcyclicInlined(q, links, q2.main.body);
    }
  }

  lemma OnlyAcyclicInlined(q: Program, links: map<Sym, Sym>, e2: Exp)
    requires Renamed(q) && Inlined(q.main.body, e2, UnitOf(q, links), UnitOf(q, links).bound)
    ensures Acyclic(Callees(q.main.body), UnitOf(q, links))
  {
    hide Acyclic, Callees, UnitOf, Renamed;
    ProgramInlines(q, links);
  }

  lemma AcceptedAlike(p: Program, links: map<Sym, Sym>, q2: Program)
    requires Accepted(p) && ExpandsTo(p, links, q2)
    ensures p.main.Function? && Alike(p, q2)
    ensures Accepted(q2) <==> ValuesOnly(p, links)
  {
    hide Inlined, Callees, Renamed, DefsOf, EndsAs, Valued;
    var q := RenameProgram(p);
    RenamedIsRenamed(p);
    var cx := UnitOf(q, links);
    InlinedAlike(q, q2.main.body, cx.recs, cx.bound);
    ExpandedAccepted(q, q2.main.body, cx.recs, cx.bound);
    forall input: seq<int32>, o: Outcome<int32> | !o.Timeout? ensures EndsAs(p, input, o) <==> EndsAs(q2, input, o) {
      RenamedEnds(p, input, o);
    }
    forall input: seq<int32> ensures Diverges(p, input) <==> Diverges(q2, input) {
      forall fuel: nat ensures Meaning(q, input, fuel) == Meaning(p, input, fuel) { RenameProgramKeeps(p, input, fuel); }
    }
  }

  lemma RenamedEnds(p: Program, input: seq<int32>, o: Outcome<int32>)
    requires Accepted(p)
    ensures RenameProgram(p).main.Function? && (EndsAs(RenameProgram(p), input, o) <==> EndsAs(p, input, o))
  {
    RenameProgramKeeps(p, input, 0);
    forall fuel: nat ensures Meaning(RenameProgram(p), input, fuel) == Meaning(p, input, fuel) { RenameProgramKeeps(p, input, fuel); }
  }

  /** The code of `q` halts, traps or runs for ever as `p` does, and never crashes. */
  ghost predicate CodeRunsAs(p: Program, q: Program, escapes: map<Sym, seq<Sym>>, input: seq<int32>, junk: seq<MVal>, s: State)
    requires p.main.Function?
  {
    && q.main.Function?
    && var m, c := Generate(q.Decs(), ContextOf(q, escapes, true)), Start(q, input, junk);
    && (EndsAs(p, input, Val(0, s)) <==> Halts(m, c, s))
    && (EndsAs(p, input, Fault(s)) <==> Traps(m, c, s))
    && (Diverges(p, input) <==> RunsForever(m, c))
    && forall st: State :: !Codegen.Reaches(m, c, Crashed(st))
  }

  /** The whole compiler with inlining: the code generated for the expanded program does what the
      program does as it was written.  `AcceptedAlike` says when the expanded program is accepted. */
  lemma InliningCompilerCorrect(p: Program, links: map<Sym, Sym>, q2: Program, flags: set<Sym>, escapes: map<Sym, seq<Sym>>,
                                input: seq<int32>, junk: seq<MVal>, s: State)
    requires Accepted(p) && ExpandsTo(p, links, q2) && Accepted(q2) && s.mem == []
    requires Enumerates(escapes, LeastNeeds(MarksOf(Prepared(q2), flags), ProgramVisits(Prepared(q2))))
    requires |junk| == |ContextOf(Prepared(q2), escapes, true).Of(MAIN).lifted|
    ensures p.main.Function? && CodeRunsAs(p, Prepared(q2), escapes, input, junk, s)
  {
    hide ExpandsTo, Halts, Traps, RunsForever, Codegen.Reaches, EndsAs, Diverges, Generate, Start, ValuesOnly;
    AcceptedAlike(p, links, q2);
    PreparedReady(q2);
    CompilerCorrect(q2, flags, escapes, input, junk, s);
  }

  /** The inliner at work on a program as it was written. */
  method InlineAsWritten(p: Program) returns (q2: Program)
    requires Accepted(p) && Expandable(p, ProgramLinks(RenameProgram(p)))
    ensures var links := ProgramLinks(RenameProgram(p));
      ExpandsTo(p, links, q2) && p.main.Function? && Alike(p, q2) && (Accepted(q2) <==> ValuesOnly(p, links))
  {
    hide Accepted, Acyclic, Inlined, Renamed, ValuesOnly, Alike;
    RenamedIsRenamed(p);
    q2 := InlineMain(RenameProgram(p));
    AcceptedAlike(p, ProgramLinks(RenameProgram(p)), q2);
  }
}
