/** Facts about evaluation that several passes rely on. */
module Evaluation {
  import opened Int32
  import opened Options
  import opened Tiger
  import opened Check
  import opened Steps

  /** Evaluation never gives cells back. */
  lemma {:induction false} MemGrows(e: Exp, env: Env, st: State, fuel: nat)
    ensures |Eval(e, env, st, fuel).st.mem| >= |st.mem|
    decreases fuel, e, 0
  {
    match e
    case IntExp(_) =>
    case VarExp(_) =>
    case OpExp(l, _, r) =>
      MemGrows(l, env, st, fuel);
      MemGrows(r, env, Eval(l, env, st, fuel).st, fuel);
    case SeqExp(es) => MemGrowsArgs(es, env, st, fuel);
    case AssignExp(_, e1) => MemGrows(e1, env, st, fuel);
    case IfExp(c, t, f) =>
      MemGrows(c, env, st, fuel);
      MemGrows(t, env, Eval(c, env, st, fuel).st, fuel);
      MemGrows(f, env, Eval(c, env, st, fuel).st, fuel);
    case WhileExp(c, body) => MemGrowsWhile(c, body, env, st, fuel);
    case ForExp(i, lo, hi, body) =>
      MemGrows(lo, env, st, fuel);
      var l := Eval(lo, env, st, fuel);
      MemGrows(hi, env, l.st, fuel);
      var h := Eval(hi, env, l.st, fuel);
      if l.Val? && h.Val? {
        MemGrowsFor(body, BindVar(i, |h.st.mem|, true, env), |h.st.mem|, l.value, h.value, h.st.Alloc(l.value), fuel);
      }
    case BreakExp =>
    case CallExp(f, args) =>
      MemGrowsArgs(args, env, st, fuel);
      var vs := EvalArgs(args, env, st, fuel);
      if vs.Val? && fuel > 0 && LookupFun(env, f).Some? && LookupFun(env, f).value.dec.Function? {
        MemGrowsBody(LookupFun(env, f).value, vs.value, vs.st, fuel - 1);
      }
    case LetVar(x, init, body) =>
      MemGrows(init, env, st.Alloc(0), fuel);
      var v := Eval(init, env, st.Alloc(0), fuel);
      if v.Val? { MemGrows(body, BindVar(x, |st.mem|, false, env), v.st.Write(|st.mem|, v.value), fuel); }
    case LetFuns(ds, body) => MemGrows(body, BindFuns(ds, env), st, fuel);
  }

  lemma {:induction false} MemGrowsArgs(es: Exps, env: Env, st: State, fuel: nat)
    ensures |EvalArgs(es, env, st, fuel).st.mem| >= |st.mem|
    decreases fuel, es, 0
  {
    match es
    case NoExp =>
    case Cons(e, rest) =>
      MemGrows(e, env, st, fuel);
      MemGrowsArgs(rest, env, Eval(e, env, st, fuel).st, fuel);
  }

  lemma {:induction false} MemGrowsWhile(test: Exp, body: Exp, env: Env, st: State, fuel: nat)
    ensures |EvalWhile(test, body, env, st, fuel).st.mem| >= |st.mem|
    decreases fuel, body, 1
  {
    if fuel > 0 {
      MemGrows(test, env, st, fuel - 1);
      var c := Eval(test, env, st, fuel - 1);
      MemGrows(body, env, c.st, fuel - 1);
      MemGrowsWhile(test, body, env, Eval(body, env, c.st, fuel - 1).st, fuel - 1);
    }
  }

  lemma {:induction false} MemGrowsFor(body: Exp, env: Env, loc: nat, k: int, hi: int32, st: State, fuel: nat)
    requires INT_MIN <= k <= INT_MAX + 1
    ensures |EvalFor(body, env, loc, k, hi, st, fuel).st.mem| >= |st.mem|
    decreases fuel, body, 1
  {
    if k <= hi && fuel > 0 {
      MemGrows(body, env, st.Write(loc, k), fuel - 1);
      MemGrowsFor(body, env, loc, k + 1, hi, Eval(body, env, st.Write(loc, k), fuel - 1).st, fuel - 1);
    }
  }

  lemma {:induction false} MemGrowsBody(c: Callee, args: seq<int32>, st: State, fuel: nat)
    requires c.dec.Function?
    ensures |EvalBody(c, args, st, fuel).st.mem| >= |st.mem|
    decreases fuel, c.dec.body, 1
  {
    MemGrows(c.dec.body, BindFormals(c.dec.formals, |st.mem|, c.env), st.(mem := st.mem + args), fuel);
  }

  lemma {:induction false} ArgCount(es: Exps, env: Env, st: State, fuel: nat)
    ensures EvalArgs(es, env, st, fuel).Val? ==> |EvalArgs(es, env, st, fuel).value| == Length(es)
    decreases es
  {
    if es.Cons? { ArgCount(es.tail, env, Eval(es.head, env, st, fuel).st, fuel); }
  }

  /** What a call does once its arguments are known. */
  function CallOutcome(f: Sym, callee: Callee, vs: seq<int32>, st: State, fuel: nat): Outcome<int32> {
    if callee.dec.Primitive? then Val(st.Answer(callee.dec.result), st.Primitive(f, vs, callee.dec.result))
    else if fuel == 0 then Timeout(st)
    else EvalBody(callee, vs, st, fuel - 1)
  }

  // ----- read-only variables -----

  /** Cell `c` is only ever named by read-only variables of `env`. */
  predicate Protected(env: Env, c: nat) {
    match env
    case Top => true
    case BindVar(_, loc, ro, outer) => (loc == c ==> ro) && Protected(outer, c)
    case BindFuns(_, outer) => Protected(outer, c)
  }

  /** Every chunk of the static chain has been checked. */
  predicate EnvTyped(env: Env) {
    match env
    case Top => true
    case BindVar(_, _, _, outer) => EnvTyped(outer)
    case BindFuns(ds, outer) => ChunkOk(ds, ScopeOf(env)) && EnvTyped(outer)
  }

  lemma {:induction false} ProtectedLookup(env: Env, x: Sym, c: nat)
    requires Protected(env, c) && LookupVar(env, x) == Some(c)
    ensures x in ScopeOf(env).vars && ScopeOf(env).vars[x]
  {
    match env
    case BindVar(y, _, _, outer) => if x != y { ProtectedLookup(outer, x, c); }
    case BindFuns(_, outer) => ProtectedLookup(outer, x, c);
  }

  lemma {:induction false} ProtectedFormals(xs: seq<Sym>, base: nat, env: Env, c: nat)
    requires Protected(env, c) && c < base
    ensures Protected(BindFormals(xs, base, env), c)
    decreases |xs|
  {
    if xs != [] { ProtectedFormals(xs[1..], base + 1, BindVar(xs[0], base, false, env), c); }
  }

  lemma {:induction false} FormalsScope(xs: seq<Sym>, base: nat, env: Env)
    ensures ScopeOf(BindFormals(xs, base, env)) == ScopeOf(env).Formals(xs)
    ensures EnvTyped(BindFormals(xs, base, env)) <==> EnvTyped(env)
    decreases |xs|
  {
    if xs != [] { FormalsScope(xs[1..], base + 1, BindVar(xs[0], base, false, env)); }
  }

  lemma {:induction false} TypedInChunk(ds: Funs, f: Sym, sc: Scope)
    requires ChunkOk(ds, sc)
    ensures var r := FindFun(ds, f);
      && (r.FunCons? <==> f in Sigs(ds)) && (r.FunCons? ==> Sigs(ds)[f] == SigOf(r.first))
      && (r.FunCons? && r.first.Function? ==> TypeOf(r.first.body, sc.Formals(r.first.formals), false) == Some(r.first.result))
  {
    if ds.FunCons? && ds.first.name != f { TypedInChunk(ds.rest, f, sc); }
  }

  /** A visible function is found, with its declared signature and a checked body. */
  lemma {:induction false} TypedCallee(env: Env, f: Sym)
    requires EnvTyped(env) && f in ScopeOf(env).funs
    ensures LookupFun(env, f).Some?
    ensures var c := LookupFun(env, f).value;
      && EnvTyped(c.env) && SigOf(c.dec) == ScopeOf(env).funs[f]
      && (c.dec.Function? ==> TypeOf(c.dec.body, ScopeOf(c.env).Formals(c.dec.formals), false) == Some(c.dec.result))
  {
    match env
    case BindVar(_, _, _, outer) => TypedCallee(outer, f);
    case BindFuns(ds, outer) =>
      TypedInChunk(ds, f, ScopeOf(env));
      if FindFun(ds, f).NoFun? { TypedCallee(outer, f); }
  }

  lemma {:induction false} ProtectedCallee(env: Env, f: Sym, c: nat)
    requires Protected(env, c) && LookupFun(env, f).Some?
    ensures Protected(LookupFun(env, f).value.env, c)
  {
    match env
    case BindVar(_, _, _, outer) => ProtectedCallee(outer, f, c);
    case BindFuns(ds, outer) => if FindFun(ds, f).NoFun? { ProtectedCallee(outer, f, c); }
  }

  predicate SeqTyped(es: Exps, sc: Scope, inLoop: bool) {
    match es
    case NoExp => true
    case Cons(e, rest) => TypeOf(e, sc, inLoop).Some? && SeqTyped(rest, sc, inLoop)
  }

  lemma {:induction false} TypedParts(es: Exps, sc: Scope, inLoop: bool)
    requires TypeOfSeq(es, sc, inLoop).Some? || AllInt(es, sc, inLoop)
    ensures SeqTyped(es, sc, inLoop)
  {
    match es
    case NoExp =>
    case Cons(_, NoExp) =>
    case Cons(_, rest) => TypedParts(rest, sc, inLoop);
  }

  /** What the checker's read-only flag promises: running checked code, functions it calls
      included, leaves a read-only variable's cell as it was. */
  lemma {:induction false} ReadOnlyKept(e: Exp, env: Env, st: State, fuel: nat, c: nat, inLoop: bool)
    requires TypeOf(e, ScopeOf(env), inLoop).Some? && EnvTyped(env) && Protected(env, c) && c < |st.mem|
    ensures var o := Eval(e, env, st, fuel); |o.st.mem| >= |st.mem| && o.st.mem[c] == st.mem[c]
    decreases fuel, e, 1
  {
    MemGrows(e, env, st, fuel);
    match e
    case IntExp(_) =>
    case VarExp(_) =>
    case OpExp(l, _, r) =>
      ReadOnlyKept(l, env, st, fuel, c, inLoop);
      ReadOnlyKept(r, env, Eval(l, env, st, fuel).st, fuel, c, inLoop);
    case SeqExp(es) =>
      TypedParts(es, ScopeOf(env), inLoop);
      ReadOnlyKeptArgs(es, env, st, fuel, c, inLoop);
    case AssignExp(x, e1) =>
      ReadOnlyKept(e1, env, st, fuel, c, inLoop);
      if LookupVar(env, x) == Some(c) { ProtectedLookup(env, x, c); }
    case IfExp(_, _, _) => ReadOnlyKeptIf(e, env, st, fuel, c, inLoop);
    case WhileExp(t, body) => ReadOnlyKeptWhile(t, body, env, st, fuel, c, inLoop);
    case ForExp(_, _, _, _) => ReadOnlyKeptLoop(e, env, st, fuel, c, inLoop);
    case BreakExp =>
    case CallExp(f, args) => ReadOnlyKeptCall(f, args, env, st, fuel, c, inLoop);
    case LetVar(_, _, _) => ReadOnlyKeptVar(e, env, st, fuel, c, inLoop);
    case LetFuns(ds, body) => ReadOnlyKept(body, BindFuns(ds, env), st, fuel, c, inLoop);
  }

  lemma {:induction false} ReadOnlyKeptIf(e: Exp, env: Env, st: State, fuel: nat, c: nat, inLoop: bool)
    requires e.IfExp?
    requires TypeOf(e, ScopeOf(env), inLoop).Some? && EnvTyped(env) && Protected(env, c) && c < |st.mem|
    ensures var o := Eval(e, env, st, fuel); |o.st.mem| >= |st.mem| && o.st.mem[c] == st.mem[c]
    decreases fuel, e, 0
  {
    var t, thn, els := e.test, e.thenclause, e.elseclause;
    ReadOnlyKept(t, env, st, fuel, c, inLoop);
    ReadOnlyKept(thn, env, Eval(t, env, st, fuel).st, fuel, c, inLoop);
    ReadOnlyKept(els, env, Eval(t, env, st, fuel).st, fuel, c, inLoop);
  }

  lemma {:induction false} ReadOnlyKeptVar(e: Exp, env: Env, st: State, fuel: nat, c: nat, inLoop: bool)
    requires e.LetVar?
    requires TypeOf(e, ScopeOf(env), inLoop).Some? && EnvTyped(env) && Protected(env, c) && c < |st.mem|
    ensures var o := Eval(e, env, st, fuel); |o.st.mem| >= |st.mem| && o.st.mem[c] == st.mem[c]
    decreases fuel, e, 0
  {
    var x, init, body := e.name, e.init, e.body;
    ReadOnlyKept(init, env, st.Alloc(0), fuel, c, inLoop);
    var v := Eval(init, env, st.Alloc(0), fuel);
    if v.Val? {
      ReadOnlyKept(body, BindVar(x, |st.mem|, false, env), v.st.Write(|st.mem|, v.value), fuel, c, inLoop);
    }
  }

  lemma {:induction false} ReadOnlyKeptLoop(e: Exp, env: Env, st: State, fuel: nat, c: nat, inLoop: bool)
    requires e.ForExp?
    requires TypeOf(e, ScopeOf(env), inLoop).Some? && EnvTyped(env) && Protected(env, c) && c < |st.mem|
    ensures var o := Eval(e, env, st, fuel); |o.st.mem| >= |st.mem| && o.st.mem[c] == st.mem[c]
    decreases fuel, e, 0
  {
    var i, lo, hi, body := e.index, e.lo, e.hi, e.body;
    ReadOnlyKept(hi, env, st, fuel, c, inLoop);
    var h := Eval(hi, env, st, fuel);
    if h.Val? {
      ReadOnlyKeptFor(body, BindVar(i, |h.st.mem|, true, env), |h.st.mem|, lo.value, h.value, h.st.Alloc(lo.value), fuel, c);
    }
  }

  lemma {:induction false} ReadOnlyKeptArgs(es: Exps, env: Env, st: State, fuel: nat, c: nat, inLoop: bool)
    requires SeqTyped(es, ScopeOf(env), inLoop) && EnvTyped(env) && Protected(env, c) && c < |st.mem|
    ensures var o := EvalArgs(es, env, st, fuel); |o.st.mem| >= |st.mem| && o.st.mem[c] == st.mem[c]
    decreases fuel, es, 1
  {
    if es.Cons? {
      ReadOnlyKept(es.head, env, st, fuel, c, inLoop);
      ReadOnlyKeptArgs(es.tail, env, Eval(es.head, env, st, fuel).st, fuel, c, inLoop);
    }
  }

  lemma {:induction false} ReadOnlyKeptCall(f: Sym, args: Exps, env: Env, st: State, fuel: nat, c: nat, inLoop: bool)
    requires TypeOf(CallExp(f, args), ScopeOf(env), inLoop).Some? && EnvTyped(env) && Protected(env, c) && c < |st.mem|
    ensures var o := Eval(CallExp(f, args), env, st, fuel); |o.st.mem| >= |st.mem| && o.st.mem[c] == st.mem[c]
    decreases fuel, CallExp(f, args), 0
  {
    TypedParts(args, ScopeOf(env), inLoop);
    ReadOnlyKeptArgs(args, env, st, fuel, c, inLoop);
    var vs := EvalArgs(args, env, st, fuel);
    TypedCallee(env, f);
    var callee := LookupFun(env, f).value;
    if vs.Val? && fuel > 0 && callee.dec.Function? && |callee.dec.formals| == |vs.value| {
      ProtectedCallee(env, f, c);
      ProtectedFormals(callee.dec.formals, |vs.st.mem|, callee.env, c);
      FormalsScope(callee.dec.formals, |vs.st.mem|, callee.env);
      ReadOnlyKept(callee.dec.body, BindFormals(callee.dec.formals, |vs.st.mem|, callee.env),
                   vs.st.(mem := vs.st.mem + vs.value), fuel - 1, c, false);
    }
  }

  lemma {:induction false} ReadOnlyKeptWhile(test: Exp, body: Exp, env: Env, st: State, fuel: nat, c: nat, inLoop: bool)
    requires TypeOf(test, ScopeOf(env), inLoop).Some? && TypeOf(body, ScopeOf(env), true).Some?
    requires EnvTyped(env) && Protected(env, c) && c < |st.mem|
    ensures var o := EvalWhile(test, body, env, st, fuel); |o.st.mem| >= |st.mem| && o.st.mem[c] == st.mem[c]
    decreases fuel, body, 2
  {
    if fuel > 0 {
      ReadOnlyKept(test, env, st, fuel - 1, c, inLoop);
      var t := Eval(test, env, st, fuel - 1);
      ReadOnlyKept(body, env, t.st, fuel - 1, c, true);
      ReadOnlyKeptWhile(test, body, env, Eval(body, env, t.st, fuel - 1).st, fuel - 1, c, inLoop);
    }
  }

  lemma {:induction false} ReadOnlyKeptFor(body: Exp, env: Env, loc: nat, k: int, hi: int32, st: State, fuel: nat, c: nat)
    requires INT_MIN <= k <= INT_MAX + 1 && loc != c && TypeOf(body, ScopeOf(env), true).Some?
    requires EnvTyped(env) && Protected(env, c) && c < |st.mem|
    ensures var o := EvalFor(body, env, loc, k, hi, st, fuel); |o.st.mem| >= |st.mem| && o.st.mem[c] == st.mem[c]
    decreases fuel, body, 2
  {
    if k <= hi && fuel > 0 {
      ReadOnlyKept(body, env, st.Write(loc, k), fuel - 1, c, true);
      ReadOnlyKeptFor(body, env, loc, k + 1, hi, Eval(body, env, st.Write(loc, k), fuel - 1).st, fuel - 1, c);
    }
  }

  // ----- what the checker promises of outcomes -----

  /** Checked code breaks only out of a loop around it, and leaves no value when it has none. */
  lemma {:induction false} TypedOutcome(e: Exp, env: Env, st: State, fuel: nat, inLoop: bool)
    requires TypeOf(e, ScopeOf(env), inLoop).Some? && EnvTyped(env)
    ensures var o := Eval(e, env, st, fuel);
      (o.Brk? ==> inLoop) && (o.Val? && TypeOf(e, ScopeOf(env), inLoop) == Some(VoidTy) ==> o.value == 0)
    decreases fuel, e, 1
  {
    hide EnvTyped, EvalWhile, EvalFor, EvalArgs, EvalBody;
    match e
    case IntExp(_) =>
    case VarExp(_) =>
    case OpExp(l, _, r) =>
      TypedOutcome(l, env, st, fuel, inLoop);
      TypedOutcome(r, env, Eval(l, env, st, fuel).st, fuel, inLoop);
    case SeqExp(es) => TypedSeqOutcome(es, env, st, fuel, inLoop);
    case AssignExp(_, e1) => TypedOutcome(e1, env, st, fuel, inLoop);
    case IfExp(c, t, f) =>
      TypedOutcome(c, env, st, fuel, inLoop);
      TypedOutcome(t, env, Eval(c, env, st, fuel).st, fuel, inLoop);
      TypedOutcome(f, env, Eval(c, env, st, fuel).st, fuel, inLoop);
    case WhileExp(c, body) => TypedWhileOutcome(c, body, env, st, fuel, inLoop);
    case ForExp(i, lo, hi, body) =>
      TypedOutcome(hi, env, st, fuel, inLoop);
      var h := Eval(hi, env, st, fuel);
      if h.Val? {
        TypedForOutcome(body, BindVar(i, |h.st.mem|, true, env), |h.st.mem|, lo.value, h.value, h.st.Alloc(lo.value), fuel);
      }
    case BreakExp =>
    case CallExp(f, args) => TypedCallOutcome(f, args, env, st, fuel, inLoop);
    case LetVar(x, init, body) =>
      TypedOutcome(init, env, st.Alloc(0), fuel, inLoop);
      var v := Eval(init, env, st.Alloc(0), fuel);
      VarTyped(env, x, |st.mem|, false);
      if v.Val? { TypedOutcome(body, BindVar(x, |st.mem|, false, env), v.st.Write(|st.mem|, v.value), fuel, inLoop); }
    case LetFuns(ds, body) => TypedInChunkOutcome(ds, body, env, st, fuel, inLoop);
  }

  lemma VarTyped(env: Env, x: Sym, loc: nat, ro: bool)
    requires EnvTyped(env)
    ensures EnvTyped(BindVar(x, loc, ro, env))
  {}

  lemma {:induction false} TypedCallOutcome(f: Sym, args: Exps, env: Env, st: State, fuel: nat, inLoop: bool)
    requires TypeOf(CallExp(f, args), ScopeOf(env), inLoop).Some? && EnvTyped(env)
    ensures var o := Eval(CallExp(f, args), env, st, fuel);
      (o.Brk? ==> inLoop) && (o.Val? && TypeOf(CallExp(f, args), ScopeOf(env), inLoop) == Some(VoidTy) ==> o.value == 0)
    decreases fuel, CallExp(f, args), 0
  {
    hide EnvTyped, Eval, EvalArgs;
    CallSteps(f, args, env, st, fuel);
    TypedParts(args, ScopeOf(env), inLoop);
    TypedArgsOutcome(args, env, st, fuel, inLoop);
    TypedCallee(env, f);
  }

  lemma {:induction false} TypedInChunkOutcome(ds: Funs, body: Exp, env: Env, st: State, fuel: nat, inLoop: bool)
    requires TypeOf(LetFuns(ds, body), ScopeOf(env), inLoop).Some? && EnvTyped(env)
    ensures var o := Eval(body, BindFuns(ds, env), st, fuel);
      (o.Brk? ==> inLoop) && (o.Val? && TypeOf(LetFuns(ds, body), ScopeOf(env), inLoop) == Some(VoidTy) ==> o.value == 0)
    decreases fuel, body, 2
  {
    hide Eval;
    TypedOutcome(body, BindFuns(ds, env), st, fuel, inLoop);
  }

  lemma {:induction false} TypedSeqOutcome(es: Exps, env: Env, st: State, fuel: nat, inLoop: bool)
    requires TypeOfSeq(es, ScopeOf(env), inLoop).Some? && EnvTyped(env)
    ensures var o := EvalArgs(es, env, st, fuel);
      && (o.Brk? ==> inLoop)
      && (o.Val? && o.value != [] && TypeOfSeq(es, ScopeOf(env), inLoop) == Some(VoidTy) ==> o.value[|o.value| - 1] == 0)
      && (o.Val? ==> |o.value| == Length(es))
    decreases fuel, es, 0
  {
    if es.Cons? {
      TypedOutcome(es.head, env, st, fuel, inLoop);
      ArgCount(es, env, st, fuel);
      if es.tail.Cons? { TypedSeqOutcome(es.tail, env, Eval(es.head, env, st, fuel).st, fuel, inLoop); }
    }
  }

  lemma {:induction false} TypedArgsOutcome(es: Exps, env: Env, st: State, fuel: nat, inLoop: bool)
    requires SeqTyped(es, ScopeOf(env), inLoop) && EnvTyped(env)
    ensures EvalArgs(es, env, st, fuel).Brk? ==> inLoop
    decreases fuel, es, 0
  {
    if es.Cons? {
      TypedOutcome(es.head, env, st, fuel, inLoop);
      TypedArgsOutcome(es.tail, env, Eval(es.head, env, st, fuel).st, fuel, inLoop);
    }
  }

  lemma {:induction false} TypedWhileOutcome(c: Exp, body: Exp, env: Env, st: State, fuel: nat, inLoop: bool)
    requires TypeOf(c, ScopeOf(env), inLoop).Some? && EnvTyped(env)
    ensures var o := EvalWhile(c, body, env, st, fuel); (o.Brk? ==> inLoop) && (o.Val? ==> o.value == 0)
    decreases fuel, body, 0
  {
    hide Eval, TypeOf, EnvTyped;
    if fuel > 0 {
      TypedOutcome(c, env, st, fuel - 1, inLoop);
      var t := Eval(c, env, st, fuel - 1);
      TypedWhileOutcome(c, body, env, Eval(body, env, t.st, fuel - 1).st, fuel - 1, inLoop);
    }
  }

  lemma {:induction false} TypedForOutcome(body: Exp, env: Env, loc: nat, k: int, hi: int32, st: State, fuel: nat)
    requires INT_MIN <= k <= INT_MAX + 1
    ensures var o := EvalFor(body, env, loc, k, hi, st, fuel); !o.Brk? && (o.Val? ==> o.value == 0)
    decreases fuel, body, 0
  {
    if k <= hi && fuel > 0 {
      TypedForOutcome(body, env, loc, k + 1, hi, Eval(body, env, st.Write(loc, k), fuel - 1).st, fuel - 1);
    }
  }
}
