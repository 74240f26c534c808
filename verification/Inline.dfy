/** Inline expansion (src/inlining/inliner.cc) keeps the meaning of a program. */
module Inline {
  import opened Int32
  import opened Options
  import opened Tiger
  import opened Check
  import opened Evaluation
  import opened Storage
  import opened Steps

  /** The variable an expansion leaves the result of the body in. */
  const RES: Sym := Sym("res")

  /** `defs` is the definition every call is bound to, `recs` the functions never expanded, `bound`
      a limit on how deep expansions nest. */
  datatype Unit = Unit(defs: map<Sym, FunDec>, recs: set<Sym>, bound: nat)
  {
    predicate Expands(f: Sym) { f in defs && defs[f].Function? && f !in recs }
  }

  /** `e2` is what the inliner makes of `e`, expansions nesting `d` deep at most. */
  ghost predicate Inlined(e: Exp, e2: Exp, cx: Unit, d: nat)
    decreases e2, 1
  {
    match e
    case IntExp(_) => e2 == e
    case VarExp(_) => e2 == e
    case OpExp(l, op, r) => e2.OpExp? && e2.oper == op && Inlined(l, e2.left, cx, d) && Inlined(r, e2.right, cx, d)
    case SeqExp(es) => e2.SeqExp? && InlinedAll(es, e2.exps, cx, d)
    case AssignExp(x, e1) => e2.AssignExp? && e2.name == x && Inlined(e1, e2.exp, cx, d)
    case IfExp(c, t, f) =>
      e2.IfExp? && Inlined(c, e2.test, cx, d) && Inlined(t, e2.thenclause, cx, d) && Inlined(f, e2.elseclause, cx, d)
    case WhileExp(c, body) => e2.WhileExp? && Inlined(c, e2.test, cx, d) && Inlined(body, e2.body, cx, d)
    case ForExp(i, lo, hi, body) =>
      && e2.ForExp? && e2.index == i && Inlined(lo, e2.lo, cx, d) && Inlined(hi, e2.hi, cx, d) && Inlined(body, e2.body, cx, d)
    case BreakExp => e2 == e
    case CallExp(f, args) =>
      if cx.Expands(f) then Expanded(cx.defs[f].formals, args, cx.defs[f].body, e2, cx, d)
      else e2.CallExp? && e2.name == f && InlinedAll(args, e2.args, cx, d)
    case LetVar(x, init, body) => e2.LetVar? && e2.name == x && Inlined(init, e2.init, cx, d) && Inlined(body, e2.body, cx, d)
    case LetFuns(ds, body) => e2.LetFuns? && InlinedFuns(ds, e2.funs, cx) && Inlined(body, e2.body, cx, d)
  }

  ghost predicate InlinedAll(es: Exps, es2: Exps, cx: Unit, d: nat)
    decreases es2, 1
  {
    match es
    case NoExp => es2 == NoExp
    case Cons(e, rest) => es2.Cons? && Inlined(e, es2.head, cx, d) && InlinedAll(rest, es2.tail, cx, d)
  }

  /** `let var formal := arg .. var res := body in res end` */
  ghost predicate Expanded(xs: seq<Sym>, args: Exps, body: Exp, e2: Exp, cx: Unit, d: nat)
    decreases e2, 0
  {
    if xs == [] then
      args == NoExp && e2.LetVar? && e2.name == RES && e2.body == VarExp(RES) && d > 0 && Inlined(body, e2.init, cx, d - 1)
    else
      && args.Cons? && e2.LetVar? && e2.name == xs[0] && Inlined(args.head, e2.init, cx, d)
      && Expanded(xs[1..], args.tail, body, e2.body, cx, d)
  }

  ghost predicate InlinedDec(d: FunDec, d2: FunDec, cx: Unit)
    decreases d2, 1
  {
    && d2.name == d.name && d2.formals == d.formals && d2.result == d.result && d2.Function? == d.Function?
    && (d.Function? ==> Inlined(d.body, d2.body, cx, cx.bound))
  }

  ghost predicate InlinedFuns(ds: Funs, ds2: Funs, cx: Unit)
    decreases ds2, 1
  {
    match ds
    case NoFun => ds2 == NoFun
    case FunCons(d, rest) => ds2.FunCons? && InlinedDec(d, ds2.first, cx) && InlinedFuns(rest, ds2.rest, cx)
  }

  // ----- what unique renaming and recursion detection give -----

  /** No declaration hides a visible one, definitions are as `defs` says, and no expanded function
      is called where its formals are visible. */
  ghost predicate Hygienic(e: Exp, sc: Scope, cx: Unit) {
    match e
    case IntExp(_) => true
    case VarExp(_) => true
    case OpExp(l, _, r) => Hygienic(l, sc, cx) && Hygienic(r, sc, cx)
    case SeqExp(es) => HygienicAll(es, sc, cx)
    case AssignExp(_, e1) => Hygienic(e1, sc, cx)
    case IfExp(c, t, f) => Hygienic(c, sc, cx) && Hygienic(t, sc, cx) && Hygienic(f, sc, cx)
    case WhileExp(c, body) => Hygienic(c, sc, cx) && Hygienic(body, sc, cx)
    case ForExp(i, lo, hi, body) => i !in sc.vars && i != RES && Hygienic(hi, sc, cx) && Hygienic(body, sc.Var(i, true), cx)
    case BreakExp => true
    case CallExp(f, args) =>
      HygienicAll(args, sc, cx) && (cx.Expands(f) ==> forall x :: x in cx.defs[f].formals ==> x !in sc.vars)
    case LetVar(x, init, body) => x !in sc.vars && x != RES && Hygienic(init, sc, cx) && Hygienic(body, sc.Var(x, false), cx)
    case LetFuns(ds, body) =>
      (forall f :: f in Sigs(ds) ==> f !in sc.funs) && HygienicFuns(ds, sc.Chunk(ds), cx) && Hygienic(body, sc.Chunk(ds), cx)
  }

  ghost predicate HygienicAll(es: Exps, sc: Scope, cx: Unit) {
    match es
    case NoExp => true
    case Cons(e, rest) => Hygienic(e, sc, cx) && HygienicAll(rest, sc, cx)
  }

  ghost predicate HygienicDec(d: FunDec, sc: Scope, cx: Unit) {
    && d.name in cx.defs && cx.defs[d.name] == d
    && (d.Function? ==> FreshFormals(d.formals, sc.vars.Keys) && Hygienic(d.body, sc.Formals(d.formals), cx))
  }

  ghost predicate HygienicFuns(ds: Funs, sc: Scope, cx: Unit) {
    match ds
    case NoFun => true
    case FunCons(d, rest) => HygienicDec(d, sc, cx) && HygienicFuns(rest, sc, cx)
  }

  /** Distinct names, none visible, none `res`. */
  ghost predicate FreshFormals(xs: seq<Sym>, vars: set<Sym>) {
    && (forall i :: 0 <= i < |xs| ==> xs[i] !in vars && xs[i] != RES)
    && (forall i, j :: 0 <= i < j < |xs| ==> xs[i] != xs[j])
  }

  ghost predicate EnvHygienic(env: Env, cx: Unit) {
    match env
    case Top => true
    case BindVar(x, _, _, outer) => x != RES && EnvHygienic(outer, cx)
    case BindFuns(ds, outer) =>
      && (forall f :: f in Sigs(ds) ==> f !in ScopeOf(outer).funs)
      && HygienicFuns(ds, ScopeOf(env), cx) && EnvHygienic(outer, cx)
  }

  lemma {:induction false} FoundHygienic(ds: Funs, f: Sym, sc: Scope, cx: Unit)
    requires HygienicFuns(ds, sc, cx) && FindFun(ds, f).FunCons?
    ensures HygienicDec(FindFun(ds, f).first, sc, cx) && FindFun(ds, f).first.name == f
  {
    if ds.first.name != f { FoundHygienic(ds.rest, f, sc, cx); }
  }

  /** The callee is the definition the call is bound to. */
  lemma {:induction false} CalleeHygienic(env: Env, f: Sym, cx: Unit)
    requires EnvHygienic(env, cx) && LookupFun(env, f).Some?
    ensures var c := LookupFun(env, f).value;
      c.dec.name == f && EnvHygienic(c.env, cx) && HygienicDec(c.dec, ScopeOf(c.env), cx)
  {
    match env
    case BindVar(_, _, _, outer) => CalleeHygienic(outer, f, cx);
    case BindFuns(ds, outer) =>
      if FindFun(ds, f).FunCons? { FoundHygienic(ds, f, ScopeOf(env), cx); } else { CalleeHygienic(outer, f, cx); }
  }

  lemma {:induction false} FormalsHygienic(xs: seq<Sym>, base: nat, env: Env, cx: Unit)
    requires EnvHygienic(env, cx) && forall i :: 0 <= i < |xs| ==> xs[i] != RES
    ensures EnvHygienic(BindFormals(xs, base, env), cx)
    decreases |xs|
  {
    if xs != [] {
      assert forall i :: 0 <= i < |xs[1..]| ==> xs[1..][i] == xs[i + 1];
      FormalsHygienic(xs[1..], base + 1, BindVar(xs[0], base, false, env), cx);
    }
  }

  // ----- corresponding static chains -----

  /** Every name visible in `env` names in `env2` the corresponding cell or function, whatever else
      `env2` has: an expanded body runs inside the caller's scope. */
  ghost predicate EnvSim(env: Env, env2: Env, j: Cells, cx: Unit)
    decreases env
  {
    match env
    case Top => true
    case BindVar(x, loc, _, outer) => loc < |j| && LookupVar(env2, x) == Some(j[loc]) && EnvSim(outer, env2, j, cx)
    case BindFuns(ds, outer) =>
      && EnvSim(outer, env2, j, cx)
      && (ds.FunCons? ==>
        var node := Node(ds, env2);
        ChunkSim(ds, env2, node, cx) && ChunkSim(ds, node, node, cx) && EnvSim(outer, node, j, cx))
  }

  /** The node of `env2` that declares the functions of `ds`. */
  ghost function Node(ds: Funs, env2: Env): Env
    requires ds.FunCons?
  {
    var r := LookupFun(env2, ds.first.name);
    if r.Some? then r.value.env else Top
  }

  ghost predicate ChunkSim(ds: Funs, env2: Env, node: Env, cx: Unit) {
    forall f :: FindFun(ds, f).FunCons? ==>
      var r := LookupFun(env2, f); r.Some? && r.value.env == node && InlinedDec(FindFun(ds, f).first, r.value.dec, cx)
  }

  lemma {:induction false} SimVar(env: Env, env2: Env, j: Cells, cx: Unit, x: Sym)
    requires EnvSim(env, env2, j, cx) && x in ScopeOf(env).vars
    ensures LookupVar(env, x).Some? && LookupVar(env, x).value < |j|
    ensures LookupVar(env2, x) == Some(j[LookupVar(env, x).value])
  {
    match env
    case BindVar(y, _, _, outer) => if x != y { SimVar(outer, env2, j, cx, x); }
    case BindFuns(_, outer) => SimVar(outer, env2, j, cx, x);
  }

  /** A function reached from both sides: its body corresponds, in the scope it was declared in and,
      for an expansion, in the scope of the call. */
  lemma {:induction false} SimFun(env: Env, env2: Env, j: Cells, cx: Unit, f: Sym)
    requires EnvSim(env, env2, j, cx) && LookupFun(env, f).Some?
    ensures LookupFun(env2, f).Some?
    ensures var c, c2 := LookupFun(env, f).value, LookupFun(env2, f).value;
      InlinedDec(c.dec, c2.dec, cx) && EnvSim(c.env, c2.env, j, cx) && EnvSim(c.env, env2, j, cx)
  {
    match env
    case BindVar(_, _, _, outer) => SimFun(outer, env2, j, cx, f);
    case BindFuns(ds, outer) =>
      if FindFun(ds, f).FunCons? {
        var node := Node(ds, env2);
        assert FindFun(ds, ds.first.name).FunCons?;
        assert Node(ds, node) == node;
      } else {
        SimFun(outer, env2, j, cx, f);
      }
  }

  lemma {:induction false} SimGrown(env: Env, env2: Env, j: Cells, j2: Cells, n: nat, cx: Unit)
    requires EnvSim(env, env2, j, cx) && Grown(j, j2, n)
    ensures EnvSim(env, env2, j2, cx)
    decreases env
  {
    match env
    case Top =>
    case BindVar(_, loc, _, outer) =>
      assert j[loc] == j2[..|j|][loc];
      SimGrown(outer, env2, j, j2, n, cx);
    case BindFuns(ds, outer) =>
      SimGrown(outer, env2, j, j2, n, cx);
      if ds.FunCons? { SimGrown(outer, Node(ds, env2), j, j2, n, cx); }
  }

  /** A new variable does not disturb the names in sight. */
  lemma {:induction false} SimPushVar(env: Env, env2: Env, j: Cells, cx: Unit, x: Sym, loc2: nat, ro: bool)
    requires EnvSim(env, env2, j, cx) && x !in ScopeOf(env).vars
    ensures EnvSim(env, BindVar(x, loc2, ro, env2), j, cx)
  {
    match env
    case Top =>
    case BindVar(_, _, _, outer) => SimPushVar(outer, env2, j, cx, x, loc2, ro);
    case BindFuns(ds, outer) =>
      SimPushVar(outer, env2, j, cx, x, loc2, ro);
      if ds.FunCons? {
        assert Node(ds, BindVar(x, loc2, ro, env2)) == Node(ds, env2);
        forall f | FindFun(ds, f).FunCons? ensures LookupFun(BindVar(x, loc2, ro, env2), f) == LookupFun(env2, f) {}
      }
  }

  /** Nor does a new chunk. */
  lemma {:induction false} SimPushFuns(env: Env, env2: Env, j: Cells, cx: Unit, ds2: Funs)
    requires EnvSim(env, env2, j, cx) && forall f :: f in ScopeOf(env).funs ==> FindFun(ds2, f).NoFun?
    ensures EnvSim(env, BindFuns(ds2, env2), j, cx)
  {
    match env
    case Top =>
    case BindVar(_, _, _, outer) => SimPushFuns(outer, env2, j, cx, ds2);
    case BindFuns(ds, outer) =>
      SimPushFuns(outer, env2, j, cx, ds2);
      if ds.FunCons? {
        var env3 := BindFuns(ds2, env2);
        forall f | FindFun(ds, f).FunCons? ensures LookupFun(env3, f) == LookupFun(env2, f) { Declared(ds, f); }
        assert FindFun(ds, ds.first.name).FunCons?;
        assert Node(ds, env3) == Node(ds, env2);
      }
  }

  lemma {:induction false} Declared(ds: Funs, f: Sym)
    ensures FindFun(ds, f).FunCons? <==> f in Sigs(ds)
  {
    if ds.FunCons? { Declared(ds.rest, f); }
  }

  lemma {:induction false} FindInlined(ds: Funs, ds2: Funs, f: Sym, cx: Unit)
    requires InlinedFuns(ds, ds2, cx)
    ensures FindFun(ds2, f).FunCons? <==> FindFun(ds, f).FunCons?
    ensures FindFun(ds, f).FunCons? ==> InlinedDec(FindFun(ds, f).first, FindFun(ds2, f).first, cx)
  {
    if ds.FunCons? && ds.first.name != f { FindInlined(ds.rest, ds2.rest, f, cx); }
  }

  /** A chunk declared on both sides. */
  lemma SimChunk(ds: Funs, ds2: Funs, env: Env, env2: Env, j: Cells, cx: Unit)
    requires EnvSim(env, env2, j, cx) && InlinedFuns(ds, ds2, cx) && forall f :: f in Sigs(ds) ==> f !in ScopeOf(env).funs
    ensures EnvSim(BindFuns(ds, env), BindFuns(ds2, env2), j, cx)
  {
    var node := BindFuns(ds2, env2);
    forall f | f in ScopeOf(env).funs ensures FindFun(ds2, f).NoFun? {
      FindInlined(ds, ds2, f, cx);
      Declared(ds, f);
    }
    SimPushFuns(env, env2, j, cx, ds2);
    forall f | FindFun(ds, f).FunCons? ensures LookupFun(node, f).Some? && LookupFun(node, f).value.env == node
      && InlinedDec(FindFun(ds, f).first, LookupFun(node, f).value.dec, cx) {
      FindInlined(ds, ds2, f, cx);
    }
    if ds.FunCons? {
      assert FindFun(ds, ds.first.name).FunCons?;
      assert Node(ds, node) == node;
    }
  }

  /** Formals in corresponding cells. */
  lemma {:induction false} SimFormals(xs: seq<Sym>, base: nat, base2: nat, env: Env, env2: Env, j: Cells, cx: Unit)
    requires EnvSim(env, env2, j, cx) && base + |xs| <= |j| && FreshFormals(xs, ScopeOf(env).vars.Keys)
    requires forall k :: base <= k < base + |xs| ==> j[k] == base2 + (k - base)
    ensures EnvSim(BindFormals(xs, base, env), BindFormals(xs, base2, env2), j, cx)
    decreases |xs|
  {
    if xs != [] {
      var env1, env21 := BindVar(xs[0], base, false, env), BindVar(xs[0], base2, false, env2);
      SimPushVar(env, env2, j, cx, xs[0], base2, false);
      forall i | 0 <= i < |xs[1..]| ensures xs[1..][i] !in ScopeOf(env1).vars { assert xs[1..][i] == xs[i + 1]; }
      SimFormals(xs[1..], base + 1, base2 + 1, env1, env21, j, cx);
    }
  }

  /** Formals bound to cells that already hold the arguments. */
  lemma {:induction false} SimBound(xs: seq<Sym>, base: nat, env: Env, env2: Env, j: Cells, cx: Unit)
    requires EnvSim(env, env2, j, cx) && base + |xs| <= |j| && FreshFormals(xs, ScopeOf(env).vars.Keys)
    requires forall i :: 0 <= i < |xs| ==> LookupVar(env2, xs[i]) == Some(j[base + i])
    ensures EnvSim(BindFormals(xs, base, env), env2, j, cx)
    decreases |xs|
  {
    if xs != [] {
      var env1 := BindVar(xs[0], base, false, env);
      assert LookupVar(env2, xs[0]) == Some(j[base + 0]);
      forall i | 0 <= i < |xs[1..]| ensures LookupVar(env2, xs[1..][i]) == Some(j[base + 1 + i]) && xs[1..][i] !in ScopeOf(env1).vars {
        assert xs[1..][i] == xs[i + 1];
      }
      SimBound(xs[1..], base + 1, env1, env2, j, cx);
    }
  }

  // ----- the simulation -----

  /** Which of the two runs is known to have fuel enough for the other. */
  datatype Way = Way(up: bool, down: bool)

  /** An expansion saves a unit of fuel: going up, the expanded program has at least as much; going
      down, the original has enough for every expansion on the way. */
  ghost predicate Fuels(f: nat, g: nat, d: nat, cx: Unit, w: Way) {
    d <= cx.bound && (w.up ==> f <= g) && (w.down ==> f >= g * (cx.bound + 1) + d)
  }

  /** One unit less on both sides: a loop turn or a call that stays. */
  lemma FuelsLess(f: nat, g: nat, d: nat, d2: nat, cx: Unit, w: Way)
    requires Fuels(f, g, d, cx, w) && f > 0 && g > 0 && d2 <= cx.bound
    ensures Fuels(f - 1, g - 1, d2, cx, w)
  {
    assert g * (cx.bound + 1) == (g - 1) * (cx.bound + 1) + (cx.bound + 1);
  }

  lemma FuelsOut(f: nat, g: nat, d: nat, cx: Unit, w: Way)
    requires Fuels(f, g, d, cx, w)
    ensures f == 0 && w.down ==> g == 0 && d == 0
    ensures g == 0 && w.up ==> f == 0
  {
    if g > 0 { assert g * (cx.bound + 1) >= 1; }
  }

  /** The outcomes agree, unless one of the runs is out of fuel. */
  ghost predicate Sim<T>(o: Outcome<T>, o2: Outcome<T>, st2: State, j: Cells, j2: Cells, w: Way) {
    if o.Timeout? || o2.Timeout? then (w.up ==> o.Timeout?) && (w.down ==> o2.Timeout?)
    else Kept(o, o2, st2, j, j2)
  }

  lemma SimLater<T, U>(o1: Outcome<T>, p1: Outcome<T>, o2: Outcome<U>, p2: Outcome<U>, st2: State,
                       j: Cells, j1: Cells, j2: Cells, w: Way)
    requires Kept(o1, p1, st2, j, j1) && Sim(o2, p2, p1.st, j1, j2, w)
    ensures Sim(o2, p2, st2, j, j2, w)
  {
    if !o2.Timeout? && !p2.Timeout? { KeptLater(o1, p1, o2, p2, st2, j, j1, j2); }
  }

  /** What the static passes establish of `e`. */
  ghost predicate Static(e: Exp, e2: Exp, env: Env, cx: Unit, d: nat, inLoop: bool) {
    && TypeOf(e, ScopeOf(env), inLoop).Some? && EnvTyped(env) && Hygienic(e, ScopeOf(env), cx) && EnvHygienic(env, cx)
    && Inlined(e, e2, cx, d)
  }

  ghost predicate StaticAll(es: Exps, es2: Exps, env: Env, cx: Unit, d: nat, inLoop: bool) {
    && SeqTyped(es, ScopeOf(env), inLoop) && EnvTyped(env) && HygienicAll(es, ScopeOf(env), cx) && EnvHygienic(env, cx)
    && InlinedAll(es, es2, cx, d)
  }

  /** The two runs stand at corresponding points. */
  ghost predicate Meet(env: Env, env2: Env, st: State, st2: State, j: Cells, cx: Unit) {
    EnvSim(env, env2, j, cx) && StRel(st, st2, j)
  }

  lemma MeetAgain<T>(env: Env, env2: Env, st: State, st2: State, j: Cells, o: Outcome<T>, o2: Outcome<T>, j2: Cells, cx: Unit)
    requires Meet(env, env2, st, st2, j, cx) && Kept(o, o2, st2, j, j2) && o.Val?
    ensures Meet(env, env2, o.st, o2.st, j2, cx) && o2.Val? && o2.value == o.value
  {
    SimGrown(env, env2, j, j2, |st2.mem|, cx);
  }

  lemma NothingYet(st: State, j: Cells)
    ensures Untouched(st, st, j) && Grown(j, j, |st.mem|)
  {}

  lemma StaticOp(e: Exp, e2: Exp, env: Env, cx: Unit, d: nat, inLoop: bool)
    requires e.OpExp? && Static(e, e2, env, cx, d, inLoop)
    ensures e2.OpExp? && e2.oper == e.oper && Static(e.left, e2.left, env, cx, d, inLoop) && Static(e.right, e2.right, env, cx, d, inLoop)
  {
    hide EnvTyped, EnvHygienic;
  }

  lemma StaticIf(e: Exp, e2: Exp, env: Env, cx: Unit, d: nat, inLoop: bool)
    requires e.IfExp? && Static(e, e2, env, cx, d, inLoop)
    ensures e2.IfExp? && Static(e.test, e2.test, env, cx, d, inLoop) && Static(e.thenclause, e2.thenclause, env, cx, d, inLoop)
      && Static(e.elseclause, e2.elseclause, env, cx, d, inLoop)
  {
    hide EnvTyped, EnvHygienic;
  }

  lemma StaticWhile(e: Exp, e2: Exp, env: Env, cx: Unit, d: nat, inLoop: bool)
    requires e.WhileExp? && Static(e, e2, env, cx, d, inLoop)
    ensures e2.WhileExp? && Static(e.test, e2.test, env, cx, d, inLoop) && Static(e.body, e2.body, env, cx, d, true)
  {
    hide EnvTyped, EnvHygienic;
  }

  lemma StaticAssign(x: Sym, e1: Exp, e2: Exp, env: Env, cx: Unit, d: nat, inLoop: bool)
    requires Static(AssignExp(x, e1), e2, env, cx, d, inLoop)
    ensures e2.AssignExp? && e2.name == x && x in ScopeOf(env).vars && Static(e1, e2.exp, env, cx, d, inLoop)
  {
    hide EnvTyped, EnvHygienic;
  }

  /** Where one of the first evaluations has no value, the whole has none. */
  lemma SimOver(o: Outcome<int32>, o2: Outcome<int32>, r: Outcome<int32>, r2: Outcome<int32>, st2: State, j: Cells, j2: Cells, w: Way)
    requires Sim(o, o2, st2, j, j2, w) && !(o.Val? && o2.Val?) && (!o.Val? ==> r == o) && (!o2.Val? ==> r2 == o2)
    ensures Sim(r, r2, st2, j, j2, w)
  {
    hide StRel, Grown, Untouched;
  }

  lemma SimVals(o: Outcome<int32>, o2: Outcome<int32>, st2: State, j: Cells, j2: Cells, w: Way)
    requires Sim(o, o2, st2, j, j2, w) && o.Val? && o2.Val?
    ensures Kept(o, o2, st2, j, j2) && o2.value == o.value
  {
    hide StRel, Grown, Untouched;
  }

  /** A loop that is left. */
  lemma SimDone(o: Outcome<int32>, o2: Outcome<int32>, st2: State, j: Cells, j2: Cells, w: Way)
    requires Kept(o, o2, st2, j, j2) && (o.Val? || o.Brk?)
    ensures (o.Brk? <==> o2.Brk?) && Sim(Val(0, o.st), Val(0, o2.st), st2, j, j2, w)
  {
    hide StRel, Grown, Untouched;
  }

  /** The operation itself. */
  lemma SimOper(op: Oper, l: int32, o: Outcome<int32>, o2: Outcome<int32>, st2: State, j: Cells, j2: Cells, w: Way)
    requires Kept(o, o2, st2, j, j2) && o.Val?
    ensures o2.Val? && Sim(EvalOper(op, l, o.value, o.st), EvalOper(op, l, o2.value, o2.st), st2, j, j2, w)
  {
    hide Grown, Untouched;
  }

  /** Constants, variables and `break`. */
  lemma LeafKeeps(e: Exp, e2: Exp, env: Env, env2: Env, st: State, st2: State, j: Cells, f: nat, g: nat,
                  cx: Unit, d: nat, w: Way, inLoop: bool)
    requires e.IntExp? || e.VarExp? || e.BreakExp?
    requires Static(e, e2, env, cx, d, inLoop) && Meet(env, env2, st, st2, j, cx)
    ensures Sim(Eval(e, env, st, f), Eval(e2, env2, st2, g), st2, j, j, w)
  {
    hide EnvSim, EnvHygienic, EnvTyped;
    NothingYet(st2, j);
    if e.VarExp? { SimVar(env, env2, j, cx, e.name); }
  }

  lemma StaticLetFuns(e: Exp, e2: Exp, env: Env, env2: Env, st: State, st2: State, j: Cells, cx: Unit, d: nat, inLoop: bool)
    requires e.LetFuns? && Static(e, e2, env, cx, d, inLoop) && Meet(env, env2, st, st2, j, cx)
    ensures e2.LetFuns? && Static(e.body, e2.body, BindFuns(e.funs, env), cx, d, inLoop)
    ensures Meet(BindFuns(e.funs, env), BindFuns(e2.funs, env2), st, st2, j, cx)
  {
    hide StRel;
    SimChunk(e.funs, e2.funs, env, env2, j, cx);
  }

  lemma StaticSeq(es: Exps, e2: Exp, env: Env, cx: Unit, d: nat, inLoop: bool)
    requires Static(SeqExp(es), e2, env, cx, d, inLoop)
    ensures e2.SeqExp? && StaticAll(es, e2.exps, env, cx, d, inLoop)
  {
    hide EnvTyped, EnvHygienic;
    TypedParts(es, ScopeOf(env), inLoop);
  }

  lemma SeqSim(vs: Outcome<seq<int32>>, vs2: Outcome<seq<int32>>, r: Outcome<int32>, r2: Outcome<int32>, st2: State, j: Cells, j2: Cells, w: Way)
    requires Sim(vs, vs2, st2, j, j2, w)
    requires r == if !vs.Val? then Abrupt(vs) else Val(if vs.value == [] then 0 else vs.value[|vs.value| - 1], vs.st)
    requires r2 == if !vs2.Val? then Abrupt(vs2) else Val(if vs2.value == [] then 0 else vs2.value[|vs2.value| - 1], vs2.st)
    ensures Sim(r, r2, st2, j, j2, w)
  {
    hide StRel, Grown, Untouched;
  }

  /** Expanding calls keeps the meaning: same value, same trace, corresponding storage. */
  lemma {:induction false} InlineKeeps(e: Exp, e2: Exp, env: Env, env2: Env, st: State, st2: State, j: Cells, f: nat, g: nat,
                                       cx: Unit, d: nat, w: Way, inLoop: bool) returns (j2: Cells)
    requires Static(e, e2, env, cx, d, inLoop) && Meet(env, env2, st, st2, j, cx) && Fuels(f, g, d, cx, w)
    ensures Sim(Eval(e, env, st, f), Eval(e2, env2, st2, g), st2, j, j2, w)
    decreases f, e, 2
  {
    hide Static, StaticAll, Meet, Fuels, Sim, Eval, EvalArgs, EvalWhile;
    j2 := j;
    match e
    case IntExp(_) => LeafKeeps(e, e2, env, env2, st, st2, j, f, g, cx, d, w, inLoop);
    case VarExp(_) => LeafKeeps(e, e2, env, env2, st, st2, j, f, g, cx, d, w, inLoop);
    case OpExp(_, _, _) => j2 := OpKeeps(e, e2, env, env2, st, st2, j, f, g, cx, d, w, inLoop);
    case SeqExp(es) =>
      StaticSeq(es, e2, env, cx, d, inLoop);
      j2 := ArgsKeep(es, e2.exps, env, env2, st, st2, j, f, g, cx, d, w, inLoop);
      SeqSteps(es, env, st, f);
      SeqSteps(e2.exps, env2, st2, g);
      SeqSim(EvalArgs(es, env, st, f), EvalArgs(e2.exps, env2, st2, g), Eval(e, env, st, f), Eval(e2, env2, st2, g), st2, j, j2, w);
    case AssignExp(x, e1) => j2 := AssignKeeps(x, e1, e2, env, env2, st, st2, j, f, g, cx, d, w, inLoop);
    case IfExp(_, _, _) => j2 := IfKeeps(e, e2, env, env2, st, st2, j, f, g, cx, d, w, inLoop);
    case WhileExp(c, body) =>
      StaticWhile(e, e2, env, cx, d, inLoop);
      j2 := WhileKeeps(c, e2.test, body, e2.body, env, env2, st, st2, j, f, g, cx, d, w, inLoop);
      WhileSteps(c, body, env, st, f);
      WhileSteps(e2.test, e2.body, env2, st2, g);
    case ForExp(_, _, _, _) => j2 := ForKeeps(e, e2, env, env2, st, st2, j, f, g, cx, d, w, inLoop);
    case BreakExp => LeafKeeps(e, e2, env, env2, st, st2, j, f, g, cx, d, w, inLoop);
    case CallExp(fn, args) =>
      if cx.Expands(fn) {
        j2 := ExpansionKeeps(fn, args, e2, env, env2, st, st2, j, f, g, cx, d, w, inLoop);
      } else {
        j2 := CallKeeps(fn, args, e2, env, env2, st, st2, j, f, g, cx, d, w, inLoop);
      }
    case LetVar(_, _, _) => j2 := LetVarKeeps(e, e2, env, env2, st, st2, j, f, g, cx, d, w, inLoop);
    case LetFuns(ds, body) =>
      StaticLetFuns(e, e2, env, env2, st, st2, j, cx, d, inLoop);
      j2 := InlineKeeps(body, e2.body, BindFuns(ds, env), BindFuns(e2.funs, env2), st, st2, j, f, g, cx, d, w, inLoop);
      LetFunsSteps(ds, body, env, st, f);
      LetFunsSteps(e2.funs, e2.body, env2, st2, g);
  }

  lemma {:induction false} OpKeeps(e: Exp, e2: Exp, env: Env, env2: Env, st: State, st2: State, j: Cells, f: nat, g: nat,
                                   cx: Unit, d: nat, w: Way, inLoop: bool) returns (j2: Cells)
    requires e.OpExp? && Static(e, e2, env, cx, d, inLoop) && Meet(env, env2, st, st2, j, cx) && Fuels(f, g, d, cx, w)
    ensures Sim(Eval(e, env, st, f), Eval(e2, env2, st2, g), st2, j, j2, w)
    decreases f, e, 1
  {
    hide Static, Meet, Fuels, Sim, Kept, Eval, EvalOper;
    StaticOp(e, e2, env, cx, d, inLoop);
    OpSteps(e.left, e.oper, e.right, env, st, f);
    OpSteps(e2.left, e.oper, e2.right, env2, st2, g);
    j2 := InlineKeeps(e.left, e2.left, env, env2, st, st2, j, f, g, cx, d, w, inLoop);
    var o, o2 := Eval(e.left, env, st, f), Eval(e2.left, env2, st2, g);
    if o.Val? && o2.Val? {
      SimVals(o, o2, st2, j, j2, w);
      MeetAgain(env, env2, st, st2, j, o, o2, j2, cx);
      var j3 := InlineKeeps(e.right, e2.right, env, env2, o.st, o2.st, j2, f, g, cx, d, w, inLoop);
      var b, b2 := Eval(e.right, env, o.st, f), Eval(e2.right, env2, o2.st, g);
      SimLater(o, o2, b, b2, st2, j, j2, j3, w);
      j2 := j3;
      if b.Val? && b2.Val? {
        SimVals(b, b2, st2, j, j3, w);
        SimOper(e.oper, o.value, b, b2, st2, j, j3, w);
      } else {
        SimOver(b, b2, Eval(e, env, st, f), Eval(e2, env2, st2, g), st2, j, j3, w);
      }
    } else {
      SimOver(o, o2, Eval(e, env, st, f), Eval(e2, env2, st2, g), st2, j, j2, w);
    }
  }

  lemma {:induction false} ArgsKeep(es: Exps, es2: Exps, env: Env, env2: Env, st: State, st2: State, j: Cells, f: nat, g: nat,
                                    cx: Unit, d: nat, w: Way, inLoop: bool) returns (j2: Cells)
    requires StaticAll(es, es2, env, cx, d, inLoop) && Meet(env, env2, st, st2, j, cx) && Fuels(f, g, d, cx, w)
    ensures Sim(EvalArgs(es, env, st, f), EvalArgs(es2, env2, st2, g), st2, j, j2, w)
    decreases f, es, 1
  {
    hide EnvSim, Untouched, Grown, StRel, Fuels, Static, StaticAll, Meet, Eval;
    j2 := j;
    StaticParts(es, es2, env, cx, d, inLoop);
    if es.Cons? {
      ArgsSteps(es.head, es.tail, env, st, f);
      ArgsSteps(es2.head, es2.tail, env2, st2, g);
      j2 := InlineKeeps(es.head, es2.head, env, env2, st, st2, j, f, g, cx, d, w, inLoop);
      var o, o2 := Eval(es.head, env, st, f), Eval(es2.head, env2, st2, g);
      if o.Val? && o2.Val? {
        MeetAgain(env, env2, st, st2, j, o, o2, j2, cx);
        var j3 := ArgsKeep(es.tail, es2.tail, env, env2, o.st, o2.st, j2, f, g, cx, d, w, inLoop);
        SimLater(o, o2, EvalArgs(es.tail, env, o.st, f), EvalArgs(es2.tail, env2, o2.st, g), st2, j, j2, j3, w);
        j2 := j3;
      }
    } else {
      NothingYet(st2, j);
      MeetStorage(env, env2, st, st2, j, cx);
    }
  }

  lemma StaticParts(es: Exps, es2: Exps, env: Env, cx: Unit, d: nat, inLoop: bool)
    requires StaticAll(es, es2, env, cx, d, inLoop)
    ensures es2.Cons? == es.Cons?
    ensures es.Cons? ==> Static(es.head, es2.head, env, cx, d, inLoop) && StaticAll(es.tail, es2.tail, env, cx, d, inLoop)
  {
    hide EnvTyped, EnvHygienic;
  }

  lemma MeetStorage(env: Env, env2: Env, st: State, st2: State, j: Cells, cx: Unit)
    requires Meet(env, env2, st, st2, j, cx)
    ensures StRel(st, st2, j)
  {}

  lemma {:induction false} AssignKeeps(x: Sym, e1: Exp, e2: Exp, env: Env, env2: Env, st: State, st2: State, j: Cells, f: nat, g: nat,
                                       cx: Unit, d: nat, w: Way, inLoop: bool) returns (j2: Cells)
    requires Static(AssignExp(x, e1), e2, env, cx, d, inLoop) && Meet(env, env2, st, st2, j, cx) && Fuels(f, g, d, cx, w)
    ensures Sim(Eval(AssignExp(x, e1), env, st, f), Eval(e2, env2, st2, g), st2, j, j2, w)
    decreases f, AssignExp(x, e1), 1
  {
    hide Static, Fuels, Eval;
    StaticAssign(x, e1, e2, env, cx, d, inLoop);
    AssignSteps(x, e1, env, st, f);
    AssignSteps(x, e2.exp, env2, st2, g);
    j2 := InlineKeeps(e1, e2.exp, env, env2, st, st2, j, f, g, cx, d, w, inLoop);
    var o, o2 := Eval(e1, env, st, f), Eval(e2.exp, env2, st2, g);
    if o.Val? && o2.Val? {
      MeetAgain(env, env2, st, st2, j, o, o2, j2, cx);
      SimVar(env, env2, j2, cx, x);
      var k := LookupVar(env, x).value;
      WriteRel(o.st, o2.st, j2, k, o.value);
      UntouchedTransitive(st2, o2.st, o2.st.Write(j2[k], o.value), j, j2);
    }
  }

  lemma {:induction false} IfKeeps(e: Exp, e2: Exp, env: Env, env2: Env, st: State, st2: State, j: Cells, f: nat, g: nat,
                                   cx: Unit, d: nat, w: Way, inLoop: bool) returns (j2: Cells)
    requires e.IfExp? && Static(e, e2, env, cx, d, inLoop) && Meet(env, env2, st, st2, j, cx) && Fuels(f, g, d, cx, w)
    ensures Sim(Eval(e, env, st, f), Eval(e2, env2, st2, g), st2, j, j2, w)
    decreases f, e, 1
  {
    hide Static, Meet, Fuels, Sim, Kept, Eval;
    StaticIf(e, e2, env, cx, d, inLoop);
    IfSteps(e.test, e.thenclause, e.elseclause, env, st, f);
    IfSteps(e2.test, e2.thenclause, e2.elseclause, env2, st2, g);
    j2 := InlineKeeps(e.test, e2.test, env, env2, st, st2, j, f, g, cx, d, w, inLoop);
    var o, o2 := Eval(e.test, env, st, f), Eval(e2.test, env2, st2, g);
    if o.Val? && o2.Val? {
      SimVals(o, o2, st2, j, j2, w);
      MeetAgain(env, env2, st, st2, j, o, o2, j2, cx);
      var c, c2 := if o.value != 0 then e.thenclause else e.elseclause, if o.value != 0 then e2.thenclause else e2.elseclause;
      var j3 := InlineKeeps(c, c2, env, env2, o.st, o2.st, j2, f, g, cx, d, w, inLoop);
      SimLater(o, o2, Eval(c, env, o.st, f), Eval(c2, env2, o2.st, g), st2, j, j2, j3, w);
      j2 := j3;
    } else {
      SimOver(o, o2, Eval(e, env, st, f), Eval(e2, env2, st2, g), st2, j, j2, w);
    }
  }

  lemma {:induction false} WhileKeeps(c: Exp, c2: Exp, body: Exp, body2: Exp, env: Env, env2: Env, st: State, st2: State, j: Cells,
                                      f: nat, g: nat, cx: Unit, d: nat, w: Way, inLoop: bool) returns (j2: Cells)
    requires Static(c, c2, env, cx, d, inLoop) && Static(body, body2, env, cx, d, true)
    requires Meet(env, env2, st, st2, j, cx) && Fuels(f, g, d, cx, w)
    ensures Sim(EvalWhile(c, body, env, st, f), EvalWhile(c2, body2, env2, st2, g), st2, j, j2, w)
    decreases f, body, 3
  {
    hide Static, Meet, Sim, Kept, Eval, EvalWhile;
    j2 := j;
    FuelsOut(f, g, d, cx, w);
    if f > 0 && g > 0 {
      FuelsLess(f, g, d, d, cx, w);
      TurnSteps(c, body, env, st, f);
      TurnSteps(c2, body2, env2, st2, g);
      j2 := InlineKeeps(c, c2, env, env2, st, st2, j, f - 1, g - 1, cx, d, w, inLoop);
      var o, o2 := Eval(c, env, st, f - 1), Eval(c2, env2, st2, g - 1);
      if o.Val? && o2.Val? {
        SimVals(o, o2, st2, j, j2, w);
        if o.value != 0 {
          MeetAgain(env, env2, st, st2, j, o, o2, j2, cx);
          var j3 := InlineKeeps(body, body2, env, env2, o.st, o2.st, j2, f - 1, g - 1, cx, d, w, true);
          j2 := AgainKeeps(c, c2, body, body2, env, env2, o, o2, st2, j, j2, j3, f, g, cx, d, w, inLoop);
        } else {
          SimDone(o, o2, st2, j, j2, w);
        }
      } else {
        SimOver(o, o2, EvalWhile(c, body, env, st, f), EvalWhile(c2, body2, env2, st2, g), st2, j, j2, w);
      }
    } else {
      OutOfTurns(c, c2, body, body2, env, env2, st, st2, j, f, g, cx, d, w);
    }
  }

  lemma OutOfTurns(c: Exp, c2: Exp, body: Exp, body2: Exp, env: Env, env2: Env, st: State, st2: State, j: Cells, f: nat, g: nat,
                   cx: Unit, d: nat, w: Way)
    requires Fuels(f, g, d, cx, w) && (f == 0 || g == 0)
    ensures Sim(EvalWhile(c, body, env, st, f), EvalWhile(c2, body2, env2, st2, g), st2, j, j, w)
  {
    hide Eval;
    FuelsOut(f, g, d, cx, w);
  }

  /** After the body of a `while`. */
  lemma {:induction false} AgainKeeps(c: Exp, c2: Exp, body: Exp, body2: Exp, env: Env, env2: Env, o: Outcome<int32>, o2: Outcome<int32>,
                                      st2: State, j: Cells, j1: Cells, j2: Cells, f: nat, g: nat, cx: Unit, d: nat, w: Way, inLoop: bool)
    returns (j3: Cells)
    requires Static(c, c2, env, cx, d, inLoop) && Static(body, body2, env, cx, d, true) && f > 0 && g > 0
    requires o.Val? && o2.Val? && o.value == o2.value != 0 && Kept(o, o2, st2, j, j1) && Meet(env, env2, o.st, o2.st, j1, cx)
    requires Fuels(f - 1, g - 1, d, cx, w)
    requires Sim(Eval(body, env, o.st, f - 1), Eval(body2, env2, o2.st, g - 1), o2.st, j1, j2, w)
    ensures Sim(Turned(c, body, env, Eval(body, env, o.st, f - 1), f - 1),
                Turned(c2, body2, env2, Eval(body2, env2, o2.st, g - 1), g - 1), st2, j, j3, w)
    decreases f - 1, body, 4
  {
    hide Static, Meet, Sim, Kept, Eval, EvalWhile, Fuels, Left;
    j3 := j2;
    var b, b2 := Eval(body, env, o.st, f - 1), Eval(body2, env2, o2.st, g - 1);
    SimLater(o, o2, b, b2, st2, j, j1, j2, w);
    if b.Val? && b2.Val? {
      SimVals(b, b2, o2.st, j1, j2, w);
      SimVals(b, b2, st2, j, j2, w);
      MeetAgain(env, env2, o.st, o2.st, j1, b, b2, j2, cx);
      j3 := WhileKeeps(c, c2, body, body2, env, env2, b.st, b2.st, j2, f - 1, g - 1, cx, d, w, inLoop);
      SimLater(b, b2, EvalWhile(c, body, env, b.st, f - 1), EvalWhile(c2, body2, env2, b2.st, g - 1), st2, j, j2, j3, w);
    } else {
      LeftEarly(b, b2, Turned(c, body, env, b, f - 1), Turned(c2, body2, env2, b2, g - 1), st2, j, j2, w);
    }
  }

  /** A loop whose body does not end with a value. */
  lemma LeftEarly(b: Outcome<int32>, b2: Outcome<int32>, r: Outcome<int32>, r2: Outcome<int32>, st2: State, j: Cells, j2: Cells, w: Way)
    requires Sim(b, b2, st2, j, j2, w) && !(b.Val? && b2.Val?)
    requires (!b.Val? ==> r == Left(b)) && (!b2.Val? ==> r2 == Left(b2))
    ensures Sim(r, r2, st2, j, j2, w)
  {
    hide StRel, Grown, Untouched;
  }

  lemma StaticBody(x: Sym, k: nat, ro: bool, body: Exp, body2: Exp, env: Env, cx: Unit, d: nat, inLoop: bool)
    requires TypeOf(body, ScopeOf(env).Var(x, ro), inLoop).Some? && EnvTyped(env) && EnvHygienic(env, cx) && x != RES
    requires Hygienic(body, ScopeOf(env).Var(x, ro), cx) && Inlined(body, body2, cx, d)
    ensures Static(body, body2, BindVar(x, k, ro, env), cx, d, inLoop)
  {}

  lemma StaticLetVar(e: Exp, e2: Exp, env: Env, cx: Unit, d: nat, inLoop: bool, k: nat)
    requires e.LetVar? && Static(e, e2, env, cx, d, inLoop)
    ensures e2.LetVar? && e2.name == e.name && e.name !in ScopeOf(env).vars && Static(e.init, e2.init, env, cx, d, inLoop)
      && Static(e.body, e2.body, BindVar(e.name, k, false, env), cx, d, inLoop)
  {
    hide EnvTyped, EnvHygienic, Static;
    StaticUnfolds(e, e2, env, cx, d, inLoop);
    StaticFolds(e.init, e2.init, env, cx, d, inLoop);
    StaticBody(e.name, k, false, e.body, e2.body, env, cx, d, inLoop);
  }

  lemma StaticUnfolds(e: Exp, e2: Exp, env: Env, cx: Unit, d: nat, inLoop: bool)
    requires Static(e, e2, env, cx, d, inLoop)
    ensures TypeOf(e, ScopeOf(env), inLoop).Some? && EnvTyped(env) && Hygienic(e, ScopeOf(env), cx) && EnvHygienic(env, cx)
      && Inlined(e, e2, cx, d)
  {}

  lemma StaticFolds(e: Exp, e2: Exp, env: Env, cx: Unit, d: nat, inLoop: bool)
    requires TypeOf(e, ScopeOf(env), inLoop).Some? && EnvTyped(env) && Hygienic(e, ScopeOf(env), cx) && EnvHygienic(env, cx)
      && Inlined(e, e2, cx, d)
    ensures Static(e, e2, env, cx, d, inLoop)
  {}

  /** A cell allocated on both sides. */
  lemma AllocMeets(env: Env, env2: Env, st: State, st2: State, j: Cells, cx: Unit, v: int32)
    requires Meet(env, env2, st, st2, j, cx)
    ensures Meet(env, env2, st.Alloc(v), st2.Alloc(v), j + [|st2.mem|], cx)
  {
    hide EnvSim;
    AllocRel(st, st2, j, v);
    SimGrown(env, env2, j, j + [|st2.mem|], |st2.mem|, cx);
  }

  /** What was kept since the allocation was kept before. */
  lemma SimAlloc(o: Outcome<int32>, o2: Outcome<int32>, st: State, st2: State, j: Cells, j2: Cells, v: int32, w: Way)
    requires Sim(o, o2, st2.Alloc(v), j + [|st2.mem|], j2, w)
    ensures Sim(o, o2, st2, j, j2, w)
  {
    var j1 := j + [|st2.mem|];
    if !o.Timeout? && !o2.Timeout? {
      assert Grown(j, j1, |st2.mem|) && Untouched(st2, st2.Alloc(v), j);
      hide StRel;
      GrownTransitive(j, j1, j2, |st2.mem|, |st2.mem| + 1);
      UntouchedTransitive(st2, st2.Alloc(v), o2.st, j, j1);
    }
  }

  lemma ScopeReady(env: Env, env2: Env, st: State, st2: State, j: Cells, j2: Cells, cx: Unit, o: Outcome<int32>, o2: Outcome<int32>)
    requires Meet(env, env2, st, st2, j, cx) && Kept(o, o2, st2.Alloc(0), j + [|st2.mem|], j2) && Kept(o, o2, st2, j, j2) && o.Val?
    ensures o2.Val? && EnvSim(env, env2, j, cx) && StRel(o.st, o2.st, j2) && Grown(j, j2, |st2.mem|) && Untouched(st2, o2.st, j)
    ensures |st.mem| == |j| < |j2| && j2[|st.mem|] == |st2.mem|
  {
    hide EnvSim;
    assert j2[|j|] == j2[..|j| + 1][|j|];
  }

  lemma {:induction false} LetVarKeeps(e: Exp, e2: Exp, env: Env, env2: Env, st: State, st2: State, j: Cells, f: nat, g: nat,
                                       cx: Unit, d: nat, w: Way, inLoop: bool) returns (j2: Cells)
    requires e.LetVar? && Static(e, e2, env, cx, d, inLoop) && Meet(env, env2, st, st2, j, cx) && Fuels(f, g, d, cx, w)
    ensures Sim(Eval(e, env, st, f), Eval(e2, env2, st2, g), st2, j, j2, w)
    decreases f, e, 1
  {
    hide Static, Fuels, Eval, Meet, Sim, Kept, StRel, Grown, Untouched, EnvSim;
    var x, k, k2 := e.name, |st.mem|, |st2.mem|;
    StaticLetVar(e, e2, env, cx, d, inLoop, k);
    LetVarSteps(x, e.init, e.body, env, st, f);
    LetVarSteps(x, e2.init, e2.body, env2, st2, g);
    var st1, st21, j1 := st.Alloc(0), st2.Alloc(0), j + [k2];
    AllocMeets(env, env2, st, st2, j, cx, 0);
    j2 := InlineKeeps(e.init, e2.init, env, env2, st1, st21, j1, f, g, cx, d, w, inLoop);
    var o, o2 := Eval(e.init, env, st1, f), Eval(e2.init, env2, st21, g);
    SimAlloc(o, o2, st, st2, j, j2, 0, w);
    if o.Val? && o2.Val? {
      SimVals(o, o2, st21, j1, j2, w);
      SimVals(o, o2, st2, j, j2, w);
      ScopeReady(env, env2, st, st2, j, j2, cx, o, o2);
      j2 := ScopeKeeps(x, e.body, e2.body, env, env2, k, k2, o, o2, st2, j, j2, f, g, cx, d, w, inLoop);
    } else {
      SimOver(o, o2, Eval(e, env, st, f), Eval(e2, env2, st2, g), st2, j, j2, w);
    }
  }

  /** From the store of the initial value on. */
  lemma {:induction false} ScopeKeeps(x: Sym, body: Exp, body2: Exp, env: Env, env2: Env, k: nat, k2: nat, o: Outcome<int32>,
                                      o2: Outcome<int32>, st2: State, j: Cells, j1: Cells, f: nat, g: nat, cx: Unit, d: nat, w: Way,
                                      inLoop: bool) returns (j2: Cells)
    requires Static(body, body2, BindVar(x, k, false, env), cx, d, inLoop) && x !in ScopeOf(env).vars
    requires EnvSim(env, env2, j, cx) && o.Val? && o2.Val? && o.value == o2.value && StRel(o.st, o2.st, j1) && Grown(j, j1, |st2.mem|)
    requires k < |j1| && j1[k] == k2 && k2 == |st2.mem| && Untouched(st2, o2.st, j) && Fuels(f, g, d, cx, w) && k == |j|
    ensures Sim(Eval(body, BindVar(x, k, false, env), o.st.Write(k, o.value), f),
                Eval(body2, BindVar(x, k2, false, env2), o2.st.Write(k2, o.value), g), st2, j, j2, w)
    decreases f, body, 3
  {
    hide EnvHygienic, EnvTyped, Static;
    var env1, env21 := BindVar(x, k, false, env), BindVar(x, k2, false, env2);
    var st3, st4 := o.st.Write(k, o.value), o2.st.Write(k2, o.value);
    WriteRel(o.st, o2.st, j1, k, o.value);
    SimGrown(env, env2, j, j1, |st2.mem|, cx);
    SimPushVar(env, env2, j1, cx, x, k2, false);
    assert Untouched(st2, st4, j);
    j2 := InlineKeeps(body, body2, env1, env21, st3, st4, j1, f, g, cx, d, w, inLoop);
    var r, r2 := Eval(body, env1, st3, f), Eval(body2, env21, st4, g);
    if !r.Timeout? && !r2.Timeout? {
      GrownTransitive(j, j1, j2, |st2.mem|, |st4.mem|);
      UntouchedTransitive(st2, st4, r2.st, j, j1);
    }
  }

  lemma LiteralInlined(lo: Exp, lo2: Exp, cx: Unit, d: nat)
    requires lo.IntExp? && Inlined(lo, lo2, cx, d)
    ensures lo2 == lo
  {}

  lemma StaticFor(e: Exp, e2: Exp, env: Env, cx: Unit, d: nat, inLoop: bool, k: nat)
    requires e.ForExp? && Static(e, e2, env, cx, d, inLoop)
    ensures e2.ForExp? && e2.index == e.index && e.index !in ScopeOf(env).vars && e.lo.IntExp? && e2.lo == e.lo
      && Static(e.hi, e2.hi, env, cx, d, inLoop) && Static(e.body, e2.body, BindVar(e.index, k, true, env), cx, d, true)
  {
    hide EnvTyped, EnvHygienic, Static;
    StaticUnfolds(e, e2, env, cx, d, inLoop);
    LiteralInlined(e.lo, e2.lo, cx, d);
    StaticFolds(e.hi, e2.hi, env, cx, d, inLoop);
    StaticBody(e.index, k, true, e.body, e2.body, env, cx, d, true);
  }

  lemma {:induction false} ForKeeps(e: Exp, e2: Exp, env: Env, env2: Env, st: State, st2: State, j: Cells, f: nat, g: nat,
                                    cx: Unit, d: nat, w: Way, inLoop: bool) returns (j2: Cells)
    requires e.ForExp? && Static(e, e2, env, cx, d, inLoop) && Meet(env, env2, st, st2, j, cx) && Fuels(f, g, d, cx, w)
    ensures Sim(Eval(e, env, st, f), Eval(e2, env2, st2, g), st2, j, j2, w)
    decreases f, e, 1
  {
    hide Static, Fuels, Eval, EvalFor, Meet, Sim, Kept;
    StaticFor(e, e2, env, cx, d, inLoop, 0);
    var i, n := e.index, e.lo.value;
    ForSteps(i, e.lo, e.hi, e.body, env, st, f);
    ForSteps(i, e2.lo, e2.hi, e2.body, env2, st2, g);
    LiteralIs(n, env, st, f);
    LiteralIs(n, env2, st2, g);
    j2 := InlineKeeps(e.hi, e2.hi, env, env2, st, st2, j, f, g, cx, d, w, inLoop);
    var h, h2 := Eval(e.hi, env, st, f), Eval(e2.hi, env2, st2, g);
    if h.Val? && h2.Val? {
      SimVals(h, h2, st2, j, j2, w);
      MeetAgain(env, env2, st, st2, j, h, h2, j2, cx);
      var k, k2 := |h.st.mem|, |h2.st.mem|;
      StaticFor(e, e2, env, cx, d, inLoop, k);
      var j3 := LoopKeeps(i, n, h.value, e.body, e2.body, env, env2, h.st, h2.st, j2, f, g, cx, d, w);
      SimLater(h, h2, EvalFor(e.body, BindVar(i, k, true, env), k, n, h.value, h.st.Alloc(n), f),
               EvalFor(e2.body, BindVar(i, k2, true, env2), k2, n, h.value, h2.st.Alloc(n), g), st2, j, j2, j3, w);
      j2 := j3;
    } else {
      SimOver(h, h2, Eval(e, env, st, f), Eval(e2, env2, st2, g), st2, j, j2, w);
    }
  }

  lemma LiteralIs(n: int32, env: Env, st: State, fuel: nat)
    ensures Eval(IntExp(n), env, st, fuel) == Val(n, st)
  {}

  /** From the allocation of the index on. */
  lemma {:induction false} LoopKeeps(i: Sym, n: int32, hi: int32, body: Exp, body2: Exp, env: Env, env2: Env, st: State, st2: State,
                                     j: Cells, f: nat, g: nat, cx: Unit, d: nat, w: Way) returns (j2: Cells)
    requires Static(body, body2, BindVar(i, |st.mem|, true, env), cx, d, true) && i !in ScopeOf(env).vars
    requires Meet(env, env2, st, st2, j, cx) && Fuels(f, g, d, cx, w)
    ensures Sim(EvalFor(body, BindVar(i, |st.mem|, true, env), |st.mem|, n, hi, st.Alloc(n), f),
                EvalFor(body2, BindVar(i, |st2.mem|, true, env2), |st2.mem|, n, hi, st2.Alloc(n), g), st2, j, j2, w)
    decreases f, body, 4
  {
    hide Static;
    var k, k2 := |st.mem|, |st2.mem|;
    var j1 := j + [k2];
    AllocRel(st, st2, j, n);
    SimGrown(env, env2, j, j1, k2, cx);
    SimPushVar(env, env2, j1, cx, i, k2, true);
    var env1, env21 := BindVar(i, k, true, env), BindVar(i, k2, true, env2);
    j2 := TurnsKeep(body, body2, env1, env21, k, k2, n, hi, st.Alloc(n), st2.Alloc(n), j1, f, g, cx, d, w);
    var r, r2 := EvalFor(body, env1, k, n, hi, st.Alloc(n), f), EvalFor(body2, env21, k2, n, hi, st2.Alloc(n), g);
    if !r.Timeout? && !r2.Timeout? {
      GrownTransitive(j, j1, j2, k2, k2 + 1);
      assert Untouched(st2, st2.Alloc(n), j);
      UntouchedTransitive(st2, st2.Alloc(n), r2.st, j, j1);
    }
  }

  lemma {:induction false} TurnsKeep(body: Exp, body2: Exp, env: Env, env2: Env, loc: nat, loc2: nat, k: int, hi: int32, st: State,
                                     st2: State, j: Cells, f: nat, g: nat, cx: Unit, d: nat, w: Way) returns (j2: Cells)
    requires INT_MIN <= k <= INT_MAX + 1 && Static(body, body2, env, cx, d, true) && Meet(env, env2, st, st2, j, cx)
    requires Fuels(f, g, d, cx, w) && loc < |j| && j[loc] == loc2
    ensures Sim(EvalFor(body, env, loc, k, hi, st, f), EvalFor(body2, env2, loc2, k, hi, st2, g), st2, j, j2, w)
    decreases f, body, 3
  {
    hide Static, Meet, Sim, Kept, Eval, EvalFor;
    j2 := j;
    FuelsOut(f, g, d, cx, w);
    if k <= hi && f > 0 && g > 0 {
      FuelsLess(f, g, d, d, cx, w);
      ForTurnSteps(body, env, loc, k, hi, st, f);
      ForTurnSteps(body2, env2, loc2, k, hi, st2, g);
      var st1, st21 := st.Write(loc, k), st2.Write(loc2, k);
      MeetWritten(env, env2, st, st2, j, cx, loc, k);
      var j1 := InlineKeeps(body, body2, env, env2, st1, st21, j, f - 1, g - 1, cx, d, w, true);
      var b, b2 := Eval(body, env, st1, f - 1), Eval(body2, env2, st21, g - 1);
      SimWritten(b, b2, st2, st21, j, j1, w);
      j2 := j1;
      if b.Val? && b2.Val? {
        SimVals(b, b2, st21, j, j1, w);
        SimVals(b, b2, st2, j, j1, w);
        MeetAgain(env, env2, st1, st21, j, b, b2, j1, cx);
        StillThere(b, b2, st2, j, j1, loc);
        j2 := TurnsKeep(body, body2, env, env2, loc, loc2, k + 1, hi, b.st, b2.st, j1, f - 1, g - 1, cx, d, w);
        SimLater(b, b2, EvalFor(body, env, loc, k + 1, hi, b.st, f - 1), EvalFor(body2, env2, loc2, k + 1, hi, b2.st, g - 1),
                 st2, j, j1, j2, w);
      } else {
        LeftEarly(b, b2, EvalFor(body, env, loc, k, hi, st, f), EvalFor(body2, env2, loc2, k, hi, st2, g), st2, j, j1, w);
      }
    } else {
      OutOfForTurns(body, body2, env, env2, loc, loc2, k, hi, st, st2, j, f, g, cx, d, w);
    }
  }

  lemma OutOfForTurns(body: Exp, body2: Exp, env: Env, env2: Env, loc: nat, loc2: nat, k: int, hi: int32, st: State, st2: State,
                      j: Cells, f: nat, g: nat, cx: Unit, d: nat, w: Way)
    requires INT_MIN <= k <= INT_MAX + 1 && Meet(env, env2, st, st2, j, cx) && Fuels(f, g, d, cx, w) && (k > hi || f == 0 || g == 0)
    ensures Sim(EvalFor(body, env, loc, k, hi, st, f), EvalFor(body2, env2, loc2, k, hi, st2, g), st2, j, j, w)
  {
    hide Eval, StRel, EnvSim;
    FuelsOut(f, g, d, cx, w);
    NothingYet(st2, j);
  }

  /** The index is stored on both sides. */
  lemma MeetWritten(env: Env, env2: Env, st: State, st2: State, j: Cells, cx: Unit, loc: nat, v: int32)
    requires Meet(env, env2, st, st2, j, cx) && loc < |j|
    ensures Meet(env, env2, st.Write(loc, v), st2.Write(j[loc], v), j, cx) && Untouched(st2, st2.Write(j[loc], v), j)
  {
    hide EnvSim;
    WriteRel(st, st2, j, loc, v);
  }

  lemma SimWritten(b: Outcome<int32>, b2: Outcome<int32>, st2: State, st21: State, j: Cells, j1: Cells, w: Way)
    requires Sim(b, b2, st21, j, j1, w) && Untouched(st2, st21, j) && |st21.mem| == |st2.mem|
    ensures Sim(b, b2, st2, j, j1, w)
  {
    hide StRel;
    if !b.Timeout? && !b2.Timeout? {
      NothingGrown(j, |st2.mem|);
      UntouchedTransitive(st2, st21, b2.st, j, j);
    }
  }

  lemma NothingGrown(j: Cells, n: nat)
    ensures Grown(j, j, n)
  {}

  lemma StillThere(b: Outcome<int32>, b2: Outcome<int32>, st2: State, j: Cells, j1: Cells, loc: nat)
    requires Kept(b, b2, st2, j, j1) && loc < |j|
    ensures loc < |j1| && j1[loc] == j[loc]
  {
    assert j1[loc] == j1[..|j|][loc];
  }

  // ----- calls that stay -----

  lemma {:induction false} CallKeeps(fn: Sym, args: Exps, e2: Exp, env: Env, env2: Env, st: State, st2: State, j: Cells, f: nat, g: nat,
                                     cx: Unit, d: nat, w: Way, inLoop: bool) returns (j2: Cells)
    requires Static(CallExp(fn, args), e2, env, cx, d, inLoop) && !cx.Expands(fn)
    requires Meet(env, env2, st, st2, j, cx) && Fuels(f, g, d, cx, w)
    ensures Sim(Eval(CallExp(fn, args), env, st, f), Eval(e2, env2, st2, g), st2, j, j2, w)
    decreases f, CallExp(fn, args), 1
  {
    hide EnvSim, Grown, Untouched, StRel, Eval, EvalArgs, EvalBody;
    TypedParts(args, ScopeOf(env), inLoop);
    CallSteps(fn, args, env, st, f);
    CallSteps(fn, e2.args, env2, st2, g);
    j2 := ArgsKeep(args, e2.args, env, env2, st, st2, j, f, g, cx, d, w, inLoop);
    var o, o2 := EvalArgs(args, env, st, f), EvalArgs(e2.args, env2, st2, g);
    if o.Val? && o2.Val? {
      MeetAgain(env, env2, st, st2, j, o, o2, j2, cx);
      TypedCallee(env, fn);
      ArgCount(args, env, st, f);
      SimFun(env, env2, j2, cx, fn);
      CalleeHygienic(env, fn, cx);
      var c, c2 := LookupFun(env, fn).value, LookupFun(env2, fn).value;
      var j3 := ApplyKeeps(fn, args, c, c2, o.value, o.st, o2.st, j2, f, g, cx, d, w);
      SimLater(o, o2, CallOutcome(fn, c, o.value, o.st, f), CallOutcome(fn, c2, o.value, o2.st, g), st2, j, j2, j3, w);
      j2 := j3;
    }
  }

  lemma {:induction false} ApplyKeeps(fn: Sym, args: Exps, c: Callee, c2: Callee, vs: seq<int32>, st: State, st2: State, j: Cells,
                                      f: nat, g: nat, cx: Unit, d: nat, w: Way) returns (j2: Cells)
    requires InlinedDec(c.dec, c2.dec, cx) && |c.dec.formals| == |vs| && EnvTyped(c.env) && EnvHygienic(c.env, cx)
    requires HygienicDec(c.dec, ScopeOf(c.env), cx) && Meet(c.env, c2.env, st, st2, j, cx) && Fuels(f, g, d, cx, w)
    requires c.dec.Function? ==> TypeOf(c.dec.body, ScopeOf(c.env).Formals(c.dec.formals), false).Some?
    ensures Sim(CallOutcome(fn, c, vs, st, f), CallOutcome(fn, c2, vs, st2, g), st2, j, j2, w)
    decreases f, args, 0
  {
    hide EnvSim, EnvHygienic, EnvTyped, Hygienic, Inlined;
    j2 := j;
    FuelsOut(f, g, d, cx, w);
    if c.dec.Function? && f > 0 && g > 0 {
      FuelsLess(f, g, d, cx.bound, cx, w);
      j2 := BodyKeeps(c, c2, vs, st, st2, j, f - 1, g - 1, cx, w);
    }
  }

  lemma {:induction false} BodyKeeps(c: Callee, c2: Callee, vs: seq<int32>, st: State, st2: State, j: Cells, f: nat, g: nat,
                                     cx: Unit, w: Way) returns (j2: Cells)
    requires c.dec.Function? && InlinedDec(c.dec, c2.dec, cx) && |c.dec.formals| == |vs| && EnvTyped(c.env) && EnvHygienic(c.env, cx)
    requires HygienicDec(c.dec, ScopeOf(c.env), cx) && Meet(c.env, c2.env, st, st2, j, cx) && Fuels(f, g, cx.bound, cx, w)
    requires TypeOf(c.dec.body, ScopeOf(c.env).Formals(c.dec.formals), false).Some?
    ensures Sim(EvalBody(c, vs, st, f), EvalBody(c2, vs, st2, g), st2, j, j2, w)
    decreases f, c.dec.body, 4
  {
    hide EnvHygienic, EnvTyped, Hygienic, Inlined, Eval;
    var xs, n, n2 := c.dec.formals, |st.mem|, |st2.mem|;
    var j1 := j + Cellsfrom(n2, |vs|);
    var st1, st21 := st.(mem := st.mem + vs), st2.(mem := st2.mem + vs);
    SimGrown(c.env, c2.env, j, j1, n2, cx);
    SimFormals(xs, n, n2, c.env, c2.env, j1, cx);
    FormalsScope(xs, n, c.env);
    FormalsHygienic(xs, n, c.env, cx);
    assert StRel(st1, st21, j1) && Untouched(st2, st21, j);
    var env1, env21 := BindFormals(xs, n, c.env), BindFormals(xs, n2, c2.env);
    j2 := InlineKeeps(c.dec.body, c2.dec.body, env1, env21, st1, st21, j1, f, g, cx, cx.bound, w, false);
    var b, b2 := Eval(c.dec.body, env1, st1, f), Eval(c2.dec.body, env21, st21, g);
    if !b.Timeout? && !b2.Timeout? {
      GrownTransitive(j, j1, j2, n2, |st21.mem|);
      UntouchedTransitive(st2, st21, b2.st, j, j1);
    }
  }

  function Cellsfrom(base: nat, n: nat): Cells { seq(n, i requires 0 <= i < n => base + i) }

  // ----- expanded calls -----

  /** What an expanded function is to the place it is called from. */
  ghost predicate Reached(c: Callee, env: Env, cx: Unit) {
    && c.dec.Function? && EnvTyped(c.env) && EnvHygienic(c.env, cx) && HygienicDec(c.dec, ScopeOf(c.env), cx)
    && TypeOf(c.dec.body, ScopeOf(c.env).Formals(c.dec.formals), false) == Some(c.dec.result)
    && forall x :: x in c.dec.formals ==> x !in ScopeOf(env).vars
  }

  /** The call seen as the expansion sees it: the remaining arguments, then the body. */
  function Bindings(args: Exps, c: Callee, vals: seq<int32>, env: Env, st: State, f: nat): Outcome<int32>
    requires c.dec.Function?
  {
    var vs := EvalArgs(args, env, st, f);
    if !vs.Val? then Abrupt(vs) else if f == 0 then Timeout(vs.st) else EvalBody(c, vals + vs.value, vs.st, f - 1)
  }

  /** The formals bound so far: cells of the expanded run alone, holding the arguments. */
  ghost predicate Holds(xs: seq<Sym>, vals: seq<int32>, cells: seq<nat>, env2: Env, st2: State, j: Cells) {
    && |vals| == |cells| <= |xs|
    && (forall i :: 0 <= i < |cells| ==>
          Hidden(cells[i], st2, j) && st2.mem[cells[i]] == vals[i] && LookupVar(env2, xs[i]) == Some(cells[i]))
    && (forall i, k :: 0 <= i < k < |cells| ==> cells[i] != cells[k])
  }

  /** How far the expanded run has come since state `st0` of the call. */
  ghost predicate Since(st0: State, j0: Cells, st2: State, j: Cells, cells: seq<nat>) {
    && Grown(j0, j, |st0.mem|) && Untouched(st0, st2, j0) && forall i :: 0 <= i < |cells| ==> cells[i] >= |st0.mem|
  }

  lemma SinceLater<T>(st0: State, j0: Cells, st2: State, j: Cells, cells: seq<nat>, o: Outcome<T>, o2: Outcome<T>, j1: Cells)
    requires Since(st0, j0, st2, j, cells) && Kept(o, o2, st2, j, j1)
    ensures Since(st0, j0, o2.st, j1, cells)
  {
    GrownTransitive(j0, j, j1, |st0.mem|, |st2.mem|);
    UntouchedTransitive(st0, st2, o2.st, j0, j);
  }

  lemma SinceAlloc(st0: State, j0: Cells, st2: State, j: Cells, cells: seq<nat>)
    requires Since(st0, j0, st2, j, cells)
    ensures Since(st0, j0, st2.Alloc(0), j, cells)
  {}

  lemma SinceWrite(st0: State, j0: Cells, st2: State, j: Cells, cells: seq<nat>, k: nat, v: int32)
    requires Since(st0, j0, st2, j, cells) && k >= |st0.mem|
    ensures Since(st0, j0, st2.Write(k, v), j, cells + [k])
  {}

  lemma HiddenWrite(st: State, st2: State, j: Cells, k: nat, v: int32)
    requires StRel(st, st2, j) && Hidden(k, st2, j)
    ensures StRel(st, st2.Write(k, v), j)
  {}

  lemma HoldsLater<T>(xs: seq<Sym>, vals: seq<int32>, cells: seq<nat>, env2: Env, st2: State, j: Cells, o: Outcome<T>, o2: Outcome<T>,
                      j1: Cells)
    requires Holds(xs, vals, cells, env2, st2, j) && Kept(o, o2, st2, j, j1)
    ensures Holds(xs, vals, cells, env2, o2.st, j1)
  {
    forall i | 0 <= i < |cells| ensures Hidden(cells[i], o2.st, j1) && o2.st.mem[cells[i]] == vals[i] {
      StillHidden(cells[i], st2, o2.st, j, j1);
    }
  }

  lemma HoldsAlloc(xs: seq<Sym>, vals: seq<int32>, cells: seq<nat>, env2: Env, st2: State, j: Cells)
    requires Holds(xs, vals, cells, env2, st2, j)
    ensures Holds(xs, vals, cells, env2, st2.Alloc(0), j)
  {}

  /** One more formal. */
  lemma HoldsMore(xs: seq<Sym>, vals: seq<int32>, cells: seq<nat>, env2: Env, st2: State, j: Cells, k: nat, v: int32)
    requires Holds(xs, vals, cells, env2, st2, j) && Hidden(k, st2, j) && k !in cells && |cells| < |xs|
    requires forall i, l :: 0 <= i < l < |xs| ==> xs[i] != xs[l]
    ensures Holds(xs, vals + [v], cells + [k], BindVar(xs[|cells|], k, false, env2), st2.Write(k, v), j)
  {}

  /** What the binding of formals keeps between two arguments. */
  ghost predicate Binding(c: Callee, vals: seq<int32>, cells: seq<nat>, env: Env, env2: Env, st: State, st2: State, j: Cells,
                          st0: State, j0: Cells, cx: Unit) {
    && EnvSim(env, env2, j, cx) && EnvSim(c.env, env2, j, cx) && StRel(st, st2, j)
    && Holds(c.dec.formals, vals, cells, env2, st2, j) && Since(st0, j0, st2, j, cells)
  }

  lemma BindingAlloc(c: Callee, vals: seq<int32>, cells: seq<nat>, env: Env, env2: Env, st: State, st2: State, j: Cells,
                     st0: State, j0: Cells, cx: Unit)
    requires Binding(c, vals, cells, env, env2, st, st2, j, st0, j0, cx)
    ensures Binding(c, vals, cells, env, env2, st, st2.Alloc(0), j, st0, j0, cx) && Hidden(|st2.mem|, st2.Alloc(0), j)
    ensures |st2.mem| !in cells && |st2.mem| >= |st0.mem|
  {
    HiddenRel(st, st2, j, 0);
    HoldsAlloc(c.dec.formals, vals, cells, env2, st2, j);
    SinceAlloc(st0, j0, st2, j, cells);
    forall i | 0 <= i < |cells| ensures cells[i] != |st2.mem| { assert Hidden(cells[i], st2, j); }
  }

  lemma BindingLater<T>(c: Callee, vals: seq<int32>, cells: seq<nat>, env: Env, env2: Env, st: State, st2: State, j: Cells,
                        st0: State, j0: Cells, cx: Unit, o: Outcome<T>, o2: Outcome<T>, j1: Cells, k: nat)
    requires Binding(c, vals, cells, env, env2, st, st2, j, st0, j0, cx) && Kept(o, o2, st2, j, j1) && o.Val? && Hidden(k, st2, j)
    ensures Binding(c, vals, cells, env, env2, o.st, o2.st, j1, st0, j0, cx) && Hidden(k, o2.st, j1)
  {
    SimGrown(env, env2, j, j1, |st2.mem|, cx);
    SimGrown(c.env, env2, j, j1, |st2.mem|, cx);
    HoldsLater(c.dec.formals, vals, cells, env2, st2, j, o, o2, j1);
    SinceLater(st0, j0, st2, j, cells, o, o2, j1);
    StillHidden(k, st2, o2.st, j, j1);
  }

  lemma BindingMore(c: Callee, vals: seq<int32>, cells: seq<nat>, env: Env, env2: Env, st: State, st2: State, j: Cells,
                    st0: State, j0: Cells, cx: Unit, k: nat, v: int32)
    requires Binding(c, vals, cells, env, env2, st, st2, j, st0, j0, cx) && Hidden(k, st2, j) && k !in cells && k >= |st0.mem|
    requires Reached(c, env, cx) && |cells| < |c.dec.formals|
    ensures Binding(c, vals + [v], cells + [k], env, BindVar(c.dec.formals[|cells|], k, false, env2), st, st2.Write(k, v), j, st0, j0, cx)
  {
    var x := c.dec.formals[|cells|];
    SimPushVar(env, env2, j, cx, x, k, false);
    SimPushVar(c.env, env2, j, cx, x, k, false);
    HiddenWrite(st, st2, j, k, v);
    HoldsMore(c.dec.formals, vals, cells, env2, st2, j, k, v);
    SinceWrite(st0, j0, st2, j, cells, k, v);
  }

  /** The outcome of a part of the call, seen from its start. */
  lemma SimSince<T, U>(o: Outcome<T>, o2: Outcome<T>, r: Outcome<U>, r2: Outcome<U>, st0: State, j0: Cells, st2: State, j: Cells,
                       cells: seq<nat>, j1: Cells, w: Way)
    requires Since(st0, j0, st2, j, cells) && Sim(o, o2, st2, j, j1, w) && (!o.Val? || !o2.Val?)
    requires !o.Val? ==> r == Abrupt(o)
    requires !o2.Val? ==> r2 == Abrupt(o2)
    ensures Sim(r, r2, st0, j0, j1, w)
  {
    if !o.Timeout? && !o2.Timeout? { SinceLater(st0, j0, st2, j, cells, o, o2, j1); }
  }

  lemma {:induction false} BindingsKeep(args: Exps, e2: Exp, c: Callee, vals: seq<int32>, cells: seq<nat>, env: Env, env2: Env, st: State,
                                        st2: State, j: Cells, st0: State, j0: Cells, f: nat, g: nat, cx: Unit, d: nat, w: Way, inLoop: bool)
    returns (j2: Cells)
    requires Reached(c, env, cx) && Binding(c, vals, cells, env, env2, st, st2, j, st0, j0, cx) && Fuels(f, g, d, cx, w)
    requires SeqTyped(args, ScopeOf(env), inLoop) && EnvTyped(env) && HygienicAll(args, ScopeOf(env), cx) && EnvHygienic(env, cx)
    requires c.dec.Function? && |cells| <= |c.dec.formals| && Expanded(c.dec.formals[|cells|..], args, c.dec.body, e2, cx, d)
    ensures Sim(Bindings(args, c, vals, env, st, f), Eval(e2, env2, st2, g), st0, j0, j2, w)
    decreases f, args, 4
  {
    hide EnvSim, Grown, Untouched, Hygienic, EnvHygienic, EnvTyped, Holds, Since, Reached;
    var xs := c.dec.formals;
    if |cells| == |xs| {
      assert xs[|cells|..] == [];
      j2 := ResultKeeps(e2, c, vals, cells, env, env2, st, st2, j, st0, j0, f, g, cx, d, w);
      assert vals + [] == vals;
    } else {
      var a, k, st21 := args.head, |st2.mem|, st2.Alloc(0);
      assert xs[|cells|..][1..] == xs[|cells| + 1..] && xs[|cells|..][0] == xs[|cells|];
      BindingAlloc(c, vals, cells, env, env2, st, st2, j, st0, j0, cx);
      var j1 := InlineKeeps(a, e2.init, env, env2, st, st21, j, f, g, cx, d, w, inLoop);
      var o, o2 := Eval(a, env, st, f), Eval(e2.init, env2, st21, g);
      if o.Val? && o2.Val? {
        j2 := RestKeep(args, e2, c, vals, cells, env, env2, st, st21, j, st0, j0, k, o, o2, j1, f, g, cx, d, w, inLoop);
      } else {
        j2 := j1;
        SimSince(o, o2, Bindings(args, c, vals, env, st, f), Eval(e2, env2, st2, g), st0, j0, st21, j, cells, j1, w);
      }
    }
  }

  /** After one argument. */
  lemma {:induction false} RestKeep(args: Exps, e2: Exp, c: Callee, vals: seq<int32>, cells: seq<nat>, env: Env, env2: Env, st: State,
                                    st2: State, j: Cells, st0: State, j0: Cells, k: nat, o: Outcome<int32>, o2: Outcome<int32>, j1: Cells,
                                    f: nat, g: nat, cx: Unit, d: nat, w: Way, inLoop: bool) returns (j2: Cells)
    requires Reached(c, env, cx) && Binding(c, vals, cells, env, env2, st, st2, j, st0, j0, cx) && Fuels(f, g, d, cx, w)
    requires args.Cons? && SeqTyped(args.tail, ScopeOf(env), inLoop) && EnvTyped(env) && HygienicAll(args.tail, ScopeOf(env), cx)
    requires EnvHygienic(env, cx) && |cells| < |c.dec.formals| && Hidden(k, st2, j) && k !in cells && k >= |st0.mem|
    requires c.dec.Function? && e2.LetVar? && e2.name == c.dec.formals[|cells|]
    requires Expanded(c.dec.formals[|cells| + 1..], args.tail, c.dec.body, e2.body, cx, d)
    requires o == Eval(args.head, env, st, f) && o.Val? && o2.Val? && Sim(o, o2, st2, j, j1, w)
    ensures Sim(Bindings(args, c, vals, env, st, f), Eval(e2.body, BindVar(e2.name, k, false, env2), o2.st.Write(k, o2.value), g),
                st0, j0, j2, w)
    decreases f, args, 3
  {
    hide EnvSim, Grown, Untouched, Hygienic, EnvHygienic, EnvTyped, Holds, Since, Reached, HygienicAll, Expanded;
    BindingLater(c, vals, cells, env, env2, st, st2, j, st0, j0, cx, o, o2, j1, k);
    BindingMore(c, vals, cells, env, env2, o.st, o2.st, j1, st0, j0, cx, k, o.value);
    j2 := BindingsKeep(args.tail, e2.body, c, vals + [o.value], cells + [k], env, BindVar(e2.name, k, false, env2), o.st,
                       o2.st.Write(k, o.value), j1, st0, j0, f, g, cx, d, w, inLoop);
    BindingsStep(args, c, vals, env, st, f, o);
  }

  lemma BindingsStep(args: Exps, c: Callee, vals: seq<int32>, env: Env, st: State, f: nat, o: Outcome<int32>)
    requires args.Cons? && c.dec.Function? && o == Eval(args.head, env, st, f) && o.Val?
    ensures Bindings(args, c, vals, env, st, f) == Bindings(args.tail, c, vals + [o.value], env, o.st, f)
  {
    hide Eval;
    var vs := EvalArgs(args.tail, env, o.st, f);
    if vs.Val? { assert vals + ([o.value] + vs.value) == vals + [o.value] + vs.value; }
  }

  /** `var res := body in res` when all formals are bound. */
  lemma {:induction false} ResultKeeps(e2: Exp, c: Callee, vals: seq<int32>, cells: seq<nat>, env: Env, env2: Env, st: State, st2: State,
                                       j: Cells, st0: State, j0: Cells, f: nat, g: nat, cx: Unit, d: nat, w: Way) returns (j2: Cells)
    requires Reached(c, env, cx) && Binding(c, vals, cells, env, env2, st, st2, j, st0, j0, cx) && Fuels(f, g, d, cx, w)
    requires |cells| == |c.dec.formals| && Expanded([], NoExp, c.dec.body, e2, cx, d)
    requires c.dec.Function?
    ensures Sim(if f == 0 then Timeout(st) else EvalBody(c, vals, st, f - 1), Eval(e2, env2, st2, g), st0, j0, j2, w)
    decreases f, NoExp, 2
  {
    hide EnvSim, Grown, Untouched, Hygienic, EnvHygienic, EnvTyped, Holds, Since, Inlined, Static, Eval;
    LetVarSteps(RES, e2.init, e2.body, env2, st2, g);
    j2 := j;
    FuelsOut(f, g, d, cx, w);
    if f > 0 {
      var n, k, body := |st.mem|, |st2.mem|, c.dec.body;
      var j1, env1, st1, st21 := j + cells, BindFormals(c.dec.formals, n, c.env), st.(mem := st.mem + vals), st2.Alloc(0);
      BodyMeets(c, vals, cells, env, env2, st, st2, j, st0, j0, cx);
      BodyStatic(c, n, body, e2.init, env, cx, d - 1);
      j2 := InlineKeeps(body, e2.init, env1, env2, st1, st21, j1, f - 1, g, cx, d - 1, w, false);
      var b, b2 := Eval(body, env1, st1, f - 1), Eval(e2.init, env2, st21, g);
      BodyOutcome(c, vals, st, f - 1, env);
      if !b.Timeout? && !b2.Timeout? {
        SinceLater(st0, j0, st21, j1, cells, b, b2, j2);
        if b.Val? {
          StillHidden(k, st21, b2.st, j1, j2);
          HiddenWrite(b.st, b2.st, j2, k, b.value);
          SinceWrite(st0, j0, b2.st, j2, cells, k, b.value);
          ResultRead(e2, env2, st2, g, b2);
          FromSince(st0, j0, b2.st.Write(k, b.value), j2, cells + [k]);
        } else {
          FromSince(st0, j0, b2.st, j2, cells);
        }
      }
    }
  }

  lemma FromSince(st0: State, j0: Cells, st2: State, j: Cells, cells: seq<nat>)
    requires Since(st0, j0, st2, j, cells)
    ensures Grown(j0, j, |st0.mem|) && Untouched(st0, st2, j0)
  {}

  /** Storage and scope where the expanded body starts. */
  lemma ReachedFresh(c: Callee, env: Env, cx: Unit)
    requires Reached(c, env, cx)
    ensures FreshFormals(c.dec.formals, ScopeOf(c.env).vars.Keys)
  {
    hide TypeOf, EnvTyped, EnvHygienic, FreshFormals;
  }

  /** The formals, in the cells of the bindings. */
  lemma FormalsMeet(xs: seq<Sym>, vals: seq<int32>, cells: seq<nat>, envc: Env, env2: Env, st: State, st2: State, j: Cells, cx: Unit)
    requires FreshFormals(xs, ScopeOf(envc).vars.Keys) && EnvSim(envc, env2, j, cx) && |st.mem| == |j|
    requires Holds(xs, vals, cells, env2, st2, j) && |cells| == |xs|
    ensures EnvSim(BindFormals(xs, |st.mem|, envc), env2, j + cells, cx)
  {
    hide EnvSim, FreshFormals, Hidden;
    var j1 := j + cells;
    assert Grown(j, j1, 0);
    SimGrown(envc, env2, j, j1, 0, cx);
    forall i | 0 <= i < |cells| ensures LookupVar(env2, xs[i]) == Some(j1[|st.mem| + i]) { assert j1[|j| + i] == cells[i]; }
    SimBound(xs, |st.mem|, envc, env2, j1, cx);
  }

  lemma BodyMeets(c: Callee, vals: seq<int32>, cells: seq<nat>, env: Env, env2: Env, st: State, st2: State, j: Cells,
                  st0: State, j0: Cells, cx: Unit)
    requires Reached(c, env, cx) && Binding(c, vals, cells, env, env2, st, st2, j, st0, j0, cx) && |cells| == |c.dec.formals|
    ensures var j1, st21 := j + cells, st2.Alloc(0);
      && Meet(BindFormals(c.dec.formals, |st.mem|, c.env), env2, st.(mem := st.mem + vals), st21, j1, cx)
      && Since(st0, j0, st21, j1, cells) && Hidden(|st2.mem|, st21, j1) && |st2.mem| >= |st0.mem|
  {
    hide EnvSim, Reached, Holds, Since, Hidden, FreshFormals;
    ReachedFresh(c, env, cx);
    BodyStorage(c.dec.formals, vals, cells, env2, st, st2, j, st0, j0);
    FormalsMeet(c.dec.formals, vals, cells, c.env, env2, st, st2, j, cx);
  }

  lemma BodyStorage(xs: seq<Sym>, vals: seq<int32>, cells: seq<nat>, env2: Env, st: State, st2: State, j: Cells, st0: State, j0: Cells)
    requires StRel(st, st2, j) && Holds(xs, vals, cells, env2, st2, j) && Since(st0, j0, st2, j, cells)
    ensures var j1, st21 := j + cells, st2.Alloc(0);
      && StRel(st.(mem := st.mem + vals), st21, j1) && Since(st0, j0, st21, j1, cells)
      && Hidden(|st2.mem|, st21, j1) && |st2.mem| >= |st0.mem|
  {
    hide StRel, Grown, Untouched;
    HeldArgs(xs, vals, cells, env2, st, st2, j);
    HeldSince(st2, j, cells, st0, j0);
    SinceAlloc(st0, j0, st2, j + cells, cells);
  }

  lemma HeldArgs(xs: seq<Sym>, vals: seq<int32>, cells: seq<nat>, env2: Env, st: State, st2: State, j: Cells)
    requires StRel(st, st2, j) && Holds(xs, vals, cells, env2, st2, j)
    ensures StRel(st.(mem := st.mem + vals), st2.Alloc(0), j + cells) && Hidden(|st2.mem|, st2.Alloc(0), j + cells)
  {
    var j1 := j + cells;
    forall i | 0 <= i < |cells| ensures Hidden(cells[i], st2, j) {}
    forall k | 0 <= k < |j1| ensures j1[k] < |st2.mem| && st2.mem[j1[k]] == (st.mem + vals)[k] {
      if k >= |j| { assert Hidden(cells[k - |j|], st2, j); }
    }
    forall k, l | 0 <= k < l < |j1| ensures j1[k] != j1[l] {
      if k < |j| && l >= |j| { assert Hidden(cells[l - |j|], st2, j); }
    }
  }

  lemma HeldSince(st2: State, j: Cells, cells: seq<nat>, st0: State, j0: Cells)
    requires Since(st0, j0, st2, j, cells)
    ensures Since(st0, j0, st2, j + cells, cells) && |st2.mem| >= |st0.mem|
  {
    assert Grown(j, j + cells, |st0.mem|);
    GrownTransitive(j0, j, j + cells, |st0.mem|, |st0.mem|);
  }

  lemma BodyStatic(c: Callee, n: nat, body: Exp, body2: Exp, env: Env, cx: Unit, d: nat)
    requires Reached(c, env, cx) && body == c.dec.body && Inlined(body, body2, cx, d)
    ensures Static(body, body2, BindFormals(c.dec.formals, n, c.env), cx, d, false)
  {
    FormalsScope(c.dec.formals, n, c.env);
    FormalsHygienic(c.dec.formals, n, c.env, cx);
  }

  /** A checked body neither breaks nor leaves a value where none is declared. */
  lemma BodyOutcome(c: Callee, vals: seq<int32>, st: State, f: nat, env: Env)
    requires c.dec.Function? && EnvTyped(c.env)
    requires TypeOf(c.dec.body, ScopeOf(c.env).Formals(c.dec.formals), false) == Some(c.dec.result)
    ensures EvalBody(c, vals, st, f) == Eval(c.dec.body, BindFormals(c.dec.formals, |st.mem|, c.env), st.(mem := st.mem + vals), f)
    ensures !EvalBody(c, vals, st, f).Brk?
  {
    var env1 := BindFormals(c.dec.formals, |st.mem|, c.env);
    FormalsScope(c.dec.formals, |st.mem|, c.env);
    TypedOutcome(c.dec.body, env1, st.(mem := st.mem + vals), f, false);
  }

  /** Reading `res` gives what was just stored there. */
  lemma ResultRead(e2: Exp, env2: Env, st2: State, g: nat, b2: Outcome<int32>)
    requires e2.LetVar? && e2.name == RES && e2.body == VarExp(RES) && b2 == Eval(e2.init, env2, st2.Alloc(0), g) && b2.Val?
    ensures Eval(e2, env2, st2, g) == Val(b2.value, b2.st.Write(|st2.mem|, b2.value))
  {
    MemGrows(e2.init, env2, st2.Alloc(0), g);
    var env3, st3 := BindVar(RES, |st2.mem|, false, env2), b2.st.Write(|st2.mem|, b2.value);
    assert Eval(VarExp(RES), env3, st3, g) == Val(b2.value, st3);
  }

  lemma CallAsBindings(fn: Sym, args: Exps, c: Callee, env: Env, st: State, f: nat)
    requires LookupFun(env, fn) == Some(c) && c.dec.Function? && |c.dec.formals| == Length(args)
    ensures Eval(CallExp(fn, args), env, st, f) == Bindings(args, c, [], env, st, f)
  {
    ArgCount(args, env, st, f);
    var vs := EvalArgs(args, env, st, f);
    if vs.Val? { assert [] + vs.value == vs.value; }
  }

  /** What the call of an expanded function reaches, and how it is expanded. */
  lemma CallReached(fn: Sym, args: Exps, e2: Exp, env: Env, cx: Unit, d: nat, inLoop: bool)
    requires Static(CallExp(fn, args), e2, env, cx, d, inLoop) && cx.Expands(fn)
    ensures LookupFun(env, fn).Some? && SeqTyped(args, ScopeOf(env), inLoop) && AllInt(args, ScopeOf(env), inLoop)
    ensures var c := LookupFun(env, fn).value;
      && c.dec.name == fn && c.dec == cx.defs[fn] && Reached(c, env, cx) && |c.dec.formals| == Length(args)
      && EnvTyped(env) && EnvHygienic(env, cx) && HygienicAll(args, ScopeOf(env), cx)
      && Expanded(c.dec.formals, args, c.dec.body, e2, cx, d)
  {
    TypedParts(args, ScopeOf(env), inLoop);
    TypedCallee(env, fn);
    CalleeHygienic(env, fn, cx);
  }

  lemma {:induction false} ExpansionKeeps(fn: Sym, args: Exps, e2: Exp, env: Env, env2: Env, st: State, st2: State, j: Cells, f: nat,
                                          g: nat, cx: Unit, d: nat, w: Way, inLoop: bool) returns (j2: Cells)
    requires Static(CallExp(fn, args), e2, env, cx, d, inLoop) && cx.Expands(fn)
    requires Meet(env, env2, st, st2, j, cx) && Fuels(f, g, d, cx, w)
    ensures Sim(Eval(CallExp(fn, args), env, st, f), Eval(e2, env2, st2, g), st2, j, j2, w)
    decreases f, CallExp(fn, args), 1
  {
    hide EnvSim, Grown, Untouched, StRel, Eval, Bindings, Static, Reached, EnvTyped, EnvHygienic, Hygienic, Inlined, Expanded;
    CallReached(fn, args, e2, env, cx, d, inLoop);
    SimFun(env, env2, j, cx, fn);
    var c := LookupFun(env, fn).value;
    assert c.dec.formals[0..] == c.dec.formals;
    NothingYet(st2, j);
    j2 := BindingsKeep(args, e2, c, [], [], env, env2, st, st2, j, st2, j, f, g, cx, d, w, inLoop);
    CallAsBindings(fn, args, c, env, st, f);
  }
}
