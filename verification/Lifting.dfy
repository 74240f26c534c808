/** Lambda lifting: a closed escape map gives every call the pointers its callee needs. */
module Lifting {
  import opened Int32
  import opened Options
  import opened Tiger
  import opened Check
  import Evaluation
  import opened Translate
  import opened Link
  import opened Programs
  import opened Escapes
  import opened Collector

  // ----- where functions are declared -----

  /** The variables in scope at the declaration of each function of `e`. */
  function Scopes(e: Exp, vars: set<Sym>): map<Sym, set<Sym>> {
    match e
    case IntExp(_) => map[]
    case VarExp(_) => map[]
    case OpExp(l, _, r) => Scopes(l, vars) + Scopes(r, vars)
    case SeqExp(es) => ScopesAll(es, vars)
    case AssignExp(_, e1) => Scopes(e1, vars)
    case IfExp(c, t, f) => Scopes(c, vars) + Scopes(t, vars) + Scopes(f, vars)
    case WhileExp(c, body) => Scopes(c, vars) + Scopes(body, vars)
    case ForExp(i, lo, hi, body) => Scopes(lo, vars) + Scopes(hi, vars) + Scopes(body, vars + {i})
    case BreakExp => map[]
    case CallExp(_, args) => ScopesAll(args, vars)
    case LetVar(x, init, body) => Scopes(init, vars) + Scopes(body, vars + {x})
    case LetFuns(ds, body) => ScopesOf(ds, vars) + Scopes(body, vars)
  }

  function ScopesAll(es: Exps, vars: set<Sym>): map<Sym, set<Sym>> {
    match es
    case NoExp => map[]
    case Cons(e, rest) => Scopes(e, vars) + ScopesAll(rest, vars)
  }

  function ScopesOf(ds: Funs, vars: set<Sym>): map<Sym, set<Sym>> {
    match ds
    case NoFun => map[]
    case FunCons(d, rest) =>
      map[d.name := vars] + (if d.Function? then Scopes(d.body, vars + Names(d.formals)) else map[]) + ScopesOf(rest, vars)
  }

  /** `at` gives these scopes. */
  predicate AtOk(e: Exp, vars: set<Sym>, at: map<Sym, set<Sym>>) {
    match e
    case IntExp(_) => true
    case VarExp(_) => true
    case OpExp(l, _, r) => AtOk(l, vars, at) && AtOk(r, vars, at)
    case SeqExp(es) => AtOkAll(es, vars, at)
    case AssignExp(_, e1) => AtOk(e1, vars, at)
    case IfExp(c, t, f) => AtOk(c, vars, at) && AtOk(t, vars, at) && AtOk(f, vars, at)
    case WhileExp(c, body) => AtOk(c, vars, at) && AtOk(body, vars, at)
    case ForExp(i, lo, hi, body) => AtOk(lo, vars, at) && AtOk(hi, vars, at) && AtOk(body, vars + {i}, at)
    case BreakExp => true
    case CallExp(_, args) => AtOkAll(args, vars, at)
    case LetVar(x, init, body) => AtOk(init, vars, at) && AtOk(body, vars + {x}, at)
    case LetFuns(ds, body) => AtOkFuns(ds, vars, at) && AtOk(body, vars, at)
  }

  predicate AtOkAll(es: Exps, vars: set<Sym>, at: map<Sym, set<Sym>>) {
    match es
    case NoExp => true
    case Cons(e, rest) => AtOk(e, vars, at) && AtOkAll(rest, vars, at)
  }

  predicate AtOkFuns(ds: Funs, vars: set<Sym>, at: map<Sym, set<Sym>>) {
    match ds
    case NoFun => true
    case FunCons(d, rest) =>
      && d.name in at && at[d.name] == vars
      && (d.Function? ==> AtOk(d.body, vars + Names(d.formals), at)) && AtOkFuns(rest, vars, at)
  }

  ghost predicate Submap(a: map<Sym, set<Sym>>, b: map<Sym, set<Sym>>) { forall f :: f in a ==> f in b && b[f] == a[f] }

  ghost predicate Named(f: Sym, ds: seq<FunDec>) { exists d :: d in ds && d.name == f }

  ghost predicate KeysNamed(s: map<Sym, set<Sym>>, ds: seq<FunDec>) { forall f :: f in s ==> Named(f, ds) }

  lemma NamedBoth(a: map<Sym, set<Sym>>, x: seq<FunDec>, b: map<Sym, set<Sym>>, y: seq<FunDec>)
    requires KeysNamed(a, x) && KeysNamed(b, y)
    ensures KeysNamed(a + b, x + y)
  {
    forall f | f in a + b ensures Named(f, x + y) {
      if f in a {
        var d :| d in x && d.name == f;
        assert d in x + y;
      } else {
        var d :| d in y && d.name == f;
        assert d in x + y;
      }
    }
  }

  /** With distinct names, a map that contains a union contains both parts. */
  lemma SubmapParts(a: map<Sym, set<Sym>>, x: seq<FunDec>, b: map<Sym, set<Sym>>, y: seq<FunDec>, at: map<Sym, set<Sym>>)
    requires KeysNamed(a, x) && KeysNamed(b, y) && Distinct(x + y) && Submap(a + b, at)
    ensures Submap(a, at) && Submap(b, at) && Distinct(x) && Distinct(y)
  {
    var z := x + y;
    forall i, j | 0 <= i < j < |x| ensures x[i].name != x[j].name { assert z[i] == x[i] && z[j] == x[j]; }
    forall i, j | 0 <= i < j < |y| ensures y[i].name != y[j].name { assert z[|x| + i] == y[i] && z[|x| + j] == y[j]; }
    forall f | f in a ensures f in at && at[f] == a[f] {
      var d :| d in x && d.name == f;
      var i :| 0 <= i < |x| && x[i] == d;
      forall e | e in y ensures e.name != f {
        var j :| 0 <= j < |y| && y[j] == e;
        assert z[i] == d && z[|x| + j] == e;
      }
      assert f !in b;
      assert (a + b)[f] == a[f];
    }
    forall f | f in b ensures f in at && at[f] == b[f] { assert (a + b)[f] == b[f]; }
  }

  lemma {:induction false} ScopesNamed(e: Exp, vars: set<Sym>)
    ensures KeysNamed(Scopes(e, vars), DecsIn(e))
  {
    match e
    case OpExp(l, _, r) =>
      ScopesNamed(l, vars);
      ScopesNamed(r, vars);
      NamedBoth(Scopes(l, vars), DecsIn(l), Scopes(r, vars), DecsIn(r));
    case SeqExp(es) => AllScopesNamed(es, vars);
    case AssignExp(_, e1) => ScopesNamed(e1, vars);
    case IfExp(c, t, f) =>
      ScopesNamed(c, vars);
      ScopesNamed(t, vars);
      ScopesNamed(f, vars);
      NamedBoth(Scopes(c, vars), DecsIn(c), Scopes(t, vars), DecsIn(t));
      NamedBoth(Scopes(c, vars) + Scopes(t, vars), DecsIn(c) + DecsIn(t), Scopes(f, vars), DecsIn(f));
    case WhileExp(c, body) =>
      ScopesNamed(c, vars);
      ScopesNamed(body, vars);
      NamedBoth(Scopes(c, vars), DecsIn(c), Scopes(body, vars), DecsIn(body));
    case ForExp(i, lo, hi, body) =>
      ScopesNamed(lo, vars);
      ScopesNamed(hi, vars);
      ScopesNamed(body, vars + {i});
      NamedBoth(Scopes(lo, vars), DecsIn(lo), Scopes(hi, vars), DecsIn(hi));
      NamedBoth(Scopes(lo, vars) + Scopes(hi, vars), DecsIn(lo) + DecsIn(hi), Scopes(body, vars + {i}), DecsIn(body));
    case CallExp(_, args) => AllScopesNamed(args, vars);
    case LetVar(x, init, body) =>
      ScopesNamed(init, vars);
      ScopesNamed(body, vars + {x});
      NamedBoth(Scopes(init, vars), DecsIn(init), Scopes(body, vars + {x}), DecsIn(body));
    case LetFuns(ds, body) =>
      FunsScopesNamed(ds, vars);
      ScopesNamed(body, vars);
      NamedBoth(ScopesOf(ds, vars), DecsOf(ds), Scopes(body, vars), DecsIn(body));
    case _ =>
  }

  lemma {:induction false} AllScopesNamed(es: Exps, vars: set<Sym>)
    ensures KeysNamed(ScopesAll(es, vars), DecsInAll(es))
  {
    if es.Cons? {
      ScopesNamed(es.head, vars);
      AllScopesNamed(es.tail, vars);
      NamedBoth(Scopes(es.head, vars), DecsIn(es.head), ScopesAll(es.tail, vars), DecsInAll(es.tail));
    }
  }

  function BodyScopes(d: FunDec, vars: set<Sym>): map<Sym, set<Sym>> {
    if d.Function? then Scopes(d.body, vars + Names(d.formals)) else map[]
  }

  function BodyDecs(d: FunDec): seq<FunDec> { if d.Function? then DecsIn(d.body) else [] }

  lemma {:induction false} FunsScopesNamed(ds: Funs, vars: set<Sym>)
    ensures KeysNamed(ScopesOf(ds, vars), DecsOf(ds))
  {
    if ds.FunCons? {
      var d := ds.first;
      if d.Function? { ScopesNamed(d.body, vars + Names(d.formals)); }
      FunsScopesNamed(ds.rest, vars);
      assert KeysNamed(map[d.name := vars], [d]) by { assert d in [d]; }
      NamedBoth(map[d.name := vars], [d], BodyScopes(d, vars), BodyDecs(d));
      NamedBoth(map[d.name := vars] + BodyScopes(d, vars), [d] + BodyDecs(d), ScopesOf(ds.rest, vars), DecsOf(ds.rest));
    }
  }

  lemma {:induction false} ScopesFit(e: Exp, vars: set<Sym>, at: map<Sym, set<Sym>>)
    requires Distinct(DecsIn(e)) && Submap(Scopes(e, vars), at)
    ensures AtOk(e, vars, at)
  {
    match e
    case OpExp(l, _, r) => ScopesFitTwo(l, vars, r, vars, at); ScopesFit(l, vars, at); ScopesFit(r, vars, at);
    case SeqExp(es) => AllScopesFit(es, vars, at);
    case AssignExp(_, e1) => ScopesFit(e1, vars, at);
    case IfExp(c, t, f) =>
      ScopesNamed(c, vars);
      ScopesNamed(t, vars);
      ScopesNamed(f, vars);
      NamedBoth(Scopes(c, vars), DecsIn(c), Scopes(t, vars), DecsIn(t));
      SubmapParts(Scopes(c, vars) + Scopes(t, vars), DecsIn(c) + DecsIn(t), Scopes(f, vars), DecsIn(f), at);
      ScopesFitTwo(c, vars, t, vars, at);
      ScopesFit(c, vars, at);
      ScopesFit(t, vars, at);
      ScopesFit(f, vars, at);
    case WhileExp(c, body) => ScopesFitTwo(c, vars, body, vars, at); ScopesFit(c, vars, at); ScopesFit(body, vars, at);
    case ForExp(i, lo, hi, body) =>
      ScopesNamed(lo, vars);
      ScopesNamed(hi, vars);
      ScopesNamed(body, vars + {i});
      NamedBoth(Scopes(lo, vars), DecsIn(lo), Scopes(hi, vars), DecsIn(hi));
      SubmapParts(Scopes(lo, vars) + Scopes(hi, vars), DecsIn(lo) + DecsIn(hi), Scopes(body, vars + {i}), DecsIn(body), at);
      ScopesFitTwo(lo, vars, hi, vars, at);
      ScopesFit(lo, vars, at);
      ScopesFit(hi, vars, at);
      ScopesFit(body, vars + {i}, at);
    case CallExp(_, args) => AllScopesFit(args, vars, at);
    case LetVar(x, init, body) =>
      ScopesFitTwo(init, vars, body, vars + {x}, at);
      ScopesFit(init, vars, at);
      ScopesFit(body, vars + {x}, at);
    case LetFuns(ds, body) =>
      FunsScopesNamed(ds, vars);
      ScopesNamed(body, vars);
      SubmapParts(ScopesOf(ds, vars), DecsOf(ds), Scopes(body, vars), DecsIn(body), at);
      FunsScopesFit(ds, vars, at);
      ScopesFit(body, vars, at);
    case _ =>
  }

  lemma ScopesFitTwo(a: Exp, vars: set<Sym>, b: Exp, vars2: set<Sym>, at: map<Sym, set<Sym>>)
    requires Distinct(DecsIn(a) + DecsIn(b)) && Submap(Scopes(a, vars) + Scopes(b, vars2), at)
    ensures Distinct(DecsIn(a)) && Submap(Scopes(a, vars), at) && Distinct(DecsIn(b)) && Submap(Scopes(b, vars2), at)
  {
    ScopesNamed(a, vars);
    ScopesNamed(b, vars2);
    SubmapParts(Scopes(a, vars), DecsIn(a), Scopes(b, vars2), DecsIn(b), at);
  }

  lemma {:induction false} AllScopesFit(es: Exps, vars: set<Sym>, at: map<Sym, set<Sym>>)
    requires Distinct(DecsInAll(es)) && Submap(ScopesAll(es, vars), at)
    ensures AtOkAll(es, vars, at)
  {
    if es.Cons? {
      ScopesNamed(es.head, vars);
      AllScopesNamed(es.tail, vars);
      SubmapParts(Scopes(es.head, vars), DecsIn(es.head), ScopesAll(es.tail, vars), DecsInAll(es.tail), at);
      ScopesFit(es.head, vars, at);
      AllScopesFit(es.tail, vars, at);
    }
  }

  lemma {:induction false} FunsScopesFit(ds: Funs, vars: set<Sym>, at: map<Sym, set<Sym>>)
    requires Distinct(DecsOf(ds)) && Submap(ScopesOf(ds, vars), at)
    ensures AtOkFuns(ds, vars, at)
  {
    if ds.FunCons? {
      var d := ds.first;
      var own := map[d.name := vars];
      if d.Function? { ScopesNamed(d.body, vars + Names(d.formals)); }
      FunsScopesNamed(ds.rest, vars);
      assert KeysNamed(own, [d]) by { assert d in [d]; }
      NamedBoth(own, [d], BodyScopes(d, vars), BodyDecs(d));
      SubmapParts(own + BodyScopes(d, vars), [d] + BodyDecs(d), ScopesOf(ds.rest, vars), DecsOf(ds.rest), at);
      SubmapParts(own, [d], BodyScopes(d, vars), BodyDecs(d), at);
      assert d.name in own && own[d.name] == vars;
      if d.Function? { ScopesFit(d.body, vars + Names(d.formals), at); }
      FunsScopesFit(ds.rest, vars, at);
    }
  }

  // ----- what the marks say -----

  /** Sites are the declaring functions, uses elsewhere are flagged, and `own` has the flagged
      variables their own function uses. */
  ghost predicate Fact(m: Marks, own: set<Sym>, v: Visit) {
    match v
    case Declares(x, f) => x in m.site && m.site[x] == f
    case Reads(x, f) => x in m.site && if m.site[x] == f then (x in m.flagged ==> x in own) else x in m.flagged
    case Calls(_, _) => true
  }

  ghost predicate Facts(m: Marks, own: set<Sym>, vs: seq<Visit>) { forall v :: v in vs ==> Fact(m, own, v) }

  lemma FactsBoth(m: Marks, own: set<Sym>, a: seq<Visit>, b: seq<Visit>)
    requires Facts(m, own, a + b)
    ensures Facts(m, own, a) && Facts(m, own, b)
  {
    hide Fact;
    forall v | v in a ensures Fact(m, own, v) { assert v in a + b; }
    forall v | v in b ensures Fact(m, own, v) { assert v in a + b; }
  }

  /** A point of function `fn` where `vars` and `funs` are in scope.  A visible variable is declared
      by `fn` or was in scope where `fn` was declared; what was in scope where a visible function
      was declared is in scope here. */
  ghost predicate Placed(sc: Scope, fn: Sym, m: Marks, at: map<Sym, set<Sym>>) {
    && fn in at
    && (forall x :: x in sc.vars ==> x in m.site && (m.site[x] == fn || x in at[fn]))
    && (forall f :: f in sc.funs ==> f in at && at[f] <= sc.vars.Keys)
  }

  lemma PlacedVar(sc: Scope, x: Sym, ro: bool, fn: Sym, m: Marks, at: map<Sym, set<Sym>>)
    requires Placed(sc, fn, m, at) && x in m.site && m.site[x] == fn
    ensures Placed(sc.Var(x, ro), fn, m, at) && sc.Var(x, ro).vars.Keys == sc.vars.Keys + {x}
  {}

  lemma {:induction false} ChunkAt(ds: Funs, vars: set<Sym>, at: map<Sym, set<Sym>>)
    requires AtOkFuns(ds, vars, at)
    ensures forall f :: f in Sigs(ds) ==> f in at && at[f] == vars
  {
    if ds.FunCons? { ChunkAt(ds.rest, vars, at); }
  }

  lemma PlacedChunk(sc: Scope, ds: Funs, fn: Sym, m: Marks, at: map<Sym, set<Sym>>)
    requires Placed(sc, fn, m, at) && AtOkFuns(ds, sc.vars.Keys, at)
    ensures Placed(sc.Chunk(ds), fn, m, at)
  {
    ChunkAt(ds, sc.vars.Keys, at);
  }

  lemma {:induction false} PlacedFormals(sc: Scope, xs: seq<Sym>, fn: Sym, m: Marks, at: map<Sym, set<Sym>>)
    requires Placed(sc, fn, m, at) && forall x :: x in xs ==> x in m.site && m.site[x] == fn
    ensures Placed(sc.Formals(xs), fn, m, at) && sc.Formals(xs).vars.Keys == sc.vars.Keys + Names(xs)
    decreases |xs|
  {
    if xs != [] {
      PlacedVar(sc, xs[0], false, fn, m, at);
      PlacedFormals(sc.Var(xs[0], false), xs[1..], fn, m, at);
      assert Names(xs) == {xs[0]} + Names(xs[1..]) by { assert xs == [xs[0]] + xs[1..]; }
    }
  }

  /** The body of a function of a chunk in scope. */
  lemma PlacedBody(sc: Scope, ds: Funs, d: FunDec, fn: Sym, own: set<Sym>, m: Marks, at: map<Sym, set<Sym>>)
    requires Placed(sc.Chunk(ds), fn, m, at) && d.name in at && at[d.name] == sc.vars.Keys
    requires d.Function? && Facts(m, own, VisitsDec(d))
    ensures Placed(sc.Chunk(ds).Formals(d.formals), d.name, m, at) && Facts(m, own, Visits(d.body, d.name))
    ensures sc.Chunk(ds).Formals(d.formals).vars.Keys == sc.vars.Keys + Names(d.formals)
    ensures forall x :: x in d.formals ==> x in m.site && m.site[x] == d.name
  {
    var vs := VisitsFormals(d.formals, d.name);
    FactsBoth(m, own, vs, Visits(d.body, d.name));
    forall x | x in d.formals ensures x in m.site && m.site[x] == d.name {
      var i :| 0 <= i < |d.formals| && d.formals[i] == x;
      assert Fact(m, own, vs[i]);
    }
    PlacedFormals(sc.Chunk(ds), d.formals, d.name, m, at);
  }

  // ----- a bound on the least map -----

  /** Every function gets the variables in scope at its declaration and those of `own`. */
  ghost function Bound(at: map<Sym, set<Sym>>, own: set<Sym>): Needs {
    (set f, x | f in at && x in own :: Need(f, x)) + (set f, x | f in at && x in at[f] :: Need(f, x))
  }

  lemma AbsorbsBoth(m: Marks, c: Needs, a: seq<Visit>, b: seq<Visit>)
    ensures Absorbs(m, c, a + b) <==> Absorbs(m, c, a) && Absorbs(m, c, b)
  {
    DirectBoth(m, a, b);
    ClosedBoth(m, c, a, b);
  }

  lemma AbsorbsRead(m: Marks, x: Sym, fn: Sym, sc: Scope, at: map<Sym, set<Sym>>, own: set<Sym>)
    requires Placed(sc, fn, m, at) && x in sc.vars && Facts(m, own, [Reads(x, fn)])
    ensures Absorbs(m, Bound(at, own), [Reads(x, fn)])
  {
    assert Reads(x, fn) in [Reads(x, fn)];
    assert Fact(m, own, Reads(x, fn));
  }

  lemma AbsorbsCall(m: Marks, f: Sym, fn: Sym, sc: Scope, at: map<Sym, set<Sym>>, own: set<Sym>)
    requires Placed(sc, fn, m, at) && f in sc.funs
    ensures Absorbs(m, Bound(at, own), [Calls(fn, f)])
  {}

  lemma AbsorbsDeclares(m: Marks, x: Sym, fn: Sym, c: Needs)
    ensures Absorbs(m, c, [Declares(x, fn)])
  {}

  lemma AbsorbsFormals(m: Marks, xs: seq<Sym>, fn: Sym, c: Needs)
    ensures Absorbs(m, c, VisitsFormals(xs, fn))
  {}

  /** The bound is closed and holds all direct uses. */
  lemma {:induction false} BoundAbsorbs(e: Exp, sc: Scope, inLoop: bool, fn: Sym, m: Marks, at: map<Sym, set<Sym>>, own: set<Sym>)
    requires TypeOf(e, sc, inLoop).Some? && AtOk(e, sc.vars.Keys, at) && Placed(sc, fn, m, at) && Facts(m, own, Visits(e, fn))
    ensures Absorbs(m, Bound(at, own), Visits(e, fn))
    decreases e
  {
    hide Absorbs, Facts, Placed, Bound;
    match e
    case IntExp(_) => AbsorbsNone(m, Bound(at, own));
    case VarExp(x) => AbsorbsRead(m, x, fn, sc, at, own);
    case OpExp(l, _, r) =>
      FactsBoth(m, own, Visits(l, fn), Visits(r, fn));
      AbsorbsBoth(m, Bound(at, own), Visits(l, fn), Visits(r, fn));
      BoundAbsorbs(l, sc, inLoop, fn, m, at, own);
      BoundAbsorbs(r, sc, inLoop, fn, m, at, own);
    case SeqExp(es) =>
      Evaluation.TypedParts(es, sc, inLoop);
      BoundAbsorbsAll(es, sc, inLoop, fn, m, at, own);
    case AssignExp(x, e1) =>
      FactsBoth(m, own, [Reads(x, fn)], Visits(e1, fn));
      AbsorbsBoth(m, Bound(at, own), [Reads(x, fn)], Visits(e1, fn));
      AbsorbsRead(m, x, fn, sc, at, own);
      BoundAbsorbs(e1, sc, inLoop, fn, m, at, own);
    case IfExp(c, t, f) =>
      var vt := Visits(t, fn) + Visits(f, fn);
      FactsBoth(m, own, Visits(c, fn), vt);
      FactsBoth(m, own, Visits(t, fn), Visits(f, fn));
      AbsorbsBoth(m, Bound(at, own), Visits(c, fn), vt);
      AbsorbsBoth(m, Bound(at, own), Visits(t, fn), Visits(f, fn));
      BoundAbsorbs(c, sc, inLoop, fn, m, at, own);
      BoundAbsorbs(t, sc, inLoop, fn, m, at, own);
      BoundAbsorbs(f, sc, inLoop, fn, m, at, own);
    case WhileExp(c, body) =>
      FactsBoth(m, own, Visits(c, fn), Visits(body, fn));
      AbsorbsBoth(m, Bound(at, own), Visits(c, fn), Visits(body, fn));
      BoundAbsorbs(c, sc, inLoop, fn, m, at, own);
      BoundAbsorbs(body, sc, true, fn, m, at, own);
    case ForExp(i, lo, hi, body) => BoundAbsorbsFor(i, lo, hi, body, sc, inLoop, fn, m, at, own);
    case BreakExp => AbsorbsNone(m, Bound(at, own));
    case CallExp(f, args) =>
      Evaluation.TypedParts(args, sc, inLoop);
      FactsBoth(m, own, VisitsAll(args, fn), [Calls(fn, f)]);
      AbsorbsBoth(m, Bound(at, own), VisitsAll(args, fn), [Calls(fn, f)]);
      BoundAbsorbsAll(args, sc, inLoop, fn, m, at, own);
      AbsorbsCall(m, f, fn, sc, at, own);
    case LetVar(x, init, body) => BoundAbsorbsLet(x, init, body, sc, inLoop, fn, m, at, own);
    case LetFuns(ds, body) =>
      FactsBoth(m, own, VisitsOf(ds), Visits(body, fn));
      AbsorbsBoth(m, Bound(at, own), VisitsOf(ds), Visits(body, fn));
      PlacedChunk(sc, ds, fn, m, at);
      BoundAbsorbsFuns(ds, ds, sc, fn, m, at, own);
      BoundAbsorbs(body, sc.Chunk(ds), inLoop, fn, m, at, own);
  }

  lemma AbsorbsNone(m: Marks, c: Needs)
    ensures Absorbs(m, c, [])
  {}

  lemma DeclaredHere(m: Marks, own: set<Sym>, x: Sym, fn: Sym)
    requires Facts(m, own, [Declares(x, fn)])
    ensures x in m.site && m.site[x] == fn
  {
    assert Declares(x, fn) in [Declares(x, fn)];
    assert Fact(m, own, Declares(x, fn));
  }

  lemma {:induction false} BoundAbsorbsFor(i: Sym, lo: Exp, hi: Exp, body: Exp, sc: Scope, inLoop: bool, fn: Sym, m: Marks,
                                           at: map<Sym, set<Sym>>, own: set<Sym>)
    requires TypeOf(ForExp(i, lo, hi, body), sc, inLoop).Some? && AtOk(ForExp(i, lo, hi, body), sc.vars.Keys, at)
    requires Placed(sc, fn, m, at) && Facts(m, own, Visits(ForExp(i, lo, hi, body), fn))
    ensures Absorbs(m, Bound(at, own), Visits(ForExp(i, lo, hi, body), fn))
    decreases ForExp(i, lo, hi, body), 0
  {
    hide Absorbs, Facts, Placed, Bound;
    var vb := Visits(hi, fn) + Visits(body, fn);
    FactsBoth(m, own, [Declares(i, fn)], Visits(lo, fn) + vb);
    FactsBoth(m, own, Visits(lo, fn), vb);
    FactsBoth(m, own, Visits(hi, fn), Visits(body, fn));
    DeclaredHere(m, own, i, fn);
    PlacedVar(sc, i, true, fn, m, at);
    AbsorbsDeclares(m, i, fn, Bound(at, own));
    AbsorbsNone(m, Bound(at, own));
    BoundAbsorbs(hi, sc, inLoop, fn, m, at, own);
    BoundAbsorbs(body, sc.Var(i, true), true, fn, m, at, own);
    AbsorbsBoth(m, Bound(at, own), Visits(hi, fn), Visits(body, fn));
    AbsorbsBoth(m, Bound(at, own), Visits(lo, fn), vb);
    AbsorbsBoth(m, Bound(at, own), [Declares(i, fn)], Visits(lo, fn) + vb);
  }

  lemma {:induction false} BoundAbsorbsLet(x: Sym, init: Exp, body: Exp, sc: Scope, inLoop: bool, fn: Sym, m: Marks,
                                           at: map<Sym, set<Sym>>, own: set<Sym>)
    requires TypeOf(LetVar(x, init, body), sc, inLoop).Some? && AtOk(LetVar(x, init, body), sc.vars.Keys, at)
    requires Placed(sc, fn, m, at) && Facts(m, own, Visits(LetVar(x, init, body), fn))
    ensures Absorbs(m, Bound(at, own), Visits(LetVar(x, init, body), fn))
    decreases LetVar(x, init, body), 0
  {
    hide Absorbs, Facts, Placed, Bound;
    var vb := Visits(init, fn) + Visits(body, fn);
    FactsBoth(m, own, [Declares(x, fn)], vb);
    FactsBoth(m, own, Visits(init, fn), Visits(body, fn));
    DeclaredHere(m, own, x, fn);
    PlacedVar(sc, x, false, fn, m, at);
    AbsorbsDeclares(m, x, fn, Bound(at, own));
    BoundAbsorbs(init, sc, inLoop, fn, m, at, own);
    BoundAbsorbs(body, sc.Var(x, false), inLoop, fn, m, at, own);
    AbsorbsBoth(m, Bound(at, own), Visits(init, fn), Visits(body, fn));
    AbsorbsBoth(m, Bound(at, own), [Declares(x, fn)], vb);
  }

  lemma {:induction false} BoundAbsorbsAll(es: Exps, sc: Scope, inLoop: bool, fn: Sym, m: Marks, at: map<Sym, set<Sym>>, own: set<Sym>)
    requires Evaluation.SeqTyped(es, sc, inLoop) && AtOkAll(es, sc.vars.Keys, at) && Placed(sc, fn, m, at)
    requires Facts(m, own, VisitsAll(es, fn))
    ensures Absorbs(m, Bound(at, own), VisitsAll(es, fn))
  {
    hide Absorbs, Facts, Placed, Bound;
    if es == NoExp {
      AbsorbsNone(m, Bound(at, own));
    } else {
      FactsBoth(m, own, Visits(es.head, fn), VisitsAll(es.tail, fn));
      AbsorbsBoth(m, Bound(at, own), Visits(es.head, fn), VisitsAll(es.tail, fn));
      BoundAbsorbs(es.head, sc, inLoop, fn, m, at, own);
      BoundAbsorbsAll(es.tail, sc, inLoop, fn, m, at, own);
    }
  }

  /** The declarations `ds` of the chunk `all`. */
  lemma {:induction false} BoundAbsorbsFuns(ds: Funs, all: Funs, sc: Scope, fn: Sym, m: Marks, at: map<Sym, set<Sym>>, own: set<Sym>)
    requires ChunkOk(ds, sc.Chunk(all)) && AtOkFuns(ds, sc.vars.Keys, at) && Placed(sc.Chunk(all), fn, m, at)
    requires Facts(m, own, VisitsOf(ds))
    ensures Absorbs(m, Bound(at, own), VisitsOf(ds))
  {
    hide Absorbs, Facts, Placed, Bound;
    if ds == NoFun {
      AbsorbsNone(m, Bound(at, own));
    } else {
      var d := ds.first;
      FactsBoth(m, own, VisitsDec(d), VisitsOf(ds.rest));
      AbsorbsBoth(m, Bound(at, own), VisitsDec(d), VisitsOf(ds.rest));
      AbsorbsFormals(m, d.formals, d.name, Bound(at, own));
      if d.Function? {
        PlacedBody(sc, all, d, fn, own, m, at);
        BoundAbsorbs(d.body, sc.Chunk(all).Formals(d.formals), false, d.name, m, at, own);
        AbsorbsBoth(m, Bound(at, own), VisitsFormals(d.formals, d.name), Visits(d.body, d.name));
      }
      BoundAbsorbsFuns(ds.rest, all, sc, fn, m, at, own);
    }
  }

  // ----- a closed map within the bound makes every pointer available -----

  /** The table passes to each function exactly what `c` says. */
  ghost predicate Hands(cx: Context, c: Needs) { forall f, x :: x in cx.Of(f).lifted ==> Need(f, x) in c }

  ghost predicate Given(cx: Context, c: Needs, d: FunDec) {
    d.Function? ==> forall n :: n in c && n.fn == d.name ==> n.x in cx.Of(d.name).lifted
  }

  ghost predicate AllGiven(cx: Context, c: Needs, ds: seq<FunDec>) { forall d :: d in ds ==> Given(cx, c, d) }

  lemma GivenBoth(cx: Context, c: Needs, a: seq<FunDec>, b: seq<FunDec>)
    requires AllGiven(cx, c, a + b)
    ensures AllGiven(cx, c, a) && AllGiven(cx, c, b)
  {
    hide Given;
    forall d | d in a ensures Given(cx, c, d) { assert d in a + b; }
    forall d | d in b ensures Given(cx, c, d) { assert d in a + b; }
  }

  /** What the analysis has established about the whole program. */
  ghost predicate Solved(m: Marks, at: map<Sym, set<Sym>>, own: set<Sym>, c: Needs, cx: Context) {
    && c <= Bound(at, own) && Hands(cx, c)
    && (forall x :: x in own ==> x in m.site && Need(m.site[x], x) in c)
  }

  /** The function has pointers to what it is passed and to its own visible variables. */
  ghost predicate Equipped(sc: Scope, fn: Sym, need: set<Sym>, m: Marks, c: Needs) {
    && (forall n :: n in c && n.fn == fn ==> n.x in need)
    && (forall x :: x in sc.vars && x in m.site && m.site[x] == fn ==> x in need)
  }

  lemma EquippedRead(x: Sym, sc: Scope, fn: Sym, need: set<Sym>, m: Marks, at: map<Sym, set<Sym>>, own: set<Sym>, c: Needs)
    requires Placed(sc, fn, m, at) && Equipped(sc, fn, need, m, c) && x in sc.vars
    requires Facts(m, own, [Reads(x, fn)]) && Absorbs(m, c, [Reads(x, fn)])
    ensures x in need
  {
    assert Reads(x, fn) in [Reads(x, fn)];
    assert Fact(m, own, Reads(x, fn));
    if m.site[x] != fn { assert Need(fn, x) in Direct(m, [Reads(x, fn)]); }
  }

  /** The caller holds every variable the callee is passed: its own visible ones, its own that it
      uses itself, or ones passed to it. */
  lemma EquippedCall(f: Sym, sc: Scope, fn: Sym, need: set<Sym>, m: Marks, at: map<Sym, set<Sym>>, own: set<Sym>, c: Needs, cx: Context)
    requires Placed(sc, fn, m, at) && Equipped(sc, fn, need, m, c) && f in sc.funs
    requires Solved(m, at, own, c, cx) && Absorbs(m, c, [Calls(fn, f)])
    ensures Names(cx.Of(f).lifted) <= need
  {
    forall x | x in cx.Of(f).lifted ensures x in need {
      assert Need(f, x) in c;
      if x in m.site && m.site[x] == fn {
        assert Need(f, x) in Bound(at, own);
      } else {
        assert Calls(fn, f) in [Calls(fn, f)];
        assert Need(fn, x) in Handed(m, c, fn, f);
      }
    }
  }

  lemma EquippedVar(sc: Scope, x: Sym, ro: bool, fn: Sym, need: set<Sym>, m: Marks, c: Needs)
    requires Equipped(sc, fn, need, m, c)
    ensures Equipped(sc.Var(x, ro), fn, need + {x}, m, c)
  {}

  lemma EquippedBody(sc: Scope, ds: Funs, d: FunDec, m: Marks, at: map<Sym, set<Sym>>, c: Needs, cx: Context)
    requires d.Function? && Given(cx, c, d) && d.name in at && at[d.name] == sc.vars.Keys
    requires sc.Chunk(ds).Formals(d.formals).vars.Keys == sc.vars.Keys + Names(d.formals)
    requires forall x :: x in sc.vars && x in m.site ==> m.site[x] != d.name
    ensures Equipped(sc.Chunk(ds).Formals(d.formals), d.name, Names(cx.Of(d.name).lifted) + Names(d.formals), m, c)
  {}

  /** No function inside `e` has the name of an enclosing one. */
  predicate Apart(e: Exp, outer: set<Sym>) {
    match e
    case IntExp(_) => true
    case VarExp(_) => true
    case OpExp(l, _, r) => Apart(l, outer) && Apart(r, outer)
    case SeqExp(es) => ApartAll(es, outer)
    case AssignExp(_, e1) => Apart(e1, outer)
    case IfExp(c, t, f) => Apart(c, outer) && Apart(t, outer) && Apart(f, outer)
    case WhileExp(c, body) => Apart(c, outer) && Apart(body, outer)
    case ForExp(_, lo, hi, body) => Apart(lo, outer) && Apart(hi, outer) && Apart(body, outer)
    case BreakExp => true
    case CallExp(_, args) => ApartAll(args, outer)
    case LetVar(_, init, body) => Apart(init, outer) && Apart(body, outer)
    case LetFuns(ds, body) => ApartFuns(ds, outer) && Apart(body, outer)
  }

  predicate ApartAll(es: Exps, outer: set<Sym>) {
    match es
    case NoExp => true
    case Cons(e, rest) => Apart(e, outer) && ApartAll(rest, outer)
  }

  predicate ApartFuns(ds: Funs, outer: set<Sym>) {
    match ds
    case NoFun => true
    case FunCons(d, rest) => d.name !in outer && (d.Function? ==> Apart(d.body, outer + {d.name})) && ApartFuns(rest, outer)
  }

  ghost predicate NewNames(ds: seq<FunDec>, outer: set<Sym>) { Distinct(ds) && forall d :: d in ds ==> d.name !in outer }

  lemma NewNamesParts(a: seq<FunDec>, b: seq<FunDec>, outer: set<Sym>)
    requires NewNames(a + b, outer)
    ensures NewNames(a, outer) && NewNames(b, outer)
    ensures forall d, e :: d in a && e in b ==> d.name != e.name
  {
    var z := a + b;
    forall i, j | 0 <= i < j < |a| ensures a[i].name != a[j].name { assert z[i] == a[i] && z[j] == a[j]; }
    forall i, j | 0 <= i < j < |b| ensures b[i].name != b[j].name { assert z[|a| + i] == b[i] && z[|a| + j] == b[j]; }
    forall d | d in a ensures d.name !in outer { assert d in z; }
    forall d | d in b ensures d.name !in outer { assert d in z; }
    forall d, e | d in a && e in b ensures d.name != e.name {
      var i :| 0 <= i < |a| && a[i] == d;
      var j :| 0 <= j < |b| && b[j] == e;
      assert z[i].name != z[|a| + j].name;
    }
  }

  lemma {:induction false} DistinctApart(e: Exp, outer: set<Sym>)
    requires NewNames(DecsIn(e), outer)
    ensures Apart(e, outer)
  {
    hide NewNames;
    match e
    case OpExp(l, _, r) =>
      NewNamesParts(DecsIn(l), DecsIn(r), outer);
      DistinctApart(l, outer);
      DistinctApart(r, outer);
    case SeqExp(es) => AllDistinctApart(es, outer);
    case AssignExp(_, e1) => DistinctApart(e1, outer);
    case IfExp(c, t, f) =>
      NewNamesParts(DecsIn(c) + DecsIn(t), DecsIn(f), outer);
      NewNamesParts(DecsIn(c), DecsIn(t), outer);
      DistinctApart(c, outer);
      DistinctApart(t, outer);
      DistinctApart(f, outer);
    case WhileExp(c, body) =>
      NewNamesParts(DecsIn(c), DecsIn(body), outer);
      DistinctApart(c, outer);
      DistinctApart(body, outer);
    case ForExp(_, lo, hi, body) =>
      NewNamesParts(DecsIn(lo) + DecsIn(hi), DecsIn(body), outer);
      NewNamesParts(DecsIn(lo), DecsIn(hi), outer);
      DistinctApart(lo, outer);
      DistinctApart(hi, outer);
      DistinctApart(body, outer);
    case CallExp(_, args) => AllDistinctApart(args, outer);
    case LetVar(_, init, body) =>
      NewNamesParts(DecsIn(init), DecsIn(body), outer);
      DistinctApart(init, outer);
      DistinctApart(body, outer);
    case LetFuns(ds, body) =>
      NewNamesParts(DecsOf(ds), DecsIn(body), outer);
      FunsDistinctApart(ds, outer);
      DistinctApart(body, outer);
    case _ =>
  }

  lemma {:induction false} AllDistinctApart(es: Exps, outer: set<Sym>)
    requires NewNames(DecsInAll(es), outer)
    ensures ApartAll(es, outer)
  {
    if es.Cons? {
      NewNamesParts(DecsIn(es.head), DecsInAll(es.tail), outer);
      DistinctApart(es.head, outer);
      AllDistinctApart(es.tail, outer);
    }
  }

  lemma {:induction false} FunsDistinctApart(ds: Funs, outer: set<Sym>)
    requires NewNames(DecsOf(ds), outer)
    ensures ApartFuns(ds, outer)
  {
    if ds.FunCons? {
      var d := ds.first;
      NewNamesParts([d] + BodyDecs(d), DecsOf(ds.rest), outer);
      NewNamesParts([d], BodyDecs(d), outer);
      assert d in [d];
      if d.Function? { DistinctApart(d.body, outer + {d.name}); }
      FunsDistinctApart(ds.rest, outer);
    }
  }

  /** The analysis of a program. */
  datatype Analysis = Analysis(m: Marks, at: map<Sym, set<Sym>>, own: set<Sym>, c: Needs, cx: Context)

  /** What holds where an expression of function `fn` stands. */
  ghost predicate Stands(sc: Scope, fn: Sym, outer: set<Sym>, need: set<Sym>, a: Analysis) {
    && Placed(sc, fn, a.m, a.at) && Equipped(sc, fn, need, a.m, a.c) && Solved(a.m, a.at, a.own, a.c, a.cx)
    && fn in outer && (forall x :: x in sc.vars && x in a.m.site ==> a.m.site[x] in outer)
  }

  /** What holds of the visits and declarations of an expression. */
  ghost predicate Analysed(vs: seq<Visit>, ds: seq<FunDec>, a: Analysis) {
    Facts(a.m, a.own, vs) && Absorbs(a.m, a.c, vs) && AllGiven(a.cx, a.c, ds)
  }

  lemma AnalysedParts(vs: seq<Visit>, ds: seq<FunDec>, ws: seq<Visit>, es: seq<FunDec>, a: Analysis)
    requires Analysed(vs + ws, ds + es, a)
    ensures Analysed(vs, ds, a) && Analysed(ws, es, a)
  {
    FactsBoth(a.m, a.own, vs, ws);
    AbsorbsBoth(a.m, a.c, vs, ws);
    GivenBoth(a.cx, a.c, ds, es);
  }

  lemma StandsVar(sc: Scope, x: Sym, ro: bool, fn: Sym, outer: set<Sym>, need: set<Sym>, a: Analysis)
    requires Stands(sc, fn, outer, need, a) && Facts(a.m, a.own, [Declares(x, fn)])
    ensures Stands(sc.Var(x, ro), fn, outer, need + {x}, a) && sc.Var(x, ro).vars.Keys == sc.vars.Keys + {x}
  {
    DeclaredHere(a.m, a.own, x, fn);
    PlacedVar(sc, x, ro, fn, a.m, a.at);
    EquippedVar(sc, x, ro, fn, need, a.m, a.c);
  }

  lemma StandsChunk(sc: Scope, ds: Funs, fn: Sym, outer: set<Sym>, need: set<Sym>, a: Analysis)
    requires Stands(sc, fn, outer, need, a) && AtOkFuns(ds, sc.vars.Keys, a.at)
    ensures Stands(sc.Chunk(ds), fn, outer, need, a)
  {
    PlacedChunk(sc, ds, fn, a.m, a.at);
  }

  lemma StandsBody(sc: Scope, ds: Funs, d: FunDec, fn: Sym, outer: set<Sym>, need: set<Sym>, a: Analysis)
    requires Stands(sc.Chunk(ds), fn, outer, need, a) && d.name in a.at && a.at[d.name] == sc.vars.Keys && d.Function?
    requires Facts(a.m, a.own, VisitsDec(d)) && Given(a.cx, a.c, d) && d.name !in outer
    ensures Stands(sc.Chunk(ds).Formals(d.formals), d.name, outer + {d.name}, Names(a.cx.Of(d.name).lifted) + Names(d.formals), a)
    ensures sc.Chunk(ds).Formals(d.formals).vars.Keys == sc.vars.Keys + Names(d.formals)
  {
    PlacedBody(sc, ds, d, fn, a.own, a.m, a.at);
    EquippedBody(sc, ds, d, a.m, a.at, a.c, a.cx);
  }

  /** Lambda lifting is closed: in every function, the variables used and the variables passed on
      are among those passed in and those declared there. */
  lemma {:induction false} LiftedClosed(e: Exp, sc: Scope, inLoop: bool, fn: Sym, outer: set<Sym>, need: set<Sym>, a: Analysis)
    requires TypeOf(e, sc, inLoop).Some? && AtOk(e, sc.vars.Keys, a.at) && Apart(e, outer)
    requires Stands(sc, fn, outer, need, a) && Analysed(Visits(e, fn), DecsIn(e), a)
    ensures Closed(e, need, a.cx)
    decreases e
  {
    hide Analysed, Placed, Equipped, Solved, Stands;
    match e
    case IntExp(_) =>
    case VarExp(x) => ReadClosed(x, sc, fn, outer, need, a);
    case OpExp(l, _, r) =>
      AnalysedParts(Visits(l, fn), DecsIn(l), Visits(r, fn), DecsIn(r), a);
      LiftedClosed(l, sc, inLoop, fn, outer, need, a);
      LiftedClosed(r, sc, inLoop, fn, outer, need, a);
    case SeqExp(es) =>
      Evaluation.TypedParts(es, sc, inLoop);
      AllLiftedClosed(es, sc, inLoop, fn, outer, need, a);
    case AssignExp(x, e1) =>
      assert [] + DecsIn(e1) == DecsIn(e1);
      AnalysedParts([Reads(x, fn)], [], Visits(e1, fn), DecsIn(e1), a);
      ReadClosed(x, sc, fn, outer, need, a);
      LiftedClosed(e1, sc, inLoop, fn, outer, need, a);
    case IfExp(c, t, f) =>
      assert DecsIn(c) + DecsIn(t) + DecsIn(f) == DecsIn(c) + (DecsIn(t) + DecsIn(f));
      AnalysedParts(Visits(c, fn), DecsIn(c), Visits(t, fn) + Visits(f, fn), DecsIn(t) + DecsIn(f), a);
      AnalysedParts(Visits(t, fn), DecsIn(t), Visits(f, fn), DecsIn(f), a);
      LiftedClosed(c, sc, inLoop, fn, outer, need, a);
      LiftedClosed(t, sc, inLoop, fn, outer, need, a);
      LiftedClosed(f, sc, inLoop, fn, outer, need, a);
    case WhileExp(c, body) =>
      AnalysedParts(Visits(c, fn), DecsIn(c), Visits(body, fn), DecsIn(body), a);
      LiftedClosed(c, sc, inLoop, fn, outer, need, a);
      LiftedClosed(body, sc, true, fn, outer, need, a);
    case ForExp(i, lo, hi, body) => ForLiftedClosed(i, lo, hi, body, sc, inLoop, fn, outer, need, a);
    case BreakExp =>
    case CallExp(f, args) =>
      Evaluation.TypedParts(args, sc, inLoop);
      assert DecsInAll(args) + [] == DecsInAll(args);
      AnalysedParts(VisitsAll(args, fn), DecsInAll(args), [Calls(fn, f)], [], a);
      CallClosed(f, sc, fn, outer, need, a);
      AllLiftedClosed(args, sc, inLoop, fn, outer, need, a);
    case LetVar(x, init, body) => LetLiftedClosed(x, init, body, sc, inLoop, fn, outer, need, a);
    case LetFuns(ds, body) =>
      AnalysedParts(VisitsOf(ds), DecsOf(ds), Visits(body, fn), DecsIn(body), a);
      StandsChunk(sc, ds, fn, outer, need, a);
      FunsLiftedClosed(ds, ds, sc, fn, outer, need, a);
      LiftedClosed(body, sc.Chunk(ds), inLoop, fn, outer, need, a);
  }

  lemma ReadClosed(x: Sym, sc: Scope, fn: Sym, outer: set<Sym>, need: set<Sym>, a: Analysis)
    requires Stands(sc, fn, outer, need, a) && Analysed([Reads(x, fn)], [], a) && x in sc.vars
    ensures x in need
  {
    EquippedRead(x, sc, fn, need, a.m, a.at, a.own, a.c);
  }

  lemma CallClosed(f: Sym, sc: Scope, fn: Sym, outer: set<Sym>, need: set<Sym>, a: Analysis)
    requires Stands(sc, fn, outer, need, a) && Analysed([Calls(fn, f)], [], a) && f in sc.funs
    ensures Names(a.cx.Of(f).lifted) <= need
  {
    EquippedCall(f, sc, fn, need, a.m, a.at, a.own, a.c, a.cx);
  }

  lemma {:induction false} ForLiftedClosed(i: Sym, lo: Exp, hi: Exp, body: Exp, sc: Scope, inLoop: bool, fn: Sym, outer: set<Sym>,
                                           need: set<Sym>, a: Analysis)
    requires TypeOf(ForExp(i, lo, hi, body), sc, inLoop).Some? && AtOk(ForExp(i, lo, hi, body), sc.vars.Keys, a.at)
    requires Apart(ForExp(i, lo, hi, body), outer) && Stands(sc, fn, outer, need, a)
    requires Analysed(Visits(ForExp(i, lo, hi, body), fn), DecsIn(ForExp(i, lo, hi, body)), a)
    ensures Closed(ForExp(i, lo, hi, body), need, a.cx)
    decreases ForExp(i, lo, hi, body), 0
  {
    hide Placed, Equipped, Solved, Stands;
    var vb, db := Visits(hi, fn) + Visits(body, fn), DecsIn(hi) + DecsIn(body);
    assert DecsIn(lo) + DecsIn(hi) + DecsIn(body) == [] + (DecsIn(lo) + db);
    AnalysedParts([Declares(i, fn)], [], Visits(lo, fn) + vb, DecsIn(lo) + db, a);
    AnalysedParts(Visits(lo, fn), DecsIn(lo), vb, db, a);
    AnalysedParts(Visits(hi, fn), DecsIn(hi), Visits(body, fn), DecsIn(body), a);
    StandsVar(sc, i, true, fn, outer, need, a);
    LiftedClosed(hi, sc, inLoop, fn, outer, need, a);
    LiftedClosed(body, sc.Var(i, true), true, fn, outer, need + {i}, a);
  }

  lemma {:induction false} LetLiftedClosed(x: Sym, init: Exp, body: Exp, sc: Scope, inLoop: bool, fn: Sym, outer: set<Sym>,
                                           need: set<Sym>, a: Analysis)
    requires TypeOf(LetVar(x, init, body), sc, inLoop).Some? && AtOk(LetVar(x, init, body), sc.vars.Keys, a.at)
    requires Apart(LetVar(x, init, body), outer) && Stands(sc, fn, outer, need, a)
    requires Analysed(Visits(LetVar(x, init, body), fn), DecsIn(LetVar(x, init, body)), a)
    ensures Closed(LetVar(x, init, body), need, a.cx)
    decreases LetVar(x, init, body), 0
  {
    hide Placed, Equipped;
    var vb, db := Visits(init, fn) + Visits(body, fn), DecsIn(init) + DecsIn(body);
    assert db == [] + db;
    AnalysedParts([Declares(x, fn)], [], vb, db, a);
    AnalysedParts(Visits(init, fn), DecsIn(init), Visits(body, fn), DecsIn(body), a);
    StandsVar(sc, x, false, fn, outer, need, a);
    LiftedClosed(init, sc, inLoop, fn, outer, need, a);
    LiftedClosed(body, sc.Var(x, false), inLoop, fn, outer, need + {x}, a);
  }

  lemma {:induction false} AllLiftedClosed(es: Exps, sc: Scope, inLoop: bool, fn: Sym, outer: set<Sym>, need: set<Sym>, a: Analysis)
    requires Evaluation.SeqTyped(es, sc, inLoop) && AtOkAll(es, sc.vars.Keys, a.at) && ApartAll(es, outer)
    requires Stands(sc, fn, outer, need, a) && Analysed(VisitsAll(es, fn), DecsInAll(es), a)
    ensures ClosedAll(es, need, a.cx)
    decreases es
  {
    hide Analysed, Stands;
    if es.Cons? {
      AnalysedParts(Visits(es.head, fn), DecsIn(es.head), VisitsAll(es.tail, fn), DecsInAll(es.tail), a);
      LiftedClosed(es.head, sc, inLoop, fn, outer, need, a);
      AllLiftedClosed(es.tail, sc, inLoop, fn, outer, need, a);
    }
  }

  lemma {:induction false} FunsLiftedClosed(ds: Funs, all: Funs, sc: Scope, fn: Sym, outer: set<Sym>, need: set<Sym>, a: Analysis)
    requires ChunkOk(ds, sc.Chunk(all)) && AtOkFuns(ds, sc.vars.Keys, a.at) && ApartFuns(ds, outer)
    requires Stands(sc.Chunk(all), fn, outer, need, a) && Analysed(VisitsOf(ds), DecsOf(ds), a)
    ensures ClosedFuns(ds, a.cx)
    decreases ds
  {
    if ds.FunCons? {
      hide Stands;
      var d := ds.first;
      AnalysedParts(VisitsDec(d), [d] + BodyDecs(d), VisitsOf(ds.rest), DecsOf(ds.rest), a);
      AnalysedParts([], [d], VisitsDec(d), BodyDecs(d), a) by { assert [] + VisitsDec(d) == VisitsDec(d); }
      assert d in [d];
      if d.Function? {
        StandsBody(sc, all, d, fn, outer, need, a);
        assert [] + DecsIn(d.body) == DecsIn(d.body);
        AnalysedParts(VisitsFormals(d.formals, d.name), [], Visits(d.body, d.name), DecsIn(d.body), a);
        LiftedClosed(d.body, sc.Chunk(all).Formals(d.formals), false, d.name, outer + {d.name},
                     Names(a.cx.Of(d.name).lifted) + Names(d.formals), a);
      }
      FunsLiftedClosed(ds.rest, all, sc, fn, outer, need, a);
    }
  }
}
