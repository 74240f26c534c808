/** What the binder complains of and what it binds a `break` to, told from the text (src/bind/binder.cc). */
module Scoping {
  import opened Tiger
  import opened Binder

  // ----- free names -----

  /** The variables used in `e` that are not declared around the use within `e`. */
  function FreeVars(e: Exp): set<Sym> {
    match e
    case IntExp(_) => {}
    case VarExp(x) => {x}
    case OpExp(l, _, r) => FreeVars(l) + FreeVars(r)
    case SeqExp(es) => FreeVarsAll(es)
    case AssignExp(x, e1) => {x} + FreeVars(e1)
    case IfExp(c, t, f) => FreeVars(c) + FreeVars(t) + FreeVars(f)
    case WhileExp(c, body) => FreeVars(c) + FreeVars(body)
    case ForExp(i, lo, hi, body) => FreeVars(lo) + FreeVars(hi) + (FreeVars(body) - {i})
    case BreakExp => {}
    case CallExp(_, args) => FreeVarsAll(args)
    case LetVar(x, init, body) => FreeVars(init) + (FreeVars(body) - {x})
    case LetFuns(ds, body) => FreeVarsIn(ds) + FreeVars(body)
  }

  function FreeVarsAll(es: Exps): set<Sym> {
    match es
    case NoExp => {}
    case Cons(e, rest) => FreeVars(e) + FreeVarsAll(rest)
  }

  function FreeVarsIn(ds: Funs): set<Sym> {
    match ds
    case NoFun => {}
    case FunCons(d, rest) => (if d.Function? then FreeVars(d.body) - (set x | x in d.formals) else {}) + FreeVarsIn(rest)
  }

  function Heads(ds: Funs): set<Sym> {
    match ds
    case NoFun => {}
    case FunCons(d, rest) => {d.name} + Heads(rest)
  }

  /** The functions called in `e` that no chunk around the call within `e` declares. */
  function FreeFuns(e: Exp): set<Sym> {
    match e
    case IntExp(_) => {}
    case VarExp(_) => {}
    case OpExp(l, _, r) => FreeFuns(l) + FreeFuns(r)
    case SeqExp(es) => FreeFunsAll(es)
    case AssignExp(_, e1) => FreeFuns(e1)
    case IfExp(c, t, f) => FreeFuns(c) + FreeFuns(t) + FreeFuns(f)
    case WhileExp(c, body) => FreeFuns(c) + FreeFuns(body)
    case ForExp(_, lo, hi, body) => FreeFuns(lo) + FreeFuns(hi) + FreeFuns(body)
    case BreakExp => {}
    case CallExp(f, args) => {f} + FreeFunsAll(args)
    case LetVar(_, init, body) => FreeFuns(init) + FreeFuns(body)
    case LetFuns(ds, body) => FreeFunsIn(ds) + FreeFuns(body) - Heads(ds)
  }

  function FreeFunsAll(es: Exps): set<Sym> {
    match es
    case NoExp => {}
    case Cons(e, rest) => FreeFuns(e) + FreeFunsAll(rest)
  }

  function FreeFunsIn(ds: Funs): set<Sym> {
    match ds
    case NoFun => {}
    case FunCons(d, rest) => (if d.Function? then FreeFuns(d.body) else {}) + FreeFunsIn(rest)
  }

  /** Some `break` of `e` stands in no loop of `e`; a function inside a loop is in the loop. */
  predicate LoneBreak(e: Exp) {
    match e
    case IntExp(_) => false
    case VarExp(_) => false
    case OpExp(l, _, r) => LoneBreak(l) || LoneBreak(r)
    case SeqExp(es) => LoneBreakAll(es)
    case AssignExp(_, e1) => LoneBreak(e1)
    case IfExp(c, t, f) => LoneBreak(c) || LoneBreak(t) || LoneBreak(f)
    case WhileExp(c, _) => LoneBreak(c)
    case ForExp(_, lo, hi, _) => LoneBreak(lo) || LoneBreak(hi)
    case BreakExp => true
    case CallExp(_, args) => LoneBreakAll(args)
    case LetVar(_, init, body) => LoneBreak(init) || LoneBreak(body)
    case LetFuns(ds, body) => LoneBreakIn(ds) || LoneBreak(body)
  }

  predicate LoneBreakAll(es: Exps) {
    match es
    case NoExp => false
    case Cons(e, rest) => LoneBreak(e) || LoneBreakAll(rest)
  }

  predicate LoneBreakIn(ds: Funs) {
    match ds
    case NoFun => false
    case FunCons(d, rest) => (d.Function? && LoneBreak(d.body)) || LoneBreakIn(rest)
  }

  // ----- complaints -----

  predicate Complains(m: Msg) { m.UndeclaredVar? || m.UndeclaredFun? || m.StrayBreak? }

  ghost predicate Quiet(p: Progress) { forall m :: m in p.log ==> !Complains(m) }

  ghost predicate Fits(free: set<Sym>, called: set<Sym>, lone: bool, sight: Sight, loops: seq<nat>) {
    free <= sight.vars.Keys && called <= sight.funs.Keys && (lone ==> loops != [])
  }

  lemma QuietMore(p: Progress, m: Msg)
    ensures Quiet(p.Log(m)) <==> Quiet(p) && !Complains(m)
    ensures Quiet(p.Node()) <==> Quiet(p)
    ensures Quiet(p.Chunk()) <==> Quiet(p)
  {
    assert m in p.Log(m).log;
  }

  /** A declaration is no complaint, and puts the name in sight. */
  lemma VarDeclared(x: Sym, sight: Sight, p: Progress)
    ensures var d := DeclareVar(x, sight, p);
      d.0.vars.Keys == sight.vars.Keys + {x} && d.0.funs == sight.funs && (Quiet(d.1) <==> Quiet(p))
  {
    QuietMore(p.Node(), RedefinedVar(x));
    QuietMore(p, RedefinedVar(x));
  }

  lemma {:induction false} FormalsDeclared(xs: seq<Sym>, sight: Sight, p: Progress)
    ensures var d := DeclareFormals(xs, sight, p);
      d.0.vars.Keys == sight.vars.Keys + (set x | x in xs) && d.0.funs == sight.funs && (Quiet(d.1) <==> Quiet(p))
    decreases |xs|
  {
    hide Quiet, DeclareVar;
    if xs != [] {
      var d := DeclareVar(xs[0], sight, p);
      VarDeclared(xs[0], sight, p);
      FormalsDeclared(xs[1..], d.0, d.1);
      assert xs == [xs[0]] + xs[1..];
    }
  }

  lemma {:induction false} HeadersDeclared(ds: Funs, sight: Sight, p: Progress)
    ensures var h := DeclareHeaders(ds, sight, p);
      h.0.funs.Keys == sight.funs.Keys + Heads(ds) && h.0.vars == sight.vars && (Quiet(h.1) <==> Quiet(p))
  {
    hide Quiet;
    if ds.FunCons? {
      var f := ds.first.name;
      QuietMore(p.Node(), RedefinedFun(f));
      QuietMore(p, RedefinedFun(f));
      var d := DeclareFun(f, sight, p);
      HeadersDeclared(ds.rest, d.0, d.1);
    }
  }

  /** The free names of a tree are in sight, and its lone breaks are in a loop. */
  ghost predicate Settles(e: Exp, sight: Sight, loops: seq<nat>) { Fits(FreeVars(e), FreeFuns(e), LoneBreak(e), sight, loops) }

  ghost predicate SettlesAll(es: Exps, sight: Sight, loops: seq<nat>) {
    Fits(FreeVarsAll(es), FreeFunsAll(es), LoneBreakAll(es), sight, loops)
  }

  ghost predicate SettlesIn(ds: Funs, sight: Sight, loops: seq<nat>) { Fits(FreeVarsIn(ds), FreeFunsIn(ds), LoneBreakIn(ds), sight, loops) }

  /** What the free names of a tree come to, part by part. */
  lemma Parts(e: Exp, sight: Sight, loops: seq<nat>)
    ensures Settles(e, sight, loops) <==> match e
      case IntExp(_) => true
      case VarExp(x) => x in sight.vars
      case OpExp(l, _, r) => Settles(l, sight, loops) && Settles(r, sight, loops)
      case SeqExp(es) => SettlesAll(es, sight, loops)
      case AssignExp(x, e1) => x in sight.vars && Settles(e1, sight, loops)
      case IfExp(c, t, f) => Settles(c, sight, loops) && Settles(t, sight, loops) && Settles(f, sight, loops)
      case BreakExp => loops != []
      case CallExp(f, args) => f in sight.funs && SettlesAll(args, sight, loops)
      case _ => Settles(e, sight, loops)
  {}

  lemma LoopParts(e: Exp, sight: Sight, loops: seq<nat>, n: nat)
    requires e.WhileExp?
    ensures Settles(e, sight, loops) <==> Settles(e.test, sight, loops) && Settles(e.body, sight, loops + [n])
  {}

  lemma ForParts(e: Exp, sight: Sight, inner: Sight, loops: seq<nat>, n: nat)
    requires e.ForExp? && inner.vars.Keys == sight.vars.Keys + {e.index} && inner.funs == sight.funs
    ensures Settles(e, sight, loops) <==> Settles(e.lo, sight, loops) && Settles(e.hi, sight, loops) && Settles(e.body, inner, loops + [n])
  {}

  lemma LetVarParts(e: Exp, sight: Sight, inner: Sight, loops: seq<nat>)
    requires e.LetVar? && inner.vars.Keys == sight.vars.Keys + {e.name} && inner.funs == sight.funs
    ensures Settles(e, sight, loops) <==> Settles(e.init, sight, loops) && Settles(e.body, inner, loops)
  {}

  lemma LetFunsParts(e: Exp, sight: Sight, inner: Sight, loops: seq<nat>)
    requires e.LetFuns? && inner.funs.Keys == sight.funs.Keys + Heads(e.funs) && inner.vars == sight.vars
    ensures Settles(e, sight, loops) <==> SettlesIn(e.funs, inner, loops) && Settles(e.body, inner, loops)
  {}

  lemma DecParts(ds: Funs, sight: Sight, inner: Sight, loops: seq<nat>)
    requires ds.FunCons? && inner.vars.Keys == sight.vars.Keys + (set x | x in ds.first.formals) && inner.funs == sight.funs
    ensures SettlesIn(ds, sight, loops) <==> (ds.first.Function? ==> Settles(ds.first.body, inner, loops)) && SettlesIn(ds.rest, sight, loops)
  {}

  lemma ConsParts(es: Exps, sight: Sight, loops: seq<nat>)
    ensures SettlesAll(es, sight, loops) <==> es.NoExp? || (Settles(es.head, sight, loops) && SettlesAll(es.tail, sight, loops))
  {}

  /** The binder complains of nothing but redefinitions if and only if every name used is declared around
      its use, and every `break` is in a loop. */
  lemma {:induction false} ComplaintsExact(e: Exp, sight: Sight, p: Progress, loops: seq<nat>)
    ensures Quiet(Bind(e, sight, p, loops)) <==> Quiet(p) && Fits(FreeVars(e), FreeFuns(e), LoneBreak(e), sight, loops)
    decreases e
  {
    Complaints(e, sight, p, loops);
  }

  lemma {:induction false} Complaints(e: Exp, sight: Sight, p: Progress, loops: seq<nat>)
    ensures Quiet(Bind(e, sight, p, loops)) <==> Quiet(p) && Settles(e, sight, loops)
    decreases e
  {
    hide Quiet, Settles, SettlesAll, SettlesIn, DeclareVar;
    Parts(e, sight, loops);
    match e
    case IntExp(_) =>
    case VarExp(x) => QuietMore(p, Use(x, sight));
    case OpExp(l, _, r) =>
      Complaints(l, sight, p, loops);
      Complaints(r, sight, Bind(l, sight, p, loops), loops);
    case SeqExp(es) => AllComplaints(es, sight, p, loops);
    case AssignExp(x, e1) =>
      QuietMore(p, Use(x, sight));
      Complaints(e1, sight, p.Log(Use(x, sight)), loops);
    case IfExp(c, t, f) =>
      var a := Bind(c, sight, p, loops);
      Complaints(c, sight, p, loops);
      Complaints(t, sight, a, loops);
      Complaints(f, sight, Bind(t, sight, a, loops), loops);
    case WhileExp(c, body) =>
      var a := Bind(c, sight, p, loops);
      Complaints(c, sight, p, loops);
      QuietMore(a, StrayBreak);
      LoopParts(e, sight, loops, a.nodes);
      Complaints(body, sight, a.Node(), loops + [a.nodes]);
    case ForExp(i, lo, hi, body) =>
      var a := Bind(hi, sight, p, loops);
      var b := Bind(lo, sight, a, loops);
      Complaints(hi, sight, p, loops);
      Complaints(lo, sight, a, loops);
      var d := DeclareVar(i, sight, b);
      VarDeclared(i, sight, b);
      QuietMore(d.1, StrayBreak);
      ForParts(e, sight, d.0, loops, d.1.nodes);
      Complaints(body, d.0, d.1.Node(), loops + [d.1.nodes]);
    case BreakExp => QuietMore(p, if loops == [] then StrayBreak else BoundBreak(loops[|loops| - 1]));
    case CallExp(f, args) =>
      var q := p.Log(UndeclaredFun(f));
      QuietMore(p, UndeclaredFun(f));
      AllComplaints(args, sight, p, loops);
      AllComplaints(args, sight, q, loops);
      if f in sight.funs { QuietMore(BindAll(args, sight, p, loops), BoundFun(f, sight.funs[f].dec)); }
    case LetVar(x, init, body) =>
      var a := Bind(init, sight, p, loops);
      Complaints(init, sight, p, loops);
      var d := DeclareVar(x, sight, a);
      VarDeclared(x, sight, a);
      QuietMore(d.1, StrayBreak);
      LetVarParts(e, sight, d.0, loops);
      Complaints(body, d.0, d.1.Chunk(), loops);
    case LetFuns(ds, body) =>
      var h := DeclareHeaders(ds, sight, p);
      HeadersDeclared(ds, sight, p);
      var b := BindBodies(ds, h.0, h.1, loops);
      BodiesComplaints(ds, h.0, h.1, loops);
      QuietMore(b, StrayBreak);
      LetFunsParts(e, sight, h.0, loops);
      Complaints(body, h.0, b.Chunk(), loops);
  }

  lemma {:induction false} AllComplaints(es: Exps, sight: Sight, p: Progress, loops: seq<nat>)
    ensures Quiet(BindAll(es, sight, p, loops)) <==> Quiet(p) && SettlesAll(es, sight, loops)
    decreases es
  {
    hide Quiet, Settles, SettlesAll;
    ConsParts(es, sight, loops);
    if es.Cons? {
      Complaints(es.head, sight, p, loops);
      AllComplaints(es.tail, sight, Bind(es.head, sight, p, loops), loops);
    }
  }

  lemma {:induction false} BodiesComplaints(ds: Funs, sight: Sight, p: Progress, loops: seq<nat>)
    ensures Quiet(BindBodies(ds, sight, p, loops)) <==> Quiet(p) && SettlesIn(ds, sight, loops)
    decreases ds
  {
    if ds.FunCons? {
      hide Quiet, Settles, SettlesIn;
      var d := ds.first;
      var f := DeclareFormals(d.formals, sight, p);
      FormalsDeclared(d.formals, sight, p);
      QuietMore(f.1, StrayBreak);
      DecParts(ds, sight, f.0, loops);
      if d.Function? {
        Complaints(d.body, f.0, f.1.Chunk(), loops);
        BodiesComplaints(ds.rest, sight, Bind(d.body, f.0, f.1.Chunk(), loops), loops);
      } else {
        BodiesComplaints(ds.rest, sight, f.1.Chunk(), loops);
      }
    }
  }

  /** The arguments of a call to a name bound to nothing are not looked at; those of a call to a name bound
      to a variable are. */
  lemma UnknownCallee(f: Sym, args: Exps, args2: Exps, sight: Sight, p: Progress, loops: seq<nat>)
    requires f !in sight.funs
    ensures f !in sight.vars ==> Bind(CallExp(f, args), sight, p, loops) == Bind(CallExp(f, args2), sight, p, loops)
    ensures forall x :: f in sight.vars && x !in sight.vars ==> UndeclaredVar(x) in Bind(CallExp(f, Cons(VarExp(x), args)), sight, p, loops).log
  {
    forall x | f in sight.vars && x !in sight.vars ensures UndeclaredVar(x) in Bind(CallExp(f, Cons(VarExp(x), args)), sight, p, loops).log {
      var q := p.Log(UndeclaredFun(f)).Log(UndeclaredVar(x));
      assert q.log[|q.log| - 1] == UndeclaredVar(x);
      AllTold(args, sight, q, loops);
      var r := BindAll(args, sight, q, loops);
      assert Bind(VarExp(x), sight, p.Log(UndeclaredFun(f)), loops) == q;
      assert BindAll(Cons(VarExp(x), args), sight, p.Log(UndeclaredFun(f)), loops) == r;
      assert r.log[|q.log| - 1] == UndeclaredVar(x);
    }
  }

  /** Nothing told is taken back. */
  lemma {:induction false} Told(e: Exp, sight: Sight, p: Progress, loops: seq<nat>)
    ensures p.log <= Bind(e, sight, p, loops).log
    decreases e
  {
    match e
    case OpExp(l, _, r) => Told(l, sight, p, loops); Told(r, sight, Bind(l, sight, p, loops), loops);
    case SeqExp(es) => AllTold(es, sight, p, loops);
    case AssignExp(x, e1) => Told(e1, sight, p.Log(Use(x, sight)), loops);
    case IfExp(c, t, f) =>
      var a := Bind(c, sight, p, loops);
      Told(c, sight, p, loops);
      Told(t, sight, a, loops);
      Told(f, sight, Bind(t, sight, a, loops), loops);
    case WhileExp(c, body) =>
      var a := Bind(c, sight, p, loops);
      Told(c, sight, p, loops);
      Told(body, sight, a.Node(), loops + [a.nodes]);
    case ForExp(i, lo, hi, body) =>
      var a := Bind(hi, sight, p, loops);
      var d := DeclareVar(i, sight, Bind(lo, sight, a, loops));
      Told(hi, sight, p, loops);
      Told(lo, sight, a, loops);
      Told(body, d.0, d.1.Node(), loops + [d.1.nodes]);
    case CallExp(f, args) =>
      AllTold(args, sight, p, loops);
      AllTold(args, sight, p.Log(UndeclaredFun(f)), loops);
    case LetVar(x, init, body) =>
      var d := DeclareVar(x, sight, Bind(init, sight, p, loops));
      Told(init, sight, p, loops);
      Told(body, d.0, d.1.Chunk(), loops);
    case LetFuns(ds, body) =>
      var h := DeclareHeaders(ds, sight, p);
      HeadersTold(ds, sight, p);
      BodiesTold(ds, h.0, h.1, loops);
      Told(body, h.0, BindBodies(ds, h.0, h.1, loops).Chunk(), loops);
    case _ =>
  }

  lemma {:induction false} AllTold(es: Exps, sight: Sight, p: Progress, loops: seq<nat>)
    ensures p.log <= BindAll(es, sight, p, loops).log
    decreases es
  {
    if es.Cons? {
      Told(es.head, sight, p, loops);
      AllTold(es.tail, sight, Bind(es.head, sight, p, loops), loops);
    }
  }

  lemma {:induction false} HeadersTold(ds: Funs, sight: Sight, p: Progress)
    ensures p.log <= DeclareHeaders(ds, sight, p).1.log
  {
    if ds.FunCons? {
      var d := DeclareFun(ds.first.name, sight, p);
      HeadersTold(ds.rest, d.0, d.1);
    }
  }

  lemma {:induction false} FormalsTold(xs: seq<Sym>, sight: Sight, p: Progress)
    ensures p.log <= DeclareFormals(xs, sight, p).1.log
    decreases |xs|
  {
    if xs != [] {
      var d := DeclareVar(xs[0], sight, p);
      FormalsTold(xs[1..], d.0, d.1);
    }
  }

  lemma {:induction false} BodiesTold(ds: Funs, sight: Sight, p: Progress, loops: seq<nat>)
    ensures p.log <= BindBodies(ds, sight, p, loops).log
    decreases ds
  {
    if ds.FunCons? {
      var d := ds.first;
      var f := DeclareFormals(d.formals, sight, p);
      FormalsTold(d.formals, sight, p);
      if d.Function? {
        Told(d.body, f.0, f.1.Chunk(), loops);
        BodiesTold(ds.rest, sight, Bind(d.body, f.0, f.1.Chunk(), loops), loops);
      } else {
        BodiesTold(ds.rest, sight, f.1.Chunk(), loops);
      }
    }
  }

  // ----- the first declaration stays -----

  /** The `i`th of the names is the first of its kind. */
  ghost predicate First(xs: seq<Sym>, i: nat, own: set<Sym>) {
    i < |xs| && xs[i] !in own && forall j :: 0 <= j < i ==> xs[j] != xs[i]
  }

  lemma FirstOfRest(xs: seq<Sym>, i: nat, own: set<Sym>)
    requires First(xs, i, own) && i > 0
    ensures First(xs[1..], i - 1, own + {xs[0]}) && First(xs[1..], i - 1, own)
  {
    assert xs[0] != xs[i];
    forall j | 0 <= j < i - 1 ensures xs[1..][j] != xs[i] { assert xs[1..][j] == xs[j + 1]; }
  }

  /** The names with the stamp of the chunk are those it has declared. */
  ghost predicate Own(m: map<Sym, Bound>, own: set<Sym>, chunks: nat) { forall x :: x in m && m[x].stamp == chunks <==> x in own }

  /** Of formals of one name, the first is what the name means. */
  lemma {:induction false} FirstFormal(xs: seq<Sym>, sight: Sight, p: Progress, own: set<Sym>, i: nat)
    requires Own(sight.vars, own, p.chunks)
    ensures var d := DeclareFormals(xs, sight, p).0;
      && (First(xs, i, own) ==> xs[i] in d.vars && d.vars[xs[i]].dec == p.nodes + i)
      && (forall x :: x in sight.vars && (x in own || x !in xs) ==> x in d.vars && d.vars[x] == sight.vars[x])
    decreases |xs|
  {
    if xs != [] {
      var d, own2 := DeclareVar(xs[0], sight, p), own + {xs[0]};
      assert Own(d.0.vars, own2, d.1.chunks);
      FirstFormal(xs[1..], d.0, d.1, own2, if i > 0 then i - 1 else 0);
      if First(xs, i, own) && i > 0 { FirstOfRest(xs, i, own); }
    }
  }

  function NamesOf(ds: Funs): seq<Sym> {
    match ds
    case NoFun => []
    case FunCons(d, rest) => [d.name] + NamesOf(rest)
  }

  /** And of functions of one chunk. */
  lemma {:induction false} FirstFunction(ds: Funs, sight: Sight, p: Progress, own: set<Sym>, i: nat)
    requires Own(sight.funs, own, p.chunks)
    ensures var h, xs := DeclareHeaders(ds, sight, p).0, NamesOf(ds);
      && (First(xs, i, own) ==> xs[i] in h.funs && h.funs[xs[i]].dec == p.nodes + i)
      && (forall f :: f in sight.funs && (f in own || f !in xs) ==> f in h.funs && h.funs[f] == sight.funs[f])
    decreases ds
  {
    if ds.FunCons? {
      var xs, f := NamesOf(ds), ds.first.name;
      var d, own2 := DeclareFun(f, sight, p), own + {f};
      assert xs[0] == f && xs[1..] == NamesOf(ds.rest);
      assert Own(d.0.funs, own2, d.1.chunks);
      FirstFunction(ds.rest, d.0, d.1, own2, if i > 0 then i - 1 else 0);
      if First(xs, i, own) && i > 0 { FirstOfRest(xs, i, own); }
    }
  }

  // ----- breaks -----

  /** Messages written since `p` bind a `break` to the loop around, or to one numbered since. */
  ghost predicate Inner(p: Progress, q: Progress, loops: seq<nat>) {
    && p.nodes <= q.nodes
    && forall k: nat :: BoundBreak(k) in q.log ==> BoundBreak(k) in p.log || (loops != [] && k == loops[|loops| - 1]) || p.nodes <= k < q.nodes
  }

  lemma InnerJoin(p: Progress, q: Progress, r: Progress, loops: seq<nat>)
    requires Inner(p, q, loops) && Inner(q, r, loops)
    ensures Inner(p, r, loops)
  {}

  lemma InnerMore(p: Progress, q: Progress, m: Msg, loops: seq<nat>)
    requires Inner(p, q, loops) && !m.BoundBreak?
    ensures Inner(p, q.Log(m), loops) && Inner(p, q.Node(), loops) && Inner(p, q.Chunk(), loops)
  {}

  /** A loop: its body writes under the number it has just been given. */
  lemma InnerLoop(p: Progress, q: Progress, r: Progress, loops: seq<nat>)
    requires Inner(p, q, loops) && Inner(q.Node(), r, loops + [q.nodes])
    ensures Inner(p, r, loops)
  {
    forall k: nat | BoundBreak(k) in r.log ensures BoundBreak(k) in p.log || (loops != [] && k == loops[|loops| - 1]) || p.nodes <= k < r.nodes {
      assert BoundBreak(k) in q.Node().log || k == q.nodes || q.nodes + 1 <= k < r.nodes;
    }
  }

  lemma VarInner(x: Sym, sight: Sight, p: Progress, q: Progress, loops: seq<nat>)
    requires Inner(p, q, loops)
    ensures Inner(p, DeclareVar(x, sight, q).1, loops)
  {}

  lemma {:induction false} FormalsInner(xs: seq<Sym>, sight: Sight, p: Progress, loops: seq<nat>)
    ensures Inner(p, DeclareFormals(xs, sight, p).1, loops)
    decreases |xs|
  {
    if xs != [] {
      var d := DeclareVar(xs[0], sight, p);
      FormalsInner(xs[1..], d.0, d.1, loops);
      InnerJoin(p, d.1, DeclareFormals(xs[1..], d.0, d.1).1, loops);
    }
  }

  lemma {:induction false} HeadersInner(ds: Funs, sight: Sight, p: Progress, loops: seq<nat>)
    ensures Inner(p, DeclareHeaders(ds, sight, p).1, loops)
  {
    if ds.FunCons? {
      var d := DeclareFun(ds.first.name, sight, p);
      HeadersInner(ds.rest, d.0, d.1, loops);
      InnerJoin(p, d.1, DeclareHeaders(ds.rest, d.0, d.1).1, loops);
    }
  }

  /** A `break` is bound to the innermost loop: what is written in visiting `e` binds to the loop that `e`
      stands in, or to loops inside `e`; and this holds of the body of each of these in turn. */
  lemma {:induction false} BreaksInner(e: Exp, sight: Sight, p: Progress, loops: seq<nat>)
    ensures Inner(p, Bind(e, sight, p, loops), loops)
    decreases e
  {
    hide Inner;
    InnerItself(p, loops);
    match e
    case IntExp(_) =>
    case VarExp(x) => InnerMore(p, p, Use(x, sight), loops);
    case OpExp(l, _, r) => TwoInner(l, r, sight, p, loops, e);
    case SeqExp(es) => AllInner(es, sight, p, loops);
    case AssignExp(x, e1) =>
      InnerMore(p, p, Use(x, sight), loops);
      BreaksInner(e1, sight, p.Log(Use(x, sight)), loops);
      InnerJoin(p, p.Log(Use(x, sight)), Bind(e, sight, p, loops), loops);
    case IfExp(c, t, f) =>
      var b := Bind(t, sight, Bind(c, sight, p, loops), loops);
      TwoInner(c, t, sight, p, loops, e);
      BreaksInner(f, sight, b, loops);
      InnerJoin(p, b, Bind(e, sight, p, loops), loops);
    case WhileExp(c, body) =>
      var a := Bind(c, sight, p, loops);
      BreaksInner(c, sight, p, loops);
      BreaksInner(body, sight, a.Node(), loops + [a.nodes]);
      InnerLoop(p, a, Bind(e, sight, p, loops), loops);
    case ForExp(i, lo, hi, body) =>
      var b := Bind(lo, sight, Bind(hi, sight, p, loops), loops);
      var d := DeclareVar(i, sight, b);
      TwoInner(hi, lo, sight, p, loops, e);
      VarInner(i, sight, p, b, loops);
      BreaksInner(body, d.0, d.1.Node(), loops + [d.1.nodes]);
      InnerLoop(p, d.1, Bind(e, sight, p, loops), loops);
    case BreakExp => BreakInner(sight, p, loops);
    case CallExp(f, args) => CallInner(f, args, sight, p, loops);
    case LetVar(x, init, body) =>
      var a := Bind(init, sight, p, loops);
      var d := DeclareVar(x, sight, a);
      BreaksInner(init, sight, p, loops);
      VarInner(x, sight, p, a, loops);
      InnerMore(p, d.1, StrayBreak, loops);
      BreaksInner(body, d.0, d.1.Chunk(), loops);
      InnerJoin(p, d.1.Chunk(), Bind(e, sight, p, loops), loops);
    case LetFuns(ds, body) =>
      var h := DeclareHeaders(ds, sight, p);
      var b := BindBodies(ds, h.0, h.1, loops);
      HeadersInner(ds, sight, p, loops);
      BodiesInner(ds, h.0, h.1, loops);
      InnerJoin(p, h.1, b, loops);
      InnerMore(p, b, StrayBreak, loops);
      BreaksInner(body, h.0, b.Chunk(), loops);
      InnerJoin(p, b.Chunk(), Bind(e, sight, p, loops), loops);
  }

  lemma InnerItself(p: Progress, loops: seq<nat>)
    ensures Inner(p, p, loops)
  {}

  lemma BreakInner(sight: Sight, p: Progress, loops: seq<nat>)
    ensures Inner(p, Bind(BreakExp, sight, p, loops), loops)
  {}

  lemma {:induction false} TwoInner(a: Exp, b: Exp, sight: Sight, p: Progress, loops: seq<nat>, whole: Exp)
    requires a < whole && b < whole
    ensures Inner(p, Bind(b, sight, Bind(a, sight, p, loops), loops), loops)
    decreases whole, 0
  {
    hide Inner, Bind;
    BreaksInner(a, sight, p, loops);
    BreaksInner(b, sight, Bind(a, sight, p, loops), loops);
    InnerJoin(p, Bind(a, sight, p, loops), Bind(b, sight, Bind(a, sight, p, loops), loops), loops);
  }

  lemma {:induction false} CallInner(f: Sym, args: Exps, sight: Sight, p: Progress, loops: seq<nat>)
    ensures Inner(p, Bind(CallExp(f, args), sight, p, loops), loops)
    decreases args, 1
  {
    hide Inner;
    var q := p.Log(UndeclaredFun(f));
    InnerItself(p, loops);
    InnerMore(p, p, UndeclaredFun(f), loops);
    AllInner(args, sight, p, loops);
    AllInner(args, sight, q, loops);
    InnerJoin(p, q, BindAll(args, sight, q, loops), loops);
    if f in sight.funs { InnerMore(p, BindAll(args, sight, p, loops), BoundFun(f, sight.funs[f].dec), loops); }
  }

  lemma {:induction false} AllInner(es: Exps, sight: Sight, p: Progress, loops: seq<nat>)
    ensures Inner(p, BindAll(es, sight, p, loops), loops)
    decreases es, 0
  {
    hide Inner;
    InnerItself(p, loops);
    if es.Cons? {
      var a := Bind(es.head, sight, p, loops);
      BreaksInner(es.head, sight, p, loops);
      AllInner(es.tail, sight, a, loops);
      InnerJoin(p, a, BindAll(es.tail, sight, a, loops), loops);
    }
  }

  lemma {:induction false} BodiesInner(ds: Funs, sight: Sight, p: Progress, loops: seq<nat>)
    ensures Inner(p, BindBodies(ds, sight, p, loops), loops)
    decreases ds
  {
    hide Inner;
    InnerItself(p, loops);
    if ds.FunCons? {
      var d := ds.first;
      var f := DeclareFormals(d.formals, sight, p);
      FormalsInner(d.formals, sight, p, loops);
      InnerMore(p, f.1, StrayBreak, loops);
      var q := if d.Function? then Bind(d.body, f.0, f.1.Chunk(), loops) else f.1.Chunk();
      if d.Function? {
        BreaksInner(d.body, f.0, f.1.Chunk(), loops);
        InnerJoin(p, f.1.Chunk(), q, loops);
      }
      BodiesInner(ds.rest, sight, q, loops);
      InnerJoin(p, q, BindBodies(ds, sight, p, loops), loops);
    }
  }
}
