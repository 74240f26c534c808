/** Renaming, then binding again: every use comes to the declaration it had. */
module Rebind {
  import opened Tiger
  import opened Binder
  import opened Rename
  import opened Programs
  import opened Hygiene
  import opened Pipeline

  predicate IsError(m: Msg) { m.UndeclaredVar? || m.UndeclaredFun? || m.StrayBreak? || m.RedefinedVar? || m.RedefinedFun? }

  ghost predicate ErrorFree(log: seq<Msg>) { forall m :: m in log ==> !IsError(m) }

  /** The message but for the name: which declaration, or which loop. */
  function Target(m: Msg): Msg {
    match m
    case BoundVar(_, d) => BoundVar(Sym(""), d)
    case BoundFun(_, d) => BoundFun(Sym(""), d)
    case _ => m
  }

  /** The same bindings, one by one. */
  ghost predicate Alike(p: Progress, q: Progress) {
    && |p.log| == |q.log| && p.chunks == q.chunks && p.nodes == q.nodes
    && forall i :: 0 <= i < |p.log| ==> Target(p.log[i]) == Target(q.log[i])
  }

  ghost predicate Prefix(p: Progress, q: Progress) { p.log <= q.log }

  lemma ErrorFreePrefix(p: Progress, q: Progress)
    requires Prefix(p, q) && ErrorFree(q.log)
    ensures ErrorFree(p.log)
  {
    forall m | m in p.log ensures !IsError(m) {
      var i :| 0 <= i < |p.log| && p.log[i] == m;
      assert q.log[i] == m;
    }
  }

  lemma {:induction false} FormalsGrow(xs: seq<Sym>, s: Sight, p: Progress)
    ensures Prefix(p, DeclareFormals(xs, s, p).1)
    decreases |xs|
  {
    if xs != [] {
      var d := DeclareVar(xs[0], s, p);
      FormalsGrow(xs[1..], d.0, d.1);
    }
  }

  lemma {:induction false} HeadersGrow(ds: Funs, s: Sight, p: Progress)
    ensures Prefix(p, DeclareHeaders(ds, s, p).1)
  {
    if ds.FunCons? {
      var d := DeclareFun(ds.first.name, s, p);
      HeadersGrow(ds.rest, d.0, d.1);
    }
  }

  /** The binder only appends messages. */
  lemma {:induction false} BindGrows(e: Exp, s: Sight, p: Progress, loops: seq<nat>)
    ensures Prefix(p, Bind(e, s, p, loops))
    decreases e
  {
    match e
    case OpExp(l, _, r) => BindGrows(l, s, p, loops); BindGrows(r, s, Bind(l, s, p, loops), loops);
    case SeqExp(es) => AllGrow(es, s, p, loops);
    case AssignExp(x, e1) => BindGrows(e1, s, p.Log(Use(x, s)), loops);
    case IfExp(c, t, f) =>
      var a := Bind(c, s, p, loops);
      BindGrows(c, s, p, loops);
      BindGrows(t, s, a, loops);
      BindGrows(f, s, Bind(t, s, a, loops), loops);
    case WhileExp(c, body) =>
      var a := Bind(c, s, p, loops);
      BindGrows(c, s, p, loops);
      BindGrows(body, s, a.Node(), loops + [a.nodes]);
    case ForExp(i, lo, hi, body) =>
      var a := Bind(hi, s, p, loops);
      var b := Bind(lo, s, a, loops);
      var d := DeclareVar(i, s, b);
      BindGrows(hi, s, p, loops);
      BindGrows(lo, s, a, loops);
      BindGrows(body, d.0, d.1.Node(), loops + [d.1.nodes]);
    case CallExp(f, args) => AllGrow(args, s, p, loops); AllGrow(args, s, p.Log(UndeclaredFun(f)), loops);
    case LetVar(x, init, body) =>
      var d := DeclareVar(x, s, Bind(init, s, p, loops));
      BindGrows(init, s, p, loops);
      BindGrows(body, d.0, d.1.Chunk(), loops);
    case LetFuns(ds, body) =>
      var h := DeclareHeaders(ds, s, p);
      HeadersGrow(ds, s, p);
      BodiesGrow(ds, h.0, h.1, loops);
      BindGrows(body, h.0, BindBodies(ds, h.0, h.1, loops).Chunk(), loops);
    case _ =>
  }

  lemma {:induction false} AllGrow(es: Exps, s: Sight, p: Progress, loops: seq<nat>)
    ensures Prefix(p, BindAll(es, s, p, loops))
    decreases es
  {
    if es.Cons? { BindGrows(es.head, s, p, loops); AllGrow(es.tail, s, Bind(es.head, s, p, loops), loops); }
  }

  lemma {:induction false} BodiesGrow(ds: Funs, s: Sight, p: Progress, loops: seq<nat>)
    ensures Prefix(p, BindBodies(ds, s, p, loops))
    decreases ds
  {
    if ds.FunCons? {
      var d := ds.first;
      var f := DeclareFormals(d.formals, s, p);
      FormalsGrow(d.formals, s, p);
      if d.Function? { BindGrows(d.body, f.0, f.1.Chunk(), loops); }
      BodiesGrow(ds.rest, s, if d.Function? then Bind(d.body, f.0, f.1.Chunk(), loops) else f.1.Chunk(), loops);
    }
  }

  // ----- what is in sight on both sides -----

  /** The name `x` was given, and the same declaration under it. */
  ghost predicate VarAlike(sc: RScope, x: Sym, nv: nat, s1: Sight, s2: Sight)
    requires x in s1.vars
  {
    exists k: nat :: k < nv && ResolveVar(sc, x) == Fresh(x, k) && Fresh(x, k) in s2.vars && s2.vars[Fresh(x, k)].dec == s1.vars[x].dec
  }

  ghost predicate FunAlike(sc: RScope, f: Sym, s1: Sight, s2: Sight)
    requires f in s1.funs
  {
    var g := ResolveFun(sc, f); GivenFor(f, g) && g in s2.funs && s2.funs[g].dec == s1.funs[f].dec
  }

  ghost predicate Below(m: map<Sym, Bound>, n: nat) { forall x: Sym, k: nat :: Fresh(x, k) in m ==> k < n }

  /** Everything in sight is in sight under its new name; variables were named before count `nv`,
      functions before `nf`. */
  ghost predicate SightAlike(sc: RScope, nv: nat, nf: nat, s1: Sight, s2: Sight) {
    && (forall x :: x in s1.vars ==> VarAlike(sc, x, nv, s1, s2)) && (forall f :: f in s1.funs ==> FunAlike(sc, f, s1, s2))
    && Below(s2.vars, nv) && Below(s2.funs, nf)
  }

  lemma AlikeLater(sc: RScope, nv: nat, nf: nat, nv2: nat, nf2: nat, s1: Sight, s2: Sight)
    requires SightAlike(sc, nv, nf, s1, s2) && nv <= nv2 && nf <= nf2
    ensures SightAlike(sc, nv2, nf2, s1, s2)
  {
    forall x | x in s1.vars ensures VarAlike(sc, x, nv2, s1, s2) {
      assert VarAlike(sc, x, nv, s1, s2);
    }
  }

  lemma LogHas(p: Progress, m: Msg)
    ensures m in p.Log(m).log
  {}

  /** A variable declared on both sides. */
  lemma VarDeclared(x: Sym, sc: RScope, n: nat, nv: nat, nf: nat, s1: Sight, s2: Sight, p: Progress, q: Progress)
    requires SightAlike(sc, nv, nf, s1, s2) && nv <= n && Alike(p, q) && ErrorFree(DeclareVar(x, s1, p).1.log)
    ensures var a, b := DeclareVar(x, s1, p), DeclareVar(Fresh(x, n), s2, q);
      Alike(a.1, b.1) && SightAlike(RVar(x, n, sc), n + 1, nf, a.0, b.0) && a.0.funs == s1.funs && b.0.funs == s2.funs
  {
    var a, b, sc2 := DeclareVar(x, s1, p), DeclareVar(Fresh(x, n), s2, q), RVar(x, n, sc);
    assert Fresh(x, n) !in s2.vars;
    LogHas(p.Node(), RedefinedVar(x));
    forall y | y in a.0.vars ensures VarAlike(sc2, y, n + 1, a.0, b.0) {
      if y == x {
        assert ResolveVar(sc2, x) == Fresh(x, n) && Fresh(x, n) in b.0.vars;
      } else {
        assert VarAlike(sc, y, nv, s1, s2);
        var k: nat :| k < nv && ResolveVar(sc, y) == Fresh(y, k) && Fresh(y, k) in s2.vars && s2.vars[Fresh(y, k)].dec == s1.vars[y].dec;
        if Fresh(y, k) == Fresh(x, n) { FreshInjective(y, k, x, n); }
      }
    }
    forall y: Sym, k: nat | Fresh(y, k) in b.0.vars ensures k < n + 1 {
      if Fresh(y, k) !in s2.vars { FreshInjective(y, k, x, n); }
    }
    forall f | f in a.0.funs ensures FunAlike(sc2, f, a.0, b.0) { assert FunAlike(sc, f, s1, s2); }
  }

  lemma {:induction false} FormalsDeclared(xs: seq<Sym>, sc: RScope, h: nat, nf: nat, s1: Sight, s2: Sight, p: Progress, q: Progress)
    requires SightAlike(sc, h, nf, s1, s2) && Alike(p, q) && ErrorFree(DeclareFormals(xs, s1, p).1.log)
    ensures var a, b := DeclareFormals(xs, s1, p), DeclareFormals(RenameFormals(xs, h), s2, q);
      Alike(a.1, b.1) && SightAlike(FormalsScopeOf(xs, h, sc), h + |xs|, nf, a.0, b.0)
    decreases |xs|
  {
    hide Alike, ErrorFree, SightAlike;
    if xs != [] {
      var ys := RenameFormals(xs, h);
      assert ys[1..] == RenameFormals(xs[1..], h + 1);
      var d := DeclareVar(xs[0], s1, p);
      FormalsGrow(xs[1..], d.0, d.1);
      ErrorFreePrefix(d.1, DeclareFormals(xs, s1, p).1);
      VarDeclared(xs[0], sc, h, h, nf, s1, s2, p, q);
      var d2 := DeclareVar(ys[0], s2, q);
      FormalsDeclared(xs[1..], RVar(xs[0], h, sc), h + 1, nf, d.0, d2.0, d.1, d2.1);
    }
  }

  /** A name declared in this chunk is not declared again where no error is reported. */
  lemma {:induction false} NotAgain(ds: Funs, f: Sym, s: Sight, p: Progress)
    requires f in s.funs && s.funs[f].stamp == p.chunks && ErrorFree(DeclareHeaders(ds, s, p).1.log)
    ensures FindFun(ds, f).NoFun?
  {
    if ds.FunCons? {
      var d := DeclareFun(ds.first.name, s, p);
      if ds.first.name == f {
        HeadersGrow(ds.rest, d.0, d.1);
        ErrorFreePrefix(d.1, DeclareHeaders(ds, s, p).1);
        LogHas(p.Node(), RedefinedFun(f));
      } else {
        NotAgain(ds.rest, f, d.0, d.1);
      }
    }
  }

  lemma {:induction false} HeadersKeep(ds: Funs, f: Sym, s: Sight, p: Progress)
    requires f in s.funs
    ensures f in DeclareHeaders(ds, s, p).0.funs
  {
    if ds.FunCons? {
      var d := DeclareFun(ds.first.name, s, p);
      HeadersKeep(ds.rest, f, d.0, d.1);
    }
  }

  /** What declaring the headers of a chunk does on both sides. */
  ghost predicate Headed(hs: Heads, a: Sight, b: Sight, s1: Sight, s2: Sight) {
    && (forall f :: FindHead(hs, f).HeadCons? ==>
         var g := FindHead(hs, f).given; f in a.funs && GivenFor(f, g) && g in b.funs && b.funs[g].dec == a.funs[f].dec)
    && (forall f :: FindHead(hs, f).NoHead? && f in a.funs ==> f in s1.funs && a.funs[f] == s1.funs[f])
    && (forall g :: g in s2.funs ==> g in b.funs && b.funs[g] == s2.funs[g])
    && a.vars == s1.vars && b.vars == s2.vars
  }

  lemma NoHeaders(h: nat, sc: RScope, m: nat, s1: Sight, s2: Sight, p: Progress, q: Progress)
    requires Below(s2.funs, h) && Alike(p, q)
    ensures var a, b := DeclareHeaders(NoFun, s1, p), DeclareHeaders(RenameBodies(NoFun, h, sc, m).tree, s2, q);
      && Alike(a.1, b.1) && Headed(RenameHeaders(NoFun, h).tree, a.0, b.0, s1, s2) && Below(b.0.funs, RenameHeaders(NoFun, h).count)
  {
    hide Below, Alike;
  }

  lemma {:induction false} HeadersDeclared(ds: Funs, h: nat, sc: RScope, m: nat, s1: Sight, s2: Sight, p: Progress, q: Progress)
    requires OrdinaryFuns(ds) && Below(s2.funs, h) && Alike(p, q) && ErrorFree(DeclareHeaders(ds, s1, p).1.log)
    ensures var a, b := DeclareHeaders(ds, s1, p), DeclareHeaders(RenameBodies(ds, h, sc, m).tree, s2, q);
      && Alike(a.1, b.1) && Headed(RenameHeaders(ds, h).tree, a.0, b.0, s1, s2) && Below(b.0.funs, RenameHeaders(ds, h).count)
  {
    hide ErrorFree, Alike, Headed, Below, DeclareHeaders, RenameBodies, RenameHeaders, DeclareFun;
    if ds.NoFun? {
      NoHeaders(h, sc, m, s1, s2, p, q);
    } else {
      var d := ds.first;
      var f, k := d.name, h + |d.formals|;
      var g := Fresh(f, k);
      var a1, b1 := DeclareFun(f, s1, p), DeclareFun(g, s2, q);
      var m2 := RenameExp(d.body, FormalsScopeOf(d.formals, h, sc), m).count;
      var rest2 := RenameBodies(ds.rest, k + 1, sc, m2).tree;
      HeadersUnfold(ds, h, sc, m, s1, s2, p, q);
      HeadersGrow(ds.rest, a1.0, a1.1);
      ErrorFreePrefix(a1.1, DeclareHeaders(ds, s1, p).1);
      OneHeader(f, k, h, s1, s2, p, q);
      HeadersDeclared(ds.rest, k + 1, sc, m2, a1.0, b1.0, a1.1, b1.1);
      NotAgain(ds.rest, f, a1.0, a1.1);
      HeadersKeep(ds.rest, f, a1.0, a1.1);
      HeadOfRest(ds.rest, k + 1, f);
      var a, b := DeclareHeaders(ds.rest, a1.0, a1.1), DeclareHeaders(rest2, b1.0, b1.1);
      HeadedMore(f, k, d, RenameHeaders(ds.rest, k + 1).tree, h, a.0, b.0, s1, s2, Bound(p.nodes, p.chunks), Bound(q.nodes, q.chunks));
    }
  }

  /** One header at a time. */
  lemma HeadersUnfold(ds: Funs, h: nat, sc: RScope, m: nat, s1: Sight, s2: Sight, p: Progress, q: Progress)
    requires ds.FunCons? && OrdinaryFuns(ds)
    ensures var d := ds.first;
      var k := h + |d.formals|;
      var a1, b1 := DeclareFun(d.name, s1, p), DeclareFun(Fresh(d.name, k), s2, q);
      var m2 := RenameExp(d.body, FormalsScopeOf(d.formals, h, sc), m).count;
      && DeclareHeaders(ds, s1, p) == DeclareHeaders(ds.rest, a1.0, a1.1)
      && DeclareHeaders(RenameBodies(ds, h, sc, m).tree, s2, q)
         == DeclareHeaders(RenameBodies(ds.rest, k + 1, sc, m2).tree, b1.0, b1.1)
      && RenameHeaders(ds, h).tree == HeadCons(d.name, Fresh(d.name, k), RenameFormals(d.formals, h), RenameHeaders(ds.rest, k + 1).tree)
      && RenameHeaders(ds, h).count == RenameHeaders(ds.rest, k + 1).count
  {}

  lemma {:induction false} HeadOfRest(ds: Funs, h: nat, f: Sym)
    ensures FindHead(RenameHeaders(ds, h).tree, f).HeadCons? <==> FindFun(ds, f).FunCons?
  {
    if ds.FunCons? {
      var k := h + |ds.first.formals|;
      HeadOfRest(ds.rest, if Renames(ds.first) then k + 1 else k, f);
    }
  }

  lemma OneHeader(f: Sym, k: nat, h: nat, s1: Sight, s2: Sight, p: Progress, q: Progress)
    requires Below(s2.funs, h) && h <= k && Alike(p, q) && ErrorFree(DeclareFun(f, s1, p).1.log)
    ensures var a, b := DeclareFun(f, s1, p), DeclareFun(Fresh(f, k), s2, q);
      && Alike(a.1, b.1) && a.0 == s1.Fun(f, Bound(p.nodes, p.chunks)) && b.0 == s2.Fun(Fresh(f, k), Bound(q.nodes, q.chunks))
      && Below(b.0.funs, k + 1) && Fresh(f, k) !in s2.funs && a.1.chunks == p.chunks && p.nodes == q.nodes
  {
    var a := DeclareFun(f, s1, p);
    LogHas(p.Node(), RedefinedFun(f));
    forall y: Sym, l: nat | Fresh(y, l) in s2.funs[Fresh(f, k) := Bound(q.nodes, q.chunks)] ensures l < k + 1 {
      if Fresh(y, l) !in s2.funs { FreshInjective(y, l, f, k); }
    }
  }

  lemma HeadedMore(f: Sym, k: nat, d: FunDec, hs: Heads, h: nat, a: Sight, b: Sight, s1: Sight, s2: Sight, x: Bound, y: Bound)
    requires Headed(hs, a, b, s1.Fun(f, x), s2.Fun(Fresh(f, k), y)) && x.dec == y.dec && FindHead(hs, f).NoHead?
    requires Fresh(f, k) !in s2.funs && f in a.funs
    ensures Headed(HeadCons(f, Fresh(f, k), RenameFormals(d.formals, h), hs), a, b, s1, s2)
  {
    var all := HeadCons(f, Fresh(f, k), RenameFormals(d.formals, h), hs);
    var a1, b1 := s1.Fun(f, x), s2.Fun(Fresh(f, k), y);
    assert Fresh(f, k) in b1.funs;
    forall u | FindHead(all, u).HeadCons? ensures var g := FindHead(all, u).given;
      u in a.funs && GivenFor(u, g) && g in b.funs && b.funs[g].dec == a.funs[u].dec {
      if u == f { assert a.funs[f] == a1.funs[f]; } else { assert FindHead(hs, u).HeadCons?; }
    }
    forall u | FindHead(all, u).NoHead? && u in a.funs ensures u in s1.funs && a.funs[u] == s1.funs[u] {
      assert FindHead(hs, u).NoHead?;
    }
    forall g | g in s2.funs ensures g in b.funs && b.funs[g] == s2.funs[g] { assert g in b1.funs; }
  }

  /** A chunk declared on both sides. */
  lemma ChunkDeclared(hs: Heads, n: nat, sc: RScope, nv: nat, nf: nat, s1: Sight, s2: Sight, a: Sight, b: Sight, count: nat)
    requires SightAlike(sc, nv, nf, s1, s2) && Headed(hs, a, b, s1, s2) && Below(b.funs, count)
    ensures SightAlike(RFuns(hs, n, sc), nv, count, a, b)
  {
    var sc1 := RFuns(hs, n, sc);
    forall x | x in a.vars ensures VarAlike(sc1, x, nv, a, b) { assert VarAlike(sc, x, nv, s1, s2); }
    forall f | f in a.funs ensures FunAlike(sc1, f, a, b) {
      if FindHead(hs, f).NoHead? { assert FunAlike(sc, f, s1, s2); }
    }
  }

  // ----- the whole tree -----

  /** A use on both sides. */
  lemma UseAlike(x: Sym, sc: RScope, nv: nat, nf: nat, s1: Sight, s2: Sight, p: Progress, q: Progress)
    requires SightAlike(sc, nv, nf, s1, s2) && Alike(p, q) && ErrorFree(p.Log(Use(x, s1)).log)
    ensures Alike(p.Log(Use(x, s1)), q.Log(Use(ResolveVar(sc, x), s2)))
  {
    assert Use(x, s1) in p.Log(Use(x, s1)).log;
    assert x in s1.vars;
    assert VarAlike(sc, x, nv, s1, s2);
  }

  lemma CallBound(f: Sym, sc: RScope, nv: nat, nf: nat, s1: Sight, s2: Sight, args: Exps, p: Progress, loops: seq<nat>)
    requires SightAlike(sc, nv, nf, s1, s2) && ErrorFree(Bind(CallExp(f, args), s1, p, loops).log)
    ensures f in s1.funs && FunAlike(sc, f, s1, s2)
    ensures ErrorFree(BindAll(args, s1, p, loops).log)
  {
    var r := Bind(CallExp(f, args), s1, p, loops);
    if f !in s1.funs {
      var q := p.Log(UndeclaredFun(f));
      AllGrow(args, s1, q, loops);
      assert UndeclaredFun(f) in q.log;
      assert Prefix(q, r);
      ErrorFreePrefix(q, r);
      assert false;
    }
    ErrorFreePrefix(BindAll(args, s1, p, loops), r);
  }

  /** Renaming is alpha-equivalence as the binder sees it: binding the renamed tree of a program in
      which the binder found no error finds none, and binds every use of a variable or function, and
      every `break`, to the node it was bound to before. */
  lemma {:induction false} RebindsAlike(e: Exp, sc: RScope, n: nat, s1: Sight, s2: Sight, p: Progress, q: Progress, loops: seq<nat>)
    requires Ordinary(e) && SightAlike(sc, n, n, s1, s2) && Alike(p, q) && ErrorFree(Bind(e, s1, p, loops).log)
    ensures Alike(Bind(e, s1, p, loops), Bind(RenameExp(e, sc, n).tree, s2, q, loops))
    decreases e
  {
    hide SightAlike, Alike, ErrorFree;
    var r := Bind(e, s1, p, loops);
    match e
    case IntExp(_) =>
    case VarExp(x) => UseAlike(x, sc, n, n, s1, s2, p, q);
    case OpExp(a, _, b) => TwoAlike(a, b, sc, n, s1, s2, p, q, loops, e);
    case SeqExp(es) => AllRebind(es, sc, n, s1, s2, p, q, loops);
    case AssignExp(x, e1) =>
      var p1, q1 := p.Log(Use(x, s1)), q.Log(Use(ResolveVar(sc, x), s2));
      BindGrows(e1, s1, p1, loops);
      ErrorFreePrefix(p1, r);
      UseAlike(x, sc, n, n, s1, s2, p, q);
      RebindsAlike(e1, sc, n, s1, s2, p1, q1, loops);
    case IfExp(c, t, f) =>
      var p1 := Bind(t, s1, Bind(c, s1, p, loops), loops);
      BindGrows(f, s1, p1, loops);
      ErrorFreePrefix(p1, r);
      TwoAlike(c, t, sc, n, s1, s2, p, q, loops, e);
      var n2 := RenameExp(t, sc, RenameExp(c, sc, n).count).count;
      AlikeLater(sc, n, n, n2, n2, s1, s2);
      RebindsAlike(f, sc, n2, s1, s2, p1, Bind(RenameExp(t, sc, RenameExp(c, sc, n).count).tree, s2,
                                               Bind(RenameExp(c, sc, n).tree, s2, q, loops), loops), loops);
    case WhileExp(c, body) =>
      var p1, c2 := Bind(c, s1, p, loops), RenameExp(c, sc, n);
      BindGrows(body, s1, p1.Node(), loops + [p1.nodes]);
      ErrorFreePrefix(p1, r);
      RebindsAlike(c, sc, n, s1, s2, p, q, loops);
      var q1 := Bind(c2.tree, s2, q, loops);
      AlikeCounts(p1, q1);
      AlikeLater(sc, n, n, c2.count, c2.count, s1, s2);
      RebindsAlike(body, sc, c2.count, s1, s2, p1.Node(), q1.Node(), loops + [p1.nodes]);
    case ForExp(i, lo, hi, body) => ForRebinds(e, sc, n, s1, s2, p, q, loops);
    case BreakExp => AlikeLog(p, q, if loops == [] then StrayBreak else BoundBreak(loops[|loops| - 1]));
    case CallExp(f, args) =>
      CallBound(f, sc, n, n, s1, s2, args, p, loops);
      AllRebind(args, sc, n, s1, s2, p, q, loops);
      AlikeCall(BindAll(args, s1, p, loops), BindAll(RenameExps(args, sc, n).tree, s2, q, loops), f, s1.funs[f].dec, ResolveFun(sc, f));
    case LetVar(x, init, body) => LetVarRebinds(e, sc, n, s1, s2, p, q, loops);
    case LetFuns(ds, body) => LetFunsRebinds(e, sc, n, s1, s2, p, q, loops);
  }

  lemma AlikeCounts(p: Progress, q: Progress)
    requires Alike(p, q)
    ensures p.nodes == q.nodes && p.chunks == q.chunks && Alike(p.Node(), q.Node()) && Alike(p.Chunk(), q.Chunk())
  {}

  lemma AlikeLog(p: Progress, q: Progress, m: Msg)
    requires Alike(p, q)
    ensures Alike(p.Log(m), q.Log(m))
  {}

  lemma AlikeCall(p: Progress, q: Progress, f: Sym, dec: nat, g: Sym)
    requires Alike(p, q)
    ensures Alike(p.Log(BoundFun(f, dec)), q.Log(BoundFun(g, dec)))
  {}

  lemma {:induction false} TwoAlike(a: Exp, b: Exp, sc: RScope, n: nat, s1: Sight, s2: Sight, p: Progress, q: Progress, loops: seq<nat>,
                                    whole: Exp)
    requires a < whole && b < whole && Ordinary(a) && Ordinary(b) && SightAlike(sc, n, n, s1, s2) && Alike(p, q)
    requires ErrorFree(Bind(b, s1, Bind(a, s1, p, loops), loops).log)
    ensures var a2 := RenameExp(a, sc, n);
      Alike(Bind(b, s1, Bind(a, s1, p, loops), loops),
            Bind(RenameExp(b, sc, a2.count).tree, s2, Bind(a2.tree, s2, q, loops), loops))
    decreases whole, 0
  {
    hide SightAlike, Alike, ErrorFree;
    var p1, a2 := Bind(a, s1, p, loops), RenameExp(a, sc, n);
    BindGrows(b, s1, p1, loops);
    ErrorFreePrefix(p1, Bind(b, s1, p1, loops));
    RebindsAlike(a, sc, n, s1, s2, p, q, loops);
    AlikeLater(sc, n, n, a2.count, a2.count, s1, s2);
    RebindsAlike(b, sc, a2.count, s1, s2, p1, Bind(a2.tree, s2, q, loops), loops);
  }

  lemma {:induction false} AllRebind(es: Exps, sc: RScope, n: nat, s1: Sight, s2: Sight, p: Progress, q: Progress, loops: seq<nat>)
    requires OrdinaryAll(es) && SightAlike(sc, n, n, s1, s2) && Alike(p, q) && ErrorFree(BindAll(es, s1, p, loops).log)
    ensures Alike(BindAll(es, s1, p, loops), BindAll(RenameExps(es, sc, n).tree, s2, q, loops))
    decreases es
  {
    hide SightAlike, Alike, ErrorFree;
    if es.Cons? {
      var p1, e2 := Bind(es.head, s1, p, loops), RenameExp(es.head, sc, n);
      AllGrow(es.tail, s1, p1, loops);
      ErrorFreePrefix(p1, BindAll(es, s1, p, loops));
      RebindsAlike(es.head, sc, n, s1, s2, p, q, loops);
      AlikeLater(sc, n, n, e2.count, e2.count, s1, s2);
      AllRebind(es.tail, sc, e2.count, s1, s2, p1, Bind(e2.tree, s2, q, loops), loops);
    }
  }

  lemma {:induction false} ForRebinds(e: Exp, sc: RScope, n: nat, s1: Sight, s2: Sight, p: Progress, q: Progress, loops: seq<nat>)
    requires e.ForExp? && Ordinary(e) && SightAlike(sc, n, n, s1, s2) && Alike(p, q) && ErrorFree(Bind(e, s1, p, loops).log)
    ensures Alike(Bind(e, s1, p, loops), Bind(RenameExp(e, sc, n).tree, s2, q, loops))
    decreases e, 0
  {
    hide SightAlike, Alike, ErrorFree, DeclareVar;
    var i, lo, hi, body, r := e.index, e.lo, e.hi, e.body, Bind(e, s1, p, loops);
    var lo2 := RenameExp(lo, sc, n + 1);
    var hi2 := RenameExp(hi, sc, lo2.count);
    var ph := Bind(hi, s1, p, loops);
    var pl := Bind(lo, s1, ph, loops);
    var d := DeclareVar(i, s1, pl);
    BindGrows(body, d.0, d.1.Node(), loops + [d.1.nodes]);
    VarGrows(i, s1, pl);
    BindGrows(lo, s1, ph, loops);
    ErrorFreePrefix(d.1, r);
    ErrorFreePrefix(pl, d.1);
    ErrorFreePrefix(ph, pl);
    AlikeLater(sc, n, n, lo2.count, lo2.count, s1, s2);
    RebindsAlike(hi, sc, lo2.count, s1, s2, p, q, loops);
    var qh := Bind(hi2.tree, s2, q, loops);
    AlikeLater(sc, n, n, n + 1, n + 1, s1, s2);
    RebindsAlike(lo, sc, n + 1, s1, s2, ph, qh, loops);
    var ql := Bind(lo2.tree, s2, qh, loops);
    VarDeclared(i, sc, n, n, n, s1, s2, pl, ql);
    var d2 := DeclareVar(Fresh(i, n), s2, ql);
    AlikeCounts(d.1, d2.1);
    AlikeLater(RVar(i, n, sc), n + 1, n, hi2.count, hi2.count, d.0, d2.0);
    RebindsAlike(body, RVar(i, n, sc), hi2.count, d.0, d2.0, d.1.Node(), d2.1.Node(), loops + [d.1.nodes]);
  }

  lemma VarGrows(x: Sym, s: Sight, p: Progress)
    ensures Prefix(p, DeclareVar(x, s, p).1)
  {}

  lemma {:induction false} LetVarRebinds(e: Exp, sc: RScope, n: nat, s1: Sight, s2: Sight, p: Progress, q: Progress, loops: seq<nat>)
    requires e.LetVar? && Ordinary(e) && SightAlike(sc, n, n, s1, s2) && Alike(p, q) && ErrorFree(Bind(e, s1, p, loops).log)
    ensures Alike(Bind(e, s1, p, loops), Bind(RenameExp(e, sc, n).tree, s2, q, loops))
    decreases e, 0
  {
    hide SightAlike, Alike, ErrorFree, DeclareVar;
    var x, init, body, r := e.name, e.init, e.body, Bind(e, s1, p, loops);
    var i2 := RenameExp(init, sc, n + 1);
    var p1 := Bind(init, s1, p, loops);
    var d := DeclareVar(x, s1, p1);
    BindGrows(body, d.0, d.1.Chunk(), loops);
    VarGrows(x, s1, p1);
    ErrorFreePrefix(d.1, r);
    ErrorFreePrefix(p1, d.1);
    AlikeLater(sc, n, n, n + 1, n + 1, s1, s2);
    RebindsAlike(init, sc, n + 1, s1, s2, p, q, loops);
    var q1 := Bind(i2.tree, s2, q, loops);
    VarDeclared(x, sc, n, n, n, s1, s2, p1, q1);
    var d2 := DeclareVar(Fresh(x, n), s2, q1);
    AlikeCounts(d.1, d2.1);
    AlikeLater(RVar(x, n, sc), n + 1, n, i2.count, i2.count, d.0, d2.0);
    RebindsAlike(body, RVar(x, n, sc), i2.count, d.0, d2.0, d.1.Chunk(), d2.1.Chunk(), loops);
  }

  lemma {:induction false} LetFunsRebinds(e: Exp, sc: RScope, n: nat, s1: Sight, s2: Sight, p: Progress, q: Progress, loops: seq<nat>)
    requires e.LetFuns? && Ordinary(e) && SightAlike(sc, n, n, s1, s2) && Alike(p, q) && ErrorFree(Bind(e, s1, p, loops).log)
    ensures Alike(Bind(e, s1, p, loops), Bind(RenameExp(e, sc, n).tree, s2, q, loops))
    decreases e, 0
  {
    hide SightAlike, Alike, ErrorFree, DeclareHeaders, Headed, Below;
    var ds, body, r := e.funs, e.body, Bind(e, s1, p, loops);
    var hs := RenameHeaders(ds, n);
    var sc1 := RFuns(hs.tree, n, sc);
    var ds2 := RenameBodies(ds, n, sc1, hs.count);
    var h := DeclareHeaders(ds, s1, p);
    var b := BindBodies(ds, h.0, h.1, loops);
    BindGrows(body, h.0, b.Chunk(), loops);
    BodiesGrow(ds, h.0, h.1, loops);
    ErrorFreePrefix(b, r);
    ErrorFreePrefix(h.1, b);
    FunsBelow(sc, n, s1, s2);
    HeadersDeclared(ds, n, sc1, hs.count, s1, s2, p, q);
    var h2 := DeclareHeaders(ds2.tree, s2, q);
    ChunkDeclared(hs.tree, n, sc, n, n, s1, s2, h.0, h2.0, hs.count);
    BodiesRebind(ds, n, sc1, hs.count, hs.count, h.0, h2.0, h.1, h2.1, loops, n);
    var b2 := BindBodies(ds2.tree, h2.0, h2.1, loops);
    AlikeCounts(b, b2);
    AlikeLater(sc1, n, hs.count, ds2.count, ds2.count, h.0, h2.0);
    RebindsAlike(body, sc1, ds2.count, h.0, h2.0, b.Chunk(), b2.Chunk(), loops);
  }

  lemma FunsBelow(sc: RScope, n: nat, s1: Sight, s2: Sight)
    requires SightAlike(sc, n, n, s1, s2)
    ensures Below(s2.funs, n)
  {}

  /** The bodies of a chunk: formals counted from `h`, the rest from `m`; variables in sight were
      named before `nv`. */
  lemma {:induction false} BodiesRebind(ds: Funs, h: nat, sc: RScope, m: nat, nf: nat, s1: Sight, s2: Sight, p: Progress, q: Progress,
                                        loops: seq<nat>, nv: nat)
    requires OrdinaryFuns(ds) && SightAlike(sc, nv, nf, s1, s2) && nv <= h && RenameHeaders(ds, h).count <= m && nf <= m
    requires Alike(p, q) && ErrorFree(BindBodies(ds, s1, p, loops).log)
    ensures Alike(BindBodies(ds, s1, p, loops), BindBodies(RenameBodies(ds, h, sc, m).tree, s2, q, loops))
    decreases ds
  {
    hide SightAlike, Alike, ErrorFree, DeclareFormals;
    if ds.FunCons? {
      var d := ds.first;
      var k := h + |d.formals|;
      var ys, scF := RenameFormals(d.formals, h), FormalsScopeOf(d.formals, h, sc);
      var f := DeclareFormals(d.formals, s1, p);
      var b2 := RenameExp(d.body, scF, m);
      var p1 := Bind(d.body, f.0, f.1.Chunk(), loops);
      BodiesGrow(ds.rest, s1, p1, loops);
      BindGrows(d.body, f.0, f.1.Chunk(), loops);
      ErrorFreePrefix(p1, BindBodies(ds, s1, p, loops));
      ErrorFreePrefix(f.1, p1);
      AlikeLater(sc, nv, nf, h, nf, s1, s2);
      FormalsDeclared(d.formals, sc, h, nf, s1, s2, p, q);
      var f2 := DeclareFormals(ys, s2, q);
      AlikeCounts(f.1, f2.1);
      AlikeLater(scF, k, nf, m, m, f.0, f2.0);
      RebindsAlike(d.body, scF, m, f.0, f2.0, f.1.Chunk(), f2.1.Chunk(), loops);
      var q1 := Bind(b2.tree, f2.0, f2.1.Chunk(), loops);
      BodiesRebind(ds.rest, k + 1, sc, b2.count, nf, s1, s2, p1, q1, loops, nv);
    }
  }

  // ----- a whole program -----

  const NOTHING_SEEN := Sight(map[], map[])

  const START := Progress([], 0, 0)

  /** The prelude's chunk, and `_main`'s inside it. */
  function BindProgram(p: Program): Progress {
    Bind(LetFuns(p.prims, LetFuns(p.Chunk(), SeqExp(NoExp))), NOTHING_SEEN, START, [])
  }

  /** Only names that are never given to a renamed function. */
  ghost predicate NoneFresh(s: Sight) { s.vars == map[] && forall f :: f in s.funs ==> !LooksFresh(f) }

  lemma {:induction false} PreludeDeclared(ds: Funs, h: nat, sc: RScope, m: nat, s: Sight, p: Progress)
    requires Prelude(ds) && NoneFresh(s)
    ensures DeclareHeaders(RenameBodies(ds, h, sc, m).tree, s, p) == DeclareHeaders(ds, s, p)
    ensures NoneFresh(DeclareHeaders(ds, s, p).0)
  {
    if ds.FunCons? {
      var d := DeclareFun(ds.first.name, s, p);
      PreludeDeclared(ds.rest, h + |ds.first.formals|, sc, m, d.0, d.1);
    }
  }

  lemma {:induction false} PreludeResolves(ds: Funs, h: nat, f: Sym)
    requires Prelude(ds)
    ensures var hd := FindHead(RenameHeaders(ds, h).tree, f); hd.HeadCons? ==> hd.given == f
  {
    if ds.FunCons? { PreludeResolves(ds.rest, h + |ds.first.formals|, f); }
  }

  lemma {:induction false} PreludeRebinds(ds: Funs, h: nat, sc: RScope, m: nat, nv: nat, nf: nat, s1: Sight, s2: Sight,
                                          p: Progress, q: Progress)
    requires Prelude(ds) && SightAlike(sc, nv, nf, s1, s2) && nv <= h && Alike(p, q) && ErrorFree(BindBodies(ds, s1, p, []).log)
    ensures Alike(BindBodies(ds, s1, p, []), BindBodies(RenameBodies(ds, h, sc, m).tree, s2, q, []))
  {
    hide SightAlike, Alike, ErrorFree, DeclareFormals;
    if ds.FunCons? {
      var xs := ds.first.formals;
      var a, b := DeclareFormals(xs, s1, p), DeclareFormals(RenameFormals(xs, h), s2, q);
      BodiesGrow(ds.rest, s1, a.1.Chunk(), []);
      ErrorFreePrefix(a.1, BindBodies(ds, s1, p, []));
      AlikeLater(sc, nv, nf, h, nf, s1, s2);
      FormalsDeclared(xs, sc, h, nf, s1, s2, p, q);
      AlikeCounts(a.1, b.1);
      PreludeRebinds(ds.rest, h + |xs|, sc, m, nv, nf, s1, s2, a.1.Chunk(), b.1.Chunk());
    }
  }

  /** Names that stay as they are. */
  lemma AsTheyAre(sc: RScope, n: nat, s: Sight)
    requires NoneFresh(s) && forall f :: f in s.funs ==> ResolveFun(sc, f) == f
    ensures SightAlike(sc, n, n, s, s)
  {
    forall f: Sym, k: nat | Fresh(f, k) in s.funs ensures false { assert LooksFresh(Fresh(f, k)); }
  }

  /** `_main` in the prelude's sight. */
  lemma MainRebinds(main: FunDec, sc: RScope, h: nat, m: nat, s: Sight, p: Progress, q: Progress)
    requires main.Function? && main.name == MAIN && main.formals == [] && Ordinary(main.body)
    requires NoneFresh(s) && (forall f :: f in s.funs ==> ResolveFun(sc, f) == f) && Alike(p, q)
    requires var ds := FunCons(main, NoFun); ErrorFree(Bind(LetFuns(ds, SeqExp(NoExp)), s, p, []).log)
    ensures var ds, sc2 := FunCons(main, NoFun), RFuns(RenameHeaders(FunCons(main, NoFun), h).tree, h, sc);
      Alike(Bind(LetFuns(ds, SeqExp(NoExp)), s, p, []), Bind(LetFuns(RenameBodies(ds, h, sc2, m).tree, SeqExp(NoExp)), s, q, []))
  {
    hide Alike, ErrorFree, SightAlike;
    var ds, sc2 := FunCons(main, NoFun), RFuns(RenameHeaders(FunCons(main, NoFun), h).tree, h, sc);
    MainIsPlain();
    var a, b := DeclareFun(MAIN, s, p), DeclareFun(MAIN, s, q);
    MainDeclared(s, p, q);
    assert DeclareHeaders(ds, s, p) == a;
    assert NoneFresh(a.0);
    assert RenameHeaders(ds, h).tree == HeadCons(MAIN, MAIN, RenameFormals([], h), NoHead);
    forall f | f in a.0.funs ensures ResolveFun(sc2, f) == f {
      if f != MAIN { assert FindHead(NoHead, f) == NoHead && FindHead(RenameHeaders(ds, h).tree, f) == NoHead; }
    }
    AsTheyAre(sc2, m, a.0);
    assert RenameFormals([], h) == [];
    AlikeCounts(a.1, b.1);
    var bound := Bind(main.body, a.0, a.1.Chunk(), []);
    MainBound(main, s, p);
    MainBound(RenameBodies(ds, h, sc2, m).tree.first, s, q);
    ErrorFreePrefix(bound, bound.Chunk());
    RebindsAlike(main.body, sc2, m, a.0, a.0, a.1.Chunk(), b.1.Chunk(), []);
    AlikeCounts(bound, Bind(RenameExp(main.body, sc2, m).tree, a.0, b.1.Chunk(), []));
  }

  lemma MainBound(main: FunDec, s: Sight, p: Progress)
    requires main.Function? && main.name == MAIN && main.formals == []
    ensures var a := DeclareFun(MAIN, s, p);
      Bind(LetFuns(FunCons(main, NoFun), SeqExp(NoExp)), s, p, []) == Bind(main.body, a.0, a.1.Chunk(), []).Chunk()
  {
    var ds, a := FunCons(main, NoFun), DeclareFun(MAIN, s, p);
    assert DeclareHeaders(ds, s, p) == a;
    var body := Bind(main.body, a.0, a.1.Chunk(), []);
    assert DeclareFormals(main.formals, a.0, a.1) == a;
    assert BindBodies(NoFun, a.0, body, []) == body;
    assert BindBodies(ds, a.0, a.1, []) == body;
    assert Bind(SeqExp(NoExp), a.0, body.Chunk(), []) == body.Chunk();
  }

  lemma MainDeclared(s: Sight, p: Progress, q: Progress)
    requires Alike(p, q)
    ensures var a, b := DeclareFun(MAIN, s, p), DeclareFun(MAIN, s, q); a.0 == b.0 && Alike(a.1, b.1)
  {}

  /** The whole program: if the binder reports nothing, it reports nothing about the renamed program
      either and binds every node to the same declaration.  No primitive may be spelled like a fresh
      name. */
  lemma ProgramRebinds(p: Program)
    requires Accepted(p) && ErrorFree(BindProgram(p).log)
    ensures Alike(BindProgram(p), BindProgram(RenameProgram(p)))
  {
    hide Alike, ErrorFree, SightAlike, NoneFresh, Bind, BindBodies, DeclareHeaders;
    var r := RenamingOf(p);
    var q := RenameProgram(p);
    var hs := RenameHeaders(p.prims, 0);
    var h := DeclareHeaders(p.prims, NOTHING_SEEN, START);
    NothingFresh();
    PreludeDeclared(p.prims, 0, r.outer, hs.count, NOTHING_SEEN, START);
    forall f ensures ResolveFun(r.outer, f) == f { PreludeResolves(p.prims, 0, f); }
    AsTheyAre(r.outer, 0, h.0);
    var b, b2 := BindBodies(p.prims, h.0, h.1, []), BindBodies(q.prims, h.0, h.1, []);
    var rest := LetFuns(p.Chunk(), SeqExp(NoExp));
    InPrelude(p.prims, rest);
    InPrelude(q.prims, LetFuns(q.Chunk(), SeqExp(NoExp)));
    BindGrows(rest, h.0, b.Chunk(), []);
    ErrorFreePrefix(b, BindProgram(p));
    AlikeItself(h.1);
    PreludeRebinds(p.prims, 0, r.outer, hs.count, 0, 0, h.0, h.0, h.1, h.1);
    AlikeCounts(b, b2);
    MainRebinds(p.main, r.outer, r.prims.count, RenameHeaders(p.Chunk(), r.prims.count).count, h.0, b.Chunk(), b2.Chunk());
  }

  lemma NothingFresh()
    ensures NoneFresh(NOTHING_SEEN)
  {}

  lemma AlikeItself(p: Progress)
    ensures Alike(p, p)
  {}

  lemma InPrelude(ds: Funs, rest: Exp)
    ensures var h := DeclareHeaders(ds, NOTHING_SEEN, START);
      Bind(LetFuns(ds, rest), NOTHING_SEEN, START, []) == Bind(rest, h.0, BindBodies(ds, h.0, h.1, []).Chunk(), [])
  {}
}
