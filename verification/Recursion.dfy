/** Which functions the inliner takes for recursive, told from the text (src/inlining/inliner.cc). */
module Recursion {
  import opened Tiger
  import opened Check
  import opened Programs
  import opened Rename
  import opened Escapes
  import opened Lifting
  import opened CallGraph
  import opened Inliner
  import opened Pipeline
  import opened InlineProgram
  import opened Compiler

  // ----- the calls of the graph -----

  /** An edge is a call standing in the body of its source; all such calls are edges if none stands in
      the arguments of another. */
  lemma {:induction false} EdgesAreCalls(e: Exp, fn: Sym, x: Edge)
    ensures x in Edges(e, fn) ==> Calls(x.src, x.dst) in Visits(e, fn)
    ensures NoCallsInArgs(e) && Calls(x.src, x.dst) in Visits(e, fn) ==> x in Edges(e, fn)
    decreases e
  {
    match e
    case OpExp(l, _, r) => EdgesAreCalls(l, fn, x); EdgesAreCalls(r, fn, x);
    case SeqExp(es) => AllEdgesAreCalls(es, fn, x);
    case AssignExp(_, e1) => EdgesAreCalls(e1, fn, x);
    case IfExp(c, t, f) => EdgesAreCalls(c, fn, x); EdgesAreCalls(t, fn, x); EdgesAreCalls(f, fn, x);
    case WhileExp(c, body) => EdgesAreCalls(c, fn, x); EdgesAreCalls(body, fn, x);
    case ForExp(_, lo, hi, body) => EdgesAreCalls(lo, fn, x); EdgesAreCalls(hi, fn, x); EdgesAreCalls(body, fn, x);
    case CallExp(f, args) =>
      AllEdgesAreCalls(args, fn, x);
      NoCallsNoEdgesAll(args, fn);
    case LetVar(_, init, body) => EdgesAreCalls(init, fn, x); EdgesAreCalls(body, fn, x);
    case LetFuns(ds, body) => FunEdgesAreCalls(ds, x); EdgesAreCalls(body, fn, x);
    case _ =>
  }

  lemma {:induction false} AllEdgesAreCalls(es: Exps, fn: Sym, x: Edge)
    ensures x in EdgesAll(es, fn) ==> Calls(x.src, x.dst) in VisitsAll(es, fn)
    ensures NoCallsInArgsAll(es) && Calls(x.src, x.dst) in VisitsAll(es, fn) ==> x in EdgesAll(es, fn)
    decreases es
  {
    if es.Cons? { EdgesAreCalls(es.head, fn, x); AllEdgesAreCalls(es.tail, fn, x); }
  }

  lemma {:induction false} FunEdgesAreCalls(ds: Funs, x: Edge)
    ensures x in EdgesOf(ds) ==> Calls(x.src, x.dst) in VisitsOf(ds)
    ensures NoCallsInArgsFuns(ds) && Calls(x.src, x.dst) in VisitsOf(ds) ==> x in EdgesOf(ds)
    decreases ds
  {
    if ds.FunCons? {
      var d := ds.first;
      CallsInBody(d, x.src, x.dst);
      if d.Function? { EdgesAreCalls(d.body, d.name, x); }
      FunEdgesAreCalls(ds.rest, x);
    }
  }

  lemma CallsInBody(d: FunDec, f: Sym, g: Sym)
    ensures Calls(f, g) in VisitsDec(d) <==> d.Function? && Calls(f, g) in Visits(d.body, d.name)
  {
    assert Calls(f, g) !in VisitsFormals(d.formals, d.name);
  }

  /** Calls stand in the function given or in one declared inside. */
  lemma {:induction false} CallerNamed(e: Exp, fn: Sym, x: Edge)
    requires x in Edges(e, fn)
    ensures x.src == fn || Named(x.src, DecsIn(e))
    decreases e
  {
    match e
    case OpExp(l, _, r) => if x in Edges(l, fn) { CallerNamed(l, fn, x); } else { CallerNamed(r, fn, x); }
    case SeqExp(es) => AllCallerNamed(es, fn, x);
    case AssignExp(_, e1) => CallerNamed(e1, fn, x);
    case IfExp(c, t, f) =>
      if x in Edges(c, fn) { CallerNamed(c, fn, x); } else if x in Edges(t, fn) { CallerNamed(t, fn, x); } else { CallerNamed(f, fn, x); }
    case WhileExp(c, body) => if x in Edges(c, fn) { CallerNamed(c, fn, x); } else { CallerNamed(body, fn, x); }
    case ForExp(_, lo, hi, body) =>
      if x in Edges(lo, fn) { CallerNamed(lo, fn, x); }
      else if x in Edges(hi, fn) { CallerNamed(hi, fn, x); }
      else { CallerNamed(body, fn, x); }
    case CallExp(_, _) =>
    case LetVar(_, init, body) => if x in Edges(init, fn) { CallerNamed(init, fn, x); } else { CallerNamed(body, fn, x); }
    case LetFuns(ds, body) => if x in EdgesOf(ds) { FunCallerNamed(ds, x); } else { CallerNamed(body, fn, x); }
  }

  lemma {:induction false} AllCallerNamed(es: Exps, fn: Sym, x: Edge)
    requires x in EdgesAll(es, fn)
    ensures x.src == fn || Named(x.src, DecsInAll(es))
    decreases es
  {
    if x in Edges(es.head, fn) { CallerNamed(es.head, fn, x); } else { AllCallerNamed(es.tail, fn, x); }
  }

  lemma {:induction false} FunCallerNamed(ds: Funs, x: Edge)
    requires x in EdgesOf(ds)
    ensures Named(x.src, DecsOf(ds))
    decreases ds
  {
    var d := ds.first;
    assert d in DecsOf(ds);
    if d.Function? && x in Edges(d.body, d.name) { CallerNamed(d.body, d.name, x); } else { FunCallerNamed(ds.rest, x); }
  }

  // ----- nested declarations -----

  /** What is declared inside a function declared in `e` is declared in `e`. */
  lemma {:induction false} InsideInside(e: Exp, d: FunDec, h: FunDec)
    requires d in DecsIn(e) && h in BodyDecs(d)
    ensures h in DecsIn(e)
    decreases e
  {
    match e
    case OpExp(l, _, r) => if d in DecsIn(l) { InsideInside(l, d, h); } else { InsideInside(r, d, h); }
    case SeqExp(es) => AllInsideInside(es, d, h);
    case AssignExp(_, e1) => InsideInside(e1, d, h);
    case IfExp(c, t, f) =>
      if d in DecsIn(c) { InsideInside(c, d, h); } else if d in DecsIn(t) { InsideInside(t, d, h); } else { InsideInside(f, d, h); }
    case WhileExp(c, body) => if d in DecsIn(c) { InsideInside(c, d, h); } else { InsideInside(body, d, h); }
    case ForExp(_, lo, hi, body) =>
      if d in DecsIn(lo) { InsideInside(lo, d, h); } else if d in DecsIn(hi) { InsideInside(hi, d, h); } else { InsideInside(body, d, h); }
    case CallExp(_, args) => AllInsideInside(args, d, h);
    case LetVar(_, init, body) => if d in DecsIn(init) { InsideInside(init, d, h); } else { InsideInside(body, d, h); }
    case LetFuns(ds, body) => if d in DecsOf(ds) { FunsInsideInside(ds, d, h); } else { InsideInside(body, d, h); }
    case _ =>
  }

  lemma {:induction false} AllInsideInside(es: Exps, d: FunDec, h: FunDec)
    requires d in DecsInAll(es) && h in BodyDecs(d)
    ensures h in DecsInAll(es)
    decreases es
  {
    if d in DecsIn(es.head) { InsideInside(es.head, d, h); } else { AllInsideInside(es.tail, d, h); }
  }

  lemma {:induction false} FunsInsideInside(ds: Funs, d: FunDec, h: FunDec)
    requires d in DecsOf(ds) && h in BodyDecs(d)
    ensures h in DecsOf(ds)
    decreases ds
  {
    if d != ds.first {
      if d in BodyDecs(ds.first) { InsideInside(ds.first.body, d, h); } else { FunsInsideInside(ds.rest, d, h); }
    }
  }

  lemma NamedParts(f: Sym, a: seq<FunDec>, b: seq<FunDec>)
    ensures Named(f, a + b) <==> Named(f, a) || Named(f, b)
  {
    if Named(f, a) { var d :| d in a && d.name == f; assert d in a + b; }
    if Named(f, b) { var d :| d in b && d.name == f; assert d in a + b; }
  }

  lemma DistinctParts(a: seq<FunDec>, b: seq<FunDec>)
    requires Distinct(a + b)
    ensures Distinct(a) && Distinct(b) && forall f :: !(Named(f, a) && Named(f, b))
  {
    var s := a + b;
    forall i, j | 0 <= i < j < |a| ensures a[i].name != a[j].name { assert s[i] == a[i] && s[j] == a[j]; }
    forall i, j | 0 <= i < j < |b| ensures b[i].name != b[j].name { assert s[|a| + i] == b[i] && s[|a| + j] == b[j]; }
    forall i, j | 0 <= i < |a| && 0 <= j < |b| ensures a[i].name != b[j].name { assert s[i] == a[i] && s[|a| + j] == b[j]; }
  }

  /** No more distinct declarations than names. */
  lemma {:induction false} DistinctFew(ds: seq<FunDec>, names: set<Sym>)
    requires Distinct(ds) && forall d :: d in ds ==> d.name in names
    ensures |ds| <= |names|
    decreases |ds|
  {
    if ds != [] {
      FirstDiffers(ds);
      assert forall d :: d in ds[1..] ==> d in ds;
      DistinctFew(ds[1..], names - {ds[0].name});
    }
  }

  // ----- the parents -----

  /** The functions of `e` are the ones with a parent. */
  lemma {:induction false} ParentsKeys(e: Exp, p: Sym, k: Sym)
    ensures k in Parents(e, p) <==> Named(k, DecsIn(e))
    decreases e
  {
    match e
    case OpExp(l, _, r) => ParentsKeys(l, p, k); ParentsKeys(r, p, k); NamedParts(k, DecsIn(l), DecsIn(r));
    case SeqExp(es) => ParentsAllKeys(es, p, k);
    case AssignExp(_, e1) => ParentsKeys(e1, p, k);
    case IfExp(c, t, f) => ThreeKeys(c, t, f, p, k, e);
    case WhileExp(c, body) => ParentsKeys(c, p, k); ParentsKeys(body, p, k); NamedParts(k, DecsIn(c), DecsIn(body));
    case ForExp(_, lo, hi, body) => ThreeKeys(lo, hi, body, p, k, e);
    case CallExp(_, args) => ParentsAllKeys(args, p, k);
    case LetVar(_, init, body) => ParentsKeys(init, p, k); ParentsKeys(body, p, k); NamedParts(k, DecsIn(init), DecsIn(body));
    case LetFuns(ds, body) => FunsKeys(ds, p, k); ParentsKeys(body, p, k); NamedParts(k, DecsOf(ds), DecsIn(body));
    case _ =>
  }

  lemma {:induction false} ThreeKeys(a: Exp, b: Exp, c: Exp, p: Sym, k: Sym, whole: Exp)
    requires a < whole && b < whole && c < whole
    ensures k in Parents(a, p) + Parents(b, p) + Parents(c, p) <==> Named(k, DecsIn(a) + DecsIn(b) + DecsIn(c))
    decreases whole, 0
  {
    ParentsKeys(a, p, k);
    ParentsKeys(b, p, k);
    ParentsKeys(c, p, k);
    NamedParts(k, DecsIn(a), DecsIn(b));
    NamedParts(k, DecsIn(a) + DecsIn(b), DecsIn(c));
  }

  lemma {:induction false} ParentsAllKeys(es: Exps, p: Sym, k: Sym)
    ensures k in ParentsAll(es, p) <==> Named(k, DecsInAll(es))
    decreases es
  {
    if es.Cons? {
      ParentsKeys(es.head, p, k);
      ParentsAllKeys(es.tail, p, k);
      NamedParts(k, DecsIn(es.head), DecsInAll(es.tail));
    }
  }

  lemma {:induction false} FunsKeys(ds: Funs, p: Sym, k: Sym)
    ensures k in Links(ds, p) || k in Inner(ds) <==> Named(k, DecsOf(ds))
    decreases ds
  {
    if ds.FunCons? {
      var d := ds.first;
      if d.Function? { ParentsKeys(d.body, d.name, k); }
      FunsKeys(ds.rest, p, k);
      NamedParts(k, [d] + BodyDecs(d), DecsOf(ds.rest));
      NamedParts(k, [d], BodyDecs(d));
      assert d in [d];
    }
  }

  /** A function called `f` is declared, at any depth, in the body of one of `ds` called `g`. */
  ghost predicate Contains(ds: seq<FunDec>, g: Sym, f: Sym) { exists d :: d in ds && d.name == g && Named(f, BodyDecs(d)) }

  lemma ContainsMore(ds: seq<FunDec>, es: seq<FunDec>, g: Sym, f: Sym)
    requires Contains(ds, g, f) && forall d :: d in ds ==> d in es
    ensures Contains(es, g, f)
  {
    hide Named;
    var d :| d in ds && d.name == g && Named(f, BodyDecs(d));
    assert d in es;
  }

  /** A parent is the function given or one that contains the function. */
  lemma {:induction false} ParentHolds(e: Exp, p: Sym, k: Sym)
    requires k in Parents(e, p)
    ensures Parents(e, p)[k] == p || Contains(DecsIn(e), Parents(e, p)[k], k)
    decreases e
  {
    hide Contains;
    match e
    case OpExp(l, _, r) => TwoHold(l, r, p, k, e);
    case SeqExp(es) => AllHold(es, p, k);
    case AssignExp(_, e1) => ParentHolds(e1, p, k);
    case IfExp(c, t, f) => ThreeHold(c, t, f, p, k, e);
    case WhileExp(c, body) => TwoHold(c, body, p, k, e);
    case ForExp(_, lo, hi, body) => ThreeHold(lo, hi, body, p, k, e);
    case CallExp(_, args) => AllHold(args, p, k);
    case LetVar(_, init, body) => TwoHold(init, body, p, k, e);
    case LetFuns(ds, body) =>
      var v := Parents(e, p)[k];
      if k in Parents(body, p) {
        ParentHolds(body, p, k);
        if v != p { ContainsMore(DecsIn(body), DecsIn(e), v, k); }
      } else if k in Inner(ds) {
        InnerHolds(ds, k);
        ContainsMore(DecsOf(ds), DecsIn(e), v, k);
      } else {
        LinksGiven(ds, p, k);
      }
  }

  lemma {:induction false} TwoHold(a: Exp, b: Exp, p: Sym, k: Sym, whole: Exp)
    requires a < whole && b < whole && k in Parents(a, p) + Parents(b, p)
    ensures var v := (Parents(a, p) + Parents(b, p))[k]; v == p || Contains(DecsIn(a) + DecsIn(b), v, k)
    decreases whole, 0
  {
    hide Contains;
    var v := (Parents(a, p) + Parents(b, p))[k];
    if k in Parents(b, p) {
      ParentHolds(b, p, k);
      if v != p { ContainsMore(DecsIn(b), DecsIn(a) + DecsIn(b), v, k); }
    } else {
      ParentHolds(a, p, k);
      if v != p { ContainsMore(DecsIn(a), DecsIn(a) + DecsIn(b), v, k); }
    }
  }

  lemma {:induction false} ThreeHold(a: Exp, b: Exp, c: Exp, p: Sym, k: Sym, whole: Exp)
    requires a < whole && b < whole && c < whole && k in Parents(a, p) + Parents(b, p) + Parents(c, p)
    ensures var v := (Parents(a, p) + Parents(b, p) + Parents(c, p))[k]; v == p || Contains(DecsIn(a) + DecsIn(b) + DecsIn(c), v, k)
    decreases whole, 1
  {
    hide Contains;
    var v, ds := (Parents(a, p) + Parents(b, p) + Parents(c, p))[k], DecsIn(a) + DecsIn(b) + DecsIn(c);
    if k in Parents(c, p) {
      ParentHolds(c, p, k);
      if v != p { ContainsMore(DecsIn(c), ds, v, k); }
    } else {
      TwoHold(a, b, p, k, whole);
      if v != p { ContainsMore(DecsIn(a) + DecsIn(b), ds, v, k); }
    }
  }

  lemma {:induction false} AllHold(es: Exps, p: Sym, k: Sym)
    requires k in ParentsAll(es, p)
    ensures ParentsAll(es, p)[k] == p || Contains(DecsInAll(es), ParentsAll(es, p)[k], k)
    decreases es
  {
    hide Contains;
    var v := ParentsAll(es, p)[k];
    if k in ParentsAll(es.tail, p) {
      AllHold(es.tail, p, k);
      if v != p { ContainsMore(DecsInAll(es.tail), DecsInAll(es), v, k); }
    } else {
      ParentHolds(es.head, p, k);
      if v != p { ContainsMore(DecsIn(es.head), DecsInAll(es), v, k); }
    }
  }

  lemma {:induction false} LinksGiven(ds: Funs, p: Sym, k: Sym)
    requires k in Links(ds, p)
    ensures Links(ds, p)[k] == p
  {
    if k in Links(ds.rest, p) { LinksGiven(ds.rest, p, k); }
  }

  lemma {:induction false} InnerHolds(ds: Funs, k: Sym)
    requires k in Inner(ds)
    ensures Contains(DecsOf(ds), Inner(ds)[k], k)
    decreases ds
  {
    var v := Inner(ds)[k];
    if k in Inner(ds.rest) {
      InnerHolds(ds.rest, k);
      ContainsMore(DecsOf(ds.rest), DecsOf(ds), v, k);
    } else {
      var d := ds.first;
      ParentHolds(d.body, d.name, k);
      assert d in DecsOf(ds);
      if v == d.name { ParentsKeys(d.body, d.name, k); } else { ContainsMore(DecsIn(d.body), DecsOf(ds), v, k); }
    }
  }

  // ----- climbing -----

  lemma {:induction false} WithinMore(f: Sym, g: Sym, links: map<Sym, Sym>, n: nat, m: nat)
    requires Within(f, g, links, n) && n <= m
    ensures Within(f, g, links, m)
    decreases n
  {
    if f != g { WithinMore(links[f], g, links, n - 1, m - 1); }
  }

  lemma {:induction false} WithinJoin(f: Sym, g: Sym, h: Sym, links: map<Sym, Sym>, n: nat, m: nat)
    requires Within(f, g, links, n) && Within(g, h, links, m)
    ensures Within(f, h, links, n + m)
    decreases n
  {
    if f == g { WithinMore(f, h, links, m, n + m); } else if f != h { WithinJoin(links[f], g, h, links, n - 1, m); }
  }

  ghost predicate Agree(m: map<Sym, Sym>, links: map<Sym, Sym>) { forall k :: k in m ==> k in links && links[k] == m[k] }

  lemma AgreeParts(a: map<Sym, Sym>, b: map<Sym, Sym>, links: map<Sym, Sym>)
    requires Agree(a + b, links) && forall k :: !(k in a && k in b)
    ensures Agree(a, links) && Agree(b, links)
  {
    forall k | k in a ensures k in links && links[k] == a[k] { assert k in a + b && (a + b)[k] == a[k]; }
    forall k | k in b ensures k in links && links[k] == b[k] { assert k in a + b && (a + b)[k] == b[k]; }
  }

  /** `links` has the parents of the functions of `e`, which stands in `p`. */
  ghost predicate Grounded(e: Exp, p: Sym, links: map<Sym, Sym>) { Distinct(DecsIn(e)) && Agree(Parents(e, p), links) }

  ghost predicate GroundedAll(es: Exps, p: Sym, links: map<Sym, Sym>) { Distinct(DecsInAll(es)) && Agree(ParentsAll(es, p), links) }

  ghost predicate GroundedFuns(ds: Funs, p: Sym, links: map<Sym, Sym>) {
    Distinct(DecsOf(ds)) && Agree(Links(ds, p), links) && Agree(Inner(ds), links)
  }

  lemma GroundedTwo(a: Exp, b: Exp, p: Sym, links: map<Sym, Sym>)
    requires Distinct(DecsIn(a) + DecsIn(b)) && Agree(Parents(a, p) + Parents(b, p), links)
    ensures Grounded(a, p, links) && Grounded(b, p, links)
  {
    hide Distinct, Agree, Parents, DecsIn, Named;
    DistinctParts(DecsIn(a), DecsIn(b));
    forall k ensures !(k in Parents(a, p) && k in Parents(b, p)) { ParentsKeys(a, p, k); ParentsKeys(b, p, k); }
    AgreeParts(Parents(a, p), Parents(b, p), links);
  }

  lemma GroundedThree(a: Exp, b: Exp, c: Exp, p: Sym, links: map<Sym, Sym>)
    requires Distinct(DecsIn(a) + DecsIn(b) + DecsIn(c)) && Agree(Parents(a, p) + Parents(b, p) + Parents(c, p), links)
    ensures Grounded(a, p, links) && Grounded(b, p, links) && Grounded(c, p, links)
  {
    hide Distinct, Agree, Parents, DecsIn, Named;
    var ab := DecsIn(a) + DecsIn(b);
    DistinctParts(ab, DecsIn(c));
    forall k ensures !(k in Parents(a, p) + Parents(b, p) && k in Parents(c, p)) {
      ParentsKeys(a, p, k);
      ParentsKeys(b, p, k);
      ParentsKeys(c, p, k);
      NamedParts(k, DecsIn(a), DecsIn(b));
    }
    AgreeParts(Parents(a, p) + Parents(b, p), Parents(c, p), links);
    GroundedTwo(a, b, p, links);
  }

  lemma GroundedTail(es: Exps, p: Sym, links: map<Sym, Sym>)
    requires es.Cons? && GroundedAll(es, p, links)
    ensures Grounded(es.head, p, links) && GroundedAll(es.tail, p, links)
  {
    hide Distinct, Agree, Parents, DecsIn, Named;
    DistinctParts(DecsIn(es.head), DecsInAll(es.tail));
    forall k ensures !(k in Parents(es.head, p) && k in ParentsAll(es.tail, p)) {
      ParentsKeys(es.head, p, k);
      ParentsAllKeys(es.tail, p, k);
    }
    AgreeParts(Parents(es.head, p), ParentsAll(es.tail, p), links);
  }

  lemma GroundedLet(e: Exp, p: Sym, links: map<Sym, Sym>)
    requires e.LetFuns? && Grounded(e, p, links)
    ensures GroundedFuns(e.funs, p, links) && Grounded(e.body, p, links)
  {
    hide Distinct, Agree, Named, Links, Inner, DecsOf;
    var ds, body := e.funs, e.body;
    DistinctParts(DecsOf(ds), DecsIn(body));
    forall k ensures !(k in ParentsOf(ds, p) && k in Parents(body, p)) { FunsKeys(ds, p, k); ParentsKeys(body, p, k); }
    AgreeParts(ParentsOf(ds, p), Parents(body, p), links);
    DistinctFuns(ds, p);
    AgreeParts(Links(ds, p), Inner(ds), links);
  }

  /** In a chunk of distinct functions none is inside another of the same name. */
  lemma {:induction false} DistinctFuns(ds: Funs, p: Sym)
    requires Distinct(DecsOf(ds))
    ensures forall k :: !(k in Links(ds, p) && k in Inner(ds))
  {
    hide Distinct, Named, Parents;
    if ds.FunCons? {
      var d := ds.first;
      var rest := DecsOf(ds.rest);
      DistinctParts([d] + BodyDecs(d), rest);
      DistinctParts([d], BodyDecs(d));
      DistinctFuns(ds.rest, p);
      forall k ensures !(k in Links(ds, p) && k in Inner(ds)) {
        FunsKeys(ds.rest, p, k);
        NamedParts(k, [d], BodyDecs(d));
        if d.Function? { ParentsKeys(d.body, d.name, k); }
        NamedItself(d);
      }
    }
  }

  lemma NamedItself(d: FunDec)
    ensures Named(d.name, [d])
  {
    assert d in [d];
  }

  lemma NamedIn(d: FunDec, ds: seq<FunDec>)
    requires d in ds
    ensures Named(d.name, ds)
  {}

  lemma GroundedRest(ds: Funs, p: Sym, links: map<Sym, Sym>)
    requires ds.FunCons? && GroundedFuns(ds, p, links)
    ensures var d := ds.first; d.name in links && links[d.name] == p && (d.Function? ==> Grounded(d.body, d.name, links))
    ensures GroundedFuns(ds.rest, p, links)
  {
    hide Distinct, Named, Parents, DecsIn;
    var d := ds.first;
    var one, in1 := map[d.name := p], if d.Function? then Parents(d.body, d.name) else map[];
    DistinctParts([d] + BodyDecs(d), DecsOf(ds.rest));
    DistinctParts([d], BodyDecs(d));
    NamedItself(d);
    NamedParts(d.name, [d], BodyDecs(d));
    forall k ensures !(k in one && k in Links(ds.rest, p)) && !(k in in1 && k in Inner(ds.rest)) {
      FunsKeys(ds.rest, p, k);
      NamedParts(k, [d], BodyDecs(d));
      if d.Function? { ParentsKeys(d.body, d.name, k); }
    }
    AgreeParts(one, Links(ds.rest, p), links);
    AgreeParts(in1, Inner(ds.rest), links);
    assert d.name in one;
  }

  /** From a function of `e` the way up leads to the function `e` stands in. */
  lemma {:induction false} Climbs(e: Exp, p: Sym, links: map<Sym, Sym>, h: FunDec)
    requires Grounded(e, p, links) && h in DecsIn(e)
    ensures Within(h.name, p, links, |DecsIn(e)|)
    decreases e
  {
    hide Distinct, Agree, Within, Parents;
    var n := |DecsIn(e)|;
    ParentsUnfold(e, p);
    match e
    case OpExp(l, _, r) =>
      GroundedTwo(l, r, p, links);
      ClimbsOne(if h in DecsIn(l) then l else r, p, links, h, n, e);
    case SeqExp(es) => ClimbsAll(es, p, links, h);
    case AssignExp(_, e1) => Climbs(e1, p, links, h);
    case IfExp(c, t, f) =>
      GroundedThree(c, t, f, p, links);
      ClimbsOne(if h in DecsIn(c) then c else if h in DecsIn(t) then t else f, p, links, h, n, e);
    case WhileExp(c, body) =>
      GroundedTwo(c, body, p, links);
      ClimbsOne(if h in DecsIn(c) then c else body, p, links, h, n, e);
    case ForExp(_, lo, hi, body) =>
      GroundedThree(lo, hi, body, p, links);
      ClimbsOne(if h in DecsIn(lo) then lo else if h in DecsIn(hi) then hi else body, p, links, h, n, e);
    case CallExp(_, args) => ClimbsAll(args, p, links, h);
    case LetVar(_, init, body) =>
      GroundedTwo(init, body, p, links);
      ClimbsOne(if h in DecsIn(init) then init else body, p, links, h, n, e);
    case LetFuns(ds, body) =>
      GroundedLet(e, p, links);
      if h in DecsOf(ds) {
        ClimbsFuns(ds, p, links, h);
        WithinMore(h.name, p, links, |DecsOf(ds)|, n);
      } else {
        ClimbsOne(body, p, links, h, n, e);
      }
  }

  /** What `Parents` is, one constructor down. */
  lemma ParentsUnfold(e: Exp, p: Sym)
    ensures match e
      case OpExp(l, _, r) => Parents(e, p) == Parents(l, p) + Parents(r, p)
      case SeqExp(es) => Parents(e, p) == ParentsAll(es, p)
      case AssignExp(_, e1) => Parents(e, p) == Parents(e1, p)
      case IfExp(c, t, f) => Parents(e, p) == Parents(c, p) + Parents(t, p) + Parents(f, p)
      case WhileExp(c, body) => Parents(e, p) == Parents(c, p) + Parents(body, p)
      case ForExp(_, lo, hi, body) => Parents(e, p) == Parents(lo, p) + Parents(hi, p) + Parents(body, p)
      case CallExp(_, args) => Parents(e, p) == ParentsAll(args, p)
      case LetVar(_, init, body) => Parents(e, p) == Parents(init, p) + Parents(body, p)
      case LetFuns(ds, body) => Parents(e, p) == ParentsOf(ds, p) + Parents(body, p)
      case _ => Parents(e, p) == map[]
  {}

  lemma {:induction false} ClimbsOne(part: Exp, p: Sym, links: map<Sym, Sym>, h: FunDec, n: nat, whole: Exp)
    requires part < whole && Grounded(part, p, links) && h in DecsIn(part) && |DecsIn(part)| <= n
    ensures Within(h.name, p, links, n)
    decreases whole, 0
  {
    hide Grounded, DecsIn, Within;
    Climbs(part, p, links, h);
    WithinMore(h.name, p, links, |DecsIn(part)|, n);
  }

  lemma {:induction false} ClimbsAll(es: Exps, p: Sym, links: map<Sym, Sym>, h: FunDec)
    requires GroundedAll(es, p, links) && h in DecsInAll(es)
    ensures Within(h.name, p, links, |DecsInAll(es)|)
    decreases es
  {
    hide Distinct, Agree, Within, Parents, ParentsAll;
    GroundedTail(es, p, links);
    var n := |DecsInAll(es)|;
    if h in DecsIn(es.head) {
      Climbs(es.head, p, links, h);
      WithinMore(h.name, p, links, |DecsIn(es.head)|, n);
    } else {
      ClimbsAll(es.tail, p, links, h);
      WithinMore(h.name, p, links, |DecsInAll(es.tail)|, n);
    }
  }

  lemma {:induction false} ClimbsFuns(ds: Funs, p: Sym, links: map<Sym, Sym>, h: FunDec)
    requires GroundedFuns(ds, p, links) && h in DecsOf(ds)
    ensures Within(h.name, p, links, |DecsOf(ds)|)
    decreases ds
  {
    hide GroundedFuns, Grounded, Within, DecsIn;
    GroundedRest(ds, p, links);
    var d, n := ds.first, |DecsOf(ds)|;
    OneStep(d.name, p, links);
    if h == d {
      WithinMore(h.name, p, links, 1, n);
    } else if d.Function? && h in DecsIn(d.body) {
      Climbs(d.body, d.name, links, h);
      WithinJoin(h.name, d.name, p, links, |DecsIn(d.body)|, 1);
      WithinMore(h.name, p, links, |DecsIn(d.body)| + 1, n);
    } else {
      ClimbsFuns(ds.rest, p, links, h);
      WithinMore(h.name, p, links, |DecsOf(ds.rest)|, n);
    }
  }

  lemma OneStep(f: Sym, p: Sym, links: map<Sym, Sym>)
    requires f in links && links[f] == p
    ensures Within(f, p, links, 1)
  {}

  /** The bodies of functions inside have their parents in `links` too. */
  lemma {:induction false} GroundedInside(e: Exp, p: Sym, links: map<Sym, Sym>, d: FunDec)
    requires Grounded(e, p, links) && d in DecsIn(e) && d.Function?
    ensures Grounded(d.body, d.name, links)
    decreases e
  {
    hide Distinct, Agree, Parents;
    ParentsUnfold(e, p);
    match e
    case OpExp(l, _, r) =>
      GroundedTwo(l, r, p, links);
      GroundedInside(if d in DecsIn(l) then l else r, p, links, d);
    case SeqExp(es) => GroundedInsideAll(es, p, links, d);
    case AssignExp(_, e1) => GroundedInside(e1, p, links, d);
    case IfExp(c, t, f) =>
      GroundedThree(c, t, f, p, links);
      GroundedInside(if d in DecsIn(c) then c else if d in DecsIn(t) then t else f, p, links, d);
    case WhileExp(c, body) =>
      GroundedTwo(c, body, p, links);
      GroundedInside(if d in DecsIn(c) then c else body, p, links, d);
    case ForExp(_, lo, hi, body) =>
      GroundedThree(lo, hi, body, p, links);
      GroundedInside(if d in DecsIn(lo) then lo else if d in DecsIn(hi) then hi else body, p, links, d);
    case CallExp(_, args) => GroundedInsideAll(args, p, links, d);
    case LetVar(_, init, body) =>
      GroundedTwo(init, body, p, links);
      GroundedInside(if d in DecsIn(init) then init else body, p, links, d);
    case LetFuns(ds, body) =>
      GroundedLet(e, p, links);
      if d in DecsOf(ds) { GroundedInsideFuns(ds, p, links, d); } else { GroundedInside(body, p, links, d); }
  }

  lemma {:induction false} GroundedInsideAll(es: Exps, p: Sym, links: map<Sym, Sym>, d: FunDec)
    requires GroundedAll(es, p, links) && d in DecsInAll(es) && d.Function?
    ensures Grounded(d.body, d.name, links)
    decreases es
  {
    hide Distinct, Agree, Parents, ParentsAll;
    GroundedTail(es, p, links);
    if d in DecsIn(es.head) { GroundedInside(es.head, p, links, d); } else { GroundedInsideAll(es.tail, p, links, d); }
  }

  lemma {:induction false} GroundedInsideFuns(ds: Funs, p: Sym, links: map<Sym, Sym>, d: FunDec)
    requires GroundedFuns(ds, p, links) && d in DecsOf(ds) && d.Function?
    ensures Grounded(d.body, d.name, links)
    decreases ds
  {
    hide GroundedFuns, Grounded;
    GroundedRest(ds, p, links);
    if d != ds.first {
      if d in BodyDecs(ds.first) { GroundedInside(ds.first.body, ds.first.name, links, d); }
      else { GroundedInsideFuns(ds.rest, p, links, d); }
    }
  }

  // ----- a program -----

  lemma MainNamed(q: Program)
    requires Renamed(q)
    ensures q.main.Function? && q.main.name == MAIN
  {}

  lemma ProgramGrounded(q: Program)
    requires Renamed(q)
    ensures q.main.Function? && q.main.name == MAIN && q.main in q.Decs()
    ensures var links := ProgramLinks(q);
      && Grounded(q.main.body, MAIN, links) && MAIN in links && links[MAIN] == FirstVertex(q)
      && (forall d :: d in DecsOf(q.Chunk()) ==> d.name in links) && Distinct(DecsOf(q.Chunk()))
  {
    hide Accepted, Distinct, Named, Parents, DecsIn;
    MainNamed(q);
    var first, links := FirstVertex(q), ProgramLinks(q);
    DistinctParts(DecsOf(q.prims), DecsOf(q.Chunk()));
    DistinctFuns(q.Chunk(), first);
    assert Agree(ParentsOf(q.Chunk(), first), links);
    AgreeParts(Links(q.Chunk(), first), Inner(q.Chunk()), links);
    GroundedRest(q.Chunk(), first, links);
    forall d | d in DecsOf(q.Chunk()) ensures d.name in links {
      FunsKeys(q.Chunk(), first, d.name);
      NamedIn(d, DecsOf(q.Chunk()));
    }
    assert DecsOf(q.Chunk())[0] == q.main;
    assert q.Decs()[|DecsOf(q.prims)|] == q.main;
  }

  /** A function with a body, by name. */
  ghost predicate HasBody(q: Program, f: Sym)
    requires q.main.Function?
  {
    f == MAIN || Named(f, DecsIn(q.main.body))
  }

  lemma SourcesHaveBodies(q: Program, x: Edge)
    requires q.main.Function? && x in Closure(Edges(q.main.body, MAIN))
    ensures HasBody(q, x.src)
  {
    hide Closure, AllEdges, Edges, Named, DecsIn;
    var r := Edges(q.main.body, MAIN);
    AllEdgesClosed(r);
    ClosureIsLeast(r, AllEdges(r));
    var e1 := EdgeFrom(r, x);
    CallerNamed(q.main.body, MAIN, e1);
  }

  lemma AllEdgesClosed(r: set<Edge>)
    ensures r <= AllEdges(r) && Transitive(AllEdges(r))
  {
    var all := AllEdges(r);
    forall a, b, c | Edge(a, b) in all && Edge(b, c) in all ensures Edge(a, c) in all {
      var e1 :| e1 in r && e1.src == a;
      var e2 :| e2 in r && e2.dst == c;
      assert Edge(e1.src, e2.dst) in all;
    }
    forall e | e in r ensures e in all { assert Edge(e.src, e.dst) in all; }
  }

  lemma EdgeFrom(r: set<Edge>, x: Edge) returns (e1: Edge)
    requires x in AllEdges(r)
    ensures e1 in r && e1.src == x.src
  {
    e1 :| e1 in r && e1.src == x.src;
  }

  /** A function stands in one: its parent, or one that contains its parent. */
  lemma ParentOf(q: Program, f: Sym)
    requires Renamed(q) && q.main.Function? && Named(f, DecsIn(q.main.body))
    ensures var links := ProgramLinks(q);
      f in links && (links[f] == MAIN || Contains(DecsIn(q.main.body), links[f], f)) && HasBody(q, links[f])
  {
    hide Renamed, Named, Parents, DecsIn, Contains;
    ProgramGrounded(q);
    ParentsKeys(q.main.body, MAIN, f);
    ParentHolds(q.main.body, MAIN, f);
    var p := ProgramLinks(q)[f];
    if p != MAIN { ContainerNamed(DecsIn(q.main.body), p, f); }
  }

  lemma ContainerNamed(ds: seq<FunDec>, g: Sym, f: Sym)
    requires Contains(ds, g, f)
    ensures Named(g, ds)
  {}

  /** Going up from `f` comes to `f`, to functions that contain it, and at last to the first vertex. */
  lemma {:induction false} UpIsOut(q: Program, f: Sym, g: Sym, n: nat)
    requires Renamed(q) && q.main.Function? && HasBody(q, f) && Within(f, g, ProgramLinks(q), n)
    ensures f == g || g == FirstVertex(q) || Contains(q.Decs(), g, f)
    decreases n
  {
    hide Renamed, Named, Contains, ProgramLinks, DecsIn;
    var links := ProgramLinks(q);
    ProgramGrounded(q);
    if f == g {
    } else if f == MAIN {
      FirstStops(q, g, n - 1);
    } else {
      ParentOf(q, f);
      var p := links[f];
      UpIsOut(q, p, g, n - 1);
      if p == MAIN { MainContains(q, f); } else { InDecs(q, p, f); }
      if p != g && g != FirstVertex(q) { ContainsThrough(q, g, p, f); }
    }
  }

  lemma FirstStops(q: Program, g: Sym, n: nat)
    requires Renamed(q) && Within(FirstVertex(q), g, ProgramLinks(q), n)
    ensures g == FirstVertex(q)
  {
    hide Renamed;
    ProgramGrounded(q);
    if q.prims.FunCons? { FirstLinked(q); }
  }

  /** The first vertex is its own parent. */
  lemma FirstLinked(q: Program)
    requires Renamed(q) && q.prims.FunCons?
    ensures FirstVertex(q) in ProgramLinks(q) && ProgramLinks(q)[FirstVertex(q)] == FirstVertex(q)
  {
    hide Accepted, Named, Parents, DecsIn, DecsOf, Links, Inner;
    var first := FirstVertex(q);
    OnlyPrims(q);
    PrimsLinked(q.prims, first);
    DistinctParts(DecsOf(q.prims), DecsOf(q.Chunk()));
    FirstNamed(q.prims);
    FunsKeys(q.Chunk(), first, first);
  }

  lemma OnlyPrims(q: Program)
    requires Renamed(q)
    ensures Prelude(q.prims)
  {}

  lemma FirstNamed(ds: Funs)
    requires ds.FunCons?
    ensures Named(ds.first.name, DecsOf(ds))
  {
    assert ds.first in DecsOf(ds);
  }

  lemma {:induction false} PrimsLinked(ds: Funs, p: Sym)
    requires ds.FunCons? && Prelude(ds)
    ensures Inner(ds) == map[] && ds.first.name in Links(ds, p) && Links(ds, p)[ds.first.name] == p
  {
    LinksGiven(ds, p, ds.first.name);
    NoInner(ds);
  }

  lemma {:induction false} NoInner(ds: Funs)
    requires Prelude(ds)
    ensures Inner(ds) == map[]
  {
    if ds.FunCons? { NoInner(ds.rest); }
  }

  lemma MainContains(q: Program, f: Sym)
    requires Renamed(q) && q.main.Function? && Named(f, DecsIn(q.main.body))
    ensures Contains(q.Decs(), MAIN, f)
  {
    hide Renamed, Named, DecsIn;
    ProgramGrounded(q);
    assert BodyDecs(q.main) == DecsIn(q.main.body);
  }

  lemma InDecs(q: Program, g: Sym, f: Sym)
    requires q.main.Function? && Contains(DecsIn(q.main.body), g, f)
    ensures Contains(q.Decs(), g, f)
  {
    hide Contains;
    forall d | d in DecsIn(q.main.body) ensures d in q.Decs() { assert d in DecsOf(q.Chunk()); }
    ContainsMore(DecsIn(q.main.body), q.Decs(), g, f);
  }

  /** What is inside a function is inside what contains the function. */
  lemma ContainsThrough(q: Program, g: Sym, p: Sym, f: Sym)
    requires Renamed(q) && Contains(q.Decs(), g, p) && Contains(q.Decs(), p, f)
    ensures Contains(q.Decs(), g, f)
  {
    hide Accepted, Distinct, DecsIn, DecsOf;
    var d :| d in q.Decs() && d.name == g && Named(p, BodyDecs(d));
    var h :| h in BodyDecs(d) && h.name == p;
    var d2 :| d2 in q.Decs() && d2.name == p && Named(f, BodyDecs(d2));
    var h2 :| h2 in BodyDecs(d2) && h2.name == f;
    DecsInside(q, d, h);
    OneOfName(q.Decs(), h, d2);
    InsideInside(d.body, h, h2);
    assert Named(f, BodyDecs(d));
  }

  lemma DecsInside(q: Program, d: FunDec, h: FunDec)
    requires d in q.Decs() && h in BodyDecs(d)
    ensures h in q.Decs()
  {
    hide DecsIn, DecsOf, BodyDecs;
    if d in DecsOf(q.prims) { FunsInsideInside(q.prims, d, h); } else { FunsInsideInside(q.Chunk(), d, h); }
  }

  lemma OneOfName(ds: seq<FunDec>, d: FunDec, h: FunDec)
    requires Distinct(ds) && d in ds && h in ds && d.name == h.name
    ensures d == h
  {}

  /** And it comes to each of them. */
  lemma OutIsUp(q: Program, f: Sym, g: Sym)
    requires Renamed(q) && q.main.Function? && HasBody(q, f) && (f == g || g == FirstVertex(q) || Contains(q.Decs(), g, f))
    ensures Within(f, g, ProgramLinks(q), |ProgramLinks(q)|)
  {
    hide Renamed, Named, Contains, ProgramLinks, DecsIn, DecsOf, Within;
    var links, n := ProgramLinks(q), |ProgramLinks(q)|;
    if f == g {
      WithinItself(f, links, n);
    } else if Contains(q.Decs(), g, f) {
      ContainedClimbs(q, f, g);
    } else {
      TopClimbs(q, f);
    }
  }

  lemma WithinItself(f: Sym, links: map<Sym, Sym>, n: nat)
    ensures Within(f, f, links, n)
  {}

  lemma TopClimbs(q: Program, f: Sym)
    requires Renamed(q) && q.main.Function? && HasBody(q, f)
    ensures Within(f, FirstVertex(q), ProgramLinks(q), |ProgramLinks(q)|)
  {
    hide Renamed, ProgramLinks, DecsIn, Within, Distinct, Grounded;
    var links, k := ProgramLinks(q), |DecsIn(q.main.body)|;
    ProgramGrounded(q);
    DistinctFew(DecsOf(q.Chunk()), links.Keys);
    ChunkCount(q);
    OneStep(MAIN, FirstVertex(q), links);
    if f == MAIN {
      WithinMore(f, FirstVertex(q), links, 1, |links|);
    } else {
      var h :| h in DecsIn(q.main.body) && h.name == f;
      Climbs(q.main.body, MAIN, links, h);
      WithinJoin(f, MAIN, FirstVertex(q), links, k, 1);
      WithinMore(f, FirstVertex(q), links, k + 1, |links|);
    }
  }

  lemma ChunkCount(q: Program)
    requires q.main.Function?
    ensures |DecsOf(q.Chunk())| == |DecsIn(q.main.body)| + 1
    ensures forall d :: d in DecsOf(q.Chunk()) <==> d == q.main || d in DecsIn(q.main.body)
  {
    assert DecsOf(NoFun) == [];
    assert DecsOf(q.Chunk()) == [q.main] + DecsIn(q.main.body);
  }

  lemma ContainedClimbs(q: Program, f: Sym, g: Sym)
    requires Renamed(q) && q.main.Function? && Contains(q.Decs(), g, f)
    ensures Within(f, g, ProgramLinks(q), |ProgramLinks(q)|)
  {
    hide Renamed, ProgramLinks, DecsIn, DecsOf, Within, Distinct, Agree, Parents;
    var links := ProgramLinks(q);
    ProgramGrounded(q);
    var d :| d in q.Decs() && d.name == g && Named(f, BodyDecs(d));
    var h :| h in BodyDecs(d) && h.name == f;
    BodyInText(q, d, h);
    if d != q.main { GroundedInside(q.main.body, MAIN, links, d); }
    Climbs(d.body, g, links, h);
    ChunkCount(q);
    forall x | x in DecsIn(d.body) ensures x.name in links {
      if d != q.main { InsideInside(q.main.body, d, x); }
    }
    DistinctFew(DecsIn(d.body), links.Keys);
    WithinMore(f, g, links, |DecsIn(d.body)|, |links|);
  }

  lemma BodyInText(q: Program, d: FunDec, h: FunDec)
    requires Renamed(q) && q.main.Function? && d in q.Decs() && h in BodyDecs(d)
    ensures d == q.main || d in DecsIn(q.main.body)
  {
    hide DecsIn;
    ChunkCount(q);
    if d in DecsOf(q.prims) { PrimsOnly(q.prims, d); }
  }

  /** A function is taken for recursive if and only if it is reached in the call graph from itself or from
      a function declared, at whatever depth, in its body; and the first primitive if it is called. */
  lemma RecursiveExactly(q: Program, g: Sym)
    requires Renamed(q)
    ensures q.main.Function?
    ensures g in RecFuns(Edges(q.main.body, MAIN), ProgramLinks(q))
      <==> exists f :: Edge(f, g) in Closure(Edges(q.main.body, MAIN))
                       && (f == g || Contains(q.Decs(), g, f) || (q.prims.FunCons? && g == q.prims.first.name))
  {
    hide Renamed, Closure, Edges, Contains, ProgramLinks, Within, HasBody;
    RenamedMain(q);
    var r, links := Edges(q.main.body, MAIN), ProgramLinks(q);
    if g in RecFuns(r, links) {
      var x :| x in Closure(r) && Within(x.src, x.dst, links, |links|) && x.dst == g;
      SourcesHaveBodies(q, x);
      UpIsOut(q, x.src, g, |links|);
      assert Edge(x.src, g) in Closure(r);
      if q.prims.NoFun? && x.src != g && !Contains(q.Decs(), g, x.src) { BodyInMain(q, x.src); }
    }
    if f :| Edge(f, g) in Closure(r) && (f == g || Contains(q.Decs(), g, f) || (q.prims.FunCons? && g == q.prims.first.name)) {
      SourcesHaveBodies(q, Edge(f, g));
      OutIsUp(q, f, g);
      assert Edge(f, g).dst in RecFuns(r, links);
    }
  }

  lemma BodyInMain(q: Program, f: Sym)
    requires Renamed(q) && q.main.Function? && HasBody(q, f) && f != MAIN
    ensures Contains(q.Decs(), MAIN, f)
  {
    hide Renamed, Contains, Named;
    MainContains(q, f);
  }

  /** What the inliner's constructor finds. */
  method Detected(q: Program) returns (recs: set<Sym>)
    requires Renamed(q)
    ensures q.main.Function?
    ensures forall g :: g in recs <==>
      exists f :: Edge(f, g) in Closure(Edges(q.main.body, MAIN))
                  && (f == g || Contains(q.Decs(), g, f) || (q.prims.FunCons? && g == q.prims.first.name))
  {
    hide Renamed, Closure, Edges, Contains, ProgramLinks, RecFuns, DefsOf;
    RenamedMain(q);
    var edges, links := Graphs(q);
    var inliner := new Inliner(DefsOf(q.Decs()), edges, links);
    recs := inliner.recs;
    forall g ensures g in recs <==>
      exists f :: Edge(f, g) in Closure(Edges(q.main.body, MAIN))
                  && (f == g || Contains(q.Decs(), g, f) || (q.prims.FunCons? && g == q.prims.first.name)) {
      RecursiveExactly(q, g);
    }
  }
}
