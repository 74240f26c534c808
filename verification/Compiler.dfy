/** The whole compiler, with escape analysis and lambda lifting in place. */
module Compiler {
  import opened Int32
  import opened Options
  import opened Tiger
  import opened Cfg
  import opened Check
  import opened Translate
  import opened Link
  import opened Programs
  import opened Codegen
  import opened Rename
  import opened Hygiene
  import opened Escapes
  import opened Collector
  import opened Lifting
  import opened Pipeline
  import opened Desugar
  import Evaluation

  // ----- a checked tree is read in scope -----

  /** Every use is of a variable of `pre` or of one declared before. */
  ghost predicate ReadsBound(pre: set<Sym>, vs: seq<Visit>) {
    forall i :: 0 <= i < |vs| && vs[i].Reads? ==> vs[i].x in pre || DeclaredIn(vs[..i], vs[i].x)
  }

  lemma ReadsBoundBoth(pre: set<Sym>, a: seq<Visit>, b: seq<Visit>)
    requires ReadsBound(pre, a) && ReadsBound(pre, b)
    ensures ReadsBound(pre, a + b)
  {
    var vs := a + b;
    forall i | 0 <= i < |vs| && vs[i].Reads? ensures vs[i].x in pre || DeclaredIn(vs[..i], vs[i].x) {
      if i < |a| {
        assert vs[i] == a[i] && vs[..i] == a[..i];
      } else {
        var j := i - |a|;
        assert vs[i] == b[j] && vs[..i] == a + b[..j];
        if b[j].x !in pre {
          var f :| Declares(b[j].x, f) in b[..j];
          assert Declares(b[j].x, f) in vs[..i];
        }
      }
    }
  }

  lemma ReadsBoundAfter(pre: set<Sym>, x: Sym, fn: Sym, b: seq<Visit>)
    requires ReadsBound(pre + {x}, b)
    ensures ReadsBound(pre, [Declares(x, fn)] + b)
  {
    var vs := [Declares(x, fn)] + b;
    forall i | 0 <= i < |vs| && vs[i].Reads? ensures vs[i].x in pre || DeclaredIn(vs[..i], vs[i].x) {
      var j := i - 1;
      assert vs[i] == b[j] && vs[..i] == [Declares(x, fn)] + b[..j];
      if b[j].x == x {
        assert Declares(x, fn) in vs[..i];
      } else if b[j].x !in pre {
        var f :| Declares(b[j].x, f) in b[..j];
        assert Declares(b[j].x, f) in vs[..i];
      }
    }
  }

  lemma {:induction false} ReadsBoundFormals(pre: set<Sym>, xs: seq<Sym>, fn: Sym, b: seq<Visit>)
    requires ReadsBound(pre + Names(xs), b)
    ensures ReadsBound(pre, VisitsFormals(xs, fn) + b)
    decreases |xs|
  {
    if xs == [] {
      assert pre + Names(xs) == pre;
      assert VisitsFormals(xs, fn) + b == b;
    } else {
      assert pre + Names(xs) == (pre + {xs[0]}) + Names(xs[1..]) by { assert xs == [xs[0]] + xs[1..]; }
      ReadsBoundFormals(pre + {xs[0]}, xs[1..], fn, b);
      ReadsBoundAfter(pre, xs[0], fn, VisitsFormals(xs[1..], fn) + b);
      assert VisitsFormals(xs, fn) + b == [Declares(xs[0], fn)] + (VisitsFormals(xs[1..], fn) + b);
    }
  }

  lemma {:induction false} FormalsScopeKeys(sc: Scope, xs: seq<Sym>)
    ensures sc.Formals(xs).vars.Keys == sc.vars.Keys + Names(xs)
    decreases |xs|
  {
    if xs != [] {
      FormalsScopeKeys(sc.Var(xs[0], false), xs[1..]);
      assert Names(xs) == {xs[0]} + Names(xs[1..]) by { assert xs == [xs[0]] + xs[1..]; }
    }
  }

  lemma {:induction false} TypedReads(e: Exp, sc: Scope, inLoop: bool, fn: Sym)
    requires TypeOf(e, sc, inLoop).Some?
    ensures ReadsBound(sc.vars.Keys, Visits(e, fn))
    decreases e
  {
    hide ReadsBound;
    var pre := sc.vars.Keys;
    match e
    case IntExp(_) => ReadsBoundNone(pre);
    case VarExp(x) => ReadsBoundOne(pre, x, fn);
    case OpExp(l, _, r) =>
      TypedReads(l, sc, inLoop, fn);
      TypedReads(r, sc, inLoop, fn);
      ReadsBoundBoth(pre, Visits(l, fn), Visits(r, fn));
    case SeqExp(es) =>
      Evaluation.TypedParts(es, sc, inLoop);
      AllTypedReads(es, sc, inLoop, fn);
    case AssignExp(x, e1) =>
      ReadsBoundOne(pre, x, fn);
      TypedReads(e1, sc, inLoop, fn);
      ReadsBoundBoth(pre, [Reads(x, fn)], Visits(e1, fn));
    case IfExp(c, t, f) =>
      TypedReads(c, sc, inLoop, fn);
      TypedReads(t, sc, inLoop, fn);
      TypedReads(f, sc, inLoop, fn);
      ReadsBoundBoth(pre, Visits(t, fn), Visits(f, fn));
      ReadsBoundBoth(pre, Visits(c, fn), Visits(t, fn) + Visits(f, fn));
    case WhileExp(c, body) =>
      TypedReads(c, sc, inLoop, fn);
      TypedReads(body, sc, true, fn);
      ReadsBoundBoth(pre, Visits(c, fn), Visits(body, fn));
    case ForExp(i, lo, hi, body) => ForReads(i, lo, hi, body, sc, inLoop, fn);
    case BreakExp => ReadsBoundNone(pre);
    case CallExp(f, args) =>
      Evaluation.TypedParts(args, sc, inLoop);
      AllTypedReads(args, sc, inLoop, fn);
      ReadsBoundCall(pre, fn, f);
      ReadsBoundBoth(pre, VisitsAll(args, fn), [Calls(fn, f)]);
    case LetVar(x, init, body) =>
      ReadsMore(pre, {x}, Visits(init, fn)) by { TypedReads(init, sc, inLoop, fn); }
      TypedReads(body, sc.Var(x, false), inLoop, fn);
      assert sc.Var(x, false).vars.Keys == pre + {x};
      ReadsBoundBoth(pre + {x}, Visits(init, fn), Visits(body, fn));
      ReadsBoundAfter(pre, x, fn, Visits(init, fn) + Visits(body, fn));
    case LetFuns(ds, body) =>
      FunsTypedReads(ds, sc.Chunk(ds));
      TypedReads(body, sc.Chunk(ds), inLoop, fn);
      ReadsBoundBoth(pre, VisitsOf(ds), Visits(body, fn));
  }

  lemma ReadsBoundNone(pre: set<Sym>)
    ensures ReadsBound(pre, [])
  {}

  lemma ReadsBoundOne(pre: set<Sym>, x: Sym, fn: Sym)
    requires x in pre
    ensures ReadsBound(pre, [Reads(x, fn)])
  {}

  lemma ReadsBoundCall(pre: set<Sym>, fn: Sym, f: Sym)
    ensures ReadsBound(pre, [Calls(fn, f)])
  {}

  lemma ReadsMore(pre: set<Sym>, more: set<Sym>, vs: seq<Visit>)
    requires ReadsBound(pre, vs)
    ensures ReadsBound(pre + more, vs)
  {}

  lemma {:induction false} ForReads(i: Sym, lo: Exp, hi: Exp, body: Exp, sc: Scope, inLoop: bool, fn: Sym)
    requires TypeOf(ForExp(i, lo, hi, body), sc, inLoop).Some?
    ensures ReadsBound(sc.vars.Keys, Visits(ForExp(i, lo, hi, body), fn))
    decreases ForExp(i, lo, hi, body), 0
  {
    hide ReadsBound;
    var pre := sc.vars.Keys;
    TypedReads(hi, sc, inLoop, fn);
    TypedReads(body, sc.Var(i, true), true, fn);
    assert sc.Var(i, true).vars.Keys == pre + {i};
    ReadsBoundNone(pre + {i});
    ReadsMore(pre, {i}, Visits(hi, fn));
    ReadsBoundBoth(pre + {i}, Visits(hi, fn), Visits(body, fn));
    ReadsBoundBoth(pre + {i}, Visits(lo, fn), Visits(hi, fn) + Visits(body, fn));
    ReadsBoundAfter(pre, i, fn, Visits(lo, fn) + (Visits(hi, fn) + Visits(body, fn)));
  }

  lemma {:induction false} AllTypedReads(es: Exps, sc: Scope, inLoop: bool, fn: Sym)
    requires Evaluation.SeqTyped(es, sc, inLoop)
    ensures ReadsBound(sc.vars.Keys, VisitsAll(es, fn))
    decreases es
  {
    hide ReadsBound;
    if es == NoExp {
      ReadsBoundNone(sc.vars.Keys);
    } else {
      TypedReads(es.head, sc, inLoop, fn);
      AllTypedReads(es.tail, sc, inLoop, fn);
      ReadsBoundBoth(sc.vars.Keys, Visits(es.head, fn), VisitsAll(es.tail, fn));
    }
  }

  lemma {:induction false} FunsTypedReads(ds: Funs, sc: Scope)
    requires ChunkOk(ds, sc)
    ensures ReadsBound(sc.vars.Keys, VisitsOf(ds))
    decreases ds
  {
    hide ReadsBound;
    var pre := sc.vars.Keys;
    ReadsBoundNone(pre);
    if ds.FunCons? {
      var d := ds.first;
      var b := if d.Function? then Visits(d.body, d.name) else [];
      assert VisitsDec(d) == VisitsFormals(d.formals, d.name) + b;
      FormalsScopeKeys(sc, d.formals);
      if d.Function? {
        TypedReads(d.body, sc.Formals(d.formals), false, d.name);
      } else {
        ReadsBoundNone(pre + Names(d.formals));
      }
      ReadsBoundFormals(pre, d.formals, d.name, b);
      FunsTypedReads(ds.rest, sc);
      ReadsBoundBoth(pre, VisitsDec(d), VisitsOf(ds.rest));
    }
  }

  // ----- a renamed tree declares each variable once -----

  /** Different variables, each named with a count from `stamps`. */
  ghost predicate Counted(vs: seq<Visit>, stamps: set<nat>) {
    && (forall i :: 0 <= i < |vs| && vs[i].Declares? ==> StampedName(vs[i].x, stamps))
    && (forall i, j :: 0 <= i < j < |vs| && vs[i].Declares? && vs[j].Declares? ==> vs[i].x != vs[j].x)
  }

  ghost predicate StampedName(x: Sym, stamps: set<nat>) { exists y, k: nat :: x == Fresh(y, k) && k in stamps }

  lemma StampedNamesDiffer(x: Sym, s: set<nat>, y: Sym, t: set<nat>)
    requires StampedName(x, s) && StampedName(y, t) && s !! t
    ensures x != y
  {
    var a, k: nat :| x == Fresh(a, k) && k in s;
    var b, l: nat :| y == Fresh(b, l) && l in t;
    if x == y { FreshInjective(a, k, b, l); }
  }

  lemma CountedBoth(a: seq<Visit>, s: set<nat>, b: seq<Visit>, t: set<nat>, u: set<nat>)
    requires Counted(a, s) && Counted(b, t) && s !! t && s <= u && t <= u
    ensures Counted(a + b, u)
  {
    var vs := a + b;
    forall i | 0 <= i < |vs| && vs[i].Declares? ensures StampedName(vs[i].x, u) {
      assert if i < |a| then StampedName(a[i].x, s) else StampedName(b[i - |a|].x, t);
    }
    forall i, j | 0 <= i < j < |vs| && vs[i].Declares? && vs[j].Declares? ensures vs[i].x != vs[j].x {
      if i < |a| && j >= |a| { StampedNamesDiffer(a[i].x, s, b[j - |a|].x, t); }
    }
  }

  /** Counts from `n` to `m`. */
  ghost predicate CountedSpan(vs: seq<Visit>, n: nat, m: nat) { Counted(vs, Range(n, m)) }

  lemma CountedOn(low: nat, a: seq<Visit>, n: nat, m: nat, b: seq<Visit>, k: nat)
    requires CountedSpan(a, n, m) && CountedSpan(b, m, k) && low <= n <= m <= k
    ensures CountedSpan(a + b, low, k)
  {
    CountedBoth(a, Range(n, m), b, Range(m, k), Range(low, k));
  }

  lemma CountedSpanNone(vs: seq<Visit>, n: nat)
    requires forall v :: v in vs ==> !v.Declares?
    ensures CountedSpan(vs, n, n)
  {}

  lemma CountedOne(x: Sym, n: nat, fn: Sym)
    ensures CountedSpan([Declares(Fresh(x, n), fn)], n, n + 1)
  {
    assert n in Range(n, n + 1);
  }

  lemma CountedNone(vs: seq<Visit>, stamps: set<nat>)
    requires forall v :: v in vs ==> !v.Declares?
    ensures Counted(vs, stamps)
  {}

  lemma CountedFormals(xs: seq<Sym>, h: nat, fn: Sym)
    ensures CountedSpan(VisitsFormals(RenameFormals(xs, h), fn), h, h + |xs|)
  {
    var vs := VisitsFormals(RenameFormals(xs, h), fn);
    forall i | 0 <= i < |vs| ensures StampedName(vs[i].x, Range(h, h + |xs|)) {
      assert vs[i].x == Fresh(xs[i], h + i) && h + i in Range(h, h + |xs|);
    }
    forall i, j | 0 <= i < j < |vs| ensures vs[i].x != vs[j].x {
      if Fresh(xs[i], h + i) == Fresh(xs[j], h + j) { FreshInjective(xs[i], h + i, xs[j], h + j); }
    }
  }

  lemma {:induction false} CountedRenamed(e: Exp, sc: RScope, n: nat, fn: Sym)
    ensures CountedSpan(Visits(RenameExp(e, sc, n).tree, fn), n, RenameExp(e, sc, n).count)
    decreases e
  {
    hide CountedSpan;
    var r := RenameExp(e, sc, n);
    match e
    case IntExp(_) => CountedSpanNone([], n);
    case VarExp(x) => CountedSpanNone(Visits(r.tree, fn), n);
    case OpExp(a, _, b) => CountedTwo(n, a, sc, n, b, sc, fn) by {
      CountedRenamed(a, sc, n, fn);
      CountedRenamed(b, sc, RenameExp(a, sc, n).count, fn);
    }
    case SeqExp(es) => AllCounted(es, sc, n, fn);
    case AssignExp(x, e1) =>
      CountedRenamed(e1, sc, n, fn);
      CountedSpanNone([Reads(ResolveVar(sc, x), fn)], n);
      CountedOn(n, [Reads(ResolveVar(sc, x), fn)], n, n, Visits(RenameExp(e1, sc, n).tree, fn), r.count);
    case IfExp(_, _, _) => CountedIf(e, sc, n, fn);
    case WhileExp(c, body) => CountedTwo(n, c, sc, n, body, sc, fn) by {
      CountedRenamed(c, sc, n, fn);
      CountedRenamed(body, sc, RenameExp(c, sc, n).count, fn);
    }
    case ForExp(_, _, _, _) => CountedFor(e, sc, n, fn);
    case BreakExp => CountedSpanNone([], n);
    case CallExp(f, args) =>
      AllCounted(args, sc, n, fn);
      CountedSpanNone([Calls(fn, ResolveFun(sc, f))], r.count);
      CountedOn(n, VisitsAll(r.tree.args, fn), n, r.count, [Calls(fn, ResolveFun(sc, f))], r.count);
    case LetVar(x, init, body) =>
      CountedTwo(n + 1, init, sc, n + 1, body, RVar(x, n, sc), fn) by {
        CountedRenamed(init, sc, n + 1, fn);
        CountedRenamed(body, RVar(x, n, sc), RenameExp(init, sc, n + 1).count, fn);
      }
      CountedOne(x, n, fn);
      CountedOn(n, [Declares(Fresh(x, n), fn)], n, n + 1, Visits(r.tree.init, fn) + Visits(r.tree.body, fn), r.count);
    case LetFuns(_, _) => CountedLetFuns(e, sc, n, fn);
  }

  lemma {:induction false} CountedIf(e: Exp, sc: RScope, n: nat, fn: Sym)
    requires e.IfExp?
    ensures CountedSpan(Visits(RenameExp(e, sc, n).tree, fn), n, RenameExp(e, sc, n).count)
    decreases e, 0
  {
    hide CountedSpan;
    var r := RenameExp(e, sc, n);
    var c, t, f := e.test, e.thenclause, e.elseclause;
    var c2 := RenameExp(c, sc, n);
    CountedRenamed(c, sc, n, fn);
    CountedTwo(c2.count, t, sc, c2.count, f, sc, fn) by {
      CountedRenamed(t, sc, c2.count, fn);
      CountedRenamed(f, sc, RenameExp(t, sc, c2.count).count, fn);
    }
    CountedOn(n, Visits(c2.tree, fn), n, c2.count, Visits(r.tree.thenclause, fn) + Visits(r.tree.elseclause, fn), r.count);
  }

  lemma {:induction false} CountedLetFuns(e: Exp, sc: RScope, n: nat, fn: Sym)
    requires e.LetFuns?
    ensures CountedSpan(Visits(RenameExp(e, sc, n).tree, fn), n, RenameExp(e, sc, n).count)
    decreases e, 0
  {
    hide CountedSpan;
    var r := RenameExp(e, sc, n);
    var ds, body := e.funs, e.body;
    var hs := RenameHeaders(ds, n);
    var sc1 := RFuns(hs.tree, n, sc);
    var ds2 := RenameBodies(ds, n, sc1, hs.count);
    FunsCounted(ds, n, sc1, hs.count);
    assert Range(n, hs.count) + Range(hs.count, ds2.count) == Range(n, ds2.count);
    CountedRenamed(body, sc1, ds2.count, fn);
    CountedOn(n, VisitsOf(ds2.tree), n, ds2.count, Visits(r.tree.body, fn), r.count);
  }

  lemma {:induction false} CountedFor(e: Exp, sc: RScope, n: nat, fn: Sym)
    requires e.ForExp?
    ensures CountedSpan(Visits(RenameExp(e, sc, n).tree, fn), n, RenameExp(e, sc, n).count)
    decreases e, 0
  {
    hide CountedSpan;
    var r := RenameExp(e, sc, n);
    var i, lo, hi, body := e.index, e.lo, e.hi, e.body;
    var lo2 := RenameExp(lo, sc, n + 1);
    CountedRenamed(lo, sc, n + 1, fn);
    CountedTwo(lo2.count, hi, sc, lo2.count, body, RVar(i, n, sc), fn) by {
      CountedRenamed(hi, sc, lo2.count, fn);
      CountedRenamed(body, RVar(i, n, sc), RenameExp(hi, sc, lo2.count).count, fn);
    }
    var rest := Visits(r.tree.hi, fn) + Visits(r.tree.body, fn);
    CountedOn(n + 1, Visits(lo2.tree, fn), n + 1, lo2.count, rest, r.count);
    CountedOne(i, n, fn);
    CountedOn(n, [Declares(Fresh(i, n), fn)], n, n + 1, Visits(lo2.tree, fn) + rest, r.count);
  }

  lemma CountedTwo(low: nat, a: Exp, sc: RScope, n: nat, b: Exp, sc2: RScope, fn: Sym)
    requires low <= n && CountedSpan(Visits(RenameExp(a, sc, n).tree, fn), n, RenameExp(a, sc, n).count)
    requires var m := RenameExp(a, sc, n).count;
      CountedSpan(Visits(RenameExp(b, sc2, m).tree, fn), m, RenameExp(b, sc2, m).count)
    ensures var a2 := RenameExp(a, sc, n);
      var b2 := RenameExp(b, sc2, a2.count);
      CountedSpan(Visits(a2.tree, fn) + Visits(b2.tree, fn), low, b2.count)
  {
    var a2 := RenameExp(a, sc, n);
    var b2 := RenameExp(b, sc2, a2.count);
    CountedOn(low, Visits(a2.tree, fn), n, a2.count, Visits(b2.tree, fn), b2.count);
  }

  lemma {:induction false} AllCounted(es: Exps, sc: RScope, n: nat, fn: Sym)
    ensures CountedSpan(VisitsAll(RenameExps(es, sc, n).tree, fn), n, RenameExps(es, sc, n).count)
    decreases es
  {
    if es.Cons? {
      var e2 := RenameExp(es.head, sc, n);
      var r := RenameExps(es.tail, sc, e2.count);
      CountedRenamed(es.head, sc, n, fn);
      AllCounted(es.tail, sc, e2.count, fn);
      CountedOn(n, Visits(e2.tree, fn), n, e2.count, VisitsAll(r.tree, fn), r.count);
    }
  }

  /** Counts from `h` to `k`, and from `n` to `m`. */
  ghost predicate CountedSpans(vs: seq<Visit>, h: nat, k: nat, n: nat, m: nat) { Counted(vs, Range(h, k) + Range(n, m)) }

  lemma NoFunsCounted(h: nat, sc: RScope, n: nat)
    ensures CountedSpans(VisitsOf(RenameBodies(NoFun, h, sc, n).tree), h, RenameHeaders(NoFun, h).count, n, RenameBodies(NoFun, h, sc, n).count)
  {
    NoneCounted(h, n);
  }

  lemma {:induction false} FunsCounted(ds: Funs, h: nat, sc: RScope, n: nat)
    requires n >= RenameHeaders(ds, h).count
    ensures CountedSpans(VisitsOf(RenameBodies(ds, h, sc, n).tree), h, RenameHeaders(ds, h).count, n, RenameBodies(ds, h, sc, n).count)
    decreases ds
  {
    hide CountedSpans, RenameBodies, RenameHeaders, RenameExp, FormalsScopeOf, RenameFormals, VisitsDec;
    if ds == NoFun {
      NoFunsCounted(h, sc, n);
    } else {
      BodiesUnfold(ds, h, sc, n);
      var d := ds.first;
      var k := h + |d.formals|;
      var h2 := if Renames(d) then k + 1 else k;
      var hs := RenameHeaders(ds.rest, h2);
      var sc2 := FormalsScopeOf(d.formals, h, sc);
      var n2 := if d.Function? then RenameExp(d.body, sc2, n).count else n;
      var r := RenameBodies(ds.rest, h2, sc, n2);
      var d2 := RenameBodies(ds, h, sc, n).tree.first;
      DecCounted(d, d2, h, sc2, n, n2);
      FunsCounted(ds.rest, h2, sc, n2);
      CountedChunk(VisitsDec(d2), h, k, n, n2, VisitsOf(r.tree), h2, hs.count, r.count);
    }
  }

  lemma NoneCounted(h: nat, n: nat)
    ensures CountedSpans([], h, h, n, n)
  {
    CountedNone([], Range(h, h) + Range(n, n));
  }

  /** Formals are counted from `h`, the body from `n`. */
  lemma {:induction false} DecCounted(d: FunDec, d2: FunDec, h: nat, sc: RScope, n: nat, n2: nat)
    requires d2.formals == RenameFormals(d.formals, h) && d2.Function? == d.Function? && h + |d.formals| <= n <= n2
    requires d.Function? ==> d2.body == RenameExp(d.body, sc, n).tree && n2 == RenameExp(d.body, sc, n).count
    ensures CountedSpans(VisitsDec(d2), h, h + |d.formals|, n, n2)
    decreases d
  {
    hide Counted;
    var xs := VisitsFormals(d2.formals, d2.name);
    var b := if d.Function? then Visits(d2.body, d2.name) else [];
    CountedFormals(d.formals, h, d2.name);
    if d.Function? { CountedRenamed(d.body, sc, n, d2.name); } else { CountedNone([], Range(n, n2)); }
    CountedBoth(xs, Range(h, h + |d.formals|), b, Range(n, n2), Range(h, h + |d.formals|) + Range(n, n2));
    assert VisitsDec(d2) == xs + b;
  }

  /** One declaration, then the rest of the chunk. */
  lemma CountedChunk(a: seq<Visit>, h: nat, k: nat, n: nat, n2: nat, b: seq<Visit>, h2: nat, h3: nat, n3: nat)
    requires h <= k <= h2 <= h3 <= n <= n2 <= n3
    requires CountedSpans(a, h, k, n, n2) && CountedSpans(b, h2, h3, n2, n3)
    ensures CountedSpans(a + b, h, h3, n, n3)
  {
    CountedBoth(a, Range(h, k) + Range(n, n2), b, Range(h2, h3) + Range(n2, n3), Range(h, h3) + Range(n, n3));
  }

  // ----- the analysis of a whole program -----

  /** What a visitor meets in the prelude's chunk and in `_main`'s. */
  function ProgramVisits(p: Program): seq<Visit> { VisitsOf(p.prims) + VisitsOf(p.Chunk()) }

  /** The marks escape analysis leaves, whatever `flags` the declarations carried before. */
  function MarksOf(p: Program, flags: set<Sym>): Marks { MarkAll(Marks(map[], flags), ProgramVisits(p)) }

  lemma BoundOnce(vs: seq<Visit>, stamps: set<nat>)
    requires ReadsBound({}, vs) && Counted(vs, stamps)
    ensures WellBound(vs)
  {}

  lemma RenamedCounted(p: Program)
    requires Accepted(p)
    ensures Counted(ProgramVisits(RenameProgram(p)), Range(0, RenameBodies(p.Chunk(), RenamingOf(p).prims.count, RenamingOf(p).inner,
                                                                 RenameHeaders(p.Chunk(), RenamingOf(p).prims.count).count).count))
  {
    var r := RenamingOf(p);
    var hs, hs2 := RenameHeaders(p.prims, 0), RenameHeaders(p.Chunk(), r.prims.count);
    var ms := RenameBodies(p.Chunk(), r.prims.count, r.inner, hs2.count);
    FunsCounted(p.prims, 0, r.outer, hs.count);
    FunsCounted(p.Chunk(), r.prims.count, r.inner, hs2.count);
    assert Range(0, hs.count) + Range(hs.count, r.prims.count) == Range(0, r.prims.count);
    assert Range(r.prims.count, hs2.count) + Range(hs2.count, ms.count) == Range(r.prims.count, ms.count);
    assert ms.tree == RenameProgram(p).Chunk();
    CountedOn(0, VisitsOf(r.prims.tree), 0, r.prims.count, VisitsOf(ms.tree), ms.count);
  }

  lemma TopScopes(p: Program)
    ensures ScopeOf(BindFuns(p.prims, Top)).vars == map[] && ScopeOf(p.Env()).vars == map[]
    ensures ScopeOf(p.Env()).vars.Keys == {} && ScopeOf(BindFuns(p.prims, Top)).vars.Keys == {}
    ensures ScopeOf(p.Env()).funs == Sigs(p.prims) + Sigs(p.Chunk())
  {
    var outer := BindFuns(p.prims, Top);
    assert ScopeOf(Top).vars == map[] && ScopeOf(Top).funs + Sigs(p.prims) == Sigs(p.prims);
    assert ScopeOf(outer).vars == map[];
  }

  lemma AcceptedReads(p: Program)
    requires Accepted(p)
    ensures ReadsBound({}, ProgramVisits(p))
  {
    var prelude := ScopeOf(BindFuns(p.prims, Top));
    PreludeOk(p.prims, prelude);
    FunsTypedReads(p.prims, prelude);
    TopScopes(p);
    assert ChunkOk(NoFun, ScopeOf(p.Env())) && ChunkOk(p.Chunk(), ScopeOf(p.Env()));
    FunsTypedReads(p.Chunk(), ScopeOf(p.Env()));
    ReadsBoundBoth({}, VisitsOf(p.prims), VisitsOf(p.Chunk()));
  }

  /** A renamed program declares every variable once, before its uses. */
  lemma RenamedWellBound(p: Program)
    requires Accepted(p)
    ensures WellBound(ProgramVisits(RenameProgram(p)))
  {
    var r := RenamingOf(p);
    RenameAccepted(p);
    RenamedCounted(p);
    AcceptedReads(RenameProgram(p));
    BoundOnce(ProgramVisits(RenameProgram(p)), Range(0, RenameBodies(p.Chunk(), r.prims.count, r.inner,
                                                             RenameHeaders(p.Chunk(), r.prims.count).count).count));
  }

  /** The flagged variables that the function declaring them uses. */
  ghost function OwnUses(m: Marks, vs: seq<Visit>): set<Sym> {
    set n | n in Direct(m, vs) && n.x in m.site && m.site[n.x] == n.fn :: n.x
  }

  lemma MarkedFacts(vs: seq<Visit>, m0: Marks)
    requires WellBound(vs)
    ensures Facts(MarkAll(m0, vs), OwnUses(MarkAll(m0, vs), vs), vs)
  {
    var m := MarkAll(m0, vs);
    forall v | v in vs ensures Fact(m, OwnUses(m, vs), v) {
      if v.Declares? {
        MarksExact(m0, vs, v.x);
        OneSite(vs, v.x, v.fn);
      } else if v.Reads? {
        var i :| 0 <= i < |vs| && vs[i] == v;
        var f :| Declares(v.x, f) in vs[..i];
        assert Declares(v.x, f) in vs;
        MarksExact(m0, vs, v.x);
        if v.x in m.flagged && m.site[v.x] == v.fn {
          var n := Need(v.fn, v.x);
          assert n in Direct(m, vs);
          assert v.x in OwnUses(m, vs);
        }
      }
    }
  }

  /** `escapes` lists, for each function, the variables `c` says it needs, in any order. */
  ghost predicate Enumerates(escapes: map<Sym, seq<Sym>>, c: Needs) {
    && (forall f, x :: f in escapes && x in escapes[f] ==> Need(f, x) in c)
    && (forall n :: n in c ==> n.fn in escapes && n.x in escapes[n.fn])
  }

  lemma {:induction false} TableNames(ds: seq<FunDec>, escapes: map<Sym, seq<Sym>>, f: Sym)
    requires f in TableOf(ds, escapes)
    ensures TableOf(ds, escapes)[f].lifted == [] || (f in escapes && TableOf(ds, escapes)[f].lifted == escapes[f])
    decreases |ds|
  {
    if ds[0].name != f { TableNames(ds[1..], escapes, f); }
  }

  lemma TableHands(p: Program, escapes: map<Sym, seq<Sym>>, c: Needs)
    requires Enumerates(escapes, c) && Distinct(p.Decs())
    ensures var cx := ContextOf(p, escapes, true); Hands(cx, c) && AllGiven(cx, c, p.Decs())
  {
    var cx := ContextOf(p, escapes, true);
    forall f, x | x in cx.Of(f).lifted ensures Need(f, x) in c {
      if f in cx.table { TableNames(p.Decs(), escapes, f); }
    }
    forall d | d in p.Decs() ensures Given(cx, c, d) {
      var i :| 0 <= i < |p.Decs()| && p.Decs()[i] == d;
      TableEntry(p.Decs(), escapes, cx, i);
    }
  }

  /** Lambda lifting by the least closed map is closed, for every renamed and checked program. */
  lemma LeastMapCloses(q: Program, flags: set<Sym>, escapes: map<Sym, seq<Sym>>)
    requires Accepted(q) && Distinct(q.Decs()) && WellBound(ProgramVisits(q))
    requires Enumerates(escapes, LeastNeeds(MarksOf(q, flags), ProgramVisits(q)))
    ensures ClosedFuns(q.Chunk(), ContextOf(q, escapes, true))
  {
    var vs, m, cx := ProgramVisits(q), MarksOf(q, flags), ContextOf(q, escapes, true);
    var own, c := OwnUses(m, vs), LeastNeeds(m, vs);
    var at := ScopesOf(q.prims, {}) + ScopesOf(q.Chunk(), {});
    MarkedFacts(vs, Marks(map[], flags));
    TableHands(q, escapes, c);
    ProgramAt(q, at);
    ProgramPlaced(q, m, at);
    ProgramBounded(q, m, at, own);
    LeastNeedsIsLeast(m, vs, Bound(at, own));
    MainCloses(q, Analysis(m, at, own, c, cx));
  }

  /** The scope the body of `_main` is checked in. */
  ghost function MainScope(q: Program): Scope { ScopeOf(q.Env()) }

  lemma ProgramAt(q: Program, at: map<Sym, set<Sym>>)
    requires Distinct(q.Decs()) && at == ScopesOf(q.prims, {}) + ScopesOf(q.Chunk(), {})
    ensures AtOkFuns(q.prims, {}, at) && AtOkFuns(q.Chunk(), {}, at)
  {
    FunsScopesNamed(q.prims, {});
    FunsScopesNamed(q.Chunk(), {});
    SubmapParts(ScopesOf(q.prims, {}), DecsOf(q.prims), ScopesOf(q.Chunk(), {}), DecsOf(q.Chunk()), at);
    FunsScopesFit(q.prims, {}, at);
    FunsScopesFit(q.Chunk(), {}, at);
  }

  lemma ProgramPlaced(q: Program, m: Marks, at: map<Sym, set<Sym>>)
    requires Accepted(q) && AtOkFuns(q.prims, {}, at) && AtOkFuns(q.Chunk(), {}, at)
    ensures Placed(MainScope(q), MAIN, m, at) && AtOk(q.main.body, {}, at) && MainScope(q).vars == map[]
  {
    TopScopes(q);
    ChunkAt(q.prims, {}, at);
    ChunkAt(q.Chunk(), {}, at);
    assert {} + Names(q.main.formals) == {};
  }

  lemma {:induction false} PreludeAbsorbs(ds: Funs, m: Marks, c: Needs)
    requires Prelude(ds)
    ensures Absorbs(m, c, VisitsOf(ds))
  {
    if ds.FunCons? {
      PreludeAbsorbs(ds.rest, m, c);
      AbsorbsFormals(m, ds.first.formals, ds.first.name, c);
      AbsorbsBoth(m, c, VisitsDec(ds.first), VisitsOf(ds.rest));
    }
  }

  lemma ProgramBounded(q: Program, m: Marks, at: map<Sym, set<Sym>>, own: set<Sym>)
    requires Accepted(q) && AtOk(q.main.body, {}, at) && Placed(MainScope(q), MAIN, m, at) && MainScope(q).vars == map[]
    requires Facts(m, own, ProgramVisits(q))
    ensures Absorbs(m, Bound(at, own), ProgramVisits(q))
  {
    hide Absorbs, Facts, Placed, Bound;
    MainVisits(q);
    FactsBoth(m, own, VisitsOf(q.prims), VisitsOf(q.Chunk()));
    PreludeAbsorbs(q.prims, m, Bound(at, own));
    assert MainScope(q).vars.Keys == {};
    BoundAbsorbs(q.main.body, MainScope(q), false, MAIN, m, at, own);
    AbsorbsBoth(m, Bound(at, own), VisitsOf(q.prims), VisitsOf(q.Chunk()));
  }

  lemma MainVisits(q: Program)
    requires Accepted(q)
    ensures VisitsOf(q.Chunk()) == Visits(q.main.body, MAIN) && DecsOf(q.Chunk()) == [q.main] + DecsIn(q.main.body)
  {
    assert VisitsFormals([], MAIN) == [];
    assert VisitsDec(q.main) == Visits(q.main.body, MAIN);
    assert VisitsOf(NoFun) == [] && DecsOf(NoFun) == [];
  }

  lemma MainCloses(q: Program, a: Analysis)
    requires Accepted(q) && Distinct(q.Decs()) && MainScope(q).vars == map[] && a.cx.pointerFirst
    requires AtOk(q.main.body, {}, a.at) && Placed(MainScope(q), MAIN, a.m, a.at)
    requires Facts(a.m, a.own, ProgramVisits(q)) && Absorbs(a.m, a.c, ProgramVisits(q)) && AllGiven(a.cx, a.c, q.Decs())
    requires a.own == OwnUses(a.m, ProgramVisits(q)) && a.c <= Bound(a.at, a.own) && Hands(a.cx, a.c)
    ensures ClosedFuns(q.Chunk(), a.cx)
  {
    var body, need := q.main.body, Names(a.cx.Of(MAIN).lifted) + Names(q.main.formals);
    MainVisits(q);
    FactsBoth(a.m, a.own, VisitsOf(q.prims), VisitsOf(q.Chunk()));
    AbsorbsBoth(a.m, a.c, VisitsOf(q.prims), VisitsOf(q.Chunk()));
    GivenBoth(a.cx, a.c, DecsOf(q.prims), DecsOf(q.Chunk()));
    GivenBoth(a.cx, a.c, [q.main], DecsIn(body));
    assert q.main in [q.main];
    assert Given(a.cx, a.c, q.main);
    assert NewNames(DecsIn(body), {MAIN}) by { BodyNames(q); }
    DistinctApart(body, {MAIN});
    assert MainScope(q).vars.Keys == {};
    LiftedClosed(body, MainScope(q), false, MAIN, {MAIN}, need, a);
    assert ClosedFuns(NoFun, a.cx);
  }

  lemma BodyNames(q: Program)
    requires Accepted(q) && Distinct(q.Decs())
    ensures NewNames(DecsIn(q.main.body), {MAIN})
  {
    MainVisits(q);
    var ps, ds := DecsOf(q.prims), DecsIn(q.main.body);
    assert q.Decs() == ps + [q.main] + ds;
    forall d | d in ds ensures d.name !in {MAIN} {
      var i :| 0 <= i < |ds| && ds[i] == d;
      assert q.Decs()[|ps|].name != q.Decs()[|ps| + 1 + i].name;
    }
    forall i, j | 0 <= i < j < |ds| ensures ds[i].name != ds[j].name {
      assert q.Decs()[|ps| + 1 + i].name != q.Decs()[|ps| + 1 + j].name;
    }
  }

  /** The compiler is correct for every accepted program: with the variables to lift given by the
      least closed map, in any order, the generated code makes the same primitive calls as the
      program and ends the same way, or runs forever when the program does, on every input. */
  lemma CompilerCorrect(p: Program, flags: set<Sym>, escapes: map<Sym, seq<Sym>>, input: seq<int32>, junk: seq<MVal>, s: State)
    requires Accepted(p) && s.mem == []
    requires Enumerates(escapes, LeastNeeds(MarksOf(Prepared(p), flags), ProgramVisits(Prepared(p))))
    requires |junk| == |ContextOf(Prepared(p), escapes, true).Of(MAIN).lifted|
    ensures var q := Prepared(p);
      var m := Generate(q.Decs(), ContextOf(q, escapes, true));
      var c := Start(q, input, junk);
      && (EndsAs(p, input, Val(0, s)) <==> Halts(m, c, s))
      && (EndsAs(p, input, Fault(s)) <==> Traps(m, c, s))
      && (Diverges(p, input) <==> RunsForever(m, c))
      && forall st: State :: !Reaches(m, c, Crashed(st))
  {
    hide Halts, Traps, RunsForever, Reaches, EndsAs, Diverges, Generate, Start;
    PreparedReady(p);
    LeastMapCloses(Prepared(p), flags, escapes);
    PipelineCorrect(p, escapes, true, input, junk, s);
  }

  lemma PreparedReady(p: Program)
    requires Accepted(p)
    ensures Accepted(Prepared(p)) && Distinct(Prepared(p).Decs()) && WellBound(ProgramVisits(Prepared(p)))
  {
    var q := RenameProgram(p);
    RenameAccepted(p);
    DesugarAccepted(q);
    RenameAccepted(DesugarProgram(q));
    RenamedWellBound(DesugarProgram(q));
  }
}
