/** Escape analysis (src/escapes/escapes-visitor.cc). */
module Escapes {
  import opened Tiger

  // ----- what a traversal of the tree meets -----

  /** A declaration of `x` in `fn`, a use of `x` in `fn`, a call in `fn`, in the order of a traversal. */
  datatype Visit = Declares(x: Sym, fn: Sym) | Reads(x: Sym, fn: Sym) | Calls(fn: Sym, callee: Sym)

  function Visits(e: Exp, fn: Sym): seq<Visit> {
    match e
    case IntExp(_) => []
    case VarExp(x) => [Reads(x, fn)]
    case OpExp(l, _, r) => Visits(l, fn) + Visits(r, fn)
    case SeqExp(es) => VisitsAll(es, fn)
    case AssignExp(x, e1) => [Reads(x, fn)] + Visits(e1, fn)
    case IfExp(c, t, f) => Visits(c, fn) + (Visits(t, fn) + Visits(f, fn))
    case WhileExp(c, body) => Visits(c, fn) + Visits(body, fn)
    case ForExp(i, lo, hi, body) => [Declares(i, fn)] + (Visits(lo, fn) + (Visits(hi, fn) + Visits(body, fn)))
    case BreakExp => []
    case CallExp(f, args) => VisitsAll(args, fn) + [Calls(fn, f)]
    case LetVar(x, init, body) => [Declares(x, fn)] + (Visits(init, fn) + Visits(body, fn))
    case LetFuns(ds, body) => VisitsOf(ds) + Visits(body, fn)
  }

  function VisitsAll(es: Exps, fn: Sym): seq<Visit> {
    match es
    case NoExp => []
    case Cons(e, rest) => Visits(e, fn) + VisitsAll(rest, fn)
  }

  function VisitsFormals(xs: seq<Sym>, fn: Sym): (r: seq<Visit>)
    ensures |r| == |xs| && forall i :: 0 <= i < |xs| ==> r[i] == Declares(xs[i], fn)
  {
    seq(|xs|, i requires 0 <= i < |xs| => Declares(xs[i], fn))
  }

  function VisitsDec(d: FunDec): seq<Visit> {
    match d
    case Function(f, xs, _, body) => VisitsFormals(xs, f) + Visits(body, f)
    case Primitive(f, xs, _) => VisitsFormals(xs, f)
  }

  function VisitsOf(ds: Funs): seq<Visit> {
    match ds
    case NoFun => []
    case FunCons(d, rest) => VisitsDec(d) + VisitsOf(rest)
  }

  // ----- the marks on variable declarations -----

  /** Definition sites, and the variables flagged as escaped. */
  datatype Marks = Marks(site: map<Sym, Sym>, flagged: set<Sym>)

  function Mark(m: Marks, v: Visit): Marks {
    match v
    case Declares(x, f) => Marks(m.site[x := f], m.flagged - {x})
    case Reads(x, f) => if x in m.site && m.site[x] == f then m else m.(flagged := m.flagged + {x})
    case Calls(_, _) => m
  }

  function MarkAll(m: Marks, vs: seq<Visit>): Marks {
    if vs == [] then m else Mark(MarkAll(m, vs[..|vs| - 1]), vs[|vs| - 1])
  }

  lemma {:induction false} MarkBoth(m: Marks, a: seq<Visit>, b: seq<Visit>)
    ensures MarkAll(m, a + b) == MarkAll(MarkAll(m, a), b)
    decreases |b|
  {
    if b == [] {
      assert a + b == a;
    } else {
      assert (a + b)[..|a + b| - 1] == a + b[..|b| - 1];
      MarkBoth(m, a, b[..|b| - 1]);
    }
  }

  lemma MarkOne(m: Marks, v: Visit)
    ensures MarkAll(m, [v]) == Mark(m, v)
  {
    assert [v][..0] == [];
  }

  lemma MarkThree(m: Marks, a: seq<Visit>, b: seq<Visit>, c: seq<Visit>)
    ensures MarkAll(m, a + (b + c)) == MarkAll(MarkAll(MarkAll(m, a), b), c)
  {
    MarkBoth(m, a, b + c);
    MarkBoth(MarkAll(m, a), b, c);
  }

  /** Each variable is declared once, before any of its uses, as in a bound tree. */
  ghost predicate WellBound(vs: seq<Visit>) {
    && (forall i, j :: 0 <= i < j < |vs| && vs[i].Declares? && vs[j].Declares? ==> vs[i].x != vs[j].x)
    && (forall i :: 0 <= i < |vs| && vs[i].Reads? ==> DeclaredIn(vs[..i], vs[i].x))
  }

  ghost predicate DeclaredIn(vs: seq<Visit>, x: Sym) { exists f :: Declares(x, f) in vs }

  /** `x` is used in a function other than the one declaring it. */
  ghost predicate UsedElsewhere(vs: seq<Visit>, x: Sym) {
    exists f, g :: Declares(x, f) in vs && Reads(x, g) in vs && f != g
  }

  /** Escape analysis is exact: whatever the flags were before, a variable ends up flagged if and
      only if another function uses it, and its site is the function that declares it. */
  lemma {:induction false} MarksExact(m: Marks, vs: seq<Visit>, x: Sym)
    requires WellBound(vs) && DeclaredIn(vs, x)
    ensures var r := MarkAll(m, vs);
      x in r.site && Declares(x, r.site[x]) in vs && (x in r.flagged <==> UsedElsewhere(vs, x))
    decreases |vs|
  {
    var n := |vs| - 1;
    var before, v := vs[..n], vs[n];
    assert vs == before + [v];
    WellBoundBefore(vs);
    hide WellBound;
    if v == Declares(x, v.fn) {
      NotYetUsed(vs, x);
    } else {
      MarksExact(m, before, x);
      var f := MarkAll(m, before).site[x];
      if v == Reads(x, v.fn) && f != v.fn {
        assert Declares(x, f) in vs && Reads(x, v.fn) in vs;
      }
      if UsedElsewhere(vs, x) { OneSite(vs, x, f); }
    }
  }

  lemma WellBoundBefore(vs: seq<Visit>)
    requires WellBound(vs) && vs != []
    ensures WellBound(vs[..|vs| - 1])
  {
    hide DeclaredIn;
    var n := |vs| - 1;
    var before := vs[..n];
    forall i | 0 <= i < n && before[i].Reads? ensures DeclaredIn(before[..i], before[i].x) {
      assert vs[..i] == before[..i] && vs[i] == before[i];
    }
  }

  lemma OneSite(vs: seq<Visit>, x: Sym, f: Sym)
    requires WellBound(vs) && Declares(x, f) in vs
    ensures forall g :: Declares(x, g) in vs ==> g == f
  {
    var i :| 0 <= i < |vs| && vs[i] == Declares(x, f);
    forall g | Declares(x, g) in vs ensures g == f {
      var j :| 0 <= j < |vs| && vs[j] == Declares(x, g);
    }
  }

  lemma NotYetUsed(vs: seq<Visit>, x: Sym)
    requires WellBound(vs) && vs != [] && vs[|vs| - 1].Declares? && vs[|vs| - 1].x == x
    ensures !UsedElsewhere(vs, x)
  {
    forall i | 0 <= i < |vs| && vs[i].Reads? ensures vs[i].x != x {
      var y := vs[i].x;
      assert DeclaredIn(vs[..i], y);
      var f :| Declares(y, f) in vs[..i];
      var j :| 0 <= j < i && vs[..i][j] == Declares(y, f);
      assert vs[j].Declares? && vs[j].x == y && j < |vs| - 1;
    }
  }

  /** The visitor: it keeps the current function and writes on the declarations. */
  class EscapesVisitor {
    var current: Sym
    var site: map<Sym, Sym>
    var flagged: set<Sym>

    constructor (flagged: set<Sym>)
      ensures this.flagged == flagged && site == map[]
    {
      this.current := Sym("");
      this.site := map[];
      this.flagged := flagged;
    }

    function Marked(): Marks reads this { Marks(site, flagged) }

    method VisitVarDec(x: Sym)
      modifies this
      ensures current == old(current) && Marked() == Mark(old(Marked()), Declares(x, current))
    {
      flagged := flagged - {x};
      site := site[x := current];
    }

    method VisitSimpleVar(x: Sym)
      modifies this
      ensures current == old(current) && Marked() == Mark(old(Marked()), Reads(x, current))
    {
      if x !in site || site[x] != current { flagged := flagged + {x}; }
    }

    method VisitExp(e: Exp)
      modifies this
      ensures current == old(current) && Marked() == MarkAll(old(Marked()), Visits(e, current))
      decreases e
    {
      ghost var m, fn := Marked(), current;
      match e
      case IntExp(_) =>
      case VarExp(x) =>
        VisitSimpleVar(x);
        MarkOne(m, Reads(x, fn));
      case OpExp(l, _, r) =>
        VisitExp(l);
        VisitExp(r);
        MarkBoth(m, Visits(l, fn), Visits(r, fn));
      case SeqExp(es) => VisitExps(es);
      case AssignExp(x, e1) =>
        VisitSimpleVar(x);
        VisitExp(e1);
        MarkOne(m, Reads(x, fn));
        MarkBoth(m, [Reads(x, fn)], Visits(e1, fn));
      case IfExp(c, t, f) =>
        VisitExp(c);
        VisitExp(t);
        VisitExp(f);
        MarkThree(m, Visits(c, fn), Visits(t, fn), Visits(f, fn));
      case WhileExp(c, body) =>
        VisitExp(c);
        VisitExp(body);
        MarkBoth(m, Visits(c, fn), Visits(body, fn));
      case ForExp(i, lo, hi, body) =>
        VisitVarDec(i);
        VisitExp(lo);
        VisitExp(hi);
        VisitExp(body);
        MarkOne(m, Declares(i, fn));
        MarkThree(MarkAll(m, [Declares(i, fn)]), Visits(lo, fn), Visits(hi, fn), Visits(body, fn));
        MarkBoth(m, [Declares(i, fn)], Visits(lo, fn) + (Visits(hi, fn) + Visits(body, fn)));
      case BreakExp =>
      case CallExp(f, args) =>
        VisitExps(args);
        MarkOne(Marked(), Calls(fn, f));
        MarkBoth(m, VisitsAll(args, fn), [Calls(fn, f)]);
      case LetVar(x, init, body) =>
        VisitVarDec(x);
        VisitExp(init);
        VisitExp(body);
        MarkOne(m, Declares(x, fn));
        MarkThree(m, [Declares(x, fn)], Visits(init, fn), Visits(body, fn));
      case LetFuns(ds, body) =>
        VisitFunctionChunk(ds);
        VisitExp(body);
        MarkBoth(m, VisitsOf(ds), Visits(body, fn));
    }

    method VisitExps(es: Exps)
      modifies this
      ensures current == old(current) && Marked() == MarkAll(old(Marked()), VisitsAll(es, current))
      decreases es
    {
      ghost var m := Marked();
      var rest := es;
      while rest.Cons?
        invariant (rest == es || rest < es) && current == old(current)
        invariant MarkAll(m, VisitsAll(es, current)) == MarkAll(Marked(), VisitsAll(rest, current))
        decreases rest
      {
        ghost var m1 := Marked();
        VisitExp(rest.head);
        MarkBoth(m1, Visits(rest.head, current), VisitsAll(rest.tail, current));
        rest := rest.tail;
      }
    }

    method VisitFunctionChunk(ds: Funs)
      modifies this
      ensures current == old(current) && Marked() == MarkAll(old(Marked()), VisitsOf(ds))
      decreases ds
    {
      ghost var m := Marked();
      var rest := ds;
      while rest.FunCons?
        invariant (rest == ds || rest < ds) && current == old(current)
        invariant MarkAll(m, VisitsOf(ds)) == MarkAll(Marked(), VisitsOf(rest))
        decreases rest
      {
        ghost var m1 := Marked();
        VisitFunctionDec(rest.first);
        MarkBoth(m1, VisitsDec(rest.first), VisitsOf(rest.rest));
        rest := rest.rest;
      }
    }

    method VisitFunctionDec(d: FunDec)
      modifies this
      ensures current == old(current) && Marked() == MarkAll(old(Marked()), VisitsDec(d))
      decreases d
    {
      var previous := current;
      current := d.name;
      ghost var m, vs := Marked(), VisitsFormals(d.formals, d.name);
      for i := 0 to |d.formals|
        invariant current == d.name && Marked() == MarkAll(m, vs[..i])
      {
        VisitVarDec(d.formals[i]);
        assert vs[..i + 1][..|vs[..i + 1]| - 1] == vs[..i];
      }
      assert vs[..|vs|] == vs;
      if d.Function? {
        VisitExp(d.body);
        MarkBoth(m, vs, Visits(d.body, d.name));
      }
      current := previous;
    }
  }
}
