/** Which number each declaration gets (src/bind/renamer.cc). */
module Numbering {
  import opened Tiger
  import opened Programs
  import opened Rename
  import opened Pipeline

  // ----- numerals -----

  /** `s` is the decimal numeral of `n`. */
  ghost predicate Spells(s: string, n: nat) {
    s != "" && (forall i :: 0 <= i < |s| ==> '0' <= s[i] <= '9') && (|s| > 1 ==> s[0] != '0') && ValueOf(s) == n
  }

  lemma {:induction false} DecimalSpells(n: nat)
    ensures Spells(Decimal(n), n)
    decreases n
  {
    DecimalReadsBack(n);
    if n >= 10 {
      var s := Decimal(n / 10);
      DecimalSpells(n / 10);
      assert |s| == 1 ==> ValueOf(s) == DigitValue(s[0]) by { assert s[..0] == []; }
      forall i | 0 <= i < |Decimal(n)| ensures '0' <= Decimal(n)[i] <= '9' { if i < |s| { assert Decimal(n)[i] == s[i]; } }
    }
  }

  // ----- declarations in the order they are visited -----

  /** The variables and functions that a text declares and the renamer renames: of a chunk first every
      function's formals and name, then what the bodies declare. */
  function Declared(e: Exp): seq<Sym> {
    match e
    case IntExp(_) => []
    case VarExp(_) => []
    case OpExp(l, _, r) => Declared(l) + Declared(r)
    case SeqExp(es) => DeclaredAll(es)
    case AssignExp(_, e1) => Declared(e1)
    case IfExp(c, t, f) => Declared(c) + Declared(t) + Declared(f)
    case WhileExp(c, body) => Declared(c) + Declared(body)
    case ForExp(i, lo, hi, body) => [i] + Declared(lo) + Declared(hi) + Declared(body)
    case BreakExp => []
    case CallExp(_, args) => DeclaredAll(args)
    case LetVar(x, init, body) => [x] + Declared(init) + Declared(body)
    case LetFuns(ds, body) => HeaderNames(ds) + BodyNames(ds) + Declared(body)
  }

  function DeclaredAll(es: Exps): seq<Sym> {
    match es
    case NoExp => []
    case Cons(e, rest) => Declared(e) + DeclaredAll(rest)
  }

  function HeaderNames(ds: Funs): seq<Sym> {
    match ds
    case NoFun => []
    case FunCons(d, rest) => d.formals + (if Renames(d) then [d.name] else []) + HeaderNames(rest)
  }

  function BodyNames(ds: Funs): seq<Sym> {
    match ds
    case NoFun => []
    case FunCons(d, rest) => (if d.Function? then Declared(d.body) else []) + BodyNames(rest)
  }

  /** The names `given` are the names `was` with the numbers from `n` on. */
  ghost predicate Numbered(was: seq<Sym>, given: seq<Sym>, n: nat) {
    |given| == |was| && forall i :: 0 <= i < |was| ==> given[i] == Fresh(was[i], n + i)
  }

  lemma NumberedJoin(a: seq<Sym>, b: seq<Sym>, n: nat, c: seq<Sym>, d: seq<Sym>)
    requires Numbered(a, b, n) && Numbered(c, d, n + |a|)
    ensures Numbered(a + c, b + d, n)
  {}

  lemma {:induction false} ExpNumbered(e: Exp, sc: RScope, n: nat)
    ensures var r := RenameExp(e, sc, n); r.count == n + |Declared(e)| && Numbered(Declared(e), Declared(r.tree), n)
    decreases e, 3
  {
    hide Numbered, Fresh;
    match e
    case IntExp(_) => NoneNumbered(n);
    case VarExp(_) => NoneNumbered(n);
    case OpExp(l, _, r) => TwoNumbered(l, sc, r, sc, n, e);
    case SeqExp(es) => AllNumbered(es, sc, n);
    case AssignExp(_, e1) => ExpNumbered(e1, sc, n);
    case IfExp(c, t, f) => IfNumbered(e, sc, n);
    case WhileExp(c, body) => TwoNumbered(c, sc, body, sc, n, e);
    case ForExp(_, _, _, _) => ForNumbered(e, sc, n);
    case BreakExp => NoneNumbered(n);
    case CallExp(_, args) => AllNumbered(args, sc, n);
    case LetVar(_, _, _) => LetVarNumbered(e, sc, n);
    case LetFuns(_, _) => LetFunsNumbered(e, sc, n);
  }

  lemma {:induction false} IfNumbered(e: Exp, sc: RScope, n: nat)
    requires e.IfExp?
    ensures var r := RenameExp(e, sc, n); r.count == n + |Declared(e)| && Numbered(Declared(e), Declared(r.tree), n)
    decreases e, 2
  {
    hide Numbered;
    var c, t, f := e.test, e.thenclause, e.elseclause;
    var c2 := RenameExp(c, sc, n);
    var t2 := RenameExp(t, sc, c2.count);
    TwoNumbered(c, sc, t, sc, n, e);
    ExpNumbered(f, sc, t2.count);
    NumberedJoin(Declared(c) + Declared(t), Declared(c2.tree) + Declared(t2.tree), n, Declared(f), Declared(RenameExp(f, sc, t2.count).tree));
  }

  lemma {:induction false} ForNumbered(e: Exp, sc: RScope, n: nat)
    requires e.ForExp?
    ensures var r := RenameExp(e, sc, n); r.count == n + |Declared(e)| && Numbered(Declared(e), Declared(r.tree), n)
    decreases e, 2
  {
    hide Numbered, Fresh;
    var i, lo, hi, body := e.index, e.lo, e.hi, e.body;
    var lo2 := RenameExp(lo, sc, n + 1);
    var hi2 := RenameExp(hi, sc, lo2.count);
    var b2 := RenameExp(body, RVar(i, n, sc), hi2.count);
    StartNumbered(i, n, lo, sc, e);
    ExpNumbered(hi, sc, lo2.count);
    NumberedJoin([i] + Declared(lo), [Fresh(i, n)] + Declared(lo2.tree), n, Declared(hi), Declared(hi2.tree));
    ExpNumbered(body, RVar(i, n, sc), hi2.count);
    NumberedJoin([i] + Declared(lo) + Declared(hi), [Fresh(i, n)] + Declared(lo2.tree) + Declared(hi2.tree), n, Declared(body), Declared(b2.tree));
  }

  lemma {:induction false} LetVarNumbered(e: Exp, sc: RScope, n: nat)
    requires e.LetVar?
    ensures var r := RenameExp(e, sc, n); r.count == n + |Declared(e)| && Numbered(Declared(e), Declared(r.tree), n)
    decreases e, 2
  {
    hide Numbered, Fresh;
    var x, init, body := e.name, e.init, e.body;
    var i2 := RenameExp(init, sc, n + 1);
    var b2 := RenameExp(body, RVar(x, n, sc), i2.count);
    StartNumbered(x, n, init, sc, e);
    ExpNumbered(body, RVar(x, n, sc), i2.count);
    NumberedJoin([x] + Declared(init), [Fresh(x, n)] + Declared(i2.tree), n, Declared(body), Declared(b2.tree));
  }

  /** A name, and what is visited after it. */
  lemma {:induction false} StartNumbered(x: Sym, n: nat, e: Exp, sc: RScope, whole: Exp)
    requires e < whole
    ensures var r := RenameExp(e, sc, n + 1);
      r.count == n + 1 + |Declared(e)| && Numbered([x] + Declared(e), [Fresh(x, n)] + Declared(r.tree), n)
    decreases whole, 1
  {
    hide RenameExp, Declared;
    OneNumbered(x, n);
    ExpNumbered(e, sc, n + 1);
    NumberedJoin([x], [Fresh(x, n)], n, Declared(e), Declared(RenameExp(e, sc, n + 1).tree));
  }

  lemma {:induction false} LetFunsNumbered(e: Exp, sc: RScope, n: nat)
    requires e.LetFuns?
    ensures var r := RenameExp(e, sc, n); r.count == n + |Declared(e)| && Numbered(Declared(e), Declared(r.tree), n)
    decreases e, 2
  {
    hide Numbered, HeaderNames, BodyNames, RenameBodies, RenameHeaders;
    var ds, body := e.funs, e.body;
    var hs := RenameHeaders(ds, n);
    var sc1 := RFuns(hs.tree, n, sc);
    var ds2 := RenameBodies(ds, n, sc1, hs.count);
    ChunkNumbered(ds, n, sc1);
    ExpNumbered(body, sc1, ds2.count);
    NumberedJoin(HeaderNames(ds) + BodyNames(ds), HeaderNames(ds2.tree) + BodyNames(ds2.tree), n,
                 Declared(body), Declared(RenameExp(body, sc1, ds2.count).tree));
  }

  /** First the headers, then the bodies. */
  lemma {:induction false} ChunkNumbered(ds: Funs, n: nat, sc: RScope)
    ensures var r := RenameBodies(ds, n, sc, RenameHeaders(ds, n).count);
      && r.count == n + |HeaderNames(ds) + BodyNames(ds)|
      && Numbered(HeaderNames(ds) + BodyNames(ds), HeaderNames(r.tree) + BodyNames(r.tree), n)
    decreases ds, 1
  {
    hide Numbered, HeaderNames, BodyNames, RenameBodies, RenameHeaders;
    var k := RenameHeaders(ds, n).count;
    var r := RenameBodies(ds, n, sc, k);
    HeadersNumbered(ds, n, sc, k);
    BodiesNumbered(ds, n, sc, k);
    NumberedJoin(HeaderNames(ds), HeaderNames(r.tree), n, BodyNames(ds), BodyNames(r.tree));
  }

  lemma NoneNumbered(n: nat)
    ensures Numbered([], [], n)
  {}

  lemma OneNumbered(x: Sym, n: nat)
    ensures Numbered([x], [Fresh(x, n)], n)
  {}

  lemma {:induction false} TwoNumbered(a: Exp, sa: RScope, b: Exp, sb: RScope, n: nat, whole: Exp)
    requires a < whole && b < whole
    ensures var a2 := RenameExp(a, sa, n); var b2 := RenameExp(b, sb, a2.count);
      b2.count == n + |Declared(a)| + |Declared(b)| && Numbered(Declared(a) + Declared(b), Declared(a2.tree) + Declared(b2.tree), n)
    decreases whole, 1
  {
    hide Numbered, RenameExp, Declared;
    ExpNumbered(a, sa, n);
    var a2 := RenameExp(a, sa, n);
    ExpNumbered(b, sb, a2.count);
    NumberedJoin(Declared(a), Declared(a2.tree), n, Declared(b), Declared(RenameExp(b, sb, a2.count).tree));
  }

  lemma {:induction false} AllNumbered(es: Exps, sc: RScope, n: nat)
    ensures var r := RenameExps(es, sc, n); r.count == n + |DeclaredAll(es)| && Numbered(DeclaredAll(es), DeclaredAll(r.tree), n)
    decreases es, 0
  {
    hide Numbered;
    if es.NoExp? {
      NoneNumbered(n);
    } else {
      var e2 := RenameExp(es.head, sc, n);
      ExpNumbered(es.head, sc, n);
      AllNumbered(es.tail, sc, e2.count);
      NumberedJoin(Declared(es.head), Declared(e2.tree), n, DeclaredAll(es.tail), DeclaredAll(RenameExps(es.tail, sc, e2.count).tree));
    }
  }

  lemma {:induction false} HeadersNumbered(ds: Funs, h: nat, sc: RScope, n: nat)
    ensures RenameHeaders(ds, h).count == h + |HeaderNames(ds)|
    ensures Numbered(HeaderNames(ds), HeaderNames(RenameBodies(ds, h, sc, n).tree), h)
    decreases ds
  {
    hide Numbered, RenameExp, Fresh, FormalsScopeOf;
    if ds.NoFun? {
      NoneNumbered(h);
    } else {
      var d, d2 := ds.first, RenameBodies(ds, h, sc, n).tree.first;
      var k := h + |d.formals|;
      var h2 := if Renames(d) then k + 1 else k;
      var n2 := if d.Function? then RenameExp(d.body, FormalsScopeOf(d.formals, h, sc), n).count else n;
      BodiesUnfold(ds, h, sc, n);
      StillRenames(d.name, k);
      FormalsNumbered(d.formals, h);
      var own, own2 := if Renames(d) then [d.name] else [], if Renames(d2) then [d2.name] else [];
      if Renames(d) { OneNumbered(d.name, k); } else { NoneNumbered(k); }
      NumberedJoin(d.formals, d2.formals, h, own, own2);
      HeadersNumbered(ds.rest, h2, sc, n2);
      NumberedJoin(d.formals + own, d2.formals + own2, h, HeaderNames(ds.rest), HeaderNames(RenameBodies(ds.rest, h2, sc, n2).tree));
    }
  }

  lemma FormalsNumbered(xs: seq<Sym>, h: nat)
    ensures Numbered(xs, RenameFormals(xs, h), h)
  {}

  lemma StillRenames(f: Sym, k: nat)
    ensures Fresh(f, k) != MAIN
  {
    MainIsPlain();
  }

  lemma {:induction false} BodiesNumbered(ds: Funs, h: nat, sc: RScope, n: nat)
    ensures var r := RenameBodies(ds, h, sc, n); r.count == n + |BodyNames(ds)| && Numbered(BodyNames(ds), BodyNames(r.tree), n)
    decreases ds, 0
  {
    hide Numbered, RenameExp, Fresh, FormalsScopeOf, Declared;
    if ds.NoFun? {
      NoneNumbered(n);
    } else {
      var d := ds.first;
      var k := h + |d.formals|;
      var h2 := if Renames(d) then k + 1 else k;
      var sc2 := FormalsScopeOf(d.formals, h, sc);
      var n2 := if d.Function? then RenameExp(d.body, sc2, n).count else n;
      BodiesUnfold(ds, h, sc, n);
      BodiesNumbered(ds.rest, h2, sc, n2);
      var own, own2 := if d.Function? then Declared(d.body) else [], if d.Function? then Declared(RenameExp(d.body, sc2, n).tree) else [];
      if d.Function? { ExpNumbered(d.body, sc2, n); } else { NoneNumbered(n); }
      NumberedJoin(own, own2, n, BodyNames(ds.rest), BodyNames(RenameBodies(ds.rest, h2, sc, n2).tree));
    }
  }

  // ----- a program -----

  function ProgramNames(p: Program): seq<Sym> {
    HeaderNames(p.prims) + BodyNames(p.prims) + (HeaderNames(p.Chunk()) + BodyNames(p.Chunk()))
  }

  /** `given` is `was`, an underscore and the numeral of `i`. */
  ghost predicate Suffixed(was: Sym, given: Sym, i: nat) { exists s :: Spells(s, i) && given.text == was.text + "_" + s }

  /** The declarations of a program are numbered from 0 in the order they are visited. */
  lemma ProgramNumbered(p: Program)
    requires p.main.Function?
    ensures var was, given := ProgramNames(p), ProgramNames(RenameProgram(p));
      |given| == |was| && forall i :: 0 <= i < |was| ==> Suffixed(was[i], given[i], i)
  {
    hide Spells, RenameProgram, ProgramNames;
    ProgramCounted(p);
    var was, given := ProgramNames(p), ProgramNames(RenameProgram(p));
    forall i | 0 <= i < |was| ensures Suffixed(was[i], given[i], i) {
      DecimalSpells(i);
      assert given[i] == Fresh(was[i], 0 + i);
    }
  }

  lemma ProgramCounted(p: Program)
    requires p.main.Function?
    ensures Numbered(ProgramNames(p), ProgramNames(RenameProgram(p)), 0)
  {
    hide Numbered, Fresh, RenameExp, HeaderNames, BodyNames, RenameHeaders;
    var r, q := RenamingOf(p), RenameProgram(p);
    var a, b := p.prims, p.Chunk();
    var n := r.prims.count;
    ChunkNumbered(a, 0, r.outer);
    ChunkNumbered(b, n, r.inner);
    var b2 := RenameBodies(b, n, r.inner, RenameHeaders(b, n).count).tree;
    assert b2.rest == NoFun && q.Chunk() == b2;
    NumberedJoin(HeaderNames(a) + BodyNames(a), HeaderNames(q.prims) + BodyNames(q.prims), 0,
                 HeaderNames(b) + BodyNames(b), HeaderNames(b2) + BodyNames(b2));
  }
}
