/** Renaming to unique names (src/bind/renamer.cc). */
module Rename {
  import opened Int32
  import opened Options
  import opened Tiger
  import opened Check
  import opened Evaluation
  import opened Steps

  // ----- fresh names -----

  function Digit(d: nat): char
    requires d < 10
  {
    "0123456789"[d]
  }

  /** `std::to_string` */
  function Decimal(n: nat): (s: string)
    ensures s != [] && '0' <= s[|s| - 1] <= '9'
  {
    if n < 10 then [Digit(n)] else Decimal(n / 10) + [Digit(n % 10)]
  }

  /** The name the declaration visited at count `n` gets. */
  function Fresh(x: Sym, n: nat): Sym { Sym(x.text + "_" + Decimal(n)) }

  function DigitValue(c: char): nat {
    if '0' <= c <= '9' then (c as int) - ('0' as int) else 0
  }

  function ValueOf(s: string): nat {
    if s == [] then 0 else ValueOf(s[..|s| - 1]) * 10 + DigitValue(s[|s| - 1])
  }

  lemma {:induction false} DecimalReadsBack(n: nat)
    ensures ValueOf(Decimal(n)) == n && '_' !in Decimal(n)
  {
    var s := Decimal(n);
    if n < 10 {
      assert s[..0] == [];
    } else {
      DecimalReadsBack(n / 10);
      assert s[..|s| - 1] == Decimal(n / 10);
    }
  }

  lemma LastUnderscore(x: string, a: string)
    requires '_' !in a
    ensures var s := x + "_" + a; s[|x|] == '_' && forall i :: |x| < i < |s| ==> s[i] != '_'
  {
    var s := x + "_" + a;
    forall i | |x| < i < |s| ensures s[i] != '_' { assert s[i] == a[i - |x| - 1]; }
  }

  lemma FreshEnds(x: Sym, n: nat)
    ensures var s := Fresh(x, n).text; s != "" && '0' <= s[|s| - 1] <= '9'
  {
    var s, d := x.text + "_" + Decimal(n), Decimal(n);
    assert s[|s| - 1] == d[|d| - 1];
  }

  /** A fresh name tells both the old name and the count. */
  lemma FreshInjective(x: Sym, n: nat, y: Sym, k: nat)
    requires Fresh(x, n) == Fresh(y, k)
    ensures x == y && n == k
  {
    var a, b := Decimal(n), Decimal(k);
    var s, t := x.text + "_" + a, y.text + "_" + b;
    DecimalReadsBack(n);
    DecimalReadsBack(k);
    LastUnderscore(x.text, a);
    LastUnderscore(y.text, b);
    assert |x.text| == |y.text|;
    assert s[..|x.text|] == x.text && t[..|y.text|] == y.text;
    assert s[|x.text| + 1..] == a && t[|y.text| + 1..] == b;
  }

  /** Whether some fresh name is spelled this way. */
  ghost predicate LooksFresh(f: Sym) { exists x, n: nat :: f == Fresh(x, n) }

  // ----- the renamer -----

  const MAIN: Sym := Sym("_main")

  /** A function keeps its name when it is a primitive or `_main`. */
  predicate Renames(d: FunDec) { d.Function? && d.name != MAIN }

  /** What the headers of a chunk leave behind: old name, new name, new formals. */
  datatype Heads = NoHead | HeadCons(was: Sym, given: Sym, formals: seq<Sym>, rest: Heads)

  /** The definitions in sight.  A use copies the name its definition has been given. */
  datatype RScope =
    | RTop
    | RVar(name: Sym, stamp: nat, outer: RScope)
    | RFuns(heads: Heads, count: nat, outer: RScope)

  function ResolveVar(sc: RScope, x: Sym): Sym {
    match sc
    case RTop => x
    case RVar(y, k, outer) => if x == y then Fresh(x, k) else ResolveVar(outer, x)
    case RFuns(_, _, outer) => ResolveVar(outer, x)
  }

  function FindHead(hs: Heads, f: Sym): Heads {
    match hs
    case NoHead => NoHead
    case HeadCons(was, _, _, rest) => if was == f then hs else FindHead(rest, f)
  }

  function ResolveFun(sc: RScope, f: Sym): Sym {
    match sc
    case RTop => f
    case RVar(_, _, outer) => ResolveFun(outer, f)
    case RFuns(hs, _, outer) =>
      var h := FindHead(hs, f);
      if h.HeadCons? then h.given else ResolveFun(outer, f)
  }

  datatype Out<T> = Out(tree: T, count: nat)

  function RenameFormals(xs: seq<Sym>, n: nat): (r: seq<Sym>)
    ensures |r| == |xs| && forall i :: 0 <= i < |xs| ==> r[i] == Fresh(xs[i], n + i)
  {
    seq(|xs|, i requires 0 <= i < |xs| => Fresh(xs[i], n + i))
  }

  /** First pass over a chunk: formals, then the function's own name. */
  function RenameHeaders(ds: Funs, n: nat): (r: Out<Heads>)
    ensures r.count >= n
  {
    match ds
    case NoFun => Out(NoHead, n)
    case FunCons(d, rest) =>
      var k := n + |d.formals|;
      var r := RenameHeaders(rest, if Renames(d) then k + 1 else k);
      Out(HeadCons(d.name, if Renames(d) then Fresh(d.name, k) else d.name, RenameFormals(d.formals, n), r.tree), r.count)
  }

  function FormalsScopeOf(xs: seq<Sym>, n: nat, sc: RScope): RScope
    decreases |xs|
  {
    if xs == [] then sc else FormalsScopeOf(xs[1..], n + 1, RVar(xs[0], n, sc))
  }

  function RenameExp(e: Exp, sc: RScope, n: nat): (r: Out<Exp>)
    ensures r.count >= n
    decreases e, 0
  {
    match e
    case IntExp(_) => Out(e, n)
    case VarExp(x) => Out(VarExp(ResolveVar(sc, x)), n)
    case OpExp(l, op, r) =>
      var l2 := RenameExp(l, sc, n);
      var r2 := RenameExp(r, sc, l2.count);
      Out(OpExp(l2.tree, op, r2.tree), r2.count)
    case SeqExp(es) =>
      var r := RenameExps(es, sc, n);
      Out(SeqExp(r.tree), r.count)
    case AssignExp(x, e1) =>
      var r := RenameExp(e1, sc, n);
      Out(AssignExp(ResolveVar(sc, x), r.tree), r.count)
    case IfExp(c, t, f) =>
      var c2 := RenameExp(c, sc, n);
      var t2 := RenameExp(t, sc, c2.count);
      var f2 := RenameExp(f, sc, t2.count);
      Out(IfExp(c2.tree, t2.tree, f2.tree), f2.count)
    case WhileExp(c, body) =>
      var c2 := RenameExp(c, sc, n);
      var b2 := RenameExp(body, sc, c2.count);
      Out(WhileExp(c2.tree, b2.tree), b2.count)
    case ForExp(i, lo, hi, body) =>
      var lo2 := RenameExp(lo, sc, n + 1);
      var hi2 := RenameExp(hi, sc, lo2.count);
      var b2 := RenameExp(body, RVar(i, n, sc), hi2.count);
      Out(ForExp(Fresh(i, n), lo2.tree, hi2.tree, b2.tree), b2.count)
    case BreakExp => Out(e, n)
    case CallExp(f, args) =>
      var r := RenameExps(args, sc, n);
      Out(CallExp(ResolveFun(sc, f), r.tree), r.count)
    case LetVar(x, init, body) =>
      var i2 := RenameExp(init, sc, n + 1);
      var b2 := RenameExp(body, RVar(x, n, sc), i2.count);
      Out(LetVar(Fresh(x, n), i2.tree, b2.tree), b2.count)
    case LetFuns(ds, body) =>
      var hs := RenameHeaders(ds, n);
      var sc1 := RFuns(hs.tree, n, sc);
      var ds2 := RenameBodies(ds, n, sc1, hs.count);
      var b2 := RenameExp(body, sc1, ds2.count);
      Out(LetFuns(ds2.tree, b2.tree), b2.count)
  }

  function RenameExps(es: Exps, sc: RScope, n: nat): (r: Out<Exps>)
    ensures r.count >= n && Length(r.tree) == Length(es)
    decreases es, 0
  {
    match es
    case NoExp => Out(NoExp, n)
    case Cons(e, rest) =>
      var e2 := RenameExp(e, sc, n);
      var r := RenameExps(rest, sc, e2.count);
      Out(Cons(e2.tree, r.tree), r.count)
  }

  /** Second pass over a chunk whose headers were counted from `h`. */
  function RenameBodies(ds: Funs, h: nat, sc: RScope, n: nat): (r: Out<Funs>)
    ensures r.count >= n
    decreases ds, 0
  {
    match ds
    case NoFun => Out(NoFun, n)
    case FunCons(Primitive(f, xs, ty), rest) =>
      var r := RenameBodies(rest, h + |xs|, sc, n);
      Out(FunCons(Primitive(f, RenameFormals(xs, h), ty), r.tree), r.count)
    case FunCons(Function(f, xs, ty, body), rest) =>
      var k := h + |xs|;
      var b2 := RenameExp(body, FormalsScopeOf(xs, h, sc), n);
      var r := RenameBodies(rest, if f != MAIN then k + 1 else k, sc, b2.count);
      Out(FunCons(Function(if f != MAIN then Fresh(f, k) else f, RenameFormals(xs, h), ty, b2.tree), r.tree), r.count)
  }

  /** A chunk renamed, one function further. */
  lemma BodiesUnfold(ds: Funs, h: nat, sc: RScope, n: nat)
    requires ds.FunCons?
    ensures var d := ds.first;
      var k, sc2 := h + |d.formals|, FormalsScopeOf(d.formals, h, sc);
      var h2 := if Renames(d) then k + 1 else k;
      var n2 := if d.Function? then RenameExp(d.body, sc2, n).count else n;
      var w, r := RenameBodies(ds, h, sc, n), RenameBodies(ds.rest, h2, sc, n2);
      && w.count == r.count && RenameHeaders(ds, h).count == RenameHeaders(ds.rest, h2).count
      && w.tree == FunCons(if d.Function? then Function(if Renames(d) then Fresh(d.name, k) else d.name, RenameFormals(d.formals, h), d.result,
                                                        RenameExp(d.body, sc2, n).tree)
                           else Primitive(d.name, RenameFormals(d.formals, h), d.result), r.tree)
  {
    hide RenameExp, RenameFormals, FormalsScopeOf, Fresh;
  }

  // ----- what names the renamer can give -----

  /** `given` is the old name, kept by a function that no fresh name can be mistaken for, or a
      fresh one made from it. */
  ghost predicate GivenFor(was: Sym, given: Sym) {
    (given == was && !LooksFresh(was)) || exists k: nat :: given == Fresh(was, k)
  }

  /** Different names stay different: no declaration captures a use. */
  lemma GivenDiffer(x: Sym, x2: Sym, y: Sym, y2: Sym)
    requires GivenFor(x, x2) && GivenFor(y, y2) && x != y
    ensures x2 != y2
  {
    if x2 == y2 {
      if k: nat :| x2 == Fresh(x, k) {
        if l: nat :| y2 == Fresh(y, l) { FreshInjective(x, k, y, l); }
      }
    }
  }

  ghost predicate HeadsGiven(hs: Heads) {
    match hs
    case NoHead => true
    case HeadCons(was, given, _, rest) => GivenFor(was, given) && HeadsGiven(rest)
  }

  /** Functions that keep their names do not look renamed. */
  ghost predicate Plain(e: Exp) {
    match e
    case IntExp(_) => true
    case VarExp(_) => true
    case OpExp(l, _, r) => Plain(l) && Plain(r)
    case SeqExp(es) => PlainAll(es)
    case AssignExp(_, e1) => Plain(e1)
    case IfExp(c, t, f) => Plain(c) && Plain(t) && Plain(f)
    case WhileExp(c, body) => Plain(c) && Plain(body)
    case ForExp(_, lo, hi, body) => Plain(lo) && Plain(hi) && Plain(body)
    case BreakExp => true
    case CallExp(_, args) => PlainAll(args)
    case LetVar(_, init, body) => Plain(init) && Plain(body)
    case LetFuns(ds, body) => PlainFuns(ds) && Plain(body)
  }

  ghost predicate PlainAll(es: Exps) {
    match es
    case NoExp => true
    case Cons(e, rest) => Plain(e) && PlainAll(rest)
  }

  ghost predicate PlainDec(d: FunDec) {
    (d.Primitive? ==> !LooksFresh(d.name)) && (d.Function? ==> Plain(d.body))
  }

  ghost predicate PlainFuns(ds: Funs) {
    match ds
    case NoFun => true
    case FunCons(d, rest) => PlainDec(d) && PlainFuns(rest)
  }

  lemma MainIsPlain()
    ensures !LooksFresh(MAIN)
  {
    forall x, n: nat ensures Fresh(x, n) != MAIN {
      var d, s := Decimal(n), Fresh(x, n).text;
      assert s[|s| - 1] == d[|d| - 1];
    }
  }

  lemma {:induction false} HeadersGiven(ds: Funs, n: nat)
    requires PlainFuns(ds)
    ensures HeadsGiven(RenameHeaders(ds, n).tree)
  {
    if ds.FunCons? {
      var d := ds.first;
      var k := n + |d.formals|;
      MainIsPlain();
      if Renames(d) { assert Fresh(d.name, k) == Fresh(d.name, k); }
      HeadersGiven(ds.rest, if Renames(d) then k + 1 else k);
    }
  }

  // ----- the renamed program means the same -----

  /** The scope of the renamer between the original and the renamed static chain: the same
      declarations, in the same cells, under the names they were given. */
  ghost predicate EnvR(sc: RScope, env: Env, env2: Env) {
    match sc
    case RTop => env == Top && env2 == Top
    case RVar(x, k, outer) =>
      && env.BindVar? && env.name == x
      && env2.BindVar? && env2.name == Fresh(x, k) && env2.loc == env.loc && env2.readonly == env.readonly
      && EnvR(outer, env.outer, env2.outer)
    case RFuns(hs, k, outer) =>
      && env.BindFuns? && env2.BindFuns? && hs == RenameHeaders(env.funs, k).tree
      && env2.funs == RenameBodies(env.funs, k, sc, RenameHeaders(env.funs, k).count).tree
      && PlainFuns(env.funs) && EnvR(outer, env.outer, env2.outer)
  }

  /** A use still names the declaration it named. */
  lemma {:induction false} ResolvedVar(sc: RScope, env: Env, env2: Env, x: Sym)
    requires EnvR(sc, env, env2) && x in ScopeOf(env).vars
    ensures LookupVar(env2, ResolveVar(sc, x)) == LookupVar(env, x)
    ensures exists k: nat :: ResolveVar(sc, x) == Fresh(x, k)
  {
    match sc
    case RTop =>
    case RVar(y, k, outer) =>
      if x != y {
        ResolvedVar(outer, env.outer, env2.outer, x);
        var s: nat :| ResolveVar(outer, x) == Fresh(x, s);
        if Fresh(x, s) == Fresh(y, k) { FreshInjective(x, s, y, k); }
      }
    case RFuns(_, _, outer) => ResolvedVar(outer, env.outer, env2.outer, x);
  }

  /** Where a function's renamed declaration comes from. */
  ghost predicate RenamedDec(d: FunDec, d2: FunDec, given: Sym, sc: RScope, h: nat, n: nat) {
    && d2.name == given && d2.formals == RenameFormals(d.formals, h) && d2.result == d.result
    && d2.Function? == d.Function? && (d.Primitive? ==> given == d.name)
    && (d.Function? ==> d2.body == RenameExp(d.body, FormalsScopeOf(d.formals, h, sc), n).tree)
  }

  lemma {:induction false} HeadFound(ds: Funs, h: nat, f: Sym)
    requires HeadsGiven(RenameHeaders(ds, h).tree)
    ensures var hd := FindHead(RenameHeaders(ds, h).tree, f);
      (hd.HeadCons? <==> FindFun(ds, f).FunCons?) && (hd.HeadCons? ==> GivenFor(f, hd.given))
  {
    if ds.FunCons? && ds.first.name != f {
      var k := h + |ds.first.formals|;
      HeadFound(ds.rest, if Renames(ds.first) then k + 1 else k, f);
    }
  }

  /** Looking a function up in a renamed chunk finds the renamed declaration. */
  lemma {:induction false} FoundRenamed(ds: Funs, h: nat, sc: RScope, n: nat, f: Sym) returns (h1: nat, n1: nat)
    requires PlainFuns(ds) && FindFun(ds, f).FunCons?
    ensures FindHead(RenameHeaders(ds, h).tree, f).HeadCons?
    ensures var given := FindHead(RenameHeaders(ds, h).tree, f).given;
      var r := FindFun(RenameBodies(ds, h, sc, n).tree, given);
      && r.FunCons? && RenamedDec(FindFun(ds, f).first, r.first, given, sc, h1, n1) && PlainDec(FindFun(ds, f).first)
  {
    var d := ds.first;
    h1, n1 := h, n;
    HeadersGiven(ds, h);
    HeadFound(ds, h, f);
    if d.name != f {
      var k := h + |d.formals|;
      var n2 := if d.Function? then RenameExp(d.body, FormalsScopeOf(d.formals, h, sc), n).count else n;
      h1, n1 := FoundRenamed(ds.rest, if Renames(d) then k + 1 else k, sc, n2, f);
      var hs := RenameHeaders(ds, h).tree;
      GivenDiffer(d.name, hs.given, f, FindHead(hs, f).given);
    }
  }

  /** A name given to another function is not found in a renamed chunk. */
  lemma {:induction false} NotFoundRenamed(ds: Funs, h: nat, sc: RScope, n: nat, f: Sym, g: Sym)
    requires PlainFuns(ds) && FindFun(ds, f).NoFun? && GivenFor(f, g)
    ensures FindFun(RenameBodies(ds, h, sc, n).tree, g).NoFun?
  {
    if ds.FunCons? {
      var d := ds.first;
      var k := h + |d.formals|;
      var n2 := if d.Function? then RenameExp(d.body, FormalsScopeOf(d.formals, h, sc), n).count else n;
      HeadersGiven(ds, h);
      GivenDiffer(d.name, RenameHeaders(ds, h).tree.given, f, g);
      NotFoundRenamed(ds.rest, if Renames(d) then k + 1 else k, sc, n2, f, g);
    }
  }

  lemma {:induction false} ResolvedFun(sc: RScope, env: Env, env2: Env, f: Sym) returns (sc1: RScope, h: nat, n: nat)
    requires EnvR(sc, env, env2) && EnvTyped(env) && f in ScopeOf(env).funs
    ensures GivenFor(f, ResolveFun(sc, f)) && LookupFun(env, f).Some? && LookupFun(env2, ResolveFun(sc, f)).Some?
    ensures var c, c2 := LookupFun(env, f).value, LookupFun(env2, ResolveFun(sc, f)).value;
      EnvR(sc1, c.env, c2.env) && RenamedDec(c.dec, c2.dec, ResolveFun(sc, f), sc1, h, n) && c.dec.name == f && PlainDec(c.dec)
  {
    sc1, h, n := sc, 0, 0;
    match sc
    case RTop =>
    case RVar(y, k, outer) => sc1, h, n := ResolvedFun(outer, env.outer, env2.outer, f);
    case RFuns(hs, k, outer) =>
      TypedInChunk(env.funs, f, ScopeOf(env));
      HeadersGiven(env.funs, k);
      HeadFound(env.funs, k, f);
      var count := RenameHeaders(env.funs, k).count;
      if FindFun(env.funs, f).FunCons? {
        h, n := FoundRenamed(env.funs, k, sc, count, f);
        sc1 := sc;
      } else {
        sc1, h, n := ResolvedFun(outer, env.outer, env2.outer, f);
        NotFoundRenamed(env.funs, k, sc, count, f, ResolveFun(outer, f));
      }
  }

  lemma {:induction false} FormalsR(xs: seq<Sym>, h: nat, base: nat, sc: RScope, env: Env, env2: Env)
    requires EnvR(sc, env, env2)
    ensures EnvR(FormalsScopeOf(xs, h, sc), BindFormals(xs, base, env), BindFormals(RenameFormals(xs, h), base, env2))
    decreases |xs|
  {
    var ys := RenameFormals(xs, h);
    if xs != [] {
      assert ys[1..] == RenameFormals(xs[1..], h + 1);
      FormalsR(xs[1..], h + 1, base + 1, RVar(xs[0], h, sc), BindVar(xs[0], base, false, env), BindVar(ys[0], base, false, env2));
    }
  }

  ghost predicate Renamable(e: Exp, env: Env, inLoop: bool) {
    TypeOf(e, ScopeOf(env), inLoop).Some? && EnvTyped(env) && Plain(e)
  }

  /** Renaming keeps the meaning to the letter: same value, same cells, same trace, same fuel. */
  lemma {:induction false} RenameKeeps(e: Exp, sc: RScope, n: nat, env: Env, env2: Env, st: State, fuel: nat, inLoop: bool)
    requires Renamable(e, env, inLoop) && EnvR(sc, env, env2)
    ensures Eval(RenameExp(e, sc, n).tree, env2, st, fuel) == Eval(e, env, st, fuel)
    decreases fuel, e, 2
  {
    match e
    case IntExp(_) =>
    case VarExp(x) => ResolvedVar(sc, env, env2, x);
    case OpExp(l, op, r) => OpKept(l, op, r, sc, n, env, env2, st, fuel, inLoop);
    case SeqExp(_) => SequenceKept(e, sc, n, env, env2, st, fuel, inLoop);
    case AssignExp(_, _) => AssignKept(e, sc, n, env, env2, st, fuel, inLoop);
    case IfExp(c, t, f) => IfKept(c, t, f, sc, n, env, env2, st, fuel, inLoop);
    case WhileExp(c, body) => WhileKept(c, body, sc, n, RenameExp(c, sc, n).count, env, env2, st, fuel, inLoop);
    case ForExp(i, lo, hi, body) => ForKept(i, lo, hi, body, sc, n, env, env2, st, fuel, inLoop);
    case BreakExp =>
    case CallExp(f, args) => CallKept(f, args, sc, n, env, env2, st, fuel, inLoop);
    case LetVar(x, init, body) => LetVarKept(x, init, body, sc, n, env, env2, st, fuel, inLoop);
    case LetFuns(ds, body) => LetFunsKept(ds, body, sc, n, env, env2, st, fuel, inLoop);
  }

  lemma {:induction false} AssignKept(e: Exp, sc: RScope, n: nat, env: Env, env2: Env, st: State, fuel: nat, inLoop: bool)
    requires e.AssignExp?
    requires Renamable(e, env, inLoop) && EnvR(sc, env, env2)
    ensures Eval(RenameExp(e, sc, n).tree, env2, st, fuel) == Eval(e, env, st, fuel)
    decreases fuel, e, 0
  {
    var x, e1 := e.name, e.exp;
    ResolvedVar(sc, env, env2, x);
    RenameKeeps(e1, sc, n, env, env2, st, fuel, inLoop);
  }

  lemma {:induction false} SequenceKept(e: Exp, sc: RScope, n: nat, env: Env, env2: Env, st: State, fuel: nat, inLoop: bool)
    requires e.SeqExp?
    requires Renamable(e, env, inLoop) && EnvR(sc, env, env2)
    ensures Eval(RenameExp(e, sc, n).tree, env2, st, fuel) == Eval(e, env, st, fuel)
    decreases fuel, e, 0
  {
    var es := e.exps;
    TypedParts(es, ScopeOf(env), inLoop);
    ArgsKept(es, sc, n, env, env2, st, fuel, inLoop);
  }

  lemma {:induction false} OpKept(l: Exp, op: Oper, r: Exp, sc: RScope, n: nat, env: Env, env2: Env, st: State, fuel: nat, inLoop: bool)
    requires Renamable(OpExp(l, op, r), env, inLoop) && EnvR(sc, env, env2)
    ensures Eval(RenameExp(OpExp(l, op, r), sc, n).tree, env2, st, fuel) == Eval(OpExp(l, op, r), env, st, fuel)
    decreases fuel, OpExp(l, op, r), 1
  {
    hide EnvR, Eval, EvalOper, EnvTyped;
    var l2 := RenameExp(l, sc, n);
    OpSteps(l, op, r, env, st, fuel);
    OpSteps(l2.tree, op, RenameExp(r, sc, l2.count).tree, env2, st, fuel);
    RenameKeeps(l, sc, n, env, env2, st, fuel, inLoop);
    RenameKeeps(r, sc, RenameExp(l, sc, n).count, env, env2, Eval(l, env, st, fuel).st, fuel, inLoop);
  }

  lemma {:induction false} LetVarKept(x: Sym, init: Exp, body: Exp, sc: RScope, n: nat, env: Env, env2: Env, st: State, fuel: nat, inLoop: bool)
    requires Renamable(LetVar(x, init, body), env, inLoop) && EnvR(sc, env, env2)
    ensures Eval(RenameExp(LetVar(x, init, body), sc, n).tree, env2, st, fuel) == Eval(LetVar(x, init, body), env, st, fuel)
    decreases fuel, LetVar(x, init, body), 1
  {
    var i2 := RenameExp(init, sc, n + 1);
    RenameKeeps(init, sc, n + 1, env, env2, st.Alloc(0), fuel, inLoop);
    var v := Eval(init, env, st.Alloc(0), fuel);
    if v.Val? {
      RenameKeeps(body, RVar(x, n, sc), i2.count, BindVar(x, |st.mem|, false, env), BindVar(Fresh(x, n), |st.mem|, false, env2),
                  v.st.Write(|st.mem|, v.value), fuel, inLoop);
    }
  }

  lemma {:induction false} LetFunsKept(ds: Funs, body: Exp, sc: RScope, n: nat, env: Env, env2: Env, st: State, fuel: nat, inLoop: bool)
    requires Renamable(LetFuns(ds, body), env, inLoop) && EnvR(sc, env, env2)
    ensures Eval(RenameExp(LetFuns(ds, body), sc, n).tree, env2, st, fuel) == Eval(LetFuns(ds, body), env, st, fuel)
    decreases fuel, LetFuns(ds, body), 1
  {
    var hs := RenameHeaders(ds, n);
    var sc1 := RFuns(hs.tree, n, sc);
    var ds2 := RenameBodies(ds, n, sc1, hs.count);
    RenameKeeps(body, sc1, ds2.count, BindFuns(ds, env), BindFuns(ds2.tree, env2), st, fuel, inLoop);
  }

  lemma {:induction false} ArgsKept(es: Exps, sc: RScope, n: nat, env: Env, env2: Env, st: State, fuel: nat, inLoop: bool)
    requires SeqTyped(es, ScopeOf(env), inLoop) && EnvTyped(env) && PlainAll(es) && EnvR(sc, env, env2)
    ensures EvalArgs(RenameExps(es, sc, n).tree, env2, st, fuel) == EvalArgs(es, env, st, fuel)
    decreases fuel, es, 1
  {
    if es.Cons? {
      RenameKeeps(es.head, sc, n, env, env2, st, fuel, inLoop);
      ArgsKept(es.tail, sc, RenameExp(es.head, sc, n).count, env, env2, Eval(es.head, env, st, fuel).st, fuel, inLoop);
    }
  }

  lemma {:induction false} IfKept(c: Exp, t: Exp, f: Exp, sc: RScope, n: nat, env: Env, env2: Env, st: State, fuel: nat, inLoop: bool)
    requires Renamable(IfExp(c, t, f), env, inLoop) && EnvR(sc, env, env2)
    ensures Eval(RenameExp(IfExp(c, t, f), sc, n).tree, env2, st, fuel) == Eval(IfExp(c, t, f), env, st, fuel)
    decreases fuel, IfExp(c, t, f), 1
  {
    hide EnvR, Eval, EnvTyped;
    var c2 := RenameExp(c, sc, n);
    var t2 := RenameExp(t, sc, c2.count);
    IfSteps(c, t, f, env, st, fuel);
    IfSteps(c2.tree, t2.tree, RenameExp(f, sc, t2.count).tree, env2, st, fuel);
    RenameKeeps(c, sc, n, env, env2, st, fuel, inLoop);
    var st1 := Eval(c, env, st, fuel).st;
    RenameKeeps(t, sc, c2.count, env, env2, st1, fuel, inLoop);
    RenameKeeps(f, sc, t2.count, env, env2, st1, fuel, inLoop);
  }

  lemma {:induction false} WhileKept(c: Exp, body: Exp, sc: RScope, n: nat, k: nat, env: Env, env2: Env, st: State, fuel: nat, inLoop: bool)
    requires Renamable(c, env, inLoop) && Renamable(body, env, true) && EnvR(sc, env, env2)
    ensures EvalWhile(RenameExp(c, sc, n).tree, RenameExp(body, sc, k).tree, env2, st, fuel) == EvalWhile(c, body, env, st, fuel)
    decreases fuel, body, 3
  {
    if fuel > 0 {
      RenameKeeps(c, sc, n, env, env2, st, fuel - 1, inLoop);
      var o := Eval(c, env, st, fuel - 1);
      RenameKeeps(body, sc, k, env, env2, o.st, fuel - 1, true);
      WhileKept(c, body, sc, n, k, env, env2, Eval(body, env, o.st, fuel - 1).st, fuel - 1, inLoop);
    }
  }

  lemma {:induction false} ForKept(i: Sym, lo: Exp, hi: Exp, body: Exp, sc: RScope, n: nat, env: Env, env2: Env, st: State, fuel: nat,
                                   inLoop: bool)
    requires Renamable(ForExp(i, lo, hi, body), env, inLoop) && EnvR(sc, env, env2)
    ensures Eval(RenameExp(ForExp(i, lo, hi, body), sc, n).tree, env2, st, fuel) == Eval(ForExp(i, lo, hi, body), env, st, fuel)
    decreases fuel, ForExp(i, lo, hi, body), 1
  {
    var lo2 := RenameExp(lo, sc, n + 1);
    var hi2 := RenameExp(hi, sc, lo2.count);
    RenameKeeps(hi, sc, lo2.count, env, env2, st, fuel, inLoop);
    var h := Eval(hi, env, st, fuel);
    if h.Val? {
      TurnsKept(body, RVar(i, n, sc), hi2.count, BindVar(i, |h.st.mem|, true, env), BindVar(Fresh(i, n), |h.st.mem|, true, env2),
                |h.st.mem|, lo.value, h.value, h.st.Alloc(lo.value), fuel);
    }
  }

  lemma {:induction false} TurnsKept(body: Exp, sc: RScope, n: nat, env: Env, env2: Env, loc: nat, k: int, hi: int32, st: State, fuel: nat)
    requires INT_MIN <= k <= INT_MAX + 1 && Renamable(body, env, true) && EnvR(sc, env, env2)
    ensures EvalFor(RenameExp(body, sc, n).tree, env2, loc, k, hi, st, fuel) == EvalFor(body, env, loc, k, hi, st, fuel)
    decreases fuel, body, 3
  {
    if k <= hi && fuel > 0 {
      RenameKeeps(body, sc, n, env, env2, st.Write(loc, k), fuel - 1, true);
      TurnsKept(body, sc, n, env, env2, loc, k + 1, hi, Eval(body, env, st.Write(loc, k), fuel - 1).st, fuel - 1);
    }
  }

  lemma {:induction false} CallKept(f: Sym, args: Exps, sc: RScope, n: nat, env: Env, env2: Env, st: State, fuel: nat, inLoop: bool)
    requires Renamable(CallExp(f, args), env, inLoop) && EnvR(sc, env, env2)
    ensures Eval(RenameExp(CallExp(f, args), sc, n).tree, env2, st, fuel) == Eval(CallExp(f, args), env, st, fuel)
    decreases fuel, CallExp(f, args), 1
  {
    hide EnvR, RenamedDec, Eval, EvalArgs, EvalBody;
    CallSteps(f, args, env, st, fuel);
    CallSteps(ResolveFun(sc, f), RenameExps(args, sc, n).tree, env2, st, fuel);
    TypedParts(args, ScopeOf(env), inLoop);
    ArgsKept(args, sc, n, env, env2, st, fuel, inLoop);
    TypedCallee(env, f);
    var sc1, h, k := ResolvedFun(sc, env, env2, f);
    var o := EvalArgs(args, env, st, fuel);
    if o.Val? {
      ApplyKept(f, args, LookupFun(env, f).value, ResolveFun(sc, f), LookupFun(env2, ResolveFun(sc, f)).value, sc1, h, k, o.value, o.st, fuel);
    }
  }

  lemma {:induction false} ApplyKept(f: Sym, args: Exps, c: Callee, g: Sym, c2: Callee, sc: RScope, h: nat, n: nat, vs: seq<int32>, st: State,
                                     fuel: nat)
    requires EnvR(sc, c.env, c2.env) && RenamedDec(c.dec, c2.dec, g, sc, h, n) && c.dec.name == f && PlainDec(c.dec) && EnvTyped(c.env)
    requires c.dec.Function? ==> TypeOf(c.dec.body, ScopeOf(c.env).Formals(c.dec.formals), false).Some?
    ensures |c2.dec.formals| == |c.dec.formals| && c2.dec.Primitive? == c.dec.Primitive?
    ensures CallOutcome(g, c2, vs, st, fuel) == CallOutcome(f, c, vs, st, fuel)
    decreases fuel, args, 0
  {
    if c.dec.Function? && fuel > 0 {
      FormalsR(c.dec.formals, h, |st.mem|, sc, c.env, c2.env);
      FormalsScope(c.dec.formals, |st.mem|, c.env);
      RenameKeeps(c.dec.body, FormalsScopeOf(c.dec.formals, h, sc), n, BindFormals(c.dec.formals, |st.mem|, c.env),
                  BindFormals(c2.dec.formals, |st.mem|, c2.env), st.(mem := st.mem + vs), fuel - 1, false);
    }
  }

  // ----- the visitor -----

  /** The renamer: one counter for all names, incremented at every declaration. */
  class Renamer {
    var count: nat

    constructor ()
      ensures count == 0
    {
      count := 0;
    }

    /** The name the next declaration gets. */
    method NewName(x: Sym) returns (y: Sym)
      modifies this
      ensures y == Fresh(x, old(count)) && count == old(count) + 1
    {
      y := Fresh(x, count);
      count := count + 1;
    }

    method VisitExp(e: Exp, sc: RScope) returns (e2: Exp)
      modifies this
      ensures Out(e2, count) == RenameExp(e, sc, old(count))
      decreases e, 0
    {
      match e
      case IntExp(_) => e2 := e;
      case VarExp(x) => e2 := VarExp(ResolveVar(sc, x));
      case OpExp(l, op, r) =>
        var l2 := VisitExp(l, sc);
        var r2 := VisitExp(r, sc);
        e2 := OpExp(l2, op, r2);
      case SeqExp(es) =>
        var es2 := VisitExps(es, sc);
        e2 := SeqExp(es2);
      case AssignExp(x, e1) =>
        var r := VisitExp(e1, sc);
        e2 := AssignExp(ResolveVar(sc, x), r);
      case IfExp(c, t, f) =>
        var c2 := VisitExp(c, sc);
        var t2 := VisitExp(t, sc);
        var f2 := VisitExp(f, sc);
        e2 := IfExp(c2, t2, f2);
      case WhileExp(c, body) =>
        var c2 := VisitExp(c, sc);
        var b2 := VisitExp(body, sc);
        e2 := WhileExp(c2, b2);
      case ForExp(i, lo, hi, body) =>
        var k := count;
        var i2 := NewName(i);
        var lo2 := VisitExp(lo, sc);
        var hi2 := VisitExp(hi, sc);
        var b2 := VisitExp(body, RVar(i, k, sc));
        e2 := ForExp(i2, lo2, hi2, b2);
      case BreakExp => e2 := e;
      case CallExp(f, args) =>
        var args2 := VisitExps(args, sc);
        e2 := CallExp(ResolveFun(sc, f), args2);
      case LetVar(x, init, body) =>
        var k := count;
        var x2 := NewName(x);
        var i2 := VisitExp(init, sc);
        var b2 := VisitExp(body, RVar(x, k, sc));
        e2 := LetVar(x2, i2, b2);
      case LetFuns(ds, body) =>
        var k := count;
        var heads := VisitHeaders(ds);
        var sc1 := RFuns(heads, k, sc);
        var ds2 := VisitBodies(ds, heads, k, sc1);
        var b2 := VisitExp(body, sc1);
        e2 := LetFuns(ds2, b2);
    }

    method VisitExps(es: Exps, sc: RScope) returns (es2: Exps)
      modifies this
      ensures Out(es2, count) == RenameExps(es, sc, old(count))
      decreases es, 0
    {
      if es == NoExp {
        es2 := NoExp;
      } else {
        var e2 := VisitExp(es.head, sc);
        var rest := VisitExps(es.tail, sc);
        es2 := Cons(e2, rest);
      }
    }

    method VisitFormals(xs: seq<Sym>) returns (ys: seq<Sym>)
      modifies this
      ensures ys == RenameFormals(xs, old(count)) && count == old(count) + |xs|
    {
      ys := [];
      for i := 0 to |xs|
        invariant count == old(count) + i && |ys| == i && forall k :: 0 <= k < i ==> ys[k] == Fresh(xs[k], old(count) + k)
      {
        var y := NewName(xs[i]);
        ys := ys + [y];
      }
    }

    /** First pass over a chunk: the names the declarations are given. */
    method VisitHeaders(ds: Funs) returns (heads: Heads)
      modifies this
      ensures Out(heads, count) == RenameHeaders(ds, old(count))
    {
      if ds == NoFun {
        heads := NoHead;
      } else {
        var d := ds.first;
        var formals := VisitFormals(d.formals);
        var given := d.name;
        if Renames(d) { given := NewName(d.name); }
        var rest := VisitHeaders(ds.rest);
        heads := HeadCons(d.name, given, formals, rest);
      }
    }

    /** Second pass: bodies, under the names the first pass has left in the headers. */
    method VisitBodies(ds: Funs, heads: Heads, h: nat, sc: RScope) returns (ds2: Funs)
      requires heads == RenameHeaders(ds, h).tree
      modifies this
      ensures Out(ds2, count) == RenameBodies(ds, h, sc, old(count))
      decreases ds, 0
    {
      hide RenameExp, Fresh;
      match ds
      case NoFun => ds2 := NoFun;
      case FunCons(d, rest) =>
        var k := h + |d.formals|;
        var h2 := if Renames(d) then k + 1 else k;
        var d2 := Primitive(heads.given, heads.formals, d.result);
        if d.Function? {
          var b2 := VisitExp(d.body, FormalsScopeOf(d.formals, h, sc));
          d2 := Function(heads.given, heads.formals, d.result, b2);
        }
        var rest2 := VisitBodies(rest, heads.rest, h2, sc);
        ds2 := FunCons(d2, rest2);
    }
  }
}
