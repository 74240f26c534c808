/** `for` loops become `while` loops (src/desugar/desugar-visitor.cc). */
module Desugar {
  import opened Int32
  import opened Options
  import opened Tiger
  import opened Check
  import opened Evaluation
  import opened Link
  import opened Storage
  import opened Steps

  const LO: Sym := Sym("_lo")
  const HI: Sym := Sym("_hi")

  /** Names the scanner never gives to a program. */
  predicate Reserved(x: Sym) { x == LO || x == HI }

  function Int(n: int32): Exp { IntExp(n) }

  function Unit(): Exp { SeqExp(NoExp) }

  /** `( body; if i = _hi then break; i := i + 1 )` */
  function LoopBody(i: Sym, body: Exp): Exp {
    SeqExp(Cons(body,
           Cons(IfExp(OpExp(VarExp(i), Comparison(Eq), VarExp(HI)), BreakExp, Unit()),
           Cons(AssignExp(i, OpExp(VarExp(i), Arithmetic(Add), Int(1))), NoExp))))
  }

  /** `if _lo <= _hi then while 1 do ( .. )` */
  function Loop(i: Sym, body: Exp): Exp {
    IfExp(OpExp(VarExp(LO), Comparison(Le), VarExp(HI)), WhileExp(Int(1), LoopBody(i, body)), Unit())
  }

  /** The template a `for` is replaced with. */
  function Template(i: Sym, lo: Exp, hi: Exp, body: Exp): Exp {
    LetVar(LO, lo, LetVar(HI, hi, LetVar(i, VarExp(LO), Loop(i, body))))
  }

  function DesugarExp(e: Exp): Exp {
    match e
    case IntExp(_) => e
    case VarExp(_) => e
    case OpExp(l, op, r) => OpExp(DesugarExp(l), op, DesugarExp(r))
    case SeqExp(es) => SeqExp(DesugarExps(es))
    case AssignExp(x, e1) => AssignExp(x, DesugarExp(e1))
    case IfExp(c, t, f) => IfExp(DesugarExp(c), DesugarExp(t), DesugarExp(f))
    case WhileExp(c, body) => WhileExp(DesugarExp(c), DesugarExp(body))
    case ForExp(i, lo, hi, body) => Template(i, lo, DesugarExp(hi), DesugarExp(body))
    case BreakExp => e
    case CallExp(f, args) => CallExp(f, DesugarExps(args))
    case LetVar(x, init, body) => LetVar(x, DesugarExp(init), DesugarExp(body))
    case LetFuns(ds, body) => LetFuns(DesugarFuns(ds), DesugarExp(body))
  }

  function DesugarExps(es: Exps): (r: Exps)
    ensures Length(r) == Length(es)
  {
    match es
    case NoExp => NoExp
    case Cons(e, rest) => Cons(DesugarExp(e), DesugarExps(rest))
  }

  function DesugarDec(d: FunDec): FunDec {
    match d
    case Function(f, xs, ty, body) => Function(f, xs, ty, DesugarExp(body))
    case Primitive(_, _, _) => d
  }

  function DesugarFuns(ds: Funs): Funs {
    match ds
    case NoFun => NoFun
    case FunCons(Function(f, xs, ty, body), rest) => FunCons(Function(f, xs, ty, DesugarExp(body)), DesugarFuns(rest))
    case FunCons(Primitive(f, xs, ty), rest) => FunCons(Primitive(f, xs, ty), DesugarFuns(rest))
  }

  /** No variable of the program is called `_lo` or `_hi`. */
  predicate Clean(e: Exp) {
    match e
    case IntExp(_) => true
    case VarExp(x) => !Reserved(x)
    case OpExp(l, _, r) => Clean(l) && Clean(r)
    case SeqExp(es) => CleanAll(es)
    case AssignExp(x, e1) => !Reserved(x) && Clean(e1)
    case IfExp(c, t, f) => Clean(c) && Clean(t) && Clean(f)
    case WhileExp(c, body) => Clean(c) && Clean(body)
    case ForExp(i, lo, hi, body) => !Reserved(i) && Clean(lo) && Clean(hi) && Clean(body)
    case BreakExp => true
    case CallExp(_, args) => CleanAll(args)
    case LetVar(x, init, body) => !Reserved(x) && Clean(init) && Clean(body)
    case LetFuns(ds, body) => CleanFuns(ds) && Clean(body)
  }

  predicate CleanAll(es: Exps) {
    match es
    case NoExp => true
    case Cons(e, rest) => Clean(e) && CleanAll(rest)
  }

  predicate CleanFuns(ds: Funs) {
    match ds
    case NoFun => true
    case FunCons(d, rest) =>
      (forall x :: x in d.formals ==> !Reserved(x)) && (d.Function? ==> Clean(d.body)) && CleanFuns(rest)
  }

  // ----- matching environments -----

  /** The same declarations, with bounds of enclosing loops in between. */
  ghost predicate EnvRel(env: Env, env2: Env, j: Cells)
    decreases env2
  {
    match env2
    case Top => env == Top
    case BindVar(x, loc, _, outer2) =>
      if Reserved(x) then EnvRel(env, outer2, j)
      else env.BindVar? && env.name == x && env.loc < |j| && j[env.loc] == loc && EnvRel(env.outer, outer2, j)
    case BindFuns(ds, outer2) =>
      env.BindFuns? && ds == DesugarFuns(env.funs) && CleanFuns(env.funs) && EnvRel(env.outer, outer2, j)
  }

  lemma {:induction false} EnvRelGrown(env: Env, env2: Env, j: Cells, j2: Cells, n: nat)
    requires EnvRel(env, env2, j) && Grown(j, j2, n)
    ensures EnvRel(env, env2, j2)
    decreases env2
  {
    match env2
    case Top =>
    case BindVar(x, _, _, outer2) =>
      if Reserved(x) {
        EnvRelGrown(env, outer2, j, j2, n);
      } else {
        assert j[env.loc] == j2[..|j|][env.loc];
        EnvRelGrown(env.outer, outer2, j, j2, n);
      }
    case BindFuns(_, outer2) => EnvRelGrown(env.outer, outer2, j, j2, n);
  }

  lemma {:induction false} EnvRelVar(env: Env, env2: Env, j: Cells, x: Sym)
    requires EnvRel(env, env2, j) && !Reserved(x)
    ensures LookupVar(env, x).Some? <==> LookupVar(env2, x).Some?
    ensures LookupVar(env, x).Some? ==>
      LookupVar(env, x).value < |j| && j[LookupVar(env, x).value] == LookupVar(env2, x).value
    decreases env2
  {
    match env2
    case Top =>
    case BindVar(y, _, _, outer2) =>
      if Reserved(y) { EnvRelVar(env, outer2, j, x); }
      else if y != x { EnvRelVar(env.outer, outer2, j, x); }
    case BindFuns(_, outer2) => EnvRelVar(env.outer, outer2, j, x);
  }

  lemma {:induction false} FindDesugared(ds: Funs, f: Sym)
    ensures FindFun(DesugarFuns(ds), f).FunCons? <==> FindFun(ds, f).FunCons?
    ensures FindFun(ds, f).FunCons? ==> FindFun(DesugarFuns(ds), f).first == DesugarDec(FindFun(ds, f).first)
    ensures FindFun(ds, f).FunCons? && CleanFuns(ds) ==> CleanFuns(FindFun(ds, f))
  {
    if ds.FunCons? && ds.first.name != f { FindDesugared(ds.rest, f); }
  }

  lemma {:induction false} EnvRelFun(env: Env, env2: Env, j: Cells, f: Sym)
    requires EnvRel(env, env2, j)
    ensures LookupFun(env, f).Some? <==> LookupFun(env2, f).Some?
    ensures LookupFun(env, f).Some? ==>
      var c, c2 := LookupFun(env, f).value, LookupFun(env2, f).value;
      && c2.dec == DesugarDec(c.dec) && EnvRel(c.env, c2.env, j)
      && (forall x :: x in c.dec.formals ==> !Reserved(x)) && (c.dec.Function? ==> Clean(c.dec.body))
    decreases env2
  {
    match env2
    case Top =>
    case BindVar(y, _, _, outer2) =>
      if Reserved(y) { EnvRelFun(env, outer2, j, f); } else { EnvRelFun(env.outer, outer2, j, f); }
    case BindFuns(_, outer2) =>
      FindDesugared(env.funs, f);
      if FindFun(env.funs, f).NoFun? { EnvRelFun(env.outer, outer2, j, f); }
  }

  /** Consecutive cells for formals. */
  lemma {:induction false} FormalsRel(xs: seq<Sym>, base: nat, base2: nat, env: Env, env2: Env, j: Cells)
    requires EnvRel(env, env2, j) && (forall x :: x in xs ==> !Reserved(x)) && base + |xs| <= |j|
    requires forall k :: base <= k < base + |xs| ==> j[k] == base2 + (k - base)
    ensures EnvRel(BindFormals(xs, base, env), BindFormals(xs, base2, env2), j)
    decreases |xs|
  {
    if xs != [] {
      assert xs[0] in xs;
      forall x | x in xs[1..] ensures !Reserved(x) { assert x in xs; }
      FormalsRel(xs[1..], base + 1, base2 + 1, BindVar(xs[0], base, false, env), BindVar(xs[0], base2, false, env2), j);
    }
  }

  function Span(base: nat, n: nat): Cells { seq(n, i requires 0 <= i < n => base + i) }

  lemma ArgsRel(st: State, st2: State, vs: seq<int32>, j: Cells)
    requires StRel(st, st2, j)
    ensures var j2 := j + Span(|st2.mem|, |vs|);
      && StRel(st.(mem := st.mem + vs), st2.(mem := st2.mem + vs), j2) && Grown(j, j2, |st2.mem|)
      && forall k :: |st.mem| <= k < |st.mem| + |vs| ==> j2[k] == |st2.mem| + (k - |st.mem|)
  {}

  // ----- preservation -----

  /** What the binder and the checker establish of `e` in `env`. */
  ghost predicate Checked(e: Exp, env: Env, inLoop: bool) {
    TypeOf(e, ScopeOf(env), inLoop).Some? && EnvTyped(env) && Clean(e)
  }

  ghost predicate CheckedAll(es: Exps, env: Env, inLoop: bool) {
    SeqTyped(es, ScopeOf(env), inLoop) && EnvTyped(env) && CleanAll(es)
  }

  /** The two runs stand at corresponding points. */
  ghost predicate Meet(env: Env, env2: Env, st: State, st2: State, j: Cells) {
    EnvRel(env, env2, j) && StRel(st, st2, j) && LocsBelow(env, |st.mem|)
  }

  /** After one evaluation the runs meet again. */
  lemma MeetAgain<T>(env: Env, env2: Env, st: State, st2: State, j: Cells, o: Outcome<T>, o2: Outcome<T>, j2: Cells)
    requires Meet(env, env2, st, st2, j) && Kept(o, o2, st2, j, j2) && o.Val? && |o.st.mem| >= |st.mem|
    ensures Meet(env, env2, o.st, o2.st, j2)
  {
    EnvRelGrown(env, env2, j, j2, |st2.mem|);
    LocsStayBelow(env, |st.mem|, |o.st.mem|);
  }

  /** Constants, variables and `break`. */
  lemma LeafKeeps(e: Exp, env: Env, env2: Env, st: State, st2: State, j: Cells, fuel: nat, inLoop: bool)
    requires e.IntExp? || e.VarExp? || e.BreakExp?
    requires Checked(e, env, inLoop) && Meet(env, env2, st, st2, j)
    ensures Kept(Eval(e, env, st, fuel), Eval(DesugarExp(e), env2, st2, fuel), st2, j, j)
  {
    if e.VarExp? { EnvRelVar(env, env2, j, e.name); }
  }

  /** A chunk in front of an expression. */
  lemma ChunkMeets(ds: Funs, body: Exp, env: Env, env2: Env, st: State, st2: State, j: Cells, inLoop: bool)
    requires Checked(LetFuns(ds, body), env, inLoop) && Meet(env, env2, st, st2, j)
    ensures Checked(body, BindFuns(ds, env), inLoop) && Meet(BindFuns(ds, env), BindFuns(DesugarFuns(ds), env2), st, st2, j)
  {
    hide StRel;
  }

  lemma SeqKept(vs: Outcome<seq<int32>>, vs2: Outcome<seq<int32>>, r: Outcome<int32>, r2: Outcome<int32>, st2: State, j: Cells, j2: Cells)
    requires Kept(vs, vs2, st2, j, j2)
    requires r == if !vs.Val? then Abrupt(vs) else Val(if vs.value == [] then 0 else vs.value[|vs.value| - 1], vs.st)
    requires r2 == if !vs2.Val? then Abrupt(vs2) else Val(if vs2.value == [] then 0 else vs2.value[|vs2.value| - 1], vs2.st)
    ensures Kept(r, r2, st2, j, j2)
  {
    hide StRel, Grown, Untouched;
  }

  /** Same fuel, same outcome: the desugared expression means what the original does. */
  lemma {:induction false} DesugarKeeps(e: Exp, env: Env, env2: Env, st: State, st2: State, j: Cells, fuel: nat, inLoop: bool)
    returns (j2: Cells)
    requires Checked(e, env, inLoop) && Meet(env, env2, st, st2, j)
    ensures Kept(Eval(e, env, st, fuel), Eval(DesugarExp(e), env2, st2, fuel), st2, j, j2)
    decreases fuel, e, 2
  {
    hide Untouched, Grown, EnvRel, StRel, Kept, Meet, Eval, EvalArgs, EvalWhile;
    j2 := j;
    match e
    case IntExp(_) => LeafKeeps(e, env, env2, st, st2, j, fuel, inLoop);
    case VarExp(_) => LeafKeeps(e, env, env2, st, st2, j, fuel, inLoop);
    case OpExp(l, op, r) => j2 := OpKeeps(l, op, r, env, env2, st, st2, j, fuel, inLoop);
    case SeqExp(es) =>
      TypedParts(es, ScopeOf(env), inLoop);
      j2 := ArgsKeep(es, env, env2, st, st2, j, fuel, inLoop);
      SeqSteps(es, env, st, fuel);
      SeqSteps(DesugarExps(es), env2, st2, fuel);
      SeqKept(EvalArgs(es, env, st, fuel), EvalArgs(DesugarExps(es), env2, st2, fuel), Eval(e, env, st, fuel),
              Eval(DesugarExp(e), env2, st2, fuel), st2, j, j2);
    case AssignExp(x, e1) => j2 := AssignKeeps(x, e1, env, env2, st, st2, j, fuel, inLoop);
    case IfExp(c, t, f) => j2 := IfKeeps(c, t, f, env, env2, st, st2, j, fuel, inLoop);
    case WhileExp(c, body) =>
      j2 := WhileKeeps(c, body, env, env2, st, st2, j, fuel, inLoop);
      WhileSteps(c, body, env, st, fuel);
      WhileSteps(DesugarExp(c), DesugarExp(body), env2, st2, fuel);
    case ForExp(i, lo, hi, body) => j2 := ForKeeps(i, lo, hi, body, env, env2, st, st2, j, fuel, inLoop);
    case BreakExp => LeafKeeps(e, env, env2, st, st2, j, fuel, inLoop);
    case CallExp(f, args) => j2 := CallKeeps(f, args, env, env2, st, st2, j, fuel, inLoop);
    case LetVar(x, init, body) => j2 := LetVarKeeps(x, init, body, env, env2, st, st2, j, fuel, inLoop);
    case LetFuns(ds, body) =>
      ChunkMeets(ds, body, env, env2, st, st2, j, inLoop);
      LetFunsSteps(ds, body, env, st, fuel);
      LetFunsSteps(DesugarFuns(ds), DesugarExp(body), env2, st2, fuel);
      j2 := DesugarKeeps(body, BindFuns(ds, env), BindFuns(DesugarFuns(ds), env2), st, st2, j, fuel, inLoop);
  }

  lemma {:induction false} OpKeeps(l: Exp, op: Oper, r: Exp, env: Env, env2: Env, st: State, st2: State, j: Cells, fuel: nat, inLoop: bool)
    returns (j2: Cells)
    requires Checked(OpExp(l, op, r), env, inLoop) && Meet(env, env2, st, st2, j)
    ensures Kept(Eval(OpExp(l, op, r), env, st, fuel), Eval(DesugarExp(OpExp(l, op, r)), env2, st2, fuel), st2, j, j2)
    decreases fuel, OpExp(l, op, r), 1
  {
    hide Untouched, Grown, EnvRel, Eval, EvalOper;
    OpSteps(l, op, r, env, st, fuel);
    OpSteps(DesugarExp(l), op, DesugarExp(r), env2, st2, fuel);
    j2 := DesugarKeeps(l, env, env2, st, st2, j, fuel, inLoop);
    var o, o2 := Eval(l, env, st, fuel), Eval(DesugarExp(l), env2, st2, fuel);
    if o.Val? {
      MemGrows(l, env, st, fuel);
      MeetAgain(env, env2, st, st2, j, o, o2, j2);
      var j3 := DesugarKeeps(r, env, env2, o.st, o2.st, j2, fuel, inLoop);
      var b, b2 := Eval(r, env, o.st, fuel), Eval(DesugarExp(r), env2, o2.st, fuel);
      KeptLater(o, o2, b, b2, st2, j, j2, j3);
      if b.Val? { OperKept(op, o.value, b, b2, st2, j, j3); }
      j2 := j3;
    }
  }

  /** The operation itself. */
  lemma OperKept(op: Oper, l: int32, b: Outcome<int32>, b2: Outcome<int32>, st2: State, j: Cells, j2: Cells)
    requires Kept(b, b2, st2, j, j2) && b.Val?
    ensures Kept(EvalOper(op, l, b.value, b.st), EvalOper(op, l, b2.value, b2.st), st2, j, j2)
  {}

  lemma {:induction false} ArgsKeep(es: Exps, env: Env, env2: Env, st: State, st2: State, j: Cells, fuel: nat, inLoop: bool)
    returns (j2: Cells)
    requires CheckedAll(es, env, inLoop) && Meet(env, env2, st, st2, j)
    ensures Kept(EvalArgs(es, env, st, fuel), EvalArgs(DesugarExps(es), env2, st2, fuel), st2, j, j2)
    decreases fuel, es, 1
  {
    j2 := j;
    if es.Cons? {
      var e, rest := es.head, es.tail;
      j2 := DesugarKeeps(e, env, env2, st, st2, j, fuel, inLoop);
      var o, o2 := Eval(e, env, st, fuel), Eval(DesugarExp(e), env2, st2, fuel);
      if o.Val? {
        MemGrows(e, env, st, fuel);
        MeetAgain(env, env2, st, st2, j, o, o2, j2);
        var j3 := ArgsKeep(rest, env, env2, o.st, o2.st, j2, fuel, inLoop);
        KeptLater(o, o2, EvalArgs(rest, env, o.st, fuel), EvalArgs(DesugarExps(rest), env2, o2.st, fuel), st2, j, j2, j3);
        j2 := j3;
      }
    }
  }

  lemma {:induction false} AssignKeeps(x: Sym, e1: Exp, env: Env, env2: Env, st: State, st2: State, j: Cells, fuel: nat, inLoop: bool)
    returns (j2: Cells)
    requires Checked(AssignExp(x, e1), env, inLoop) && Meet(env, env2, st, st2, j)
    ensures Kept(Eval(AssignExp(x, e1), env, st, fuel), Eval(DesugarExp(AssignExp(x, e1)), env2, st2, fuel), st2, j, j2)
    decreases fuel, AssignExp(x, e1), 1
  {
    j2 := DesugarKeeps(e1, env, env2, st, st2, j, fuel, inLoop);
    var o, o2 := Eval(e1, env, st, fuel), Eval(DesugarExp(e1), env2, st2, fuel);
    if o.Val? {
      EnvRelVar(env, env2, j, x);
      if LookupVar(env, x).Some? {
        var k := LookupVar(env, x).value;
        assert j2[k] == j2[..|j|][k];
        WriteRel(o.st, o2.st, j2, k, o.value);
        UntouchedTransitive(st2, o2.st, o2.st.Write(j2[k], o.value), j, j2);
      }
    }
  }

  lemma IfDesugars(c: Exp, t: Exp, f: Exp)
    ensures DesugarExp(IfExp(c, t, f)) == IfExp(DesugarExp(c), DesugarExp(t), DesugarExp(f))
  {}

  lemma KeptSame<T>(o: Outcome<T>, o2: Outcome<T>, st2: State, j: Cells, j2: Cells)
    requires Kept(o, o2, st2, j, j2)
    ensures (o.Val? <==> o2.Val?) && (o.Val? ==> o2.value == o.value)
  {
    hide StRel, Grown, Untouched;
  }

  lemma IfChecked(c: Exp, t: Exp, f: Exp, env: Env, inLoop: bool)
    requires Checked(IfExp(c, t, f), env, inLoop)
    ensures Checked(c, env, inLoop) && Checked(t, env, inLoop) && Checked(f, env, inLoop)
  {
    hide EnvTyped;
  }

  lemma {:induction false} IfKeeps(c: Exp, t: Exp, f: Exp, env: Env, env2: Env, st: State, st2: State, j: Cells, fuel: nat, inLoop: bool)
    returns (j2: Cells)
    requires Checked(IfExp(c, t, f), env, inLoop) && Meet(env, env2, st, st2, j)
    ensures Kept(Eval(IfExp(c, t, f), env, st, fuel), Eval(DesugarExp(IfExp(c, t, f)), env2, st2, fuel), st2, j, j2)
    decreases fuel, IfExp(c, t, f), 1
  {
    hide Untouched, Grown, EnvRel, StRel, Eval, Checked, Meet, Kept, DesugarExp;
    IfDesugars(c, t, f);
    IfChecked(c, t, f, env, inLoop);
    IfSteps(c, t, f, env, st, fuel);
    IfSteps(DesugarExp(c), DesugarExp(t), DesugarExp(f), env2, st2, fuel);
    j2 := DesugarKeeps(c, env, env2, st, st2, j, fuel, inLoop);
    var o, o2 := Eval(c, env, st, fuel), Eval(DesugarExp(c), env2, st2, fuel);
    KeptSame(o, o2, st2, j, j2);
    if o.Val? {
      MemGrows(c, env, st, fuel);
      MeetAgain(env, env2, st, st2, j, o, o2, j2);
      var e := if o.value != 0 then t else f;
      var j3 := DesugarKeeps(e, env, env2, o.st, o2.st, j2, fuel, inLoop);
      KeptLater(o, o2, Eval(e, env, o.st, fuel), Eval(DesugarExp(e), env2, o2.st, fuel), st2, j, j2, j3);
      j2 := j3;
    }
  }

  lemma KeptZero(o: Outcome<int32>, o2: Outcome<int32>, st2: State, j: Cells, j2: Cells)
    requires Kept(o, o2, st2, j, j2) && o.Val?
    ensures Kept(Val(0, o.st), Val(0, o2.st), st2, j, j2)
  {
    hide StRel, Grown, Untouched;
  }

  /** A loop whose body does not end with a value. */
  lemma LeftKept(b: Outcome<int32>, b2: Outcome<int32>, st2: State, j: Cells, j2: Cells)
    requires Kept(b, b2, st2, j, j2) && !b.Val?
    ensures Kept(Left(b), Left(b2), st2, j, j2)
  {
    hide StRel, Grown, Untouched;
  }

  lemma NoTurns(c: Exp, body: Exp, env: Env, env2: Env, st: State, st2: State, j: Cells)
    requires Meet(env, env2, st, st2, j)
    ensures Kept(EvalWhile(c, body, env, st, 0), EvalWhile(DesugarExp(c), DesugarExp(body), env2, st2, 0), st2, j, j)
  {
    hide EnvRel;
  }

  lemma {:induction false} WhileKeeps(c: Exp, body: Exp, env: Env, env2: Env, st: State, st2: State, j: Cells, fuel: nat, inLoop: bool)
    returns (j2: Cells)
    requires Checked(c, env, inLoop) && Checked(body, env, true) && Meet(env, env2, st, st2, j)
    ensures Kept(EvalWhile(c, body, env, st, fuel), EvalWhile(DesugarExp(c), DesugarExp(body), env2, st2, fuel), st2, j, j2)
    decreases fuel, body, 3
  {
    hide Checked, Meet, Kept, Eval, EvalWhile, DesugarExp, Left;
    j2 := j;
    if fuel == 0 {
      NoTurns(c, body, env, env2, st, st2, j);
    } else {
      TurnSteps(c, body, env, st, fuel);
      TurnSteps(DesugarExp(c), DesugarExp(body), env2, st2, fuel);
      j2 := DesugarKeeps(c, env, env2, st, st2, j, fuel - 1, inLoop);
      var o, o2 := Eval(c, env, st, fuel - 1), Eval(DesugarExp(c), env2, st2, fuel - 1);
      KeptSame(o, o2, st2, j, j2);
      if o.Val? && o.value == 0 {
        KeptZero(o, o2, st2, j, j2);
      } else if o.Val? {
        MemGrows(c, env, st, fuel - 1);
        MeetAgain(env, env2, st, st2, j, o, o2, j2);
        var j3 := BodyAgain(c, body, env, env2, o, o2, j2, fuel, inLoop);
        KeptLater(o, o2, Turned(c, body, env, Eval(body, env, o.st, fuel - 1), fuel - 1),
                  Turned(DesugarExp(c), DesugarExp(body), env2, Eval(DesugarExp(body), env2, o2.st, fuel - 1), fuel - 1), st2, j, j2, j3);
        j2 := j3;
      }
    }
  }

  /** The body of a `while`, and what comes after it. */
  lemma {:induction false} BodyAgain(c: Exp, body: Exp, env: Env, env2: Env, o: Outcome<int32>, o2: Outcome<int32>, j: Cells, fuel: nat,
                                     inLoop: bool) returns (j2: Cells)
    requires fuel > 0 && Checked(c, env, inLoop) && Checked(body, env, true) && Meet(env, env2, o.st, o2.st, j)
    ensures Kept(Turned(c, body, env, Eval(body, env, o.st, fuel - 1), fuel - 1),
                 Turned(DesugarExp(c), DesugarExp(body), env2, Eval(DesugarExp(body), env2, o2.st, fuel - 1), fuel - 1), o2.st, j, j2)
    decreases fuel - 1, body, 4
  {
    hide Checked, Meet, Kept, Eval, EvalWhile, DesugarExp, Left;
    j2 := DesugarKeeps(body, env, env2, o.st, o2.st, j, fuel - 1, true);
    var b, b2 := Eval(body, env, o.st, fuel - 1), Eval(DesugarExp(body), env2, o2.st, fuel - 1);
    KeptSame(b, b2, o2.st, j, j2);
    if b.Val? {
      MemGrows(body, env, o.st, fuel - 1);
      MeetAgain(env, env2, o.st, o2.st, j, b, b2, j2);
      var j3 := WhileKeeps(c, body, env, env2, b.st, b2.st, j2, fuel - 1, inLoop);
      KeptLater(b, b2, EvalWhile(c, body, env, b.st, fuel - 1), EvalWhile(DesugarExp(c), DesugarExp(body), env2, b2.st, fuel - 1),
                o2.st, j, j2, j3);
      j2 := j3;
    } else {
      LeftKept(b, b2, o2.st, j, j2);
    }
  }

  lemma {:induction false} LetVarKeeps(x: Sym, init: Exp, body: Exp, env: Env, env2: Env, st: State, st2: State, j: Cells, fuel: nat, inLoop: bool)
    returns (j2: Cells)
    requires Checked(LetVar(x, init, body), env, inLoop) && Meet(env, env2, st, st2, j)
    ensures Kept(Eval(LetVar(x, init, body), env, st, fuel), Eval(DesugarExp(LetVar(x, init, body)), env2, st2, fuel), st2, j, j2)
    decreases fuel, LetVar(x, init, body), 1
  {
    hide EnvRel, Eval;
    LetVarSteps(x, init, body, env, st, fuel);
    LetVarSteps(x, DesugarExp(init), DesugarExp(body), env2, st2, fuel);
    var loc, loc2 := |st.mem|, |st2.mem|;
    var j1 := j + [loc2];
    AllocRel(st, st2, j, 0);
    EnvRelGrown(env, env2, j, j1, |st2.mem|);
    LocsStayBelow(env, |st.mem|, |st.mem| + 1);
    j2 := DesugarKeeps(init, env, env2, st.Alloc(0), st2.Alloc(0), j1, fuel, inLoop);
    var o, o2 := Eval(init, env, st.Alloc(0), fuel), Eval(DesugarExp(init), env2, st2.Alloc(0), fuel);
    GrownTransitive(j, j1, j2, |st2.mem|, |st2.mem| + 1);
    assert Untouched(st2, st2.Alloc(0), j);
    UntouchedTransitive(st2, st2.Alloc(0), o2.st, j, j1);
    if o.Val? {
      MemGrows(init, env, st.Alloc(0), fuel);
      MeetAgain(env, env2, st.Alloc(0), st2.Alloc(0), j1, o, o2, j2);
      assert j2[loc] == j2[..|j1|][loc] == loc2;
      WriteRel(o.st, o2.st, j2, loc, o.value);
      UntouchedTransitive(st2, o2.st, o2.st.Write(loc2, o.value), j, j2);
      var j3 := ScopeKeeps(x, body, env, env2, loc, loc2, o.st.Write(loc, o.value), o2.st.Write(loc2, o.value), j2, fuel, inLoop);
      var b, b2 := Eval(body, BindVar(x, loc, false, env), o.st.Write(loc, o.value), fuel),
        Eval(DesugarExp(body), BindVar(x, loc2, false, env2), o2.st.Write(loc2, o.value), fuel);
      GrownTransitive(j, j2, j3, |st2.mem|, |o2.st.mem|);
      UntouchedTransitive(st2, o2.st.Write(loc2, o.value), b2.st, j, j2);
      j2 := j3;
    }
  }

  lemma {:induction false} ScopeKeeps(x: Sym, body: Exp, env: Env, env2: Env, loc: nat, loc2: nat, st: State, st2: State, j: Cells,
                                      fuel: nat, inLoop: bool) returns (j2: Cells)
    requires !Reserved(x) && loc < |j| && j[loc] == loc2
    requires Checked(body, BindVar(x, loc, false, env), inLoop) && Meet(env, env2, st, st2, j)
    ensures Kept(Eval(body, BindVar(x, loc, false, env), st, fuel), Eval(DesugarExp(body), BindVar(x, loc2, false, env2), st2, fuel),
                 st2, j, j2)
    decreases fuel, body, 3
  {
    j2 := DesugarKeeps(body, BindVar(x, loc, false, env), BindVar(x, loc2, false, env2), st, st2, j, fuel, inLoop);
  }

  lemma {:induction false} CallKeeps(f: Sym, args: Exps, env: Env, env2: Env, st: State, st2: State, j: Cells, fuel: nat, inLoop: bool)
    returns (j2: Cells)
    requires Checked(CallExp(f, args), env, inLoop) && Meet(env, env2, st, st2, j)
    ensures Kept(Eval(CallExp(f, args), env, st, fuel), Eval(DesugarExp(CallExp(f, args)), env2, st2, fuel), st2, j, j2)
    decreases fuel, CallExp(f, args), 1
  {
    hide Untouched, Grown, EnvRel, Eval, EvalArgs, EvalBody;
    CallSteps(f, args, env, st, fuel);
    CallSteps(f, DesugarExps(args), env2, st2, fuel);
    TypedParts(args, ScopeOf(env), inLoop);
    j2 := ArgsKeep(args, env, env2, st, st2, j, fuel, inLoop);
    var o, o2 := EvalArgs(args, env, st, fuel), EvalArgs(DesugarExps(args), env2, st2, fuel);
    if o.Val? {
      MemGrowsArgs(args, env, st, fuel);
      MeetAgain(env, env2, st, st2, j, o, o2, j2);
      EnvRelFun(env, env2, j2, f);
      TypedCallee(env, f);
      CalleeLocsBelow(env, f, |o.st.mem|);
      var c, c2 := LookupFun(env, f).value, LookupFun(env2, f).value;
      if |c.dec.formals| == |o.value| {
        var j3 := ApplyKeeps(f, args, c, c2, o.value, o.st, o2.st, j2, fuel);
        KeptLater(o, o2, CallOutcome(f, c, o.value, o.st, fuel), CallOutcome(f, c2, o.value, o2.st, fuel), st2, j, j2, j3);
        j2 := j3;
      }
    }
  }

  lemma {:induction false} ApplyKeeps(f: Sym, args: Exps, c: Callee, c2: Callee, vs: seq<int32>, st: State, st2: State, j: Cells, fuel: nat)
    returns (j2: Cells)
    requires c2.dec == DesugarDec(c.dec) && |c.dec.formals| == |vs| && EnvTyped(c.env)
    requires c.dec.Function? ==> TypeOf(c.dec.body, ScopeOf(c.env).Formals(c.dec.formals), false).Some? && Clean(c.dec.body)
    requires (forall x :: x in c.dec.formals ==> !Reserved(x)) && Meet(c.env, c2.env, st, st2, j)
    ensures Kept(CallOutcome(f, c, vs, st, fuel), CallOutcome(f, c2, vs, st2, fuel), st2, j, j2)
    decreases fuel, args, 0
  {
    j2 := j;
    if c.dec.Function? && fuel > 0 {
      j2 := BodyKeeps(c, c2, vs, st, st2, j, fuel - 1);
    }
  }

  lemma {:induction false} BodyKeeps(c: Callee, c2: Callee, vs: seq<int32>, st: State, st2: State, j: Cells, fuel: nat) returns (j2: Cells)
    requires c.dec.Function? && c2.dec == DesugarDec(c.dec) && |c.dec.formals| == |vs|
    requires EnvTyped(c.env) && TypeOf(c.dec.body, ScopeOf(c.env).Formals(c.dec.formals), false).Some? && Clean(c.dec.body)
    requires (forall x :: x in c.dec.formals ==> !Reserved(x)) && Meet(c.env, c2.env, st, st2, j)
    ensures Kept(EvalBody(c, vs, st, fuel), EvalBody(c2, vs, st2, fuel), st2, j, j2)
    decreases fuel, c.dec.body, 4
  {
    var xs := c.dec.formals;
    var j1 := j + Span(|st2.mem|, |vs|);
    var st1, st21 := st.(mem := st.mem + vs), st2.(mem := st2.mem + vs);
    ArgsRel(st, st2, vs, j);
    EnvRelGrown(c.env, c2.env, j, j1, |st2.mem|);
    FormalsRel(xs, |st.mem|, |st2.mem|, c.env, c2.env, j1);
    FormalsScope(xs, |st.mem|, c.env);
    FormalsBelow(xs, |st.mem|, c.env);
    j2 := DesugarKeeps(c.dec.body, BindFormals(xs, |st.mem|, c.env), BindFormals(xs, |st2.mem|, c2.env), st1, st21, j1, fuel, false);
    GrownTransitive(j, j1, j2, |st2.mem|, |st21.mem|);
    assert Untouched(st2, st21, j);
    UntouchedTransitive(st2, st21, EvalBody(c2, vs, st2, fuel).st, j, j1);
  }

  lemma {:induction false} FormalsBelow(xs: seq<Sym>, base: nat, env: Env)
    requires LocsBelow(env, base)
    ensures LocsBelow(BindFormals(xs, base, env), base + |xs|)
    decreases |xs|
  {
    if xs != [] {
      LocsStayBelow(env, base, base + 1);
      FormalsBelow(xs[1..], base + 1, BindVar(xs[0], base, false, env));
    }
  }

  // ----- for -----

  function Succ(n: int32): int32 { Wrap(n + 1) }

  /** One turn of the generated loop, behind the body `b`. */
  function TurnEnd(b: Outcome<int32>, locI: nat, locHi: nat): Outcome<int32> {
    if b.Val? && locI < |b.st.mem| && locHi < |b.st.mem| then
      if b.st.mem[locI] == b.st.mem[locHi] then Brk(b.st) else Val(0, b.st.Write(locI, Succ(b.st.mem[locI])))
    else b
  }

  lemma LoopTurn(i: Sym, body: Exp, env2: Env, st2: State, locI: nat, locHi: nat, fuel: nat)
    requires LookupVar(env2, i) == Some(locI) && LookupVar(env2, HI) == Some(locHi) && locI < |st2.mem| && locHi < |st2.mem|
    ensures Eval(LoopBody(i, body), env2, st2, fuel) == TurnEnd(Eval(body, env2, st2, fuel), locI, locHi)
  {
    var b := Eval(body, env2, st2, fuel);
    MemGrows(body, env2, st2, fuel);
    if b.Val? {
      var test := IfExp(OpExp(VarExp(i), Comparison(Eq), VarExp(HI)), BreakExp, Unit());
      var step := AssignExp(i, OpExp(VarExp(i), Arithmetic(Add), Int(1)));
      TestMeaning(i, env2, b.st, locI, locHi, fuel);
      StepMeaning(i, env2, b.st, locI, fuel);
      SeqSkips(body, Cons(test, Cons(step, NoExp)), env2, st2, fuel);
      SeqSkips(test, Cons(step, NoExp), env2, b.st, fuel);
      if b.st.mem[locI] != b.st.mem[locHi] { SeqLast(step, env2, b.st, fuel); }
    } else {
      SeqSkips(body, LoopBody(i, body).exps.tail, env2, st2, fuel);
    }
  }

  lemma TestMeaning(i: Sym, env2: Env, st: State, locI: nat, locHi: nat, fuel: nat)
    requires LookupVar(env2, i) == Some(locI) && LookupVar(env2, HI) == Some(locHi) && locI < |st.mem| && locHi < |st.mem|
    ensures Eval(IfExp(OpExp(VarExp(i), Comparison(Eq), VarExp(HI)), BreakExp, Unit()), env2, st, fuel)
         == if st.mem[locI] == st.mem[locHi] then Brk(st) else Val(0, st)
  {
    assert Eval(VarExp(i), env2, st, fuel) == Val(st.mem[locI], st);
    assert Eval(VarExp(HI), env2, st, fuel) == Val(st.mem[locHi], st);
    assert Eval(Unit(), env2, st, fuel) == Val(0, st) by { assert EvalArgs(NoExp, env2, st, fuel) == Val([], st); }
  }

  lemma StepMeaning(i: Sym, env2: Env, st: State, locI: nat, fuel: nat)
    requires LookupVar(env2, i) == Some(locI) && locI < |st.mem|
    ensures Eval(AssignExp(i, OpExp(VarExp(i), Arithmetic(Add), Int(1))), env2, st, fuel)
         == Val(0, st.Write(locI, Succ(st.mem[locI])))
  {
    assert Eval(VarExp(i), env2, st, fuel) == Val(st.mem[locI], st);
    assert Eval(Int(1), env2, st, fuel) == Val(1, st);
    assert Eval(OpExp(VarExp(i), Arithmetic(Add), Int(1)), env2, st, fuel) == Val(Succ(st.mem[locI]), st);
  }

  /** A sequence is its first expression, then the rest. */
  lemma SeqSkips(e: Exp, rest: Exps, env: Env, st: State, fuel: nat)
    requires rest.Cons?
    ensures var o := Eval(e, env, st, fuel);
      Eval(SeqExp(Cons(e, rest)), env, st, fuel) == if o.Val? then Eval(SeqExp(rest), env, o.st, fuel) else o
  {
    var o := Eval(e, env, st, fuel);
    if o.Val? {
      var vs := EvalArgs(rest, env, o.st, fuel);
      ArgCount(rest, env, o.st, fuel);
      assert EvalArgs(Cons(e, rest), env, st, fuel) == if vs.Val? then Val([o.value] + vs.value, vs.st) else vs;
    } else {
      assert EvalArgs(Cons(e, rest), env, st, fuel) == Abrupt(o);
    }
  }

  lemma SeqLast(e: Exp, env: Env, st: State, fuel: nat)
    ensures Eval(SeqExp(Cons(e, NoExp)), env, st, fuel) == Eval(e, env, st, fuel)
  {
    var o := Eval(e, env, st, fuel);
    if o.Val? {
      assert EvalArgs(NoExp, env, o.st, fuel) == Val([], o.st);
      assert EvalArgs(Cons(e, NoExp), env, st, fuel) == Val([o.value] + [], o.st);
    } else {
      assert EvalArgs(Cons(e, NoExp), env, st, fuel) == Abrupt(o);
    }
  }

  /** The generated loop against the `for`, from index `k` on: the cell of the index already holds
      `k`, the cell of `_hi` the bound, and the addition never reaches past the bound. */
  lemma {:induction false} LoopKeeps(i: Sym, body: Exp, env: Env, envB: Env, loc: nat, locI: nat, locHi: nat, k: int32, hi: int32,
                                     st: State, st2: State, j: Cells, fuel: nat) returns (j2: Cells)
    requires k <= hi && !Reserved(i) && loc < |st.mem| && loc < |j| && j[loc] == locI
    requires Checked(body, BindVar(i, loc, true, env), true) && Protected(env, loc)
    requires Meet(BindVar(i, loc, true, env), BindVar(i, locI, false, envB), st.Write(loc, k), st2, j)
    requires LookupVar(envB, HI) == Some(locHi) && Hidden(locHi, st2, j) && st2.mem[locHi] == hi
    ensures Kept(EvalFor(body, BindVar(i, loc, true, env), loc, k, hi, st, fuel),
                 EvalWhile(Int(1), LoopBody(i, DesugarExp(body)), BindVar(i, locI, false, envB), st2, fuel), st2, j, j2)
    decreases fuel, body, 3
  {
    j2 := j;
    if fuel > 0 {
      var envI, envC := BindVar(i, loc, true, env), BindVar(i, locI, false, envB);
      var st1 := st.Write(loc, k);
      j2 := DesugarKeeps(body, envI, envC, st1, st2, j, fuel - 1, true);
      var b, b2 := Eval(body, envI, st1, fuel - 1), Eval(DesugarExp(body), envC, st2, fuel - 1);
      LoopTurn(i, DesugarExp(body), envC, st2, locI, locHi, fuel - 1);
      if b.Val? {
        ReadOnlyKept(body, envI, st1, fuel - 1, loc, true);
        StillHidden(locHi, st2, b2.st, j, j2);
        assert j2[loc] == j2[..|j|][loc];
        MeetAgain(envI, envC, st1, st2, j, b, b2, j2);
        if k < hi {
          j2 := NextTurn(i, body, env, envB, loc, locI, locHi, k, hi, st2, b, b2, j, j2, fuel);
        }
      }
    }
  }

  /** The increment and the turns that remain. */
  lemma {:induction false} NextTurn(i: Sym, body: Exp, env: Env, envB: Env, loc: nat, locI: nat, locHi: nat, k: int32, hi: int32,
                                    st2: State, b: Outcome<int32>, b2: Outcome<int32>, j: Cells, j1: Cells, fuel: nat) returns (j2: Cells)
    requires fuel > 0 && k < hi && !Reserved(i) && b.Val? && loc < |b.st.mem| && loc < |j1| && j1[loc] == locI && loc < |j|
    requires Checked(body, BindVar(i, loc, true, env), true) && Protected(env, loc)
    requires Meet(BindVar(i, loc, true, env), BindVar(i, locI, false, envB), b.st, b2.st, j1) && Kept(b, b2, st2, j, j1)
    requires LookupVar(envB, HI) == Some(locHi) && Hidden(locHi, b2.st, j1) && b2.st.mem[locHi] == hi
    requires b2.st.mem[locI] == k && locI in j
    ensures Kept(EvalFor(body, BindVar(i, loc, true, env), loc, k + 1, hi, b.st, fuel - 1),
                 EvalWhile(Int(1), LoopBody(i, DesugarExp(body)), BindVar(i, locI, false, envB), b2.st.Write(locI, k + 1), fuel - 1),
                 st2, j, j2)
    decreases fuel - 1, body, 4
  {
    var s2 := b2.st.Write(locI, k + 1);
    WriteRel(b.st, b2.st, j1, loc, k + 1);
    j2 := LoopKeeps(i, body, env, envB, loc, locI, locHi, k + 1, hi, b.st, s2, j1, fuel - 1);
    var o, o2 := EvalFor(body, BindVar(i, loc, true, env), loc, k + 1, hi, b.st, fuel - 1),
      EvalWhile(Int(1), LoopBody(i, DesugarExp(body)), BindVar(i, locI, false, envB), s2, fuel - 1);
    GrownTransitive(j, j1, j2, |st2.mem|, |s2.mem|);
    UntouchedTransitive(st2, b2.st, s2, j, j1);
    UntouchedTransitive(st2, s2, o2.st, j, j1);
  }

  /** The cells of `_lo` and `_hi`. */
  lemma TwoHidden(st: State, st2: State, j: Cells, n: int32)
    requires StRel(st, st2, j)
    ensures var sB := st2.Alloc(0).Write(|st2.mem|, n).Alloc(0);
      && sB.mem == st2.mem + [n, 0] && StRel(st, sB, j) && Untouched(st2, sB, j) && Grown(j, j, |st2.mem|)
      && Hidden(|st2.mem|, sB, j) && Hidden(|st2.mem| + 1, sB, j) && |st2.mem| + 1 !in j
  {}

  lemma HiddenBinding(env: Env, env2: Env, loc: nat, j: Cells)
    requires EnvRel(env, env2, j)
    ensures EnvRel(env, BindVar(LO, loc, false, env2), j)
  {}

  /** With both cells allocated the runs still correspond. */
  lemma MeetAllocated(env: Env, env2: Env, st: State, st2: State, j: Cells, n: int32)
    requires Meet(env, env2, st, st2, j)
    ensures var sB := st2.Alloc(0).Write(|st2.mem|, n).Alloc(0);
      && sB.mem == st2.mem + [n, 0] && Untouched(st2, sB, j) && Grown(j, j, |st2.mem|)
      && Meet(env, BindVar(LO, |st2.mem|, false, env2), st, sB, j)
      && Hidden(|st2.mem|, sB, j) && Hidden(|st2.mem| + 1, sB, j) && |st2.mem| + 1 !in j
  {
    TwoHidden(st, st2, j, n);
    HiddenBinding(env, env2, |st2.mem|, j);
  }

  lemma ForChecked(i: Sym, lo: Exp, hi: Exp, body: Exp, env: Env, inLoop: bool)
    requires Checked(ForExp(i, lo, hi, body), env, inLoop)
    ensures lo.IntExp? && !Reserved(i) && Checked(hi, env, inLoop)
  {
    hide EnvTyped;
  }

  lemma BodyChecked(i: Sym, lo: Exp, hi: Exp, body: Exp, env: Env, loc: nat, inLoop: bool)
    requires Checked(ForExp(i, lo, hi, body), env, inLoop)
    ensures Checked(body, BindVar(i, loc, true, env), true)
  {}

  lemma {:induction false} ForKeeps(i: Sym, lo: Exp, hi: Exp, body: Exp, env: Env, env2: Env, st: State, st2: State, j: Cells,
                                    fuel: nat, inLoop: bool) returns (j2: Cells)
    requires Checked(ForExp(i, lo, hi, body), env, inLoop) && Meet(env, env2, st, st2, j)
    ensures Kept(Eval(ForExp(i, lo, hi, body), env, st, fuel), Eval(DesugarExp(ForExp(i, lo, hi, body)), env2, st2, fuel), st2, j, j2)
    decreases fuel, ForExp(i, lo, hi, body), 1
  {
    hide Untouched, Grown, StRel, EnvRel, Hidden, EnvTyped, Meet, Checked;
    ForChecked(i, lo, hi, body, env, inLoop);
    MeetAllocated(env, env2, st, st2, j, lo.value);
    var n := lo.value;
    var locLo, locHi := |st2.mem|, |st2.mem| + 1;
    var sB := st2.Alloc(0).Write(locLo, n).Alloc(0);
    var envA := BindVar(LO, locLo, false, env2);
    j2 := DesugarKeeps(hi, env, envA, st, sB, j, fuel, inLoop);
    var h, h2 := Eval(hi, env, st, fuel), Eval(DesugarExp(hi), envA, sB, fuel);
    TemplateMeaning(i, lo, DesugarExp(hi), DesugarExp(body), env2, st2, fuel);
    assert Eval(lo, env, st, fuel) == Val(n, st);
    assert DesugarExp(ForExp(i, lo, hi, body)) == Template(i, lo, DesugarExp(hi), DesugarExp(body));
    GrownTransitive(j, j, j2, |st2.mem|, |sB.mem|);
    UntouchedTransitive(st2, sB, h2.st, j, j);
    if h.Val? {
      MemGrows(hi, env, st, fuel);
      StillHidden(locLo, sB, h2.st, j, j2);
      StillHidden(locHi, sB, h2.st, j, j2);
      MeetAgain(env, envA, st, sB, j, h, h2, j2);
      BodyChecked(i, lo, hi, body, env, |h.st.mem|, inLoop);
      j2 := LoopStarts(i, n, body, env, envA, locLo, locHi, st2, h, h2, j, j2, fuel);
    }
  }

  /** What the template does, step by step, up to its loop. */
  lemma TemplateMeaning(i: Sym, lo: Exp, hi: Exp, body: Exp, env2: Env, st2: State, fuel: nat)
    requires lo.IntExp?
    ensures var envA := BindVar(LO, |st2.mem|, false, env2);
      var h2 := Eval(hi, envA, st2.Alloc(0).Write(|st2.mem|, lo.value).Alloc(0), fuel);
      Eval(Template(i, lo, hi, body), env2, st2, fuel)
      == if !h2.Val? then h2 else
         Eval(LetVar(i, VarExp(LO), Loop(i, body)), BindVar(HI, |st2.mem| + 1, false, envA), h2.st.Write(|st2.mem| + 1, h2.value), fuel)
  {
    assert Eval(lo, env2, st2.Alloc(0), fuel) == Val(lo.value, st2.Alloc(0));
  }

  /** The index gets the lower bound and the guard decides. */
  lemma IndexMeaning(i: Sym, body: Exp, envB: Env, st: State, locLo: nat, locHi: nat, fuel: nat)
    requires LookupVar(envB, LO) == Some(locLo) && LookupVar(envB, HI) == Some(locHi) && !Reserved(i)
    requires locLo < |st.mem| && locHi < |st.mem|
    ensures var sD := st.Alloc(st.mem[locLo]);
      Eval(LetVar(i, VarExp(LO), Loop(i, body)), envB, st, fuel)
      == if st.mem[locLo] <= st.mem[locHi] then EvalWhile(Int(1), LoopBody(i, body), BindVar(i, |st.mem|, false, envB), sD, fuel)
         else Val(0, sD)
  {
    var n := st.mem[locLo];
    var envC := BindVar(i, |st.mem|, false, envB);
    assert Eval(VarExp(LO), envB, st.Alloc(0), fuel) == Val(n, st.Alloc(0));
    var sD := st.Alloc(0).Write(|st.mem|, n);
    assert sD == st.Alloc(n);
    assert Eval(VarExp(LO), envC, sD, fuel) == Val(n, sD);
    assert Eval(VarExp(HI), envC, sD, fuel) == Val(st.mem[locHi], sD);
    assert Eval(Unit(), envC, sD, fuel) == Val(0, sD) by { assert EvalArgs(NoExp, envC, sD, fuel) == Val([], sD); }
    assert Eval(OpExp(VarExp(LO), Comparison(Le), VarExp(HI)), envC, sD, fuel) == Val(if n <= st.mem[locHi] then 1 else 0, sD);
    assert Eval(LetVar(i, VarExp(LO), Loop(i, body)), envB, st, fuel) == Eval(Loop(i, body), envC, sD, fuel);
    assert Eval(WhileExp(Int(1), LoopBody(i, body)), envC, sD, fuel) == EvalWhile(Int(1), LoopBody(i, body), envC, sD, fuel);
  }

  /** The runs where the loop starts: `_hi` holds the bound, and the index has a cell on both sides. */
  lemma {:induction false} StillMeets(i: Sym, n: int32, env: Env, envA: Env, locLo: nat, locHi: nat, st2: State,
                                      h: Outcome<int32>, h2: Outcome<int32>, j: Cells, j1: Cells)
    requires h.Val? && Kept(h, h2, st2, j, j1) && Meet(env, envA, h.st, h2.st, j1) && !Reserved(i)
    requires Hidden(locLo, h2.st, j1) && Hidden(locHi, h2.st, j1) && locLo < locHi && locHi !in j && locHi >= |st2.mem|
    ensures var sC := h2.st.Write(locHi, h2.value);
      var sD, loc, locI, jD := sC.Alloc(n), |h.st.mem|, |sC.mem|, j1 + [|sC.mem|];
      && h2.value == h.value && locHi < |sC.mem| && sC.mem[locLo] == h2.st.mem[locLo] && sC.mem[locHi] == h.value
      && Kept<int32>(Val(0, h.st.Alloc(n)), Val(0, sD), st2, j, jD)
      && Meet(BindVar(i, loc, true, env), BindVar(i, locI, false, BindVar(HI, locHi, false, envA)), h.st.Alloc(n), sD, jD)
      && Hidden(locHi, sD, jD) && sD.mem[locHi] == h.value && loc < |jD| && jD[loc] == locI
  {
    var sC := h2.st.Write(locHi, h2.value);
    HiWritten(locHi, st2, h, h2, j, j1);
    AllocRel(h.st, sC, j1, n);
    var j2 := j1 + [|sC.mem|];
    EnvRelGrown(env, envA, j1, j2, |sC.mem|);
    LocsStayBelow(env, |h.st.mem|, |h.st.mem| + 1);
    GrownTransitive(j, j1, j2, |st2.mem|, |sC.mem|);
    assert Untouched(st2, sC.Alloc(n), j);
  }

  /** Writing `_hi` shows in no cell of the program. */
  lemma HiWritten(locHi: nat, st2: State, h: Outcome<int32>, h2: Outcome<int32>, j: Cells, j1: Cells)
    requires h.Val? && Kept(h, h2, st2, j, j1) && Hidden(locHi, h2.st, j1) && locHi >= |st2.mem|
    ensures var sC := h2.st.Write(locHi, h2.value);
      StRel(h.st, sC, j1) && Untouched(st2, sC, j) && |sC.mem| >= |st2.mem|
  {}

  /** From the evaluated upper bound on. */
  lemma {:induction false} LoopStarts(i: Sym, n: int32, body: Exp, env: Env, envA: Env, locLo: nat, locHi: nat, st2: State,
                                      h: Outcome<int32>, h2: Outcome<int32>, j: Cells, j1: Cells, fuel: nat) returns (j2: Cells)
    requires h.Val? && Kept(h, h2, st2, j, j1) && Meet(env, envA, h.st, h2.st, j1) && !Reserved(i)
    requires envA.BindVar? && envA.name == LO && envA.loc == locLo
    requires Hidden(locLo, h2.st, j1) && Hidden(locHi, h2.st, j1) && locLo < locHi && h2.st.mem[locLo] == n
    requires locHi !in j && locHi >= |st2.mem|
    requires Checked(body, BindVar(i, |h.st.mem|, true, env), true)
    ensures Kept(EvalFor(body, BindVar(i, |h.st.mem|, true, env), |h.st.mem|, n, h.value, h.st.Alloc(n), fuel),
                 Eval(LetVar(i, VarExp(LO), Loop(i, DesugarExp(body))), BindVar(HI, locHi, false, envA), h2.st.Write(locHi, h2.value), fuel),
                 st2, j, j2)
    decreases fuel, body, 5
  {
    hide Untouched, Grown, StRel, EnvRel, Eval, EvalWhile, Checked, Kept, Meet, Hidden;
    KeptSame(h, h2, st2, j, j1);
    var sC := h2.st.Write(locHi, h2.value);
    var envB := BindVar(HI, locHi, false, envA);
    var loc, locI := |h.st.mem|, |sC.mem|;
    var sD := sC.Alloc(n);
    StillMeets(i, n, env, envA, locLo, locHi, st2, h, h2, j, j1);
    IndexMeaning(i, DesugarExp(body), envB, sC, locLo, locHi, fuel);
    j2 := j1 + [locI];
    if n <= h.value {
      MeetProtects(env, envA, h, h2, j1);
      assert h.st.Alloc(n).Write(loc, n) == h.st.Alloc(n);
      var j3 := LoopKeeps(i, body, env, envB, loc, locI, locHi, n, h.value, h.st.Alloc(n), sD, j2, fuel);
      KeptLater<int32, int32>(Val(0, h.st.Alloc(n)), Val(0, sD),
                EvalFor(body, BindVar(i, loc, true, env), loc, n, h.value, h.st.Alloc(n), fuel),
                EvalWhile(Int(1), LoopBody(i, DesugarExp(body)), BindVar(i, locI, false, envB), sD, fuel), st2, j, j2, j3);
      j2 := j3;
    }
  }

  lemma MeetProtects(env: Env, env2: Env, h: Outcome<int32>, h2: Outcome<int32>, j: Cells)
    requires Meet(env, env2, h.st, h2.st, j)
    ensures Protected(env, |h.st.mem|)
  {
    BelowProtects(env, |h.st.mem|);
  }

  lemma {:induction false} BelowProtects(env: Env, k: nat)
    requires LocsBelow(env, k)
    ensures Protected(env, k)
  {
    if env != Top { BelowProtects(env.outer, k); }
  }

  // ----- the visitor -----

  /** A cloner whose `for` case, when enabled, builds the `while` template.  `result` is the tree of
      the last expression visited. */
  class DesugarVisitor {
    const desugarFor: bool
    var result: Exp

    constructor (desugarFor: bool)
      ensures this.desugarFor == desugarFor
    {
      this.desugarFor := desugarFor;
      this.result := Unit();
    }

    /** What visiting `e` leaves. */
    ghost function Cloned(e: Exp): Exp { if desugarFor then DesugarExp(e) else e }

    method Recurse(e: Exp) returns (tree: Exp)
      modifies this
      ensures tree == Cloned(e)
      decreases e, 2
    {
      Visit(e);
      tree := result;
    }

    method Visit(e: Exp)
      modifies this
      ensures result == Cloned(e)
      decreases e, 1
    {
      match e
      case IntExp(_) => result := e;
      case VarExp(_) => result := e;
      case OpExp(l, op, r) =>
        var l2 := Recurse(l);
        var r2 := Recurse(r);
        result := OpExp(l2, op, r2);
      case SeqExp(es) =>
        var es2 := VisitExps(es);
        result := SeqExp(es2);
      case AssignExp(x, e1) =>
        var r := Recurse(e1);
        result := AssignExp(x, r);
      case IfExp(c, t, f) =>
        var c2 := Recurse(c);
        var t2 := Recurse(t);
        var f2 := Recurse(f);
        result := IfExp(c2, t2, f2);
      case WhileExp(c, body) =>
        var c2 := Recurse(c);
        var b2 := Recurse(body);
        result := WhileExp(c2, b2);
      case ForExp(i, lo, hi, body) => VisitFor(i, lo, hi, body);
      case BreakExp => result := e;
      case CallExp(f, args) =>
        var args2 := VisitExps(args);
        result := CallExp(f, args2);
      case LetVar(x, init, body) =>
        var i2 := Recurse(init);
        var b2 := Recurse(body);
        result := LetVar(x, i2, b2);
      case LetFuns(ds, body) =>
        var ds2 := VisitFuns(ds);
        var b2 := Recurse(body);
        result := LetFuns(ds2, b2);
    }

    /** The bound and the body are visited first, then the index's declaration, whose initial value
        has to be a literal. */
    method VisitFor(i: Sym, lo: Exp, hi: Exp, body: Exp)
      modifies this
      ensures result == Cloned(ForExp(i, lo, hi, body))
      decreases ForExp(i, lo, hi, body), 0
    {
      var hi2 := Recurse(hi);
      var body2 := Recurse(body);
      if desugarFor {
        result := Template(i, lo, hi2, body2);
      } else {
        result := ForExp(i, lo, hi2, body2);
      }
    }

    method VisitExps(es: Exps) returns (es2: Exps)
      modifies this
      ensures es2 == if desugarFor then DesugarExps(es) else es
      decreases es, 1
    {
      if es == NoExp {
        es2 := NoExp;
      } else {
        var e2 := Recurse(es.head);
        var rest := VisitExps(es.tail);
        es2 := Cons(e2, rest);
      }
    }

    method VisitFuns(ds: Funs) returns (ds2: Funs)
      modifies this
      ensures ds2 == if desugarFor then DesugarFuns(ds) else ds
      decreases ds, 1
    {
      match ds
      case NoFun => ds2 := NoFun;
      case FunCons(Function(f, xs, ty, body), rest) =>
        var b2 := Recurse(body);
        var rest2 := VisitFuns(rest);
        ds2 := FunCons(Function(f, xs, ty, b2), rest2);
      case FunCons(Primitive(f, xs, ty), rest) =>
        var rest2 := VisitFuns(rest);
        ds2 := FunCons(Primitive(f, xs, ty), rest2);
    }
  }
}
