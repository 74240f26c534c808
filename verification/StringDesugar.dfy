/** String comparisons become calls (src/desugar/desugar-visitor.cc). */
module StringDesugar {
  import opened Int32
  import opened Options
  import opened TypeTable
  import opened TypeCheck
  import opened TypeSoundness
  import opened TypeChecked

  /** The node is a string: its type is `string`, or a name for it. */
  ghost predicate IsString(t: Table, vars: Vars, e: Exp) { IsA(t, ExpTy(t, vars, e), StringTy) }

  /** `=` becomes a call of `streq`, the orders compare the result of `strcmp` with 0; `<>` is left. */
  ghost function DesugarOp(t: Table, vars: Vars, l: Exp, op: Oper, r: Exp, l2: Exp, r2: Exp): Exp {
    if op.Arithmetic? || !IsString(t, vars, l) || !IsString(t, vars, r) || op.cmp == Ne then OpExp(l2, op, r2)
    else if op.cmp == Eq then StringCall(Streq, l2, r2)
    else OpExp(StringCall(Strcmp, l2, r2), op, IntExp(0))
  }

  ghost function DesugarVar(t: Table, vars: Vars, v: Var): Var
    decreases v
  {
    match v
    case SimpleVar(_) => v
    case FieldVar(r, f, i) => FieldVar(DesugarVar(t, vars, r), f, i)
    case SubscriptVar(a, at) => SubscriptVar(DesugarVar(t, vars, a), DesugarExp(t, vars, at))
  }

  ghost function DesugarExp(t: Table, vars: Vars, e: Exp): Exp
    decreases e
  {
    match e
    case IntExp(_) => e
    case StringExp(_, _) => e
    case VarExp(v) => VarExp(DesugarVar(t, vars, v))
    case RecordExp(n, fields, ty) => RecordExp(n, DesugarInits(t, vars, fields), ty)
    case ArrayExp(n, size, init, ty) => ArrayExp(n, DesugarExp(t, vars, size), DesugarExp(t, vars, init), ty)
    case OpExp(l, op, r) => DesugarOp(t, vars, l, op, r, DesugarExp(t, vars, l), DesugarExp(t, vars, r))
    case StringCall(fn, l, r) => StringCall(fn, DesugarExp(t, vars, l), DesugarExp(t, vars, r))
    case AssignExp(v, e1) => AssignExp(DesugarVar(t, vars, v), DesugarExp(t, vars, e1))
    case IfExp(c, th, f) => IfExp(DesugarExp(t, vars, c), DesugarExp(t, vars, th), DesugarExp(t, vars, f))
    case WhileExp(c, body) => WhileExp(DesugarExp(t, vars, c), DesugarExp(t, vars, body))
    case ForExp(i, lo, hi, body) =>
      var ty := ExpTy(t, vars, lo);
      ForExp(i, DesugarExp(t, vars, lo), DesugarExp(t, vars, hi),
             if ty.Some? then DesugarExp(t, vars[i := VarInfo(ty.value, true)], body) else body)
    case BreakExp => e
    case SeqExp(es) => SeqExp(DesugarAll(t, vars, es))
    case LetVar(x, named, init, body, ty) => LetVar(x, named, DesugarExp(t, vars, init), DesugarExp(t, vars[x := VarInfo(ty, false)], body), ty)
    case LetTypes(decs, body) => LetTypes(decs, DesugarExp(t, vars, body))
  }

  ghost function DesugarAll(t: Table, vars: Vars, es: Exps): Exps
    decreases es
  {
    match es
    case NoExp => NoExp
    case Cons(e, rest) => Cons(DesugarExp(t, vars, e), DesugarAll(t, vars, rest))
  }

  ghost function DesugarInits(t: Table, vars: Vars, fs: Inits): Inits
    decreases fs
  {
    match fs
    case NoInit => NoInit
    case Init(f, e, rest) => Init(f, DesugarExp(t, vars, e), DesugarInits(t, vars, rest))
  }

  /** No two strings are compared with `<>`. */
  ghost predicate NoNeVar(t: Table, vars: Vars, v: Var)
    decreases v
  {
    match v
    case SimpleVar(_) => true
    case FieldVar(r, _, _) => NoNeVar(t, vars, r)
    case SubscriptVar(a, at) => NoNeVar(t, vars, a) && NoNe(t, vars, at)
  }

  ghost predicate NoNe(t: Table, vars: Vars, e: Exp)
    decreases e
  {
    match e
    case IntExp(_) => true
    case StringExp(_, _) => true
    case VarExp(v) => NoNeVar(t, vars, v)
    case RecordExp(_, fields, _) => NoNeInits(t, vars, fields)
    case ArrayExp(_, size, init, _) => NoNe(t, vars, size) && NoNe(t, vars, init)
    case OpExp(l, op, r) => NoNe(t, vars, l) && NoNe(t, vars, r) && (op == Comparison(Ne) ==> !IsString(t, vars, l))
    case StringCall(_, l, r) => NoNe(t, vars, l) && NoNe(t, vars, r)
    case AssignExp(v, e1) => NoNeVar(t, vars, v) && NoNe(t, vars, e1)
    case IfExp(c, th, f) => NoNe(t, vars, c) && NoNe(t, vars, th) && NoNe(t, vars, f)
    case WhileExp(c, body) => NoNe(t, vars, c) && NoNe(t, vars, body)
    case ForExp(i, lo, hi, body) =>
      var ty := ExpTy(t, vars, lo);
      NoNe(t, vars, lo) && NoNe(t, vars, hi) && (ty.Some? ==> NoNe(t, vars[i := VarInfo(ty.value, true)], body))
    case BreakExp => true
    case SeqExp(es) => NoNeAll(t, vars, es)
    case LetVar(x, _, init, body, ty) => NoNe(t, vars, init) && NoNe(t, vars[x := VarInfo(ty, false)], body)
    case LetTypes(_, body) => NoNe(t, vars, body)
  }

  ghost predicate NoNeAll(t: Table, vars: Vars, es: Exps)
    decreases es
  {
    match es
    case NoExp => true
    case Cons(e, rest) => NoNe(t, vars, e) && NoNeAll(t, vars, rest)
  }

  ghost predicate NoNeInits(t: Table, vars: Vars, fs: Inits)
    decreases fs
  {
    match fs
    case NoInit => true
    case Init(_, e, rest) => NoNe(t, vars, e) && NoNeInits(t, vars, rest)
  }

  // ----- one comparison -----

  lemma {:induction false} StringOrderZero(a: string, b: string)
    ensures StringOrder(a, b) == 0 <==> a == b
    decreases |a|
  {
    if a != [] && b != [] {
      StringOrderZero(a[1..], b[1..]);
      if a[0] == b[0] && a[1..] == b[1..] { assert a == [a[0]] + a[1..] && b == [b[0]] + b[1..]; }
    }
  }

  /** What the operands of a comparison are, by their types. */
  lemma OperandKinds(t: Table, vars: Vars, g: Typing, l: Exp, r: Exp, a: Value, b: Value)
    requires ExpTy(t, vars, l).Some? && ExpTy(t, vars, r).Some? && Compatible(t, ExpTy(t, vars, l).value, ExpTy(t, vars, r).value)
    requires ValOk(t, g.heap, a, ExpTy(t, vars, l).value) && ValOk(t, g.heap, b, ExpTy(t, vars, r).value)
    ensures IsString(t, vars, l) <==> a.StringV?
    ensures IsString(t, vars, r) <==> b.StringV?
    ensures a.StringV? <==> b.StringV?
  {
    Basic(t);
  }

  /** The outcome of the desugared operation on operands that evaluate to `a` and `b`. */
  function OutcomeOf(op: Oper, strings: bool, a: Value, b: Value, st: State): Outcome<Value> {
    if op.Arithmetic? || !strings || op.cmp == Ne then Operate(ByAddress, op, a, b, st)
    else if op.cmp == Eq then CallString(Streq, a, b, st)
    else
      var c := CallString(Strcmp, a, b, st);
      if c.Val? then Operate(ByAddress, op, c.v, IntV(0), c.st) else c
  }

  lemma SameOutcome(op: Oper, a: Value, b: Value, st: State)
    requires op.Comparison? ==> (a.StringV? <==> b.StringV?)
    requires op == Comparison(Ne) ==> !a.StringV?
    ensures OutcomeOf(op, a.StringV?, a, b, st) == Operate(ByText, op, a, b, st)
  {
    if a.StringV? && b.StringV? { StringOrderZero(a.text, b.text); }
  }

  /** `<>` on strings compares where they are: it is right if and only if strings spelled the same are
      in the same place. */
  lemma NotEqualKept(a: Value, b: Value, st: State)
    requires a.StringV? && b.StringV? && (a.at == b.at ==> a.text == b.text)
    ensures Operate(ByAddress, Comparison(Ne), a, b, st) == Operate(ByText, Comparison(Ne), a, b, st)
      <==> (a.text == b.text ==> a.at == b.at)
  {
    StringOrderZero(a.text, b.text);
  }

  /** `"a" <> "a"`, from two literals: false by text, true as compiled. */
  lemma NotEqualBroken(t: Table, st: State, fuel: nat)
    ensures var e := OpExp(StringExp("a", 0), Comparison(Ne), StringExp("a", 1));
      ExpTy(t, map[], e) == Some(IntTy)
      && Eval(ByText, e, map[], st, fuel) == Val(IntV(0), st)
      && Eval(ByAddress, DesugarExp(t, map[], e), map[], st, fuel) == Val(IntV(1), st)
  {
    var l, r := StringExp("a", 0), StringExp("a", 1);
    StringOrderZero("a", "a");
    assert ExpTy(t, map[], l) == Some(StringTy) && ExpTy(t, map[], r) == Some(StringTy);
    assert DesugarExp(t, map[], l) == l && DesugarExp(t, map[], r) == r;
    assert Eval(ByText, l, map[], st, fuel) == Val(StringV(0, "a"), st) && Eval(ByText, r, map[], st, fuel) == Val(StringV(1, "a"), st);
    assert Eval(ByAddress, l, map[], st, fuel) == Val(StringV(0, "a"), st) && Eval(ByAddress, r, map[], st, fuel) == Val(StringV(1, "a"), st);
  }

  // ----- all programs -----

  /** What a well-typed expression leaves. */
  ghost predicate Typed(t: Table, vars: Vars, env: Env, g: Typing, st: State) { WellFormed(t) && EnvOk(vars, env, g) && StateOk(t, g, st) }

  lemma {:induction false} VarKept(v: Var, t: Table, vars: Vars, env: Env, g: Typing, st: State, fuel: nat)
    requires VarTy(t, vars, v).Some? && NoNeVar(t, vars, v) && Typed(t, vars, env, g, st)
    ensures EvalVar(ByAddress, DesugarVar(t, vars, v), env, st, fuel) == EvalVar(ByText, v, env, st, fuel)
    decreases fuel, v
  {
    match v
    case SimpleVar(_) =>
    case FieldVar(r, _, _) =>
      hide Typed, NoNe, VarTy;
      VarHasTy(t, vars, v);
      VarKept(r, t, vars, env, g, st, fuel);
    case SubscriptVar(a, at) =>
      hide NoNe, StateOk, WellFormed, EnvOk;
      VarKept(a, t, vars, env, g, st, fuel);
      var g1 := SafeVar(ByText, a, t, vars, env, g, st, fuel);
      LoadFromOk(t, g1, EvalVar(ByText, a, env, st, fuel), VarTy(t, vars, a).value);
      var a2 := LoadFrom(EvalVar(ByText, a, env, st, fuel));
      if a2.Val? {
        EnvKept(vars, env, g, g1);
        ExpKept(at, t, vars, env, g1, a2.st, fuel);
      }
  }

  lemma VarHasTy(t: Table, vars: Vars, v: Var)
    requires VarTy(t, vars, v).Some? && v.FieldVar?
    ensures VarTy(t, vars, v.record).Some?
  {}

  /** After `a`, `b` runs in a well-typed state, and both desugared do what they did. */
  lemma {:induction false} TwoKept(a: Exp, b: Exp, t: Table, vars: Vars, env: Env, g: Typing, st: State, fuel: nat, whole: Exp) returns (g2: Typing)
    requires a < whole && b < whole && ExpTy(t, vars, a).Some? && ExpTy(t, vars, b).Some? && NoNe(t, vars, a) && NoNe(t, vars, b)
    requires Typed(t, vars, env, g, st)
    ensures Eval(ByAddress, DesugarExp(t, vars, a), env, st, fuel) == Eval(ByText, a, env, st, fuel)
    ensures var o := Eval(ByText, a, env, st, fuel);
      o.Val? ==>
        && Eval(ByAddress, DesugarExp(t, vars, b), env, o.st, fuel) == Eval(ByText, b, env, o.st, fuel)
        && OutOk(t, g2, Eval(ByText, b, env, o.st, fuel), ExpTy(t, vars, b).value) && ValOk(t, g2.heap, o.v, ExpTy(t, vars, a).value)
        && g.Grows(g2)
    decreases fuel, whole, 0
  {
    hide StateOk, WellFormed, EnvOk, ValOk, NoNe;
    ExpKept(a, t, vars, env, g, st, fuel);
    var g1;
    g1, g2 := SafeTwo(ByText, a, b, t, vars, env, g, st, fuel, whole);
    var o := Eval(ByText, a, env, st, fuel);
    if o.Val? {
      EnvKept(vars, env, g, g1);
      ExpKept(b, t, vars, env, g1, o.st, fuel);
    }
  }

  /** Desugaring keeps the meaning of every well-typed expression without `<>` between strings: the
      desugared tree, compiled, does with the same fuel what the tree does by the language's rules. */
  lemma {:induction false} ExpKept(e: Exp, t: Table, vars: Vars, env: Env, g: Typing, st: State, fuel: nat)
    requires ExpTy(t, vars, e).Some? && NoNe(t, vars, e) && Typed(t, vars, env, g, st)
    ensures Eval(ByAddress, DesugarExp(t, vars, e), env, st, fuel) == Eval(ByText, e, env, st, fuel)
    decreases fuel, e
  {
    hide StateOk, WellFormed, EnvOk, ValOk, Compatible, Actual, IsString;
    match e
    case VarExp(v) => VarKept(v, t, vars, env, g, st, fuel);
    case RecordExp(_, fields, ty) => InitsKept(fields, t, vars, env, g, st, fuel, t[ty.id].fields);
    case ArrayExp(_, size, init, _) => var g2 := TwoKept(size, init, t, vars, env, g, st, fuel, e);
    case OpExp(l, op, r) => OpKept(l, op, r, t, vars, env, g, st, fuel);
    case StringCall(_, l, r) => var g2 := TwoKept(l, r, t, vars, env, g, st, fuel, e);
    case AssignExp(_, _) => AssignKept(e, t, vars, env, g, st, fuel);
    case IfExp(_, _, _) => IfKept(e, t, vars, env, g, st, fuel);
    case WhileExp(c, body) => if fuel > 0 { WhileKept(c, body, t, vars, env, g, st, fuel - 1); }
    case ForExp(_, _, _, _) => ForKept(e, t, vars, env, g, st, fuel);
    case SeqExp(es) => AllKept(es, UnitV, VoidTy, t, vars, env, g, st, fuel);
    case LetVar(_, _, _, _, _) => LetVarKept(e, t, vars, env, g, st, fuel);
    case LetTypes(_, body) => ExpKept(body, t, vars, env, g, st, fuel);
    case _ =>
  }

  lemma {:induction false} AssignKept(e: Exp, t: Table, vars: Vars, env: Env, g: Typing, st: State, fuel: nat)
    requires e.AssignExp?
    requires ExpTy(t, vars, e).Some? && NoNe(t, vars, e) && Typed(t, vars, env, g, st)
    ensures Eval(ByAddress, DesugarExp(t, vars, e), env, st, fuel) == Eval(ByText, e, env, st, fuel)
    decreases fuel, e, 0
  {
    hide StateOk, WellFormed, EnvOk, ValOk, Compatible, Actual, IsString;
    var v, e1 := e.lhs, e.exp;
    ExpKept(e1, t, vars, env, g, st, fuel);
    var g2 := Safe(ByText, e1, t, vars, env, g, st, fuel);
    var r := Eval(ByText, e1, env, st, fuel);
    if r.Val? { EnvKept(vars, env, g, g2); VarKept(v, t, vars, env, g2, r.st, fuel); }
  }

  lemma {:induction false} IfKept(e: Exp, t: Table, vars: Vars, env: Env, g: Typing, st: State, fuel: nat)
    requires e.IfExp?
    requires ExpTy(t, vars, e).Some? && NoNe(t, vars, e) && Typed(t, vars, env, g, st)
    ensures Eval(ByAddress, DesugarExp(t, vars, e), env, st, fuel) == Eval(ByText, e, env, st, fuel)
    decreases fuel, e, 0
  {
    hide StateOk, WellFormed, EnvOk, ValOk, Compatible, Actual, IsString;
    var c, th, f := e.test, e.thenclause, e.elseclause;
    ExpKept(c, t, vars, env, g, st, fuel);
    var g2 := Safe(ByText, c, t, vars, env, g, st, fuel);
    var r := Eval(ByText, c, env, st, fuel);
    if r.Val? {
      EnvKept(vars, env, g, g2);
      ExpKept(th, t, vars, env, g2, r.st, fuel);
      ExpKept(f, t, vars, env, g2, r.st, fuel);
    }
  }

  /** One evaluation after another. */
  function Second(a: Outcome<Value>, e: Exp, env: Env, fuel: nat): Outcome<Value> { if a.Val? then Eval(ByAddress, e, env, a.st, fuel) else a }

  lemma CallRuns(fn: StringFn, l: Exp, r: Exp, env: Env, st: State, fuel: nat)
    ensures var a := Eval(ByAddress, l, env, st, fuel);
      var b := Second(a, r, env, fuel);
      Eval(ByAddress, StringCall(fn, l, r), env, st, fuel) == if a.Val? && b.Val? then CallString(fn, a.v, b.v, b.st) else b
  {
    hide CallString;
  }

  lemma PlainRuns(op: Oper, l: Exp, r: Exp, env: Env, st: State, fuel: nat)
    ensures var a := Eval(ByAddress, l, env, st, fuel);
      var b := Second(a, r, env, fuel);
      Eval(ByAddress, OpExp(l, op, r), env, st, fuel) == if a.Val? && b.Val? then Operate(ByAddress, op, a.v, b.v, b.st) else b
  {
    hide Operate;
  }

  /** What a desugared operation comes to. */
  lemma OpRuns(l: Exp, op: Oper, r: Exp, t: Table, vars: Vars, env: Env, st: State, fuel: nat)
    ensures var l2, r2 := DesugarExp(t, vars, l), DesugarExp(t, vars, r);
      var a := Eval(ByAddress, l2, env, st, fuel);
      var b := Second(a, r2, env, fuel);
      Eval(ByAddress, DesugarOp(t, vars, l, op, r, l2, r2), env, st, fuel)
      == if a.Val? && b.Val? then OutcomeOf(op, IsString(t, vars, l) && IsString(t, vars, r), a.v, b.v, b.st) else b
  {
    hide IsString, Operate, CallString, DesugarExp, Eval, Second;
    var l2, r2 := DesugarExp(t, vars, l), DesugarExp(t, vars, r);
    PlainRuns(op, l2, r2, env, st, fuel);
    CallRuns(Streq, l2, r2, env, st, fuel);
    CallRuns(Strcmp, l2, r2, env, st, fuel);
    PlainRuns(op, StringCall(Strcmp, l2, r2), IntExp(0), env, st, fuel);
    var c := Eval(ByAddress, StringCall(Strcmp, l2, r2), env, st, fuel);
    ZeroRuns(c, env, fuel);
    SecondStops(Eval(ByAddress, l2, env, st, fuel), r2, env, fuel);
  }

  lemma SecondStops(a: Outcome<Value>, e: Exp, env: Env, fuel: nat)
    ensures !a.Val? ==> Second(a, e, env, fuel) == a
  {}

  lemma ZeroRuns(c: Outcome<Value>, env: Env, fuel: nat)
    ensures Second(c, IntExp(0), env, fuel) == if c.Val? then Val(IntV(0), c.st) else c
  {}

  lemma {:induction false} OpKept(l: Exp, op: Oper, r: Exp, t: Table, vars: Vars, env: Env, g: Typing, st: State, fuel: nat)
    requires ExpTy(t, vars, OpExp(l, op, r)).Some? && NoNe(t, vars, OpExp(l, op, r)) && Typed(t, vars, env, g, st)
    ensures Eval(ByAddress, DesugarExp(t, vars, OpExp(l, op, r)), env, st, fuel) == Eval(ByText, OpExp(l, op, r), env, st, fuel)
    decreases fuel, OpExp(l, op, r), 1
  {
    hide StateOk, WellFormed, EnvOk, ValOk, Compatible, Actual, IsString, Operate, OutcomeOf, DesugarOp, CallString;
    var e := OpExp(l, op, r);
    var g2 := TwoKept(l, r, t, vars, env, g, st, fuel, e);
    OpRuns(l, op, r, t, vars, env, st, fuel);
    var a := Eval(ByText, l, env, st, fuel);
    if a.Val? {
      var b := Eval(ByText, r, env, a.st, fuel);
      if b.Val? {
        if op.Comparison? { OperandKinds(t, vars, g2, l, r, a.v, b.v); } else { ArithmeticMode(op, a.v, b.v, b.st, IsString(t, vars, l) && IsString(t, vars, r)); }
        if op.Comparison? { SameOutcome(op, a.v, b.v, b.st); }
      }
    }
  }

  lemma ArithmeticMode(op: Oper, a: Value, b: Value, st: State, strings: bool)
    requires op.Arithmetic?
    ensures OutcomeOf(op, strings, a, b, st) == Operate(ByText, op, a, b, st)
  {}

  lemma {:induction false} InitsKept(fs: Inits, t: Table, vars: Vars, env: Env, g: Typing, st: State, fuel: nat, tys: seq<FieldTy>)
    requires InitsOk(t, vars, fs, tys) && NoNeInits(t, vars, fs) && Typed(t, vars, env, g, st)
    ensures EvalInits(ByAddress, DesugarInits(t, vars, fs), env, st, fuel) == EvalInits(ByText, fs, env, st, fuel)
    decreases fuel, fs
  {
    hide StateOk, WellFormed, EnvOk, ValOk, NoNe, Compatible;
    if fs.Init? {
      ExpKept(fs.exp, t, vars, env, g, st, fuel);
      var g2 := Safe(ByText, fs.exp, t, vars, env, g, st, fuel);
      var r := Eval(ByText, fs.exp, env, st, fuel);
      if r.Val? { EnvKept(vars, env, g, g2); InitsKept(fs.rest, t, vars, env, g2, r.st, fuel, tys[1..]); }
    }
  }

  lemma {:induction false} AllKept(es: Exps, last: Value, ty: Ty, t: Table, vars: Vars, env: Env, g: Typing, st: State, fuel: nat)
    requires AllTy(t, vars, es, ty).Some? && NoNeAll(t, vars, es) && Typed(t, vars, env, g, st)
    ensures EvalAll(ByAddress, DesugarAll(t, vars, es), last, env, st, fuel) == EvalAll(ByText, es, last, env, st, fuel)
    decreases fuel, es
  {
    hide StateOk, WellFormed, EnvOk, ValOk, NoNe;
    if es.Cons? {
      ExpKept(es.head, t, vars, env, g, st, fuel);
      var g2 := Safe(ByText, es.head, t, vars, env, g, st, fuel);
      var r := Eval(ByText, es.head, env, st, fuel);
      if r.Val? { EnvKept(vars, env, g, g2); AllKept(es.tail, r.v, ExpTy(t, vars, es.head).value, t, vars, env, g2, r.st, fuel); }
    }
  }

  lemma {:induction false} WhileKept(c: Exp, body: Exp, t: Table, vars: Vars, env: Env, g: Typing, st: State, fuel: nat)
    requires ExpTy(t, vars, WhileExp(c, body)).Some? && NoNe(t, vars, WhileExp(c, body)) && Typed(t, vars, env, g, st)
    ensures EvalWhile(ByAddress, DesugarExp(t, vars, c), DesugarExp(t, vars, body), env, st, fuel) == EvalWhile(ByText, c, body, env, st, fuel)
    decreases fuel, WhileExp(c, body)
  {
    hide StateOk, WellFormed, EnvOk, ValOk, Compatible, DesugarExp;
    ExpKept(c, t, vars, env, g, st, fuel);
    var g2 := Safe(ByText, c, t, vars, env, g, st, fuel);
    var r := Eval(ByText, c, env, st, fuel);
    if r.Val? && r.v.IntV? && r.v.n != 0 {
      EnvKept(vars, env, g, g2);
      ExpKept(body, t, vars, env, g2, r.st, fuel);
      var g3 := Safe(ByText, body, t, vars, env, g2, r.st, fuel);
      var b := Eval(ByText, body, env, r.st, fuel);
      if b.Val? && fuel > 0 {
        Grown(g, g2, g3);
        EnvKept(vars, env, g, g3);
        WhileKept(c, body, t, vars, env, g3, b.st, fuel - 1);
      }
    }
  }

  lemma {:induction false} ForKept(e: Exp, t: Table, vars: Vars, env: Env, g: Typing, st: State, fuel: nat)
    requires e.ForExp? && ExpTy(t, vars, e).Some? && NoNe(t, vars, e) && Typed(t, vars, env, g, st)
    ensures Eval(ByAddress, DesugarExp(t, vars, e), env, st, fuel) == Eval(ByText, e, env, st, fuel)
    decreases fuel, e, 1
  {
    hide StateOk, WellFormed, EnvOk, ValOk, Compatible;
    var i, lo, hi, body := e.counter, e.lo, e.hi, e.body;
    var ty := ExpTy(t, vars, lo).value;
    var g2 := TwoKept(lo, hi, t, vars, env, g, st, fuel, e);
    var l := Eval(ByText, lo, env, st, fuel);
    if l.Val? {
      var h := Eval(ByText, hi, env, l.st, fuel);
      if h.Val? && l.v.IntV? && h.v.IntV? && fuel > 0 {
        CellAdded(t, g2, h.st, l.v, ty);
        CellsCounted(t, g2, h.st);
        EnvKept(vars, env, g, g2);
        EnvAdded(vars, env, g2, i, ty, true);
        TurnsKept(l.v.n, h.v.n, |h.st.mem|, body, t, vars[i := VarInfo(ty, true)], env[i := |h.st.mem|],
                  g2.(cells := g2.cells + [ty]), h.st.(mem := h.st.mem + [l.v]), fuel - 1);
      }
    }
  }

  lemma {:induction false} TurnsKept(i: int32, hi: int32, cell: nat, body: Exp, t: Table, vars: Vars, env: Env, g: Typing, st: State, fuel: nat)
    requires IsA(t, ExpTy(t, vars, body), VoidTy) && NoNe(t, vars, body) && Typed(t, vars, env, g, st)
    requires cell < |g.cells| && Compatible(t, g.cells[cell], IntTy)
    ensures EvalFor(ByAddress, i, hi, cell, DesugarExp(t, vars, body), env, st, fuel) == EvalFor(ByText, i, hi, cell, body, env, st, fuel)
    decreases fuel, SeqExp(Cons(body, NoExp))
  {
    hide StateOk, WellFormed, EnvOk, ValOk, Compatible, DesugarExp, NoNe, Eval;
    if i <= hi {
      ExpKept(body, t, vars, env, g, st, fuel);
      var g2 := Safe(ByText, body, t, vars, env, g, st, fuel);
      var b := Eval(ByText, body, env, st, fuel);
      if b.Val? && i < hi && fuel > 0 {
        assert g2.cells[cell] == g.cells[cell];
        CounterSet(t, g2, b.st, cell, i + 1);
        EnvKept(vars, env, g, g2);
        TurnsKept(i + 1, hi, cell, body, t, vars, env, g2, b.st.(mem := b.st.mem[cell := IntV(i + 1)]), fuel - 1);
      }
    }
  }

  lemma {:induction false} LetVarKept(e: Exp, t: Table, vars: Vars, env: Env, g: Typing, st: State, fuel: nat)
    requires e.LetVar? && ExpTy(t, vars, e).Some? && NoNe(t, vars, e) && Typed(t, vars, env, g, st)
    ensures Eval(ByAddress, DesugarExp(t, vars, e), env, st, fuel) == Eval(ByText, e, env, st, fuel)
    decreases fuel, e, 1
  {
    hide StateOk, WellFormed, EnvOk, ValOk, Compatible;
    var x, init, body, ty := e.dec, e.init, e.body, e.ty;
    ExpKept(init, t, vars, env, g, st, fuel);
    var g2 := Safe(ByText, init, t, vars, env, g, st, fuel);
    var i := Eval(ByText, init, env, st, fuel);
    OutSame(t, g2, i, ExpTy(t, vars, init).value, ty);
    if i.Val? {
      EnvKept(vars, env, g, g2);
      CellAdded(t, g2, i.st, i.v, ty);
      CellsCounted(t, g2, i.st);
      EnvAdded(vars, env, g2, x, ty, false);
      ExpKept(body, t, vars[x := VarInfo(ty, false)], env[x := |i.st.mem|], g2.(cells := g2.cells + [ty]),
              i.st.(mem := i.st.mem + [i.v]), fuel);
    }
  }

  /** Type checking, then desugaring, then running the compiled comparisons, is running the program. */
  lemma CheckedDesugars(e: Exp, fuel: nat)
    requires Check(e, NO_SCOPE, NO_WORK).work.errors == []
    requires var r := Check(e, NO_SCOPE, NO_WORK); NoNe(r.work.types, map[], r.tree)
    ensures var r := Check(e, NO_SCOPE, NO_WORK);
      var o := Eval(ByAddress, DesugarExp(r.work.types, map[], r.tree), map[], State([], []), fuel);
      !o.Wrong? && o == Eval(ByText, r.tree, map[], State([], []), fuel)
  {
    hide Check;
    var r := Check(e, NO_SCOPE, NO_WORK);
    var t := r.work.types;
    assert Ok(NO_WORK, NO_SCOPE);
    ExpFollows(e, NO_SCOPE, NO_WORK, t);
    GrewItself(t);
    FineOk(NO_WORK, NO_SCOPE, r.work, r.ty);
    assert Final(t, t);
    var g := Typing([], []);
    assert Typed(t, map[], map[], g, State([], []));
    ExpKept(r.tree, t, map[], map[], g, State([], []), fuel);
    CheckedIsSafe(ByText, e, fuel);
  }

  // ----- the order of strings -----

  /** `a` comes before `b` in a dictionary: it is a proper prefix, or has the smaller character where the
      two first differ. */
  ghost predicate Before(a: string, b: string) {
    exists k :: SamePrefix(a, b, k) && (|a| == k < |b| || (k < |a| && k < |b| && a[k] < b[k]))
  }

  predicate SamePrefix(a: string, b: string, k: int) { 0 <= k <= |a| && k <= |b| && a[..k] == b[..k] }

  lemma PrefixStep(a: string, b: string, k: nat)
    requires a != "" && b != ""
    ensures SamePrefix(a, b, k + 1) <==> a[0] == b[0] && SamePrefix(a[1..], b[1..], k)
  {
    if SamePrefix(a, b, k + 1) {
      assert a[..k + 1][0] == a[0] && b[..k + 1][0] == b[0];
      assert a[1..][..k] == a[..k + 1][1..] && b[1..][..k] == b[..k + 1][1..];
    }
    if a[0] == b[0] && SamePrefix(a[1..], b[1..], k) {
      assert a[..k + 1] == [a[0]] + a[1..][..k] && b[..k + 1] == [b[0]] + b[1..][..k];
    }
  }

  /** The runtime's order is that of the dictionary, and tells equal strings by 0. */
  lemma {:induction false} StringOrderExact(a: string, b: string)
    ensures StringOrder(a, b) == 0 <==> a == b
    ensures StringOrder(a, b) < 0 <==> Before(a, b)
    ensures StringOrder(b, a) < 0 <==> StringOrder(a, b) > 0
    decreases |a|
  {
    assert SamePrefix(a, b, 0);
    if a != "" && b != "" && a[0] == b[0] {
      var a1, b1 := a[1..], b[1..];
      assert a == [a[0]] + a1 && b == [b[0]] + b1;
      StringOrderExact(a1, b1);
      if Before(a1, b1) {
        var k :| SamePrefix(a1, b1, k) && (|a1| == k < |b1| || (k < |a1| && k < |b1| && a1[k] < b1[k]));
        PrefixStep(a, b, k);
        assert SamePrefix(a, b, k + 1);
      }
      if Before(a, b) {
        var k :| SamePrefix(a, b, k) && (|a| == k < |b| || (k < |a| && k < |b| && a[k] < b[k]));
        PrefixStep(a, b, k - 1);
        assert SamePrefix(a1, b1, k - 1);
      }
    } else {
      forall k | SamePrefix(a, b, k) ensures k == 0 { SameStart(a, b, k); }
    }
  }

  lemma SameStart(a: string, b: string, k: nat)
    requires SamePrefix(a, b, k)
    ensures k == 0 || (a != "" && b != "" && a[0] == b[0])
  {
    if k > 0 { assert a[..k][0] == a[0] && b[..k][0] == b[0]; }
  }
}
