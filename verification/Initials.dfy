/** Runs up to the first initial value: storing one relies on the order in which C++ evaluates the
    arguments of a call (src/llvmtranslate/translator.cc). */
module Initials {
  import opened Int32
  import opened Options
  import opened Tiger
  import opened Steps

  /** Evaluating `e` completes the initial value of some variable. */
  predicate Completes(e: Exp, env: Env, st: State, fuel: nat)
    decreases fuel, e, 0
  {
    match e
    case IntExp(_) => false
    case VarExp(_) => false
    case OpExp(l, _, r) =>
      Completes(l, env, st, fuel) || var v := Eval(l, env, st, fuel); v.Val? && Completes(r, env, v.st, fuel)
    case SeqExp(es) => CompletesAny(es, env, st, fuel)
    case AssignExp(_, e1) => Completes(e1, env, st, fuel)
    case IfExp(c, t, f) =>
      Completes(c, env, st, fuel)
      || var v := Eval(c, env, st, fuel); v.Val? && if v.value != 0 then Completes(t, env, v.st, fuel) else Completes(f, env, v.st, fuel)
    case WhileExp(c, body) => CompletesWhile(c, body, env, st, fuel)
    case ForExp(i, lo, hi, body) =>
      Completes(lo, env, st, fuel)
      || var l := Eval(lo, env, st, fuel);
         l.Val?
         && (Completes(hi, env, l.st, fuel)
             || var h := Eval(hi, env, l.st, fuel);
                h.Val? && CompletesFor(body, BindVar(i, |h.st.mem|, true, env), |h.st.mem|, l.value, h.value, h.st.Alloc(l.value), fuel))
    case BreakExp => false
    case CallExp(f, args) =>
      CompletesAny(args, env, st, fuel)
      || var vs, c := EvalArgs(args, env, st, fuel), LookupFun(env, f);
         && vs.Val? && c.Some? && |c.value.dec.formals| == |vs.value| && c.value.dec.Function? && fuel > 0
         && CompletesBody(c.value, vs.value, vs.st, fuel - 1)
    case LetVar(_, init, _) => Completes(init, env, st.Alloc(0), fuel) || Eval(init, env, st.Alloc(0), fuel).Val?
    case LetFuns(ds, body) => Completes(body, BindFuns(ds, env), st, fuel)
  }

  predicate CompletesAny(es: Exps, env: Env, st: State, fuel: nat)
    decreases fuel, es, 0
  {
    match es
    case NoExp => false
    case Cons(e, rest) =>
      Completes(e, env, st, fuel) || var v := Eval(e, env, st, fuel); v.Val? && CompletesAny(rest, env, v.st, fuel)
  }

  predicate CompletesWhile(c: Exp, body: Exp, env: Env, st: State, fuel: nat)
    decreases fuel, body, 1
  {
    && fuel > 0
    && (Completes(c, env, st, fuel - 1)
        || var v := Eval(c, env, st, fuel - 1);
           && v.Val? && v.value != 0
           && (Completes(body, env, v.st, fuel - 1)
               || var b := Eval(body, env, v.st, fuel - 1); b.Val? && CompletesWhile(c, body, env, b.st, fuel - 1)))
  }

  predicate CompletesFor(body: Exp, env: Env, loc: nat, k: int, hi: int32, st: State, fuel: nat)
    requires INT_MIN <= k <= INT_MAX + 1
    decreases fuel, body, 1
  {
    && k <= hi && fuel > 0
    && (Completes(body, env, st.Write(loc, k), fuel - 1)
        || var b := Eval(body, env, st.Write(loc, k), fuel - 1); b.Val? && CompletesFor(body, env, loc, k + 1, hi, b.st, fuel - 1))
  }

  predicate CompletesBody(callee: Callee, args: seq<int32>, st: State, fuel: nat)
    requires callee.dec.Function?
    decreases fuel, callee.dec.body, 1
  {
    Completes(callee.dec.body, BindFormals(callee.dec.formals, |st.mem|, callee.env), st.(mem := st.mem + args), fuel)
  }

  // ----- what the generated code can be expected to do -----

  /** Code that cannot store an initial value goes no further than the first. */
  function Lost<T>(): Outcome<T> { Stuck(State([], [], [])) }

  /** The meaning, for code that evaluates the pointer of an initial store first; the meaning up to the
      first initial value for code that does not. */
  function Meant(e: Exp, env: Env, st: State, fuel: nat, pointerFirst: bool): Outcome<int32> {
    if !pointerFirst && Completes(e, env, st, fuel) then Lost() else Eval(e, env, st, fuel)
  }

  function MeantArgs(es: Exps, env: Env, st: State, fuel: nat, pointerFirst: bool): Outcome<seq<int32>> {
    if !pointerFirst && CompletesAny(es, env, st, fuel) then Lost() else EvalArgs(es, env, st, fuel)
  }

  function MeantWhile(c: Exp, body: Exp, env: Env, st: State, fuel: nat, pointerFirst: bool): Outcome<int32> {
    if !pointerFirst && CompletesWhile(c, body, env, st, fuel) then Lost() else EvalWhile(c, body, env, st, fuel)
  }

  function MeantBody(callee: Callee, args: seq<int32>, st: State, fuel: nat, pointerFirst: bool): Outcome<int32>
    requires callee.dec.Function?
  {
    if !pointerFirst && CompletesBody(callee, args, st, fuel) then Lost() else EvalBody(callee, args, st, fuel)
  }

  lemma MeantIsEval(e: Exp, env: Env, st: State, fuel: nat, pf: bool)
    requires !Meant(e, env, st, fuel, pf).Stuck?
    ensures Eval(e, env, st, fuel) == Meant(e, env, st, fuel, pf)
  {}

  lemma ArgsMeantAreEval(es: Exps, env: Env, st: State, fuel: nat, pf: bool)
    requires !MeantArgs(es, env, st, fuel, pf).Stuck?
    ensures EvalArgs(es, env, st, fuel) == MeantArgs(es, env, st, fuel, pf)
  {}

  lemma LeafMeant(e: Exp, env: Env, st: State, fuel: nat, pf: bool)
    requires e.IntExp? || e.VarExp? || e.BreakExp?
    ensures Meant(e, env, st, fuel, pf) == Eval(e, env, st, fuel)
  {}

  lemma OpMeant(l: Exp, op: Oper, r: Exp, env: Env, st: State, fuel: nat, pf: bool)
    ensures var a := Meant(l, env, st, fuel, pf);
      Meant(OpExp(l, op, r), env, st, fuel, pf)
      == if !a.Val? then a else
         var b := Meant(r, env, a.st, fuel, pf);
         if !b.Val? then b else EvalOper(op, a.value, b.value, b.st)
  {
    OpSteps(l, op, r, env, st, fuel);
    hide Eval, EvalOper;
  }

  lemma SeqMeant(es: Exps, env: Env, st: State, fuel: nat, pf: bool)
    ensures var vs := MeantArgs(es, env, st, fuel, pf);
      Meant(SeqExp(es), env, st, fuel, pf)
      == if !vs.Val? then Abrupt(vs) else Val(if vs.value == [] then 0 else vs.value[|vs.value| - 1], vs.st)
  {
    SeqSteps(es, env, st, fuel);
    hide Eval, EvalArgs;
  }

  lemma AssignMeant(x: Sym, e1: Exp, env: Env, st: State, fuel: nat, pf: bool)
    ensures var v := Meant(e1, env, st, fuel, pf);
      Meant(AssignExp(x, e1), env, st, fuel, pf)
      == if !v.Val? then v
         else match LookupVar(env, x) case None => Stuck(v.st) case Some(l) => Val(0, v.st.Write(l, v.value))
  {
    AssignSteps(x, e1, env, st, fuel);
    hide Eval, LookupVar;
  }

  lemma IfMeant(c: Exp, t: Exp, f: Exp, env: Env, st: State, fuel: nat, pf: bool)
    ensures var v := Meant(c, env, st, fuel, pf);
      Meant(IfExp(c, t, f), env, st, fuel, pf)
      == if !v.Val? then v else if v.value != 0 then Meant(t, env, v.st, fuel, pf) else Meant(f, env, v.st, fuel, pf)
  {
    IfSteps(c, t, f, env, st, fuel);
    hide Eval;
  }

  lemma WhileMeant(c: Exp, body: Exp, env: Env, st: State, fuel: nat, pf: bool)
    ensures Meant(WhileExp(c, body), env, st, fuel, pf) == MeantWhile(c, body, env, st, fuel, pf)
  {
    WhileSteps(c, body, env, st, fuel);
    hide Eval, EvalWhile;
  }

  /** What is left of a loop once its test has given `v`. */
  function WhileTurn(test: Exp, body: Exp, env: Env, v: int32, st: State, fuel: nat, pf: bool): Outcome<int32>
    requires fuel > 0
  {
    if v == 0 then Val(0, st) else BodyTurn(test, body, env, Meant(body, env, st, fuel - 1, pf), fuel, pf)
  }

  /** What is left of a loop once its body has ended in `o`. */
  function BodyTurn(test: Exp, body: Exp, env: Env, o: Outcome<int32>, fuel: nat, pf: bool): Outcome<int32>
    requires fuel > 0
  {
    match o
    case Val(_, st1) => MeantWhile(test, body, env, st1, fuel - 1, pf)
    case Brk(st1) => Val(0, st1)
    case _ => o
  }

  lemma NoTurnMeant(test: Exp, body: Exp, env: Env, st: State, pf: bool)
    ensures MeantWhile(test, body, env, st, 0, pf) == Timeout(st)
  {
    hide Eval, Completes, EvalFor;
  }

  lemma TurnMeant(test: Exp, body: Exp, env: Env, st: State, fuel: nat, pf: bool)
    requires fuel > 0
    ensures var o := Meant(test, env, st, fuel - 1, pf);
      MeantWhile(test, body, env, st, fuel, pf) == if o.Val? then WhileTurn(test, body, env, o.value, o.st, fuel, pf) else o
  {
    hide Eval, EvalWhile, Completes, CompletesWhile, MeantWhile, WhileTurn, Turned;
    TurnSteps(test, body, env, st, fuel);
    TurnCompletes(test, body, env, st, fuel);
    WhileIs(test, body, env, st, fuel, pf);
    var v := Eval(test, env, st, fuel - 1);
    if v.Val? { TurnIs(test, body, env, v.value, v.st, fuel, pf); }
  }

  lemma WhileIs(test: Exp, body: Exp, env: Env, st: State, fuel: nat, pf: bool)
    ensures MeantWhile(test, body, env, st, fuel, pf)
      == if !pf && CompletesWhile(test, body, env, st, fuel) then Lost() else EvalWhile(test, body, env, st, fuel)
  {
    hide EvalWhile, CompletesWhile;
  }

  lemma TurnIs(test: Exp, body: Exp, env: Env, v: int32, st: State, fuel: nat, pf: bool)
    requires fuel > 0
    ensures var b := Eval(body, env, st, fuel - 1);
      WhileTurn(test, body, env, v, st, fuel, pf)
      == if v == 0 then Val(0, st)
         else if !pf && (Completes(body, env, st, fuel - 1) || (b.Val? && CompletesWhile(test, body, env, b.st, fuel - 1))) then Lost()
         else Turned(test, body, env, b, fuel - 1)
  {
    hide Eval, Completes, CompletesWhile, BodyTurn, Turned;
    var b := Eval(body, env, st, fuel - 1);
    AfterBodyIs(test, body, env, b, fuel, pf);
    AfterBodyIs(test, body, env, Lost(), fuel, pf);
  }

  lemma AfterBodyIs(test: Exp, body: Exp, env: Env, b: Outcome<int32>, fuel: nat, pf: bool)
    requires fuel > 0
    ensures BodyTurn(test, body, env, b, fuel, pf)
      == if b.Val? && !pf && CompletesWhile(test, body, env, b.st, fuel - 1) then Lost() else Turned(test, body, env, b, fuel - 1)
    ensures b.Stuck? ==> Turned(test, body, env, b, fuel - 1) == b
  {
    hide EvalWhile, CompletesWhile, MeantWhile;
    if b.Val? { WhileIs(test, body, env, b.st, fuel - 1, pf); }
  }

  lemma TurnCompletes(test: Exp, body: Exp, env: Env, st: State, fuel: nat)
    requires fuel > 0
    ensures CompletesWhile(test, body, env, st, fuel)
      == (Completes(test, env, st, fuel - 1)
          || var v := Eval(test, env, st, fuel - 1);
             && v.Val? && v.value != 0
             && (Completes(body, env, v.st, fuel - 1)
                 || var b := Eval(body, env, v.st, fuel - 1); b.Val? && CompletesWhile(test, body, env, b.st, fuel - 1)))
  {
    hide Eval, Completes;
  }

  lemma LetVarMeant(x: Sym, init: Exp, body: Exp, env: Env, st: State, fuel: nat, pf: bool)
    ensures var v := Meant(init, env, st.Alloc(0), fuel, pf);
      Meant(LetVar(x, init, body), env, st, fuel, pf)
      == if !v.Val? then v
         else if !pf then Lost()
         else Meant(body, BindVar(x, |st.mem|, false, env), v.st.Write(|st.mem|, v.value), fuel, pf)
  {
    LetVarSteps(x, init, body, env, st, fuel);
    hide Eval;
  }

  lemma LetFunsMeant(ds: Funs, body: Exp, env: Env, st: State, fuel: nat, pf: bool)
    ensures Meant(LetFuns(ds, body), env, st, fuel, pf) == Meant(body, BindFuns(ds, env), st, fuel, pf)
  {
    LetFunsSteps(ds, body, env, st, fuel);
    hide Eval;
  }

  lemma CallMeant(f: Sym, args: Exps, env: Env, st: State, fuel: nat, pf: bool)
    ensures var vs := MeantArgs(args, env, st, fuel, pf);
      Meant(CallExp(f, args), env, st, fuel, pf)
      == if !vs.Val? then Abrupt(vs)
         else match LookupFun(env, f)
           case None => Stuck(vs.st)
           case Some(callee) =>
             if |callee.dec.formals| != |vs.value| then Stuck(vs.st)
             else MeantCall(f, callee, vs.value, vs.st, fuel, pf)
  {
    CallSteps(f, args, env, st, fuel);
    hide Eval, EvalArgs, EvalBody, LookupFun;
  }

  /** What a call comes to once its arguments are known. */
  function MeantCall(f: Sym, callee: Callee, vals: seq<int32>, st: State, fuel: nat, pf: bool): Outcome<int32> {
    if callee.dec.Primitive? then Val(st.Answer(callee.dec.result), st.Primitive(f, vals, callee.dec.result))
    else if fuel == 0 then Timeout(st)
    else MeantBody(callee, vals, st, fuel - 1, pf)
  }

  lemma ArgsMeant(e: Exp, rest: Exps, env: Env, st: State, fuel: nat, pf: bool)
    ensures var v := Meant(e, env, st, fuel, pf);
      MeantArgs(Cons(e, rest), env, st, fuel, pf)
      == if !v.Val? then Abrupt(v) else
         var vs := MeantArgs(rest, env, v.st, fuel, pf);
         if !vs.Val? then vs else Val([v.value] + vs.value, vs.st)
  {
    ArgsSteps(e, rest, env, st, fuel);
    hide Eval;
  }

  lemma BodyMeant(callee: Callee, args: seq<int32>, st: State, fuel: nat, pf: bool)
    requires callee.dec.Function?
    ensures var b := Meant(callee.dec.body, BindFormals(callee.dec.formals, |st.mem|, callee.env), st.(mem := st.mem + args), fuel, pf);
      MeantBody(callee, args, st, fuel, pf)
      == match b
         case Val(v, st1) => Val(if callee.dec.result == IntTy then v else 0, st1)
         case Brk(st1) => Stuck(st1)
         case _ => b
  {
    hide Eval, Completes;
  }

  // ----- texts without variables -----

  predicate NoVar(e: Exp) {
    match e
    case IntExp(_) => true
    case VarExp(_) => true
    case OpExp(l, _, r) => NoVar(l) && NoVar(r)
    case SeqExp(es) => NoVarAll(es)
    case AssignExp(_, e1) => NoVar(e1)
    case IfExp(c, t, f) => NoVar(c) && NoVar(t) && NoVar(f)
    case WhileExp(c, body) => NoVar(c) && NoVar(body)
    case ForExp(_, lo, hi, body) => NoVar(lo) && NoVar(hi) && NoVar(body)
    case BreakExp => true
    case CallExp(_, args) => NoVarAll(args)
    case LetVar(_, _, _) => false
    case LetFuns(ds, body) => NoVarFuns(ds) && NoVar(body)
  }

  predicate NoVarAll(es: Exps) {
    match es
    case NoExp => true
    case Cons(e, rest) => NoVar(e) && NoVarAll(rest)
  }

  predicate NoVarFuns(ds: Funs) {
    match ds
    case NoFun => true
    case FunCons(d, rest) => (d.Function? ==> NoVar(d.body)) && NoVarFuns(rest)
  }

  predicate NoVarEnv(env: Env) {
    match env
    case Top => true
    case BindVar(_, _, _, outer) => NoVarEnv(outer)
    case BindFuns(ds, outer) => NoVarFuns(ds) && NoVarEnv(outer)
  }

  lemma {:induction false} FoundWithout(ds: Funs, f: Sym)
    requires NoVarFuns(ds) && FindFun(ds, f).FunCons? && FindFun(ds, f).first.Function?
    ensures NoVar(FindFun(ds, f).first.body)
  {
    if ds.first.name != f { FoundWithout(ds.rest, f); }
  }

  lemma {:induction false} CalleeWithout(env: Env, f: Sym)
    requires NoVarEnv(env) && LookupFun(env, f).Some?
    ensures var c := LookupFun(env, f).value; NoVarEnv(c.env) && (c.dec.Function? ==> NoVar(c.dec.body))
  {
    match env
    case BindVar(_, _, _, outer) => CalleeWithout(outer, f);
    case BindFuns(ds, outer) =>
      if FindFun(ds, f).FunCons? {
        if FindFun(ds, f).first.Function? { FoundWithout(ds, f); }
      } else {
        CalleeWithout(outer, f);
      }
  }

  lemma {:induction false} FormalsWithout(xs: seq<Sym>, base: nat, env: Env)
    requires NoVarEnv(env)
    ensures NoVarEnv(BindFormals(xs, base, env))
    decreases |xs|
  {
    if xs != [] { FormalsWithout(xs[1..], base + 1, BindVar(xs[0], base, false, env)); }
  }

  /** Without declarations of variables no initial value is ever completed. */
  lemma {:induction false} WithoutVar(e: Exp, env: Env, st: State, fuel: nat)
    requires NoVar(e) && NoVarEnv(env)
    ensures !Completes(e, env, st, fuel)
    decreases fuel, e, 0
  {
    hide Eval, EvalArgs;
    match e
    case OpExp(l, _, r) => WithoutVar(l, env, st, fuel); WithoutVar(r, env, Eval(l, env, st, fuel).st, fuel);
    case SeqExp(es) => WithoutVarAll(es, env, st, fuel);
    case AssignExp(_, e1) => WithoutVar(e1, env, st, fuel);
    case IfExp(c, t, f) =>
      var st1 := Eval(c, env, st, fuel).st;
      WithoutVar(c, env, st, fuel);
      WithoutVar(t, env, st1, fuel);
      WithoutVar(f, env, st1, fuel);
    case WhileExp(c, body) => WithoutVarWhile(c, body, env, st, fuel);
    case ForExp(i, lo, hi, body) =>
      var l := Eval(lo, env, st, fuel);
      var h := Eval(hi, env, l.st, fuel);
      WithoutVar(lo, env, st, fuel);
      WithoutVar(hi, env, l.st, fuel);
      if l.Val? && h.Val? {
        WithoutVarFor(body, BindVar(i, |h.st.mem|, true, env), |h.st.mem|, l.value, h.value, h.st.Alloc(l.value), fuel);
      }
    case CallExp(f, args) =>
      WithoutVarAll(args, env, st, fuel);
      var vs, c := EvalArgs(args, env, st, fuel), LookupFun(env, f);
      if c.Some? && c.value.dec.Function? && fuel > 0 && vs.Val? {
        CalleeWithout(env, f);
        var base := |vs.st.mem|;
        FormalsWithout(c.value.dec.formals, base, c.value.env);
        WithoutVar(c.value.dec.body, BindFormals(c.value.dec.formals, base, c.value.env), vs.st.(mem := vs.st.mem + vs.value), fuel - 1);
      }
    case LetFuns(ds, body) => WithoutVar(body, BindFuns(ds, env), st, fuel);
    case _ =>
  }

  lemma {:induction false} WithoutVarAll(es: Exps, env: Env, st: State, fuel: nat)
    requires NoVarAll(es) && NoVarEnv(env)
    ensures !CompletesAny(es, env, st, fuel)
    decreases fuel, es, 0
  {
    hide Eval;
    if es.Cons? {
      WithoutVar(es.head, env, st, fuel);
      WithoutVarAll(es.tail, env, Eval(es.head, env, st, fuel).st, fuel);
    }
  }

  lemma {:induction false} WithoutVarWhile(c: Exp, body: Exp, env: Env, st: State, fuel: nat)
    requires NoVar(c) && NoVar(body) && NoVarEnv(env)
    ensures !CompletesWhile(c, body, env, st, fuel)
    decreases fuel, body, 1
  {
    hide Eval, Completes;
    if fuel > 0 {
      var v := Eval(c, env, st, fuel - 1);
      WithoutVar(c, env, st, fuel - 1);
      WithoutVar(body, env, v.st, fuel - 1);
      WithoutVarWhile(c, body, env, Eval(body, env, v.st, fuel - 1).st, fuel - 1);
    }
  }

  lemma {:induction false} WithoutVarFor(body: Exp, env: Env, loc: nat, k: int, hi: int32, st: State, fuel: nat)
    requires INT_MIN <= k <= INT_MAX + 1 && NoVar(body) && NoVarEnv(env)
    ensures !CompletesFor(body, env, loc, k, hi, st, fuel)
    decreases fuel, body, 1
  {
    hide Eval, Completes;
    if k <= hi && fuel > 0 {
      WithoutVar(body, env, st.Write(loc, k), fuel - 1);
      WithoutVarFor(body, env, loc, k + 1, hi, Eval(body, env, st.Write(loc, k), fuel - 1).st, fuel - 1);
    }
  }
}
