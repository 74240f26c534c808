/** The meaning of each construct, one step at a time: proofs use these instead of the whole definition. */
module Steps {
  import opened Int32
  import opened Options
  import opened Tiger

  lemma OpSteps(l: Exp, op: Oper, r: Exp, env: Env, st: State, fuel: nat)
    ensures var a := Eval(l, env, st, fuel);
      Eval(OpExp(l, op, r), env, st, fuel)
      == if !a.Val? then a else
         var b := Eval(r, env, a.st, fuel);
         if !b.Val? then b else EvalOper(op, a.value, b.value, b.st)
  {
    hide EvalOper;
  }

  lemma SeqSteps(es: Exps, env: Env, st: State, fuel: nat)
    ensures var vs := EvalArgs(es, env, st, fuel);
      Eval(SeqExp(es), env, st, fuel)
      == if !vs.Val? then Abrupt(vs) else Val(if vs.value == [] then 0 else vs.value[|vs.value| - 1], vs.st)
  {
    hide EvalArgs;
  }

  lemma AssignSteps(x: Sym, e1: Exp, env: Env, st: State, fuel: nat)
    ensures var v := Eval(e1, env, st, fuel);
      Eval(AssignExp(x, e1), env, st, fuel)
      == if !v.Val? then v
         else match LookupVar(env, x) case None => Stuck(v.st) case Some(l) => Val(0, v.st.Write(l, v.value))
  {
    hide LookupVar;
  }

  lemma IfSteps(c: Exp, t: Exp, f: Exp, env: Env, st: State, fuel: nat)
    ensures var v := Eval(c, env, st, fuel);
      Eval(IfExp(c, t, f), env, st, fuel)
      == if !v.Val? then v else if v.value != 0 then Eval(t, env, v.st, fuel) else Eval(f, env, v.st, fuel)
  {}

  lemma WhileSteps(c: Exp, body: Exp, env: Env, st: State, fuel: nat)
    ensures Eval(WhileExp(c, body), env, st, fuel) == EvalWhile(c, body, env, st, fuel)
  {
    hide EvalWhile;
  }

  /** What a `while` comes to after its body. */
  function Turned(c: Exp, body: Exp, env: Env, b: Outcome<int32>, fuel: nat): (r: Outcome<int32>)
    ensures !b.Val? ==> r == Left(b)
  {
    if b.Val? then EvalWhile(c, body, env, b.st, fuel) else Left(b)
  }

  /** A loop whose body does not end with a value. */
  function Left(b: Outcome<int32>): Outcome<int32> { if b.Brk? then Val(0, b.st) else b }

  lemma TurnSteps(c: Exp, body: Exp, env: Env, st: State, fuel: nat)
    requires fuel > 0
    ensures var v := Eval(c, env, st, fuel - 1);
      EvalWhile(c, body, env, st, fuel)
      == if !v.Val? then v
         else if v.value == 0 then Val(0, v.st)
         else Turned(c, body, env, Eval(body, env, v.st, fuel - 1), fuel - 1)
  {
    hide Eval;
  }

  lemma ForSteps(i: Sym, lo: Exp, hi: Exp, body: Exp, env: Env, st: State, fuel: nat)
    ensures var l := Eval(lo, env, st, fuel);
      Eval(ForExp(i, lo, hi, body), env, st, fuel)
      == if !l.Val? then l else
         var h := Eval(hi, env, l.st, fuel);
         if !h.Val? then h
         else EvalFor(body, BindVar(i, |h.st.mem|, true, env), |h.st.mem|, l.value, h.value, h.st.Alloc(l.value), fuel)
  {
    hide EvalFor;
  }

  lemma ForTurnSteps(body: Exp, env: Env, loc: nat, k: int, hi: int32, st: State, fuel: nat)
    requires INT_MIN <= k <= hi && fuel > 0
    ensures var b := Eval(body, env, st.Write(loc, k), fuel - 1);
      EvalFor(body, env, loc, k, hi, st, fuel)
      == if b.Val? then EvalFor(body, env, loc, k + 1, hi, b.st, fuel - 1) else Left(b)
  {
    hide Eval;
  }

  lemma LetVarSteps(x: Sym, init: Exp, body: Exp, env: Env, st: State, fuel: nat)
    ensures var v := Eval(init, env, st.Alloc(0), fuel);
      Eval(LetVar(x, init, body), env, st, fuel)
      == if !v.Val? then v else Eval(body, BindVar(x, |st.mem|, false, env), v.st.Write(|st.mem|, v.value), fuel)
  {}

  lemma LetFunsSteps(ds: Funs, body: Exp, env: Env, st: State, fuel: nat)
    ensures Eval(LetFuns(ds, body), env, st, fuel) == Eval(body, BindFuns(ds, env), st, fuel)
  {}

  lemma CallSteps(f: Sym, args: Exps, env: Env, st: State, fuel: nat)
    ensures var vs := EvalArgs(args, env, st, fuel);
      Eval(CallExp(f, args), env, st, fuel)
      == if !vs.Val? then Abrupt(vs)
         else match LookupFun(env, f)
           case None => Stuck(vs.st)
           case Some(callee) =>
             if |callee.dec.formals| != |vs.value| then Stuck(vs.st)
             else if callee.dec.Primitive? then
               Val(vs.st.Answer(callee.dec.result), vs.st.Primitive(f, vs.value, callee.dec.result))
             else if fuel == 0 then Timeout(vs.st)
             else EvalBody(callee, vs.value, vs.st, fuel - 1)
  {
    hide EvalArgs, EvalBody, LookupFun;
  }

  lemma ArgsSteps(e: Exp, rest: Exps, env: Env, st: State, fuel: nat)
    ensures var v := Eval(e, env, st, fuel);
      EvalArgs(Cons(e, rest), env, st, fuel)
      == if !v.Val? then Abrupt(v) else
         var vs := EvalArgs(rest, env, v.st, fuel);
         if !vs.Val? then vs else Val([v.value] + vs.value, vs.st)
  {
    hide Eval;
  }
}
