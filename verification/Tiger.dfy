/** The core of Tiger that the passes work on, and its meaning. */
module Tiger {
  import opened Int32
  import opened Options

  /** A `misc::symbol`: compared by identity, one per spelling. */
  datatype Sym = Sym(text: string)

  datatype Ty = IntTy | VoidTy

  datatype Exp =
    | IntExp(value: int32)
    | VarExp(name: Sym)
    | OpExp(left: Exp, oper: Oper, right: Exp)
    | SeqExp(exps: Exps)
    | AssignExp(name: Sym, exp: Exp)
    | IfExp(test: Exp, thenclause: Exp, elseclause: Exp)
    | WhileExp(test: Exp, body: Exp)
    | ForExp(index: Sym, lo: Exp, hi: Exp, body: Exp)
    | BreakExp
    | CallExp(name: Sym, args: Exps)
    | LetVar(name: Sym, init: Exp, body: Exp)
    | LetFuns(funs: Funs, body: Exp)

  datatype Exps = NoExp | Cons(head: Exp, tail: Exps)

  /** A function declaration; a primitive is one without a body. */
  datatype FunDec =
    | Function(name: Sym, formals: seq<Sym>, result: Ty, body: Exp)
    | Primitive(name: Sym, formals: seq<Sym>, result: Ty)

  /** A function chunk: mutually recursive declarations. */
  datatype Funs = NoFun | FunCons(first: FunDec, rest: Funs)

  function Length(es: Exps): nat {
    match es
    case NoExp => 0
    case Cons(_, tail) => 1 + Length(tail)
  }

  function FindFun(funs: Funs, f: Sym): Funs
    ensures FindFun(funs, f).FunCons? ==> FindFun(funs, f).first.name == f
  {
    match funs
    case NoFun => NoFun
    case FunCons(first, rest) => if first.name == f then funs else FindFun(rest, f)
  }

  /** The static chain: innermost declarations first.  A function is bound at the node of its
      chunk, and that node is the environment its body runs in. */
  datatype Env =
    | Top
    | BindVar(name: Sym, loc: nat, readonly: bool, outer: Env)
    | BindFuns(funs: Funs, outer: Env)

  function LookupVar(env: Env, x: Sym): Option<nat> {
    match env
    case Top => None
    case BindVar(y, loc, _, outer) => if x == y then Some(loc) else LookupVar(outer, x)
    case BindFuns(_, outer) => LookupVar(outer, x)
  }

  /** What a call to `f` reaches: the declaration and the environment it was declared in. */
  datatype Callee = Callee(dec: FunDec, env: Env)

  function LookupFun(env: Env, f: Sym): Option<Callee> {
    match env
    case Top => None
    case BindVar(_, _, _, outer) => LookupFun(outer, f)
    case BindFuns(funs, outer) =>
      var found := FindFun(funs, f);
      if found.FunCons? then Some(Callee(found.first, env)) else LookupFun(outer, f)
  }

  /** Formals get consecutive cells from `base` on. */
  function BindFormals(formals: seq<Sym>, base: nat, env: Env): Env {
    if formals == [] then env
    else BindFormals(formals[1..], base + 1, BindVar(formals[0], base, false, env))
  }

  datatype Event = Event(prim: Sym, args: seq<int32>)

  /** `mem` holds one cell per variable instance, `input` what the primitives will return next,
      `trace` the primitive calls made so far. */
  datatype State = State(mem: seq<int32>, input: seq<int32>, trace: seq<Event>)
  {
    function Alloc(v: int32): State { this.(mem := mem + [v]) }

    function Write(l: nat, v: int32): State {
      if l < |mem| then this.(mem := mem[l := v]) else this
    }

    function Primitive(f: Sym, args: seq<int32>, result: Ty): State {
      this.(trace := trace + [Event(f, args)],
            input := if result == IntTy && input != [] then input[1..] else input)
    }

    /** The value the next integer primitive returns. */
    function Answer(result: Ty): int32 {
      if result == IntTy && input != [] then input[0] else 0
    }
  }

  /** How an evaluation ends.  `Fault` is undefined behaviour (division), `Stuck` an unbound name
      or a stray `break`, `Timeout` means the fuel ran out. */
  datatype Outcome<T> =
    | Val(value: T, st: State)
    | Brk(st: State)
    | Fault(st: State)
    | Stuck(st: State)
    | Timeout(st: State)

  /** Re-types an outcome that carries no value. */
  function Abrupt<T, U>(o: Outcome<T>): Outcome<U>
    requires !o.Val?
  {
    match o
    case Brk(st) => Brk(st)
    case Fault(st) => Fault(st)
    case Stuck(st) => Stuck(st)
    case Timeout(st) => Timeout(st)
  }

  function EvalOper(op: Oper, l: int32, r: int32, st: State): Outcome<int32> {
    match op
    case Arithmetic(a) =>
      (match Arith(a, l, r)
       case Computed(v) => Val(v, st)
       case Undefined => Fault(st))
    case Comparison(c) => Val(if Compare(c, l, r) then 1 else 0, st)
  }

  /** Big-step meaning.  Each loop iteration and each call of a Tiger function burns one unit
      of `fuel`.  A `for` evaluates its bounds once, then runs the body with the index at every
      integer from the lower to the upper bound. */
  function Eval(e: Exp, env: Env, st: State, fuel: nat): Outcome<int32>
    decreases fuel, e, 0
  {
    match e
    case IntExp(n) => Val(n, st)
    case VarExp(x) =>
      (match LookupVar(env, x)
       case None => Stuck(st)
       case Some(l) => if l < |st.mem| then Val(st.mem[l], st) else Stuck(st))
    case OpExp(left, op, right) =>
      var l := Eval(left, env, st, fuel);
      if !l.Val? then l else
      var r := Eval(right, env, l.st, fuel);
      if !r.Val? then r else
      EvalOper(op, l.value, r.value, r.st)
    case SeqExp(es) =>
      var vs := EvalArgs(es, env, st, fuel);
      if !vs.Val? then Abrupt(vs) else
      Val(if vs.value == [] then 0 else vs.value[|vs.value| - 1], vs.st)
    case AssignExp(x, e1) =>
      var v := Eval(e1, env, st, fuel);
      if !v.Val? then v else
      (match LookupVar(env, x)
       case None => Stuck(v.st)
       case Some(l) => Val(0, v.st.Write(l, v.value)))
    case IfExp(test, thn, els) =>
      var c := Eval(test, env, st, fuel);
      if !c.Val? then c else
      if c.value != 0 then Eval(thn, env, c.st, fuel) else Eval(els, env, c.st, fuel)
    case WhileExp(test, body) =>
      EvalWhile(test, body, env, st, fuel)
    case ForExp(i, lo, hi, body) =>
      var l := Eval(lo, env, st, fuel);
      if !l.Val? then l else
      var h := Eval(hi, env, l.st, fuel);
      if !h.Val? then h else
      EvalFor(body, BindVar(i, |h.st.mem|, true, env), |h.st.mem|, l.value, h.value, h.st.Alloc(l.value), fuel)
    case BreakExp => Brk(st)
    case CallExp(f, args) =>
      var vs := EvalArgs(args, env, st, fuel);
      if !vs.Val? then Abrupt(vs) else
      (match LookupFun(env, f)
       case None => Stuck(vs.st)
       case Some(callee) =>
         if |callee.dec.formals| != |vs.value| then Stuck(vs.st) else
         if callee.dec.Primitive? then
           Val(vs.st.Answer(callee.dec.result), vs.st.Primitive(f, vs.value, callee.dec.result))
         else if fuel == 0 then Timeout(vs.st)
         else EvalBody(callee, vs.value, vs.st, fuel - 1))
    case LetVar(x, init, body) =>
      var v := Eval(init, env, st.Alloc(0), fuel);
      if !v.Val? then v else
      Eval(body, BindVar(x, |st.mem|, false, env), v.st.Write(|st.mem|, v.value), fuel)
    case LetFuns(funs, body) =>
      Eval(body, BindFuns(funs, env), st, fuel)
  }

  /** Evaluates left to right; a sequence keeps only the last value. */
  function EvalArgs(es: Exps, env: Env, st: State, fuel: nat): Outcome<seq<int32>>
    decreases fuel, es, 0
  {
    match es
    case NoExp => Val([], st)
    case Cons(e, rest) =>
      var v := Eval(e, env, st, fuel);
      if !v.Val? then Abrupt(v) else
      var vs := EvalArgs(rest, env, v.st, fuel);
      if !vs.Val? then vs else
      Val([v.value] + vs.value, vs.st)
  }

  function EvalWhile(test: Exp, body: Exp, env: Env, st: State, fuel: nat): Outcome<int32>
    decreases fuel, body, 1
  {
    if fuel == 0 then Timeout(st) else
    var c := Eval(test, env, st, fuel - 1);
    if !c.Val? then c else
    if c.value == 0 then Val(0, c.st) else
    var b := Eval(body, env, c.st, fuel - 1);
    match b
    case Val(_, st1) => EvalWhile(test, body, env, st1, fuel - 1)
    case Brk(st1) => Val(0, st1)
    case _ => b
  }

  /** Runs `body` with the index, in cell `loc`, at k, k+1, .., hi. */
  function EvalFor(body: Exp, env: Env, loc: nat, k: int, hi: int32, st: State, fuel: nat): Outcome<int32>
    requires INT_MIN <= k <= INT_MAX + 1
    decreases fuel, body, 1
  {
    if k > hi then Val(0, st) else
    if fuel == 0 then Timeout(st) else
    var b := Eval(body, env, st.Write(loc, k), fuel - 1);
    match b
    case Val(_, st1) => EvalFor(body, env, loc, k + 1, hi, st1, fuel - 1)
    case Brk(st1) => Val(0, st1)
    case _ => b
  }

  function EvalBody(callee: Callee, args: seq<int32>, st: State, fuel: nat): Outcome<int32>
    requires callee.dec.Function?
    decreases fuel, callee.dec.body, 1
  {
    var env := BindFormals(callee.dec.formals, |st.mem|, callee.env);
    var b := Eval(callee.dec.body, env, st.(mem := st.mem + args), fuel);
    match b
    case Val(v, st1) => Val(if callee.dec.result == IntTy then v else 0, st1)
    case Brk(st1) => Stuck(st1)
    case _ => b
  }
}
