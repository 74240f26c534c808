/** The static conditions a program must meet before code is generated for it. */
module Check {
  import opened Int32
  import opened Options
  import opened Tiger

  datatype Sig = Sig(primitive: bool, arity: nat, result: Ty)

  /** What is visible: variables, with whether they are read-only, and functions. */
  datatype Scope = Scope(vars: map<Sym, bool>, funs: map<Sym, Sig>)
  {
    function Var(x: Sym, readonly: bool): Scope { this.(vars := vars[x := readonly]) }

    function Chunk(ds: Funs): Scope { this.(funs := funs + Sigs(ds)) }

    function Formals(xs: seq<Sym>): (s: Scope)
      ensures s.funs == funs
      decreases |xs|
    {
      if xs == [] then this else Var(xs[0], false).Formals(xs[1..])
    }
  }

  function SigOf(d: FunDec): Sig { Sig(d.Primitive?, |d.formals|, d.result) }

  function Sigs(ds: Funs): map<Sym, Sig> {
    match ds
    case NoFun => map[]
    case FunCons(d, rest) => Sigs(rest)[d.name := SigOf(d)]
  }

  /** Binding and type checking of the integer fragment: the type of `e`, or `None` for an error.
      `inLoop` says whether the binder's break stack is non-empty. */
  function TypeOf(e: Exp, sc: Scope, inLoop: bool): Option<Ty> {
    match e
    case IntExp(_) => Some(IntTy)
    case VarExp(x) => if x in sc.vars then Some(IntTy) else None
    case OpExp(l, _, r) =>
      if TypeOf(l, sc, inLoop) == Some(IntTy) && TypeOf(r, sc, inLoop) == Some(IntTy) then Some(IntTy) else None
    case SeqExp(es) => TypeOfSeq(es, sc, inLoop)
    case AssignExp(x, e1) =>
      if x in sc.vars && !sc.vars[x] && TypeOf(e1, sc, inLoop) == Some(IntTy) then Some(VoidTy) else None
    case IfExp(c, t, f) =>
      var ty := TypeOf(t, sc, inLoop);
      if TypeOf(c, sc, inLoop) == Some(IntTy) && TypeOf(f, sc, inLoop) == ty then ty else None
    case WhileExp(c, body) =>
      if TypeOf(c, sc, inLoop) == Some(IntTy) && TypeOf(body, sc, true) == Some(VoidTy) then Some(VoidTy) else None
    case ForExp(i, lo, hi, body) =>
      if lo.IntExp? && TypeOf(hi, sc, inLoop) == Some(IntTy) && TypeOf(body, sc.Var(i, true), true) == Some(VoidTy)
      then Some(VoidTy) else None
    case BreakExp => if inLoop then Some(VoidTy) else None
    case CallExp(f, args) =>
      if f in sc.funs && sc.funs[f].arity == Length(args) && AllInt(args, sc, inLoop) then Some(sc.funs[f].result)
      else None
    case LetVar(x, init, body) =>
      if TypeOf(init, sc, inLoop) == Some(IntTy) then TypeOf(body, sc.Var(x, false), inLoop) else None
    case LetFuns(ds, body) =>
      if ChunkOk(ds, sc.Chunk(ds)) then TypeOf(body, sc.Chunk(ds), inLoop) else None
  }

  function TypeOfSeq(es: Exps, sc: Scope, inLoop: bool): Option<Ty> {
    match es
    case NoExp => Some(VoidTy)
    case Cons(e, NoExp) => TypeOf(e, sc, inLoop)
    case Cons(e, rest) => if TypeOf(e, sc, inLoop).Some? then TypeOfSeq(rest, sc, inLoop) else None
  }

  predicate AllInt(es: Exps, sc: Scope, inLoop: bool) {
    match es
    case NoExp => true
    case Cons(e, rest) => TypeOf(e, sc, inLoop) == Some(IntTy) && AllInt(rest, sc, inLoop)
  }

  /** Every body has its declared result type.  Breaks do not cross a function boundary. */
  predicate ChunkOk(ds: Funs, sc: Scope) {
    match ds
    case NoFun => true
    case FunCons(d, rest) =>
      (d.Function? ==> TypeOf(d.body, sc.Formals(d.formals), false) == Some(d.result)) && ChunkOk(rest, sc)
  }

  /** No declaration in `e` reuses a name of `vars` or of an enclosing declaration: each name
      stands for one declaration, as the pointers of a bound tree do. */
  predicate Unique(e: Exp, vars: set<Sym>) {
    match e
    case IntExp(_) => true
    case VarExp(_) => true
    case OpExp(l, _, r) => Unique(l, vars) && Unique(r, vars)
    case SeqExp(es) => UniqueAll(es, vars)
    case AssignExp(_, e1) => Unique(e1, vars)
    case IfExp(c, t, f) => Unique(c, vars) && Unique(t, vars) && Unique(f, vars)
    case WhileExp(c, body) => Unique(c, vars) && Unique(body, vars)
    case ForExp(i, lo, hi, body) => i !in vars && Unique(lo, vars) && Unique(hi, vars) && Unique(body, vars + {i})
    case BreakExp => true
    case CallExp(_, args) => UniqueAll(args, vars)
    case LetVar(x, init, body) => x !in vars && Unique(init, vars + {x}) && Unique(body, vars + {x})
    case LetFuns(ds, body) => UniqueFuns(ds, vars) && Unique(body, vars)
  }

  predicate UniqueAll(es: Exps, vars: set<Sym>) {
    match es
    case NoExp => true
    case Cons(e, rest) => Unique(e, vars) && UniqueAll(rest, vars)
  }

  predicate UniqueFuns(ds: Funs, vars: set<Sym>) {
    match ds
    case NoFun => true
    case FunCons(d, rest) =>
      (d.Function? ==> UniqueFormals(d.formals, vars) && Unique(d.body, vars + Names(d.formals)))
      && UniqueFuns(rest, vars)
  }

  predicate UniqueFormals(xs: seq<Sym>, vars: set<Sym>) {
    xs == [] || (xs[0] !in vars && UniqueFormals(xs[1..], vars + {xs[0]}))
  }

  function Names(xs: seq<Sym>): set<Sym> { set x | x in xs }

  /** The scope an environment gives. */
  function ScopeOf(env: Env): Scope {
    match env
    case Top => Scope(map[], map[])
    case BindVar(x, _, ro, outer) => ScopeOf(outer).Var(x, ro)
    case BindFuns(ds, outer) => ScopeOf(outer).Chunk(ds)
  }
}
