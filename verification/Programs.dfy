/** Whole programs and their meaning. */
module Programs {
  import opened Int32
  import opened Tiger

  /** The prelude's primitives, and `_main` around the program text. */
  datatype Program = Program(prims: Funs, main: FunDec)
  {
    function Chunk(): Funs { FunCons(main, NoFun) }

    function Env(): Env { BindFuns(Chunk(), BindFuns(prims, Top)) }

    function Callee(): Callee { Tiger.Callee(main, Env()) }

    /** Every declaration of the program. */
    function Decs(): seq<FunDec> { DecsOf(prims) + DecsOf(Chunk()) }
  }

  function DecsIn(e: Exp): seq<FunDec> {
    match e
    case IntExp(_) => []
    case VarExp(_) => []
    case OpExp(l, _, r) => DecsIn(l) + DecsIn(r)
    case SeqExp(es) => DecsInAll(es)
    case AssignExp(_, e1) => DecsIn(e1)
    case IfExp(c, t, f) => DecsIn(c) + DecsIn(t) + DecsIn(f)
    case WhileExp(c, body) => DecsIn(c) + DecsIn(body)
    case ForExp(_, lo, hi, body) => DecsIn(lo) + DecsIn(hi) + DecsIn(body)
    case BreakExp => []
    case CallExp(_, args) => DecsInAll(args)
    case LetVar(_, init, body) => DecsIn(init) + DecsIn(body)
    case LetFuns(ds, body) => DecsOf(ds) + DecsIn(body)
  }

  function DecsInAll(es: Exps): seq<FunDec> {
    match es
    case NoExp => []
    case Cons(e, rest) => DecsIn(e) + DecsInAll(rest)
  }

  function DecsOf(ds: Funs): seq<FunDec> {
    match ds
    case NoFun => []
    case FunCons(d, rest) => [d] + (if d.Function? then DecsIn(d.body) else []) + DecsOf(rest)
  }

  predicate Distinct(ds: seq<FunDec>) {
    forall i, j :: 0 <= i < j < |ds| ==> ds[i].name != ds[j].name
  }

  predicate NoFor(e: Exp) {
    match e
    case IntExp(_) => true
    case VarExp(_) => true
    case OpExp(l, _, r) => NoFor(l) && NoFor(r)
    case SeqExp(es) => NoForAll(es)
    case AssignExp(_, e1) => NoFor(e1)
    case IfExp(c, t, f) => NoFor(c) && NoFor(t) && NoFor(f)
    case WhileExp(c, body) => NoFor(c) && NoFor(body)
    case ForExp(_, _, _, _) => false
    case BreakExp => true
    case CallExp(_, args) => NoForAll(args)
    case LetVar(_, init, body) => NoFor(init) && NoFor(body)
    case LetFuns(ds, body) => NoForFuns(ds) && NoFor(body)
  }

  predicate NoForAll(es: Exps) {
    match es
    case NoExp => true
    case Cons(e, rest) => NoFor(e) && NoForAll(rest)
  }

  predicate NoForFuns(ds: Funs) {
    match ds
    case NoFun => true
    case FunCons(d, rest) => (d.Function? ==> NoFor(d.body)) && NoForFuns(rest)
  }

  /** The meaning of a program started with `input` waiting: `_main` is called without arguments. */
  function Meaning(p: Program, input: seq<int32>, fuel: nat): Outcome<int32>
    requires p.main.Function?
  {
    EvalBody(p.Callee(), [], State([], input, []), fuel)
  }

  /** The program ends in `o`. */
  ghost predicate Ends(p: Program, input: seq<int32>, o: Outcome<int32>)
    requires p.main.Function?
  {
    exists fuel: nat :: Meaning(p, input, fuel) == o
  }

  ghost predicate Diverges(p: Program, input: seq<int32>)
    requires p.main.Function?
  {
    forall fuel: nat :: Meaning(p, input, fuel).Timeout?
  }
}
