/** Code generation (src/llvmtranslate/translator.cc). */
module Translate {
  import opened Int32
  import opened Options
  import opened Tiger
  import opened Cfg

  /** What the annotated tree tells the translator of each function: whether it has a body, its
      result type, and the variables lifted into leading pointer parameters, in set order. */
  datatype Info = Info(primitive: bool, result: Ty, lifted: seq<Sym>)

  /** `pointerFirst`: whether the C++ compiler evaluates the second argument of
      `CreateStore(translate(init), value_)` before the first.  `translate` overwrites `value_`. */
  datatype Context = Context(table: map<Sym, Info>, pointerFirst: bool)
  {
    function Of(f: Sym): Info { if f in table then table[f] else Info(true, VoidTy, []) }
  }

  /** The builder at work on one function: the blocks created so far, the block it inserts in,
      the next free register, `locals_` and the `afterloop` block of the enclosing loop. */
  datatype Builder = Builder(blocks: seq<Block>, at: nat, regs: nat, locals: map<Sym, Operand>, loopEnd: Option<nat>)
  {
    ghost predicate Valid() { at < |blocks| }

    function Emit(i: Instr): Builder
      requires Valid()
    {
      this.(blocks := blocks[at := blocks[at] + [i]])
    }

    function Assign(i: Instr): Builder
      requires Valid()
    {
      Emit(i).(regs := regs + 1)
    }

    /** Creates `n` empty blocks; their numbers start at the old block count. */
    function Create(n: nat): Builder {
      this.(blocks := blocks + seq(n, i => []))
    }

    function InsertAt(b: nat): Builder { this.(at := b) }

    function Local(x: Sym): Operand { if x in locals then locals[x] else Null }
  }

  /** The type the checker leaves on an expression whose variables are all integers. */
  function TyOf(e: Exp, cx: Context): Ty {
    match e
    case IntExp(_) => IntTy
    case VarExp(_) => IntTy
    case OpExp(_, _, _) => IntTy
    case SeqExp(es) => LastTy(es, cx)
    case AssignExp(_, _) => VoidTy
    case IfExp(_, thn, _) => TyOf(thn, cx)
    case WhileExp(_, _) => VoidTy
    case ForExp(_, _, _, _) => VoidTy
    case BreakExp => VoidTy
    case CallExp(f, _) => cx.Of(f).result
    case LetVar(_, _, body) => TyOf(body, cx)
    case LetFuns(_, body) => TyOf(body, cx)
  }

  function LastTy(es: Exps, cx: Context): Ty {
    match es
    case NoExp => VoidTy
    case Cons(e, NoExp) => TyOf(e, cx)
    case Cons(_, rest) => LastTy(rest, cx)
  }

  /** Generated code and the operand holding its value (`value_`). */
  datatype Gen<T> = Gen(b: Builder, v: T)

  /** The builders an `if` goes through. */
  datatype IfCode = IfCode(test: Gen<Operand>, atThen: Builder, thn: Gen<Operand>, atElse: Builder,
                           els: Gen<Operand>, merge: Builder)

  /** The builders a `while` goes through. */
  datatype WhileCode = WhileCode(atTest: Builder, test: Gen<Operand>, atBody: Builder, body: Gen<Operand>, after: Builder)

  function CompileOper(op: Oper, l: Operand, r: Operand, b: Builder): (g: Gen<Operand>)
    requires b.Valid()
    ensures g.b.Valid()
  {
    match op
    case Arithmetic(a) => Gen(b.Assign(Binary(b.regs, a, l, r)), Reg(b.regs))
    case Comparison(c) =>
      Gen(b.Assign(ICmp(b.regs, c, l, r)).Assign(ZExt(b.regs + 1, Reg(b.regs))), Reg(b.regs + 1))
  }

  /** The test of an `if` or `while`: compares `v` with zero and branches. */
  function CompileTest(v: Operand, yes: nat, no: nat, b: Builder): (r: Builder)
    requires b.Valid()
    ensures r.Valid()
  {
    b.Assign(ICmp(b.regs, Ne, v, Const(0))).Emit(CondBr(Reg(b.regs), yes, no))
  }

  function Compile(e: Exp, b: Builder, cx: Context): (g: Gen<Operand>)
    requires b.Valid()
    ensures g.b.Valid() && |g.b.blocks| >= |b.blocks| && g.b.loopEnd == b.loopEnd
    decreases e, 1
  {
    match e
    case IntExp(n) => Gen(b, Const(n))
    case VarExp(x) => Gen(b.Assign(Load(b.regs, b.Local(x))), Reg(b.regs))
    case OpExp(left, op, right) =>
      var l := Compile(left, b, cx);
      var r := Compile(right, l.b, cx);
      CompileOper(op, l.v, r.v, r.b)
    case SeqExp(es) =>
      var vs := CompileArgs(es, b, cx);
      Gen(vs.b, if vs.v == [] then Const(0) else vs.v[|vs.v| - 1])
    case AssignExp(x, e1) =>
      var v := Compile(e1, b, cx);
      Gen(v.b.Emit(Store(v.v, v.b.Local(x))), Const(0))
    case IfExp(test, thn, els) =>
      var c := CompileIf(test, thn, els, b, cx);
      if TyOf(thn, cx) == VoidTy then Gen(c.merge, c.els.v)
      else Gen(c.merge.Assign(Phi(c.merge.regs, c.thn.v, c.thn.b.at, c.els.v, c.els.b.at)), Reg(c.merge.regs))
    case WhileExp(test, body) =>
      var c := CompileWhile(test, body, b, cx);
      Gen(c.after, c.body.v)
    case ForExp(_, _, _, _) => Gen(b, Null)
    case BreakExp =>
      Gen(b.Emit(Br(if b.loopEnd.Some? then b.loopEnd.value else 0)), Const(0))
    case CallExp(f, args) =>
      var info := cx.Of(f);
      var pointers := seq(|info.lifted|, i requires 0 <= i < |info.lifted| => b.Local(info.lifted[i]));
      var vs := CompileArgs(args, b, cx);
      var target := if info.primitive then External(f) else Defined(f);
      var call := vs.b.Assign(Call(vs.b.regs, target, info.result, pointers + vs.v));
      Gen(call, if info.result == VoidTy then Const(0) else Reg(vs.b.regs))
    case LetVar(x, init, body) =>
      var a := b.Assign(Alloca(b.regs)).(locals := b.locals[x := Reg(b.regs)]);
      var v := Compile(init, a, cx);
      Compile(body, v.b.Emit(Store(v.v, if cx.pointerFirst then Reg(b.regs) else v.v)), cx)
    case LetFuns(_, body) => Compile(body, b, cx)
  }

  /** Both clauses jump to the merge block from the block each of them ended in. */
  function CompileIf(test: Exp, thn: Exp, els: Exp, b: Builder, cx: Context): (r: IfCode)
    requires b.Valid()
    ensures r.test.b.Valid() && r.atThen.Valid() && r.thn.b.Valid() && r.atElse.Valid() && r.els.b.Valid()
    ensures r.merge.Valid() && |r.merge.blocks| >= |b.blocks| && r.merge.loopEnd == b.loopEnd
    decreases IfExp(test, thn, els), 0
  {
    var c := Compile(test, b, cx);
    var n := |c.b.blocks|;
    var atThen := CompileTest(c.v, n, n + 1, c.b.Create(3)).InsertAt(n);
    var t := Compile(thn, atThen, cx);
    var atElse := t.b.Emit(Br(n + 2)).InsertAt(n + 1);
    var f := Compile(els, atElse, cx);
    IfCode(c, atThen, t, atElse, f, f.b.Emit(Br(n + 2)).InsertAt(n + 2))
  }

  /** `break` in the body goes to the third block; in the test it still means the outer loop. */
  function CompileWhile(test: Exp, body: Exp, b: Builder, cx: Context): (r: WhileCode)
    requires b.Valid()
    ensures r.atTest.Valid() && r.test.b.Valid() && r.atBody.Valid() && r.body.b.Valid()
    ensures r.after.Valid() && |r.after.blocks| >= |b.blocks| && r.after.loopEnd == b.loopEnd
    decreases WhileExp(test, body), 0
  {
    var n := |b.blocks|;
    var atTest := b.Create(3).Emit(Br(n)).InsertAt(n);
    var c := Compile(test, atTest, cx);
    var atBody := CompileTest(c.v, n + 1, n + 2, c.b).InsertAt(n + 1).(loopEnd := Some(n + 2));
    var d := Compile(body, atBody, cx);
    WhileCode(atTest, c, atBody, d, d.b.Emit(Br(n)).InsertAt(n + 2).(loopEnd := b.loopEnd))
  }

  function CompileArgs(es: Exps, b: Builder, cx: Context): (g: Gen<seq<Operand>>)
    requires b.Valid()
    ensures g.b.Valid() && |g.b.blocks| >= |b.blocks| && g.b.loopEnd == b.loopEnd
    ensures |g.v| == Length(es)
    decreases es, 1
  {
    match es
    case NoExp => Gen(b, [])
    case Cons(e, rest) =>
      var v := Compile(e, b, cx);
      var vs := CompileArgs(rest, v.b, cx);
      Gen(vs.b, [v.v] + vs.v)
  }

  /** Lifted parameters are the first arguments, in the order of the set. */
  function LiftedLocals(lifted: seq<Sym>, first: nat, locals: map<Sym, Operand>): map<Sym, Operand> {
    if lifted == [] then locals
    else LiftedLocals(lifted[1..], first + 1, locals[lifted[0] := Reg(first)])
  }

  /** Each formal gets a cell holding the argument that follows the lifted ones. */
  function CompileFormals(formals: seq<Sym>, arg: nat, b: Builder): (r: Builder)
    requires b.Valid()
    ensures r.Valid() && r.at == b.at && |r.blocks| == |b.blocks| && r.loopEnd == b.loopEnd
  {
    if formals == [] then b else
    var a := b.Assign(Alloca(b.regs));
    CompileFormals(formals[1..], arg + 1,
      a.(locals := a.locals[formals[0] := Reg(b.regs)]).Emit(Store(Reg(arg), Reg(b.regs))))
  }

  /** The entry block of `d`, before any code: arguments are in the first registers. */
  function EntryBuilder(d: FunDec, lifted: seq<Sym>): (r: Builder)
    ensures r.Valid()
  {
    Builder([[]], 0, |lifted| + |d.formals|, LiftedLocals(lifted, 0, map[]), None)
  }

  function CompileFunction(d: FunDec, cx: Context): Code
    requires d.Function?
  {
    var lifted := cx.Of(d.name).lifted;
    var g := Compile(d.body, CompileFormals(d.formals, |lifted|, EntryBuilder(d, lifted)), cx);
    g.b.Emit(if d.result == VoidTy then RetVoid else Ret(g.v)).blocks
  }
}
