/** An abstract LLVM: functions made of basic blocks, and the machine that runs them. */
module Cfg {
  import opened Int32
  import opened Tiger

  /** `Null` is the null `llvm::Value*` a failed table lookup yields. */
  datatype Operand = Const(n: int32) | Reg(r: nat) | Null

  /** An external function keeps its own name space: `tc_` plus the primitive's name. */
  datatype Target = Defined(name: Sym) | External(name: Sym)

  datatype Instr =
    | Alloca(dst: nat)
    | Load(dst: nat, ptr: Operand)
    | Store(val: Operand, ptr: Operand)
    | Binary(dst: nat, op: ArithOp, l: Operand, r: Operand)
    | ICmp(dst: nat, cmp: CmpOp, l: Operand, r: Operand)
    | ZExt(dst: nat, src: Operand)
    | Phi(dst: nat, val1: Operand, from1: nat, val2: Operand, from2: nat)
    | Call(dst: nat, target: Target, result: Ty, args: seq<Operand>)
    | Br(dest: nat)
    | CondBr(cond: Operand, yes: nat, no: nat)
    | Ret(val: Operand)
    | RetVoid

  type Block = seq<Instr>

  /** Block 0 is the entry.  Registers 0, 1, .. hold the arguments on entry. */
  type Code = seq<Block>

  type Module = map<Sym, Code>

  datatype MVal = I1(b: bool) | I32(n: int32) | Ptr(loc: nat) | Undef

  type Regs = map<nat, MVal>

  /** One activation: the function, the block it is in, the block it came from, the position in
      the block and the registers. */
  datatype Frame = Frame(fn: Sym, blk: nat, prev: nat, pc: nat, regs: Regs)

  /** Suspended callers; `dst` is the register the pending call assigns. */
  datatype Stack = Bottom | Caller(frame: Frame, dst: nat, result: Ty, below: Stack)

  datatype Config =
    | Running(frame: Frame, stack: Stack, st: State)
    | Halted(result: MVal, st: State)
    | Trapped(st: State)    // undefined behaviour: division
    | Crashed(st: State)    // malformed code

  function Value(o: Operand, regs: Regs): MVal {
    match o
    case Const(n) => I32(n)
    case Reg(r) => if r in regs then regs[r] else Undef
    case Null => Undef
  }

  function Values(os: seq<Operand>, regs: Regs): (vs: seq<MVal>)
    ensures |vs| == |os|
    ensures forall i :: 0 <= i < |os| ==> vs[i] == Value(os[i], regs)
  {
    seq(|os|, i requires 0 <= i < |os| => Value(os[i], regs))
  }

  predicate AllInts(vs: seq<MVal>) {
    forall i :: 0 <= i < |vs| ==> vs[i].I32?
  }

  function Ints(vs: seq<MVal>): (ns: seq<int32>)
    requires AllInts(vs)
    ensures |ns| == |vs|
    ensures forall i :: 0 <= i < |vs| ==> vs[i] == I32(ns[i])
  {
    seq<int32>(|vs|, i requires 0 <= i < |vs| => vs[i].n)
  }

  function Entry(f: Sym, args: seq<MVal>): Frame {
    Frame(f, 0, 0, 0, map i: nat | i < |args| :: args[i])
  }

  function Next(fr: Frame, dst: nat, v: MVal): Frame {
    fr.(pc := fr.pc + 1, regs := fr.regs[dst := v])
  }

  function Jump(fr: Frame, dest: nat): Frame {
    fr.(blk := dest, prev := fr.blk, pc := 0)
  }

  function Return(v: MVal, stack: Stack, st: State): Config {
    match stack
    case Bottom => Halted(v, st)
    case Caller(fr, dst, result, below) =>
      Running(if result == IntTy then Next(fr, dst, v) else fr.(pc := fr.pc + 1), below, st)
  }

  function Execute(i: Instr, fr: Frame, stack: Stack, st: State, m: Module): Config {
    match i
    case Alloca(dst) => Running(Next(fr, dst, Ptr(|st.mem|)), stack, st.Alloc(0))
    case Load(dst, ptr) =>
      var p := Value(ptr, fr.regs);
      if p.Ptr? && p.loc < |st.mem| then Running(Next(fr, dst, I32(st.mem[p.loc])), stack, st)
      else Crashed(st)
    case Store(val, ptr) =>
      var v, p := Value(val, fr.regs), Value(ptr, fr.regs);
      if v.I32? && p.Ptr? && p.loc < |st.mem| then Running(fr.(pc := fr.pc + 1), stack, st.Write(p.loc, v.n))
      else Crashed(st)
    case Binary(dst, op, l, r) =>
      var a, b := Value(l, fr.regs), Value(r, fr.regs);
      if a.I32? && b.I32? then
        (match Arith(op, a.n, b.n)
         case Computed(v) => Running(Next(fr, dst, I32(v)), stack, st)
         case Undefined => Trapped(st))
      else Crashed(st)
    case ICmp(dst, cmp, l, r) =>
      var a, b := Value(l, fr.regs), Value(r, fr.regs);
      if a.I32? && b.I32? then Running(Next(fr, dst, I1(Compare(cmp, a.n, b.n))), stack, st)
      else Crashed(st)
    case ZExt(dst, src) =>
      var a := Value(src, fr.regs);
      if a.I1? then Running(Next(fr, dst, I32(if a.b then 1 else 0)), stack, st) else Crashed(st)
    case Phi(dst, val1, from1, val2, from2) =>
      if fr.prev == from1 then Running(Next(fr, dst, Value(val1, fr.regs)), stack, st)
      else if fr.prev == from2 then Running(Next(fr, dst, Value(val2, fr.regs)), stack, st)
      else Crashed(st)
    case Call(dst, target, result, args) =>
      if Null in args then Crashed(st) else
      var vs := Values(args, fr.regs);
      (match target
       case Defined(f) => Running(Entry(f, vs), Caller(fr, dst, result, stack), st)
       case External(f) =>
         if AllInts(vs) then
           var fr1 := if result == IntTy then Next(fr, dst, I32(st.Answer(result))) else fr.(pc := fr.pc + 1);
           Running(fr1, stack, st.Primitive(f, Ints(vs), result))
         else Crashed(st))
    case Br(dest) => Running(Jump(fr, dest), stack, st)
    case CondBr(cond, yes, no) =>
      var c := Value(cond, fr.regs);
      if c.I1? then Running(Jump(fr, if c.b then yes else no), stack, st) else Crashed(st)
    case Ret(val) => Return(Value(val, fr.regs), stack, st)
    case RetVoid => Return(Undef, stack, st)
  }

  /** A block ends at the first terminator control reaches: what follows it never runs. */
  function Step(m: Module, c: Config): Config {
    if !c.Running? then c else
    var fr := c.frame;
    if fr.fn in m && fr.blk < |m[fr.fn]| && fr.pc < |m[fr.fn][fr.blk]| then
      Execute(m[fr.fn][fr.blk][fr.pc], fr, c.stack, c.st, m)
    else Crashed(c.st)
  }

  function Run(m: Module, c: Config, n: nat): Config
    decreases n
  {
    if n == 0 then c else Run(m, Step(m, c), n - 1)
  }

  lemma {:induction false} RunSplit(m: Module, c: Config, n: nat, k: nat)
    ensures Run(m, c, n + k) == Run(m, Run(m, c, n), k)
    decreases n
  {
    if n > 0 { RunSplit(m, Step(m, c), n - 1, k); }
  }

  /** A stopped machine stays as it is. */
  lemma {:induction false} RunStopped(m: Module, c: Config, n: nat)
    requires !c.Running?
    ensures Run(m, c, n) == c
    decreases n
  {
    if n > 0 { RunStopped(m, c, n - 1); }
  }

  /** Two runs from one configuration that both stop, stop in the same place. */
  lemma RunDeterministic(m: Module, c: Config, n: nat, k: nat)
    requires !Run(m, c, n).Running? && !Run(m, c, k).Running?
    ensures Run(m, c, n) == Run(m, c, k)
  {
    if n <= k {
      RunSplit(m, c, n, k - n);
      RunStopped(m, Run(m, c, n), k - n);
    } else {
      RunSplit(m, c, k, n - k);
      RunStopped(m, Run(m, c, k), n - k);
    }
  }
}
