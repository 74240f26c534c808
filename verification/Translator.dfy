/** The translator as it works: a visitor that moves an insertion point through a module under
    construction (src/llvmtranslate/translator.cc). */
module TranslatorVisitor {
  import opened Int32
  import opened Options
  import opened Tiger
  import opened Cfg
  import opened Translate
  import opened Programs
  import opened Lifting
  import opened Codegen

  /** An `llvm::Function` being filled, with its row of `locals_`. */
  datatype Unit = Unit(blocks: seq<Block>, regs: nat, locals: map<Sym, Operand>)

  type Units = map<Sym, Unit>

  ghost function BodyNames(ds: seq<FunDec>): set<Sym> { set d | d in ds && d.Function? :: d.name }

  /** `u1` has, besides what `u0` has, the code of the functions of `ds`; of the old functions only
      `open` may have changed. */
  ghost predicate Adds(u0: Units, u1: Units, ds: seq<FunDec>, open: Sym, cx: Context) {
    && u1.Keys == u0.Keys + BodyNames(ds)
    && (forall f :: f in u0 && f != open ==> u1[f] == u0[f])
    && (forall d :: d in ds && d.Function? ==> u1[d.name].blocks == CompileFunction(d, cx))
  }

  ghost predicate SameBut(u0: Units, u1: Units, open: Sym) {
    u1.Keys == u0.Keys && forall f :: f in u0 && f != open ==> u1[f] == u0[f]
  }

  /** Work in the open function, after or before, does not matter. */
  lemma AddsStep(u0: Units, u1: Units, u2: Units, ds: seq<FunDec>, open: Sym, cx: Context)
    requires Adds(u0, u1, ds, open, cx) && SameBut(u1, u2, open) && NewNames(ds, u0.Keys) && open in u0
    ensures Adds(u0, u2, ds, open, cx)
  {}

  lemma AddsAfter(u0: Units, u1: Units, u2: Units, ds: seq<FunDec>, open: Sym, cx: Context)
    requires SameBut(u0, u1, open) && Adds(u1, u2, ds, open, cx)
    ensures Adds(u0, u2, ds, open, cx)
  {}

  lemma SameButNew(u0: Units, u1: Units, ds: seq<FunDec>, open: Sym)
    requires SameBut(u0, u1, open) && NewNames(ds, u0.Keys)
    ensures NewNames(ds, u1.Keys)
  {}

  lemma AddsBoth(u0: Units, u1: Units, u2: Units, a: seq<FunDec>, b: seq<FunDec>, open: Sym, cx: Context)
    requires Adds(u0, u1, a, open, cx) && Adds(u1, u2, b, open, cx) && open in u0 && NewNames(a + b, u0.Keys)
    ensures Adds(u0, u2, a + b, open, cx)
  {
    NewNamesParts(a, b, u0.Keys);
    forall d | d in a + b && d.Function? ensures u2[d.name].blocks == CompileFunction(d, cx) {
      if d in a { assert d.name in BodyNames(a); }
    }
  }

  /** The names of `b` are still new once the functions of `a` are there. */
  lemma StillNew(u0: Units, u1: Units, a: seq<FunDec>, b: seq<FunDec>, open: Sym, cx: Context)
    requires Adds(u0, u1, a, open, cx) && NewNames(a + b, u0.Keys)
    ensures NewNames(a, u0.Keys) && NewNames(b, u1.Keys)
  {
    NewNamesParts(a, b, u0.Keys);
  }

  lemma StillNewThree(u: Units, a: seq<FunDec>, b: seq<FunDec>, c: seq<FunDec>)
    requires NewNames(a + b + c, u.Keys)
    ensures NewNames(a + b, u.Keys) && NewNames(a, u.Keys) && NewNames(b, u.Keys)
  {
    NewNamesParts(a + b, c, u.Keys);
    NewNamesParts(a, b, u.Keys);
  }

  /** What the header of a function creates. */
  function Header(d: FunDec, cx: Context): Unit { Unit([], |cx.Of(d.name).lifted| + |d.formals|, map[]) }

  function WithHeads(u: Units, ds: Funs, cx: Context): Units
    decreases ds
  {
    match ds
    case NoFun => u
    case FunCons(d, rest) => WithHeads(if d.Function? then u[d.name := Header(d, cx)] else u, rest, cx)
  }

  /** `u1` has the code of the functions of `ds`; all others are as in `u0`. */
  ghost predicate Filled(u0: Units, u1: Units, ds: seq<FunDec>, cx: Context) {
    && u1.Keys == u0.Keys + BodyNames(ds)
    && (forall f :: f in u0 && f !in BodyNames(ds) ==> u1[f] == u0[f])
    && (forall d :: d in ds && d.Function? ==> u1[d.name].blocks == CompileFunction(d, cx))
  }

  lemma FilledAdds(u0: Units, u1: Units, ds: seq<FunDec>, open: Sym, cx: Context)
    requires Filled(u0, u1, ds, cx) && NewNames(ds, u0.Keys)
    ensures Adds(u0, u1, ds, open, cx) && (open in u0 ==> open in u1 && u1[open] == u0[open])
  {}

  /** The headers of `ds` are there and the functions inside its bodies are not. */
  ghost predicate Headed(ds: Funs, u: Units, cx: Context) {
    match ds
    case NoFun => true
    case FunCons(d, rest) =>
      && (d.Function? ==> d.name in u && u[d.name] == Header(d, cx))
      && NewNames(BodyDecs(d), u.Keys) && Headed(rest, u, cx)
  }

  ghost function HeadNames(ds: Funs): set<Sym> {
    match ds
    case NoFun => {}
    case FunCons(d, rest) => (if d.Function? then {d.name} else {}) + HeadNames(rest)
  }

  lemma {:induction false} WithHeadsKeeps(u: Units, ds: Funs, cx: Context)
    ensures var r := WithHeads(u, ds, cx);
      r.Keys == u.Keys + HeadNames(ds) && forall f :: f in u && f !in HeadNames(ds) ==> r[f] == u[f]
    decreases ds
  {
    if ds.FunCons? {
      var d := ds.first;
      WithHeadsKeeps(if d.Function? then u[d.name := Header(d, cx)] else u, ds.rest, cx);
    }
  }

  lemma {:induction false} HeadsNamed(ds: Funs, f: Sym)
    requires f in HeadNames(ds)
    ensures exists d :: d in DecsOf(ds) && d.Function? && d.name == f
  {
    if ds.first.Function? && ds.first.name == f {
      assert ds.first in DecsOf(ds);
    } else {
      HeadsNamed(ds.rest, f);
      var d :| d in DecsOf(ds.rest) && d.Function? && d.name == f;
      assert d in DecsOf(ds);
    }
  }

  lemma {:induction false} HeadsReady(u: Units, ds: Funs, cx: Context)
    requires NewNames(DecsOf(ds), u.Keys)
    ensures Headed(ds, WithHeads(u, ds, cx), cx) && Distinct(DecsOf(ds))
    decreases ds
  {
    if ds.FunCons? {
      var d := ds.first;
      var own, u1 := [d] + BodyDecs(d), if d.Function? then u[d.name := Header(d, cx)] else u;
      NewNamesParts(own, DecsOf(ds.rest), u.Keys);
      NewNamesParts([d], BodyDecs(d), u.Keys);
      assert d in own && d in [d];
      HeadsReady(u1, ds.rest, cx);
      WithHeadsKeeps(u1, ds.rest, cx);
      forall f | f in HeadNames(ds.rest) ensures f != d.name && forall e :: e in BodyDecs(d) ==> e.name != f {
        HeadsNamed(ds.rest, f);
        var e2 :| e2 in DecsOf(ds.rest) && e2.name == f;
        forall e | e in BodyDecs(d) ensures e.name != f { assert e in own; }
      }
    }
  }

  lemma DistinctParts(a: seq<FunDec>, b: seq<FunDec>)
    requires Distinct(a + b)
    ensures Distinct(a) && Distinct(b) && forall d, e :: d in a && e in b ==> d.name != e.name
  {
    assert NewNames(a + b, {});
    NewNamesParts(a, b, {});
  }

  /** The headers of the rest of a chunk stay as they are while other functions are filled. */
  lemma {:induction false} HeadedKept(ds: Funs, u0: Units, u1: Units, own: seq<FunDec>, cx: Context)
    requires Headed(ds, u0, cx) && Filled(u0, u1, own, cx) && forall d, e :: d in own && e in DecsOf(ds) ==> d.name != e.name
    ensures Headed(ds, u1, cx)
  {
    if ds.FunCons? {
      var d := ds.first;
      assert d in DecsOf(ds);
      forall e | e in BodyDecs(d) ensures e in DecsOf(ds) {}
      forall e | e in DecsOf(ds.rest) ensures e in DecsOf(ds) {}
      HeadedKept(ds.rest, u0, u1, own, cx);
    }
  }

  lemma BodyNamesBoth(a: seq<FunDec>, b: seq<FunDec>)
    ensures BodyNames(a + b) == BodyNames(a) + BodyNames(b)
  {}

  lemma FilledBoth(u0: Units, u1: Units, u2: Units, a: seq<FunDec>, b: seq<FunDec>, cx: Context)
    requires Filled(u0, u1, a, cx) && Filled(u1, u2, b, cx) && forall d, e :: d in a && e in b ==> d.name != e.name
    ensures Filled(u0, u2, a + b, cx)
  {
    hide CompileFunction;
    BodyNamesBoth(a, b);
    forall d | d in a && d.Function? ensures d.name in u2 && u2[d.name].blocks == CompileFunction(d, cx) {
      assert d.name in BodyNames(a) && d.name !in BodyNames(b);
    }
    forall d | d in b && d.Function? ensures d.name in u2 && u2[d.name].blocks == CompileFunction(d, cx) {
      assert d.name in BodyNames(b);
    }
    assert forall d :: d in a + b <==> d in a || d in b;
  }

  /** Headers first made no difference to what a chunk leaves. */
  lemma FilledFrom(u0: Units, u1: Units, u2: Units, ds: Funs, cx: Context)
    requires u1.Keys == u0.Keys + HeadNames(ds) && (forall f :: f in u0 && f !in HeadNames(ds) ==> u1[f] == u0[f])
    requires Filled(u1, u2, DecsOf(ds), cx)
    ensures Filled(u0, u2, DecsOf(ds), cx)
  {
    hide CompileFunction, DecsOf;
    forall f | f in HeadNames(ds) ensures f in BodyNames(DecsOf(ds)) { HeadsNamed(ds, f); }
  }

  /** Filling a function: its own code is complete, and so are the functions inside it. */
  lemma FilledBody(u0: Units, u1: Units, u2: Units, u3: Units, d: FunDec, cx: Context)
    requires d.Function? && d.name in u0 && NewNames(DecsIn(d.body), u0.Keys)
    requires SameBut(u0, u1, d.name) && Adds(u1, u2, DecsIn(d.body), d.name, cx) && SameBut(u2, u3, d.name)
    requires u3[d.name].blocks == CompileFunction(d, cx)
    ensures Filled(u0, u3, [d] + DecsIn(d.body), cx)
  {
    hide CompileFunction;
    assert BodyNames([d] + DecsIn(d.body)) == {d.name} + BodyNames(DecsIn(d.body));
  }

  lemma {:induction false} GeneratedCodes(ds: seq<FunDec>, cx: Context)
    requires Distinct(ds)
    ensures Generate(ds, cx).Keys == BodyNames(ds)
    ensures forall d :: d in ds && d.Function? ==> Generate(ds, cx)[d.name] == CompileFunction(d, cx)
    decreases |ds|
  {
    if ds != [] {
      assert ds == [ds[0]] + ds[1..];
      DistinctParts([ds[0]], ds[1..]);
      GeneratedCodes(ds[1..], cx);
    }
  }

  lemma FilledIsGenerated(u: Units, ds: seq<FunDec>, cx: Context)
    requires Filled(map[], u, ds, cx) && Distinct(ds)
    ensures (map f | f in u :: u[f].blocks) == Generate(ds, cx)
  {
    GeneratedCodes(ds, cx);
  }

  /** The builders an `if` goes through, step by step. */
  lemma CompiledIf(test: Exp, thn: Exp, els: Exp, b: Builder, cx: Context)
    requires b.Valid()
    ensures var i := CompileIf(test, thn, els, b, cx);
      var c := Compile(test, b, cx);
      var n := |c.b.blocks|;
      var t := Compile(thn, CompileTest(c.v, n, n + 1, c.b.Create(3)).(at := n), cx);
      var f := Compile(els, t.b.Emit(Br(n + 2)).(at := n + 1), cx);
      i.thn == t && i.els == f && i.merge == f.b.Emit(Br(n + 2)).(at := n + 2)
  {
    hide Compile;
  }

  lemma IfValue(test: Exp, thn: Exp, els: Exp, b: Builder, cx: Context)
    requires b.Valid()
    ensures var i := CompileIf(test, thn, els, b, cx);
      var m := i.merge;
      Compile(IfExp(test, thn, els), b, cx) == if TyOf(thn, cx) == VoidTy then Gen(m, i.els.v)
                                               else Gen(m.Assign(Phi(m.regs, i.thn.v, i.thn.b.at, i.els.v, i.els.b.at)), Reg(m.regs))
  {
    hide CompileIf;
  }

  /** The builders a `while` goes through, step by step. */
  lemma CompiledWhile(test: Exp, body: Exp, b: Builder, cx: Context)
    requires b.Valid()
    ensures var w := CompileWhile(test, body, b, cx);
      var n := |b.blocks|;
      var c := Compile(test, b.Create(3).Emit(Br(n)).(at := n), cx);
      var d := Compile(body, CompileTest(c.v, n + 1, n + 2, c.b).(at := n + 1, loopEnd := Some(n + 2)), cx);
      w.body == d && w.after == d.b.Emit(Br(n)).(at := n + 2, loopEnd := b.loopEnd)
  {
    hide Compile;
  }

  lemma WhileValue(test: Exp, body: Exp, b: Builder, cx: Context)
    requires b.Valid()
    ensures var w := CompileWhile(test, body, b, cx); Compile(WhileExp(test, body), b, cx) == Gen(w.after, w.body.v)
  {
    hide CompileWhile;
  }

  lemma LetVarCode(x: Sym, init: Exp, body: Exp, b: Builder, cx: Context)
    requires b.Valid()
    ensures var a := b.Assign(Alloca(b.regs)).(locals := b.locals[x := Reg(b.regs)]);
      var v := Compile(init, a, cx);
      a.Valid() && v.b.Valid()
      && Compile(LetVar(x, init, body), b, cx) == Compile(body, v.b.Emit(Cfg.Store(v.v, if cx.pointerFirst then Reg(b.regs) else v.v)), cx)
  {}

  class Translator {
    const cx: Context
    var units: Units
    var current: Sym
    var insert: nat
    var loopEnd: Option<nat>
    var value: Operand

    constructor (cx: Context)
      ensures this.cx == cx && units == map[]
    {
      this.cx := cx;
      this.units := map[];
      this.current := Sym("");
      this.insert := 0;
      this.loopEnd := None;
      this.value := Null;
    }

    predicate Valid() reads this { current in units && insert < |units[current].blocks| }

    /** The state of the builder in the current function. */
    function Here(): (b: Builder)
      requires Valid()
      reads this
      ensures b.Valid()
    {
      var u := units[current];
      Builder(u.blocks, insert, u.regs, u.locals, loopEnd)
    }

    /** Nothing but the current function has changed. */
    twostate predicate Inside()
      requires old(Valid())
      reads this
    {
      Valid() && current == old(current) && SameBut(old(units), units, current)
    }

    /** Appends an instruction where the builder stands. */
    method Emit(i: Instr)
      requires Valid()
      modifies this
      ensures Inside() && Here() == old(Here()).Emit(i) && value == old(value)
    {
      var u := units[current];
      units := units[current := u.(blocks := u.blocks[insert := u.blocks[insert] + [i]])];
    }

    /** A register for the next instruction. */
    method Fresh() returns (r: nat)
      requires Valid()
      modifies this
      ensures Inside() && r == old(Here()).regs && value == old(value)
      ensures Here() == old(Here()).(regs := r + 1)
    {
      var u := units[current];
      r := u.regs;
      units := units[current := u.(regs := r + 1)];
    }

    method CreateBlocks(n: nat) returns (first: nat)
      requires Valid()
      modifies this
      ensures Inside() && first == |old(Here()).blocks| && Here() == old(Here()).Create(n) && value == old(value)
    {
      var u := units[current];
      first := |u.blocks|;
      units := units[current := u.(blocks := u.blocks + seq(n, i => []))];
    }

    method SetLocal(x: Sym, p: Operand)
      requires Valid()
      modifies this
      ensures Inside() && Here() == old(Here()).(locals := old(Here()).locals[x := p]) && value == old(value)
    {
      var u := units[current];
      units := units[current := u.(locals := u.locals[x := p])];
    }

    /** The pointer held for a variable in the current function. */
    function Local(x: Sym): Operand
      requires Valid()
      reads this
    {
      if x in units[current].locals then units[current].locals[x] else Null
    }

    method Translate(e: Exp)
      requires Valid() && NoFor(e) && NewNames(DecsIn(e), units.Keys)
      modifies this
      ensures Valid() && current == old(current) && value == Compile(e, old(Here()), cx).v
      ensures Here() == Compile(e, old(Here()), cx).b && Adds(old(units), units, DecsIn(e), current, cx)
      decreases e, 2
    {
      match e
      case IntExp(n) => value := Const(n);
      case VarExp(x) => TranslateVar(x);
      case OpExp(l, op, r) => TranslateOp(l, op, r);
      case SeqExp(es) => TranslateSeq(es);
      case AssignExp(x, e1) => TranslateAssign(x, e1);
      case IfExp(c, t, f) => TranslateIf(c, t, f);
      case WhileExp(c, body) => TranslateWhile(c, body);
      case BreakExp => TranslateBreak();
      case CallExp(f, args) => TranslateCall(f, args);
      case LetVar(x, init, body) => TranslateLetVar(x, init, body);
      case LetFuns(ds, body) => TranslateLetFuns(ds, body);
    }

    method TranslateVar(x: Sym)
      requires Valid()
      modifies this
      ensures Inside() && Here() == Compile(VarExp(x), old(Here()), cx).b && value == Compile(VarExp(x), old(Here()), cx).v
    {
      var p := Local(x);
      var r := Fresh();
      Emit(Load(r, p));
      value := Reg(r);
    }

    method TranslateOper(op: Oper, l: Operand, r: Operand)
      requires Valid()
      modifies this
      ensures Inside() && Here() == CompileOper(op, l, r, old(Here())).b && value == CompileOper(op, l, r, old(Here())).v
    {
      var dst := Fresh();
      match op
      case Arithmetic(a) =>
        Emit(Binary(dst, a, l, r));
        value := Reg(dst);
      case Comparison(c) =>
        Emit(ICmp(dst, c, l, r));
        Extend(dst);
    }

    /** Widens the outcome of a comparison to an integer. */
    method Extend(flag: nat)
      requires Valid()
      modifies this
      ensures Inside() && Here() == old(Here()).Assign(ZExt(old(Here()).regs, Reg(flag))) && value == Reg(old(Here()).regs)
    {
      var dst := Fresh();
      Emit(ZExt(dst, Reg(flag)));
      value := Reg(dst);
    }

    /** Compares the value with zero. */
    method CompareValue() returns (cond: nat)
      requires Valid()
      modifies this
      ensures Inside() && cond == old(Here()).regs && Here() == old(Here()).Assign(ICmp(cond, Ne, old(value), Const(0)))
    {
      cond := Fresh();
      Emit(ICmp(cond, Ne, value, Const(0)));
    }

    method TranslateOp(l: Exp, op: Oper, r: Exp)
      requires Valid() && NoFor(l) && NoFor(r) && NewNames(DecsIn(l) + DecsIn(r), units.Keys)
      modifies this
      ensures Valid() && current == old(current) && value == Compile(OpExp(l, op, r), old(Here()), cx).v
      ensures Here() == Compile(OpExp(l, op, r), old(Here()), cx).b && Adds(old(units), units, DecsIn(l) + DecsIn(r), current, cx)
      decreases OpExp(l, op, r), 0
    {
      hide Adds, SameBut, NewNames, CompileOper;
      ghost var u0, dl, dr := units, DecsIn(l), DecsIn(r);
      NewNamesParts(dl, dr, u0.Keys);
      Translate(l);
      var left := value;
      ghost var u1 := units;
      StillNew(u0, u1, dl, dr, current, cx);
      Translate(r);
      ghost var u2 := units;
      AddsBoth(u0, u1, u2, dl, dr, current, cx);
      TranslateOper(op, left, value);
      AddsStep(u0, u2, units, dl + dr, current, cx);
    }

    /** The default visit of a sequence, noting the values the parts leave. */
    method TranslateAll(es: Exps) returns (values: seq<Operand>)
      requires Valid() && NoForAll(es) && NewNames(DecsInAll(es), units.Keys)
      modifies this
      ensures Valid() && current == old(current) && values == CompileArgs(es, old(Here()), cx).v
      ensures value == (if values == [] then old(value) else values[|values| - 1])
      ensures Here() == CompileArgs(es, old(Here()), cx).b && Adds(old(units), units, DecsInAll(es), current, cx)
      decreases es, 1
    {
      values := [];
      if es.Cons? {
        NewNamesParts(DecsIn(es.head), DecsInAll(es.tail), units.Keys);
        Translate(es.head);
        var first := value;
        ghost var u1 := units;
        StillNew(old(units), u1, DecsIn(es.head), DecsInAll(es.tail), current, cx);
        var rest := TranslateAll(es.tail);
        AddsBoth(old(units), u1, units, DecsIn(es.head), DecsInAll(es.tail), current, cx);
        values := [first] + rest;
      }
    }

    method TranslateSeq(es: Exps)
      requires Valid() && NoForAll(es) && NewNames(DecsInAll(es), units.Keys)
      modifies this
      ensures Valid() && current == old(current) && value == Compile(SeqExp(es), old(Here()), cx).v
      ensures Here() == Compile(SeqExp(es), old(Here()), cx).b && Adds(old(units), units, DecsInAll(es), current, cx)
      decreases SeqExp(es), 0
    {
      if es == NoExp {
        value := Const(0);
      } else {
        var values := TranslateAll(es);
      }
    }

    method TranslateAssign(x: Sym, e: Exp)
      requires Valid() && NoFor(e) && NewNames(DecsIn(e), units.Keys)
      modifies this
      ensures Valid() && current == old(current) && value == Compile(AssignExp(x, e), old(Here()), cx).v
      ensures Here() == Compile(AssignExp(x, e), old(Here()), cx).b && Adds(old(units), units, DecsIn(e), current, cx)
      decreases AssignExp(x, e), 0
    {
      hide Adds, NewNames;
      ghost var u0 := units;
      Translate(e);
      ghost var u1 := units;
      Emit(Cfg.Store(value, Local(x)));
      AddsStep(u0, u1, units, DecsIn(e), current, cx);
      value := Const(0);
    }

    /** `ifcond`: compares the value with zero, makes the three blocks of an `if`, branches to the
        first two and goes on in the first. */
    method BranchToClauses() returns (thenBlock: nat)
      requires Valid()
      modifies this
      ensures Inside() && thenBlock == |old(Here()).blocks|
      ensures Here() == CompileTest(old(value), thenBlock, thenBlock + 1, old(Here()).Create(3)).InsertAt(thenBlock)
      ensures |Here().blocks| == thenBlock + 3
    {
      ghost var b := Here();
      var cond := CompareValue();
      thenBlock := CreateBlocks(3);
      Emit(CondBr(Reg(cond), thenBlock, thenBlock + 1));
      insert := thenBlock;
      assert Here().blocks == CompileTest(old(value), thenBlock, thenBlock + 1, b.Create(3)).blocks;
    }

    /** Ends the block with a jump and goes on in another. */
    method JumpThenInsertAt(dest: nat, next: nat)
      requires Valid() && next < |units[current].blocks|
      modifies this
      ensures Inside() && Here() == old(Here()).Emit(Br(dest)).InsertAt(next) && value == old(value)
    {
      Emit(Br(dest));
      insert := next;
    }

    method TranslateIf(test: Exp, thn: Exp, els: Exp)
      requires Valid() && NoFor(test) && NoFor(thn) && NoFor(els)
      requires NewNames(DecsIn(test) + DecsIn(thn) + DecsIn(els), units.Keys)
      modifies this
      ensures Valid() && current == old(current) && value == Compile(IfExp(test, thn, els), old(Here()), cx).v
      ensures Here() == Compile(IfExp(test, thn, els), old(Here()), cx).b
      ensures Adds(old(units), units, DecsIn(test) + DecsIn(thn) + DecsIn(els), current, cx)
      decreases IfExp(test, thn, els), 1
    {
      hide Adds, SameBut, NewNames, CompileTest, Compile, CompileIf, DecsIn, NoFor, TyOf;
      ghost var u0, dt, dn, de := units, DecsIn(test), DecsIn(thn), DecsIn(els);
      CompiledIf(test, thn, els, Here(), cx);
      IfValue(test, thn, els, Here(), cx);
      StillNewThree(u0, dt, dn, de);
      Translate(test);
      ghost var u1 := units;
      var thenBlock := BranchToClauses();
      ghost var u2 := units;
      AddsStep(u0, u1, u2, dt, current, cx);
      assert dt + dn + de == dt + (dn + de);
      StillNew(u0, u2, dt, dn + de, current, cx);
      var thenValue, thenEnd, elseEnd := TranslateClauses(thn, els, thenBlock, IfExp(test, thn, els));
      ghost var u3 := units;
      AddsBoth(u0, u2, u3, dt, dn + de, current, cx);
      if TyOf(thn, cx) != VoidTy {
        MergeValues(thenValue, thenEnd, value, elseEnd);
        AddsStep(u0, u3, units, dt + dn + de, current, cx);
      }
    }

    /** The clauses of an `if` whose blocks start at `thenBlock`; each ends by jumping to the third. */
    method TranslateClauses(thn: Exp, els: Exp, thenBlock: nat, ghost whole: Exp) returns (thenValue: Operand, thenEnd: nat, elseEnd: nat)
      requires Valid() && NoFor(thn) && NoFor(els) && NewNames(DecsIn(thn) + DecsIn(els), units.Keys)
      requires thenBlock + 3 <= |units[current].blocks| && thn < whole && els < whole
      modifies this
      ensures Valid() && current == old(current) && Adds(old(units), units, DecsIn(thn) + DecsIn(els), current, cx)
      ensures var t := Compile(thn, old(Here()), cx);
        var f := Compile(els, t.b.Emit(Br(thenBlock + 2)).(at := thenBlock + 1), cx);
        && Here() == f.b.Emit(Br(thenBlock + 2)).(at := thenBlock + 2)
        && thenValue == t.v && thenEnd == t.b.at && value == f.v && elseEnd == f.b.at
      decreases whole, 0
    {
      hide Adds, SameBut, NewNames, Compile;
      ghost var u0, dn, de := units, DecsIn(thn), DecsIn(els);
      NewNamesParts(dn, de, u0.Keys);
      Translate(thn);
      thenValue, thenEnd := value, insert;
      ghost var u1 := units;
      JumpThenInsertAt(thenBlock + 2, thenBlock + 1);
      ghost var u2 := units;
      AddsStep(u0, u1, u2, dn, current, cx);
      StillNew(u0, u2, dn, de, current, cx);
      Translate(els);
      elseEnd := insert;
      ghost var u3 := units;
      AddsBoth(u0, u2, u3, dn, de, current, cx);
      JumpThenInsertAt(thenBlock + 2, thenBlock + 2);
      AddsStep(u0, u3, units, dn + de, current, cx);
    }

    method MergeValues(value1: Operand, from1: nat, value2: Operand, from2: nat)
      requires Valid()
      modifies this
      ensures Inside() && value == Reg(old(Here()).regs)
      ensures Here() == old(Here()).Assign(Phi(old(Here()).regs, value1, from1, value2, from2))
    {
      var r := Fresh();
      Emit(Phi(r, value1, from1, value2, from2));
      value := Reg(r);
    }

    /** Makes the three blocks of a loop, falls through to the first and goes on there. */
    method EnterLoop() returns (testBlock: nat)
      requires Valid()
      modifies this
      ensures Inside() && testBlock == |old(Here()).blocks|
      ensures Here() == old(Here()).Create(3).Emit(Br(testBlock)).InsertAt(testBlock) && |Here().blocks| == testBlock + 3
    {
      testBlock := CreateBlocks(3);
      Emit(Br(testBlock));
      insert := testBlock;
    }

    /** `loopcond`: enters the body, where `break` means the block after the loop, or leaves. */
    method BranchToBody(bodyBlock: nat, afterBlock: nat)
      requires Valid() && bodyBlock < |units[current].blocks|
      modifies this
      ensures Inside()
      ensures Here() == CompileTest(old(value), bodyBlock, afterBlock, old(Here())).InsertAt(bodyBlock).(loopEnd := Some(afterBlock))
      ensures |Here().blocks| == |old(Here()).blocks|
    {
      var cond := CompareValue();
      Emit(CondBr(Reg(cond), bodyBlock, afterBlock));
      insert := bodyBlock;
      loopEnd := Some(afterBlock);
    }

    method TranslateWhile(test: Exp, body: Exp)
      requires Valid() && NoFor(test) && NoFor(body) && NewNames(DecsIn(test) + DecsIn(body), units.Keys)
      modifies this
      ensures Valid() && current == old(current) && value == Compile(WhileExp(test, body), old(Here()), cx).v
      ensures Here() == Compile(WhileExp(test, body), old(Here()), cx).b
      ensures Adds(old(units), units, DecsIn(test) + DecsIn(body), current, cx)
      decreases WhileExp(test, body), 0
    {
      hide Adds, SameBut, NewNames, CompileTest, Compile, CompileWhile;
      ghost var u0, dt, db := units, DecsIn(test), DecsIn(body);
      CompiledWhile(test, body, Here(), cx);
      WhileValue(test, body, Here(), cx);
      NewNamesParts(dt, db, u0.Keys);
      var enclosing := loopEnd;
      var testBlock := TranslateTest(test);
      ghost var u1 := units;
      StillNew(u0, u1, dt, db, current, cx);
      Translate(body);
      ghost var u2 := units;
      AddsBoth(u0, u1, u2, dt, db, current, cx);
      JumpThenInsertAt(testBlock, testBlock + 2);
      loopEnd := enclosing;
      AddsStep(u0, u2, units, dt + db, current, cx);
    }

    /** From the jump into the loop to the start of its body. */
    method TranslateTest(test: Exp) returns (testBlock: nat)
      requires Valid() && NoFor(test) && NewNames(DecsIn(test), units.Keys)
      modifies this
      ensures Valid() && current == old(current) && testBlock == |old(Here()).blocks| && testBlock + 3 <= |Here().blocks|
      ensures var c := Compile(test, old(Here()).Create(3).Emit(Br(testBlock)).InsertAt(testBlock), cx);
        Here() == CompileTest(c.v, testBlock + 1, testBlock + 2, c.b).InsertAt(testBlock + 1).(loopEnd := Some(testBlock + 2))
      ensures Adds(old(units), units, DecsIn(test), current, cx)
      decreases test, 3
    {
      hide Adds, SameBut, NewNames, CompileTest, Compile;
      ghost var u0, dt := units, DecsIn(test);
      testBlock := EnterLoop();
      ghost var u1, b := units, Here();
      SameButNew(u0, u1, dt, current);
      Translate(test);
      ghost var u2 := units;
      BranchToBody(testBlock + 1, testBlock + 2);
      AddsStep(u1, u2, units, dt, current, cx);
      AddsAfter(u0, u1, units, dt, current, cx);
    }


    method TranslateBreak()
      requires Valid()
      modifies this
      ensures Inside() && Here() == Compile(BreakExp, old(Here()), cx).b && value == Const(0)
    {
      Emit(Br(if loopEnd.Some? then loopEnd.value else 0));
      value := Const(0);
    }

    /** The pointers handed to a callee, read off the current function's row of `locals_`. */
    method Pointers(lifted: seq<Sym>) returns (pointers: seq<Operand>)
      requires Valid()
      ensures |pointers| == |lifted| && forall k :: 0 <= k < |lifted| ==> pointers[k] == Here().Local(lifted[k])
    {
      pointers := [];
      for i := 0 to |lifted|
        invariant |pointers| == i && forall k :: 0 <= k < i ==> pointers[k] == Here().Local(lifted[k])
      {
        pointers := pointers + [Local(lifted[i])];
      }
    }

    method EmitCall(target: Target, result: Ty, args: seq<Operand>) returns (r: nat)
      requires Valid()
      modifies this
      ensures Inside() && r == old(Here()).regs && Here() == old(Here()).Assign(Call(r, target, result, args))
    {
      r := Fresh();
      Emit(Call(r, target, result, args));
    }

    method TranslateCall(f: Sym, args: Exps)
      requires Valid() && NoForAll(args) && NewNames(DecsInAll(args), units.Keys)
      modifies this
      ensures Valid() && current == old(current) && value == Compile(CallExp(f, args), old(Here()), cx).v
      ensures Here() == Compile(CallExp(f, args), old(Here()), cx).b && Adds(old(units), units, DecsInAll(args), current, cx)
      decreases CallExp(f, args), 0
    {
      hide Adds, SameBut, NewNames;
      var info := cx.Of(f);
      var pointers := Pointers(info.lifted);
      ghost var u0, b := units, Here();
      assert pointers == seq(|info.lifted|, i requires 0 <= i < |info.lifted| => b.Local(info.lifted[i]));
      var values := TranslateAll(args);
      ghost var u1 := units;
      var r := EmitCall(if info.primitive then External(f) else Defined(f), info.result, pointers + values);
      value := if info.result == VoidTy then Const(0) else Reg(r);
      AddsStep(u0, u1, units, DecsInAll(args), current, cx);
    }

    /** A cell for a variable; `value` is left pointing to it. */
    method Declare(x: Sym)
      requires Valid()
      modifies this
      ensures Inside() && value == Reg(old(Here()).regs)
      ensures var b := old(Here()); Here() == b.Assign(Alloca(b.regs)).(locals := b.locals[x := Reg(b.regs)])
    {
      var r := Fresh();
      Emit(Alloca(r));
      value := Reg(r);
      SetLocal(x, value);
    }

    method TranslateLetVar(x: Sym, init: Exp, body: Exp)
      requires Valid() && NoFor(init) && NoFor(body) && NewNames(DecsIn(init) + DecsIn(body), units.Keys)
      modifies this
      ensures Valid() && current == old(current) && value == Compile(LetVar(x, init, body), old(Here()), cx).v
      ensures Here() == Compile(LetVar(x, init, body), old(Here()), cx).b
      ensures Adds(old(units), units, DecsIn(init) + DecsIn(body), current, cx)
      decreases LetVar(x, init, body), 0
    {
      hide Adds, SameBut, NewNames, Compile;
      LetVarCode(x, init, body, Here(), cx);
      ghost var u0, di, db := units, DecsIn(init), DecsIn(body);
      Declare(x);
      var first := value;
      ghost var u1 := units;
      SameButNew(u0, u1, di + db, current);
      NewNamesParts(di, db, u1.Keys);
      Translate(init);
      ghost var u2 := units;
      Emit(Cfg.Store(value, if cx.pointerFirst then first else value));
      ghost var u3 := units;
      AddsStep(u1, u2, u3, di, current, cx);
      StillNew(u1, u3, di, db, current, cx);
      Translate(body);
      AddsBoth(u1, u3, units, di, db, current, cx);
      AddsAfter(u0, u1, units, di + db, current, cx);
    }

    method TranslateLetFuns(ds: Funs, body: Exp)
      requires Valid() && NoForFuns(ds) && NoFor(body) && NewNames(DecsOf(ds) + DecsIn(body), units.Keys)
      modifies this
      ensures Valid() && current == old(current) && value == Compile(LetFuns(ds, body), old(Here()), cx).v
      ensures Here() == Compile(LetFuns(ds, body), old(Here()), cx).b
      ensures Adds(old(units), units, DecsOf(ds) + DecsIn(body), current, cx)
      decreases LetFuns(ds, body), 0
    {
      hide NewNames, Adds, SameBut, Filled;
      ghost var u0 := units;
      NewNamesParts(DecsOf(ds), DecsIn(body), units.Keys);
      TranslateChunk(ds);
      ghost var u1 := units;
      FilledAdds(u0, u1, DecsOf(ds), current, cx);
      StillNew(u0, u1, DecsOf(ds), DecsIn(body), current, cx);
      Translate(body);
      AddsBoth(u0, u1, units, DecsOf(ds), DecsIn(body), current, cx);
    }

    /** Function headers, then function bodies. */
    method TranslateChunk(ds: Funs)
      requires NoForFuns(ds) && NewNames(DecsOf(ds), units.Keys)
      modifies this
      ensures current == old(current) && insert == old(insert) && loopEnd == old(loopEnd)
      ensures Filled(old(units), units, DecsOf(ds), cx)
      decreases ds, 1
    {
      ghost var u0 := units;
      var rest := ds;
      while rest.FunCons?
        invariant WithHeads(units, rest, cx) == WithHeads(u0, ds, cx)
        invariant current == old(current) && insert == old(insert) && loopEnd == old(loopEnd)
        decreases rest
      {
        if rest.first.Function? { units := units[rest.first.name := Header(rest.first, cx)]; }
        rest := rest.rest;
      }
      HeadsReady(u0, ds, cx);
      ghost var u1 := units;
      TranslateBodies(ds);
      WithHeadsKeeps(u0, ds, cx);
      FilledFrom(u0, u1, units, ds, cx);
    }

    method TranslateBodies(ds: Funs)
      requires NoForFuns(ds) && Distinct(DecsOf(ds)) && Headed(ds, units, cx)
      modifies this
      ensures current == old(current) && insert == old(insert) && loopEnd == old(loopEnd)
      ensures Filled(old(units), units, DecsOf(ds), cx)
      decreases ds, 0
    {
      if ds.FunCons? {
        var d := ds.first;
        ghost var u0, own := units, [d] + BodyDecs(d);
        DistinctParts(own, DecsOf(ds.rest));
        if d.Function? { TranslateBody(d); }
        ghost var u1 := units;
        HeadedKept(ds.rest, u0, u1, own, cx);
        TranslateBodies(ds.rest);
        FilledBoth(u0, u1, units, own, DecsOf(ds.rest), cx);
      }
    }

    /** Translates the body of a function whose header has been visited, and comes back. */
    method TranslateBody(d: FunDec)
      requires d.Function? && NoFor(d.body) && d.name in units && units[d.name] == Header(d, cx) && NewNames(DecsIn(d.body), units.Keys)
      modifies this
      ensures current == old(current) && insert == old(insert) && loopEnd == old(loopEnd)
      ensures Filled(old(units), units, [d] + DecsIn(d.body), cx)
      decreases d
    {
      hide Adds, SameBut, Filled, NewNames, Compile, CompileFormals;
      ghost var u0 := units;
      var oldInsert, oldFunction, oldLoop := insert, current, loopEnd;
      OpenFunction(d);
      ghost var u1 := units;
      SameButNew(u0, u1, DecsIn(d.body), d.name);
      Translate(d.body);
      ghost var u2 := units;
      Emit(if d.result == VoidTy then RetVoid else Ret(value));
      FilledBody(u0, u1, u2, units, d, cx);
      current, insert, loopEnd := oldFunction, oldInsert, oldLoop;
    }

    /** The entry block of a function, with its parameters bound. */
    method OpenFunction(d: FunDec)
      requires d.Function? && d.name in units && units[d.name] == Header(d, cx)
      modifies this
      ensures Valid() && current == d.name && SameBut(old(units), units, d.name)
      ensures Here() == CompileFormals(d.formals, |cx.Of(d.name).lifted|, EntryBuilder(d, cx.Of(d.name).lifted))
    {
      current := d.name;
      units := units[d.name := units[d.name].(blocks := [[]])];
      insert, loopEnd := 0, None;
      BindParameters(d);
    }

    /** Pointers to lifted variables come first; each formal gets a cell of its own. */
    method BindParameters(d: FunDec)
      requires Valid() && current == d.name && insert == 0 && loopEnd == None && units[d.name] == Header(d, cx).(blocks := [[]])
      modifies this
      ensures Inside() && loopEnd == None
      ensures Here() == CompileFormals(d.formals, |cx.Of(d.name).lifted|, EntryBuilder(d, cx.Of(d.name).lifted))
    {
      hide CompileFormals;
      var lifted := cx.Of(d.name).lifted;
      BindLifted(lifted);
      assert Here() == EntryBuilder(d, lifted);
      BindFormals(d.formals, |lifted|);
    }

    method BindLifted(lifted: seq<Sym>)
      requires Valid()
      modifies this
      ensures Inside() && loopEnd == old(loopEnd) && Here() == old(Here()).(locals := LiftedLocals(lifted, 0, old(Here()).locals))
    {
      ghost var b := Here();
      for i := 0 to |lifted|
        invariant Inside() && loopEnd == old(loopEnd) && Here() == b.(locals := Here().locals)
        invariant LiftedLocals(lifted[i..], i, Here().locals) == LiftedLocals(lifted, 0, b.locals)
      {
        assert lifted[i..][1..] == lifted[i + 1..];
        SetLocal(lifted[i], Reg(i));
      }
    }

    method BindFormals(formals: seq<Sym>, first: nat)
      requires Valid()
      modifies this
      ensures Inside() && loopEnd == old(loopEnd) && Here() == CompileFormals(formals, first, old(Here()))
    {
      ghost var b := Here();
      for i := 0 to |formals|
        invariant Inside() && loopEnd == old(loopEnd)
        invariant CompileFormals(formals[i..], first + i, Here()) == CompileFormals(formals, first, b)
      {
        assert formals[i..][1..] == formals[i + 1..];
        BindFormal(formals[i], first + i);
      }
    }

    method BindFormal(x: Sym, arg: nat)
      requires Valid()
      modifies this
      ensures Inside() && loopEnd == old(loopEnd)
      ensures var b := old(Here());
        Here() == b.Assign(Alloca(b.regs)).(locals := b.locals[x := Reg(b.regs)]).Emit(Cfg.Store(Reg(arg), Reg(b.regs)))
    {
      Declare(x);
      Emit(Cfg.Store(Reg(arg), value));
    }

    /** The prelude's chunk, then `_main`'s: the module holds exactly the code of the program. */
    method TranslateProgram(p: Program)
      requires units == map[] && NoForFuns(p.prims) && NoForFuns(p.Chunk()) && Distinct(p.Decs())
      modifies this
      ensures (map f | f in units :: units[f].blocks) == Generate(p.Decs(), cx)
    {
      ghost var ps, ms := DecsOf(p.prims), DecsOf(p.Chunk());
      DistinctParts(ps, ms);
      TranslateChunk(p.prims);
      ghost var u1 := units;
      assert NewNames(ms, u1.Keys);
      TranslateChunk(FunCons(p.main, NoFun));
      FilledBoth(map[], u1, units, ps, ms, cx);
      FilledIsGenerated(units, p.Decs(), cx);
    }
  }
}
