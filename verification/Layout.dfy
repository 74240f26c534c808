/** How code generation grows a function: it appends to the block it inserts in, adds blocks and
    registers, and leaves everything else as it was. */
module Layout {
  import opened Int32
  import opened Options
  import opened Tiger
  import opened Cfg
  import opened Check
  import opened Translate

  ghost predicate Below(o: Operand, regs: nat) { o.Reg? ==> o.r < regs }

  /** `b2` is `b1` after more code: only the block `b1` inserted in was appended to. */
  ghost predicate Grows(b1: Builder, b2: Builder) {
    && b1.Valid() && b2.Valid()
    && b1.regs <= b2.regs && |b1.blocks| <= |b2.blocks|
    && b1.blocks[b1.at] <= b2.blocks[b1.at]
    && (forall i :: 0 <= i < |b1.blocks| && i != b1.at ==> b2.blocks[i] == b1.blocks[i])
    && (b2.at == b1.at || b2.at >= |b1.blocks|)
    && b1.locals.Keys <= b2.locals.Keys
  }

  lemma GrowsTransitive(b1: Builder, b2: Builder, b3: Builder)
    requires Grows(b1, b2) && Grows(b2, b3)
    ensures Grows(b1, b3)
  {
    if b2.at == b1.at {
      assert b1.blocks[b1.at] <= b2.blocks[b1.at] <= b3.blocks[b1.at];
    }
  }

  /** `code` starts, block by block, with what `b` has generated. */
  ghost predicate Extends(b: Builder, code: Code) {
    |b.blocks| <= |code| && forall i :: 0 <= i < |b.blocks| ==> b.blocks[i] <= code[i]
  }

  lemma ExtendsShorter(b1: Builder, b2: Builder, code: Code)
    requires Grows(b1, b2) && Extends(b2, code)
    ensures Extends(b1, code)
  {
    forall i | 0 <= i < |b1.blocks| ensures b1.blocks[i] <= code[i] {
      assert b1.blocks[i] <= b2.blocks[i] && b2.blocks[i] <= code[i];
    }
  }

  lemma EmitGrows(b: Builder, i: Instr)
    requires b.Valid()
    ensures Grows(b, b.Emit(i)) && Grows(b, b.Assign(i))
  {}

  /** Moving on to a block created after `b1`. */
  lemma MoveGrows(b1: Builder, b2: Builder, k: nat)
    requires Grows(b1, b2) && |b1.blocks| <= k < |b2.blocks|
    ensures Grows(b1, b2.InsertAt(k))
  {}

  lemma CreateGrows(b: Builder, n: nat)
    requires b.Valid()
    ensures Grows(b, b.Create(n))
    ensures |b.Create(n).blocks| == |b.blocks| + n
    ensures forall i :: |b.blocks| <= i < |b.blocks| + n ==> b.Create(n).blocks[i] == []
  {}

  /** Appending `i` and moving to block `k`. */
  lemma EmitMoveGrows(b1: Builder, b2: Builder, i: Instr, k: nat)
    requires Grows(b1, b2) && |b1.blocks| <= k < |b2.blocks|
    ensures Grows(b1, b2.Emit(i)) && Grows(b1, b2.Emit(i).InsertAt(k))
  {
    EmitGrows(b2, i);
    GrowsTransitive(b1, b2, b2.Emit(i));
    MoveGrows(b1, b2.Emit(i), k);
  }

  lemma TestGrows(v: Operand, yes: nat, no: nat, b: Builder)
    requires b.Valid()
    ensures Grows(b, CompileTest(v, yes, no, b))
    ensures |CompileTest(v, yes, no, b).blocks| == |b.blocks| && CompileTest(v, yes, no, b).locals == b.locals
    ensures CompileTest(v, yes, no, b).at == b.at
  {
    var b1 := b.Assign(ICmp(b.regs, Ne, v, Const(0)));
    EmitGrows(b, ICmp(b.regs, Ne, v, Const(0)));
    EmitGrows(b1, CondBr(Reg(b.regs), yes, no));
    GrowsTransitive(b, b1, b1.Emit(CondBr(Reg(b.regs), yes, no)));
  }

  lemma OperGrows(op: Oper, l: Operand, r: Operand, b: Builder)
    requires b.Valid()
    ensures Grows(b, CompileOper(op, l, r, b).b)
    ensures Below(CompileOper(op, l, r, b).v, CompileOper(op, l, r, b).b.regs)
    ensures CompileOper(op, l, r, b).b.locals == b.locals
  {
    if op.Comparison? {
      var b1 := b.Assign(ICmp(b.regs, op.cmp, l, r));
      EmitGrows(b, ICmp(b.regs, op.cmp, l, r));
      EmitGrows(b1, ZExt(b.regs + 1, Reg(b.regs)));
      GrowsTransitive(b, b1, b1.Assign(ZExt(b.regs + 1, Reg(b.regs))));
    }
  }

  ghost predicate CodeGrows(b: Builder, g: Gen<Operand>) { Grows(b, g.b) && Below(g.v, g.b.regs) }

  /** What compiling never does: remove code, reuse a register, forget a local. */
  lemma {:induction false} CompileGrows(e: Exp, b: Builder, cx: Context)
    requires b.Valid()
    ensures CodeGrows(b, Compile(e, b, cx))
    decreases e, 2
  {
    match e
    case IntExp(_) =>
    case VarExp(x) => EmitGrows(b, Load(b.regs, b.Local(x)));
    case OpExp(l, op, r) => OpGrows(l, op, r, b, cx);
    case SeqExp(es) => ArgsGrow(es, b, cx);
    case AssignExp(x, e1) =>
      CompileGrows(e1, b, cx);
      var g := Compile(e1, b, cx);
      EmitGrows(g.b, Store(g.v, g.b.Local(x)));
      GrowsTransitive(b, g.b, g.b.Emit(Store(g.v, g.b.Local(x))));
    case IfExp(test, thn, els) => IfPhiGrows(test, thn, els, b, cx);
    case WhileExp(test, body) => WhileGrows(test, body, b, cx);
    case ForExp(_, _, _, _) =>
    case BreakExp => EmitGrows(b, Br(if b.loopEnd.Some? then b.loopEnd.value else 0));
    case CallExp(f, args) => CallGrows(f, args, b, cx);
    case LetVar(x, init, body) => LetVarGrows(x, init, body, b, cx);
    case LetFuns(_, body) => CompileGrows(body, b, cx);
  }

  lemma {:induction false} OpGrows(l: Exp, op: Oper, r: Exp, b: Builder, cx: Context)
    requires b.Valid()
    ensures CodeGrows(b, Compile(OpExp(l, op, r), b, cx))
    decreases OpExp(l, op, r), 0
  {
    CompileGrows(l, b, cx);
    var g := Compile(l, b, cx);
    CompileGrows(r, g.b, cx);
    var h := Compile(r, g.b, cx);
    OperGrows(op, g.v, h.v, h.b);
    GrowsTransitive(b, g.b, h.b);
    GrowsTransitive(b, h.b, CompileOper(op, g.v, h.v, h.b).b);
  }

  lemma MergeGrows(b: Builder, c: IfCode)
    requires IfShape(b, c) && IfChain(c)
    ensures CodeGrows(b, Gen(c.merge, c.els.v))
    ensures CodeGrows(b, Gen(c.merge.Assign(Phi(c.merge.regs, c.thn.v, c.thn.b.at, c.els.v, c.els.b.at)), Reg(c.merge.regs)))
  {
    var phi := Phi(c.merge.regs, c.thn.v, c.thn.b.at, c.els.v, c.els.b.at);
    EmitGrows(c.merge, phi);
    GrowsTransitive(b, c.merge, c.merge.Assign(phi));
  }

  lemma {:induction false} IfPhiGrows(test: Exp, thn: Exp, els: Exp, b: Builder, cx: Context)
    requires b.Valid()
    ensures CodeGrows(b, Compile(IfExp(test, thn, els), b, cx))
    decreases IfExp(test, thn, els), 1
  {
    hide CompileIf, IfShape, IfChain, CodeGrows;
    IfGrows(test, thn, els, b, cx);
    MergeGrows(b, CompileIf(test, thn, els, b, cx));
  }

  lemma {:induction false} ArgsGrow(es: Exps, b: Builder, cx: Context)
    requires b.Valid()
    ensures Grows(b, CompileArgs(es, b, cx).b)
    ensures forall i :: 0 <= i < Length(es) ==> Below(CompileArgs(es, b, cx).v[i], CompileArgs(es, b, cx).b.regs)
    decreases es, 1
  {
    match es
    case NoExp =>
    case Cons(e, rest) =>
      CompileGrows(e, b, cx);
      var g := Compile(e, b, cx);
      ArgsGrow(rest, g.b, cx);
      GrowsTransitive(b, g.b, CompileArgs(rest, g.b, cx).b);
  }

  lemma {:induction false} CallGrows(f: Sym, args: Exps, b: Builder, cx: Context)
    requires b.Valid()
    ensures CodeGrows(b, Compile(CallExp(f, args), b, cx))
    decreases CallExp(f, args), 0
  {
    ArgsGrow(args, b, cx);
    var vs := CompileArgs(args, b, cx);
    var g := Compile(CallExp(f, args), b, cx);
    var call := g.b.blocks[vs.b.at][|vs.b.blocks[vs.b.at]|];
    EmitGrows(vs.b, call);
    assert g.b == vs.b.Assign(call);
    GrowsTransitive(b, vs.b, g.b);
  }

  lemma {:induction false} LetVarGrows(x: Sym, init: Exp, body: Exp, b: Builder, cx: Context)
    requires b.Valid()
    ensures CodeGrows(b, Compile(LetVar(x, init, body), b, cx))
    decreases LetVar(x, init, body), 0
  {
    var a := b.Assign(Alloca(b.regs)).(locals := b.locals[x := Reg(b.regs)]);
    EmitGrows(b, Alloca(b.regs));
    assert Grows(b, a);
    CompileGrows(init, a, cx);
    var v := Compile(init, a, cx);
    var store := Cfg.Store(v.v, if cx.pointerFirst then Reg(b.regs) else v.v);
    var s := v.b.Emit(store);
    EmitGrows(v.b, store);
    CompileGrows(body, s, cx);
    GrowsTransitive(b, a, v.b);
    GrowsTransitive(b, v.b, s);
    GrowsTransitive(b, s, Compile(body, s, cx).b);
  }

  ghost predicate IfShape(b: Builder, c: IfCode) {
    && CodeGrows(b, c.test) && CodeGrows(c.atThen, c.thn) && CodeGrows(c.atElse, c.els)
    && Grows(c.test.b, c.atThen) && Grows(c.test.b, c.atElse) && Grows(b, c.merge)
    && var n := |c.test.b.blocks|;
    && c.atThen.at == n && c.atElse.at == n + 1 && c.merge.at == n + 2
    && |c.atThen.blocks| == n + 3
    && c.atThen.blocks[n] == [] && c.atElse.blocks[n + 1] == [] && c.merge.blocks[n + 2] == []
    && c.thn.b.at != c.els.b.at
  }

  /** How the builders of an `if` follow one another. */
  ghost predicate IfChain(c: IfCode) {
    && c.test.b.Valid() && c.thn.b.Valid() && c.els.b.Valid()
    && var n := |c.test.b.blocks|;
    && c.atThen == CompileTest(c.test.v, n, n + 1, c.test.b.Create(3)).InsertAt(n)
    && c.atElse == c.thn.b.Emit(Br(n + 2)).InsertAt(n + 1)
    && c.merge == c.els.b.Emit(Br(n + 2)).InsertAt(n + 2)
  }

  /** Code that contains an `if` contains each of its parts. */
  lemma IfExtends(b: Builder, c: IfCode, code: Code)
    requires IfShape(b, c) && IfChain(c) && Extends(c.merge, code)
    ensures var n := |c.test.b.blocks|;
      && Extends(c.test.b, code) && Extends(CompileTest(c.test.v, n, n + 1, c.test.b.Create(3)), code)
      && Extends(c.thn.b.Emit(Br(n + 2)), code) && Extends(c.els.b.Emit(Br(n + 2)), code)
      && Extends(c.thn.b, code) && Extends(c.els.b, code)
  {
    var n := |c.test.b.blocks|;
    assert Extends(c.els.b.Emit(Br(n + 2)), code);
    JumpExtends(c.els.b, Br(n + 2), code);
    ExtendsShorter(c.atElse, c.els.b, code);
    assert Extends(c.thn.b.Emit(Br(n + 2)), code);
    JumpExtends(c.thn.b, Br(n + 2), code);
    ExtendsShorter(c.atThen, c.thn.b, code);
    ExtendsShorter(c.test.b, c.atThen, code);
  }

  lemma JumpExtends(b: Builder, i: Instr, code: Code)
    requires b.Valid() && Extends(b.Emit(i), code)
    ensures Extends(b, code)
  {
    EmitGrows(b, i);
    ExtendsShorter(b, b.Emit(i), code);
  }

  /** From the end of the test to the start of the then clause. */
  lemma ThenSteps(v: Operand, t: Builder)
    requires t.Valid()
    ensures var n := |t.blocks|;
      var r := CompileTest(v, n, n + 1, t.Create(3)).InsertAt(n);
      Grows(t, r) && |r.blocks| == n + 3 && r.blocks[n] == r.blocks[n + 1] == r.blocks[n + 2] == []
  {
    var n := |t.blocks|;
    CreateGrows(t, 3);
    TestGrows(v, n, n + 1, t.Create(3));
    GrowsTransitive(t, t.Create(3), CompileTest(v, n, n + 1, t.Create(3)));
    MoveGrows(t, CompileTest(v, n, n + 1, t.Create(3)), n);
  }

  /** A jump leaves a block that is neither the current one nor changed by `b1 .. b2` as it was. */
  lemma ElseSteps(t: Builder, b1: Builder, b2: Builder, i: Instr, k: nat)
    requires Grows(t, b1) && Grows(b1, b2)
    requires |t.blocks| <= k < |b1.blocks| && k != b1.at
    ensures Grows(t, b2.Emit(i).InsertAt(k)) && b2.Emit(i).blocks[k] == b1.blocks[k]
    ensures forall j :: 0 <= j < |b1.blocks| && j != b1.at ==> b2.Emit(i).blocks[j] == b1.blocks[j]
  {
    GrowsTransitive(t, b1, b2);
    EmitMoveGrows(t, b2, i, k);
  }

  lemma IfSteps(b: Builder, c: IfCode)
    requires IfChain(c) && CodeGrows(b, c.test) && CodeGrows(c.atThen, c.thn) && CodeGrows(c.atElse, c.els)
    ensures IfShape(b, c)
  {
    var t := c.test.b;
    var n := |t.blocks|;
    ThenSteps(c.test.v, t);
    ElseSteps(t, c.atThen, c.thn.b, Br(n + 2), n + 1);
    assert c.atElse.blocks[n + 2] == [];
    ElseSteps(t, c.atElse, c.els.b, Br(n + 2), n + 2);
    GrowsTransitive(b, t, c.merge);
  }

  lemma IfChained(test: Exp, thn: Exp, els: Exp, b: Builder, cx: Context)
    requires b.Valid()
    ensures IfChain(CompileIf(test, thn, els, b, cx))
  {
    hide CompileTest;
  }

  lemma {:induction false} IfGrows(test: Exp, thn: Exp, els: Exp, b: Builder, cx: Context)
    requires b.Valid()
    ensures IfShape(b, CompileIf(test, thn, els, b, cx)) && IfChain(CompileIf(test, thn, els, b, cx))
    decreases IfExp(test, thn, els), 0
  {
    hide IfShape, IfChain, CodeGrows;
    var c := CompileIf(test, thn, els, b, cx);
    CompileGrows(test, b, cx);
    CompileGrows(thn, c.atThen, cx);
    CompileGrows(els, c.atElse, cx);
    IfChained(test, thn, els, b, cx);
    IfSteps(b, c);
  }

  ghost predicate WhileShape(b: Builder, c: WhileCode) {
    && CodeGrows(c.atTest, c.test) && CodeGrows(c.atBody, c.body)
    && Grows(b, c.atTest) && Grows(b, c.after)
    && var n := |b.blocks|;
    && c.atTest.at == n && c.atBody.at == n + 1 && c.after.at == n + 2
    && c.atTest.blocks[n] == [] && c.atBody.blocks[n + 1] == [] && c.after.blocks[n + 2] == []
  }

  /** How the builders of a `while` follow one another. */
  ghost predicate WhileChain(b: Builder, c: WhileCode) {
    && b.Valid() && c.test.b.Valid() && c.body.b.Valid()
    && var n := |b.blocks|;
    && c.atTest == b.Create(3).Emit(Br(n)).InsertAt(n)
    && c.atBody == CompileTest(c.test.v, n + 1, n + 2, c.test.b).InsertAt(n + 1).(loopEnd := Some(n + 2))
    && c.after == c.body.b.Emit(Br(n)).InsertAt(n + 2).(loopEnd := b.loopEnd)
  }

  /** Code that contains a `while` contains each of its parts. */
  lemma WhileExtends(b: Builder, c: WhileCode, code: Code)
    requires WhileShape(b, c) && WhileChain(b, c) && Extends(c.after, code)
    ensures var n := |b.blocks|;
      && Extends(b.Create(3).Emit(Br(n)), code) && Extends(c.test.b, code)
      && Extends(CompileTest(c.test.v, n + 1, n + 2, c.test.b), code)
      && Extends(c.body.b.Emit(Br(n)), code) && Extends(c.body.b, code)
  {
    var n := |b.blocks|;
    assert Extends(c.body.b.Emit(Br(n)), code);
    JumpExtends(c.body.b, Br(n), code);
    ExtendsShorter(c.atBody, c.body.b, code);
    TestGrows(c.test.v, n + 1, n + 2, c.test.b);
    assert Extends(CompileTest(c.test.v, n + 1, n + 2, c.test.b), code);
    ExtendsShorter(c.test.b, CompileTest(c.test.v, n + 1, n + 2, c.test.b), code);
    ExtendsShorter(c.atTest, c.test.b, code);
  }

  lemma AtTestSteps(b: Builder)
    requires b.Valid()
    ensures var n := |b.blocks|;
      var r := b.Create(3).Emit(Br(n)).InsertAt(n);
      Grows(b, r) && |r.blocks| == n + 3 && r.blocks[n] == r.blocks[n + 1] == r.blocks[n + 2] == []
  {
    CreateGrows(b, 3);
    EmitMoveGrows(b, b.Create(3), Br(|b.blocks|), |b.blocks|);
  }

  /** From the end of the test, in block `n` or later, to the start of the body in block `n + 1`. */
  lemma AtBodySteps(b: Builder, atTest: Builder, v: Operand, t: Builder, n: nat)
    requires Grows(b, atTest) && Grows(atTest, t)
    requires n == |b.blocks| && atTest.at == n && |atTest.blocks| == n + 3
    requires atTest.blocks[n + 1] == atTest.blocks[n + 2] == []
    ensures var r := CompileTest(v, n + 1, n + 2, t).InsertAt(n + 1);
      Grows(b, r) && r.blocks[n + 1] == r.blocks[n + 2] == [] && |r.blocks| == |t.blocks|
  {
    TestGrows(v, n + 1, n + 2, t);
    GrowsTransitive(b, atTest, t);
    GrowsTransitive(b, t, CompileTest(v, n + 1, n + 2, t));
    MoveGrows(b, CompileTest(v, n + 1, n + 2, t), n + 1);
  }

  lemma WhileSteps(b: Builder, c: WhileCode)
    requires WhileChain(b, c) && CodeGrows(c.atTest, c.test) && CodeGrows(c.atBody, c.body)
    ensures WhileShape(b, c)
  {
    var n := |b.blocks|;
    AtTestSteps(b);
    AtBodySteps(b, c.atTest, c.test.v, c.test.b, n);
    assert Grows(b, c.atBody);
    ElseSteps(b, c.atBody, c.body.b, Br(n), n + 2);
  }

  lemma WhileChained(test: Exp, body: Exp, b: Builder, cx: Context)
    requires b.Valid()
    ensures WhileChain(b, CompileWhile(test, body, b, cx))
  {
    hide CompileTest;
  }

  lemma {:induction false} WhileGrows(test: Exp, body: Exp, b: Builder, cx: Context)
    requires b.Valid()
    ensures WhileShape(b, CompileWhile(test, body, b, cx)) && WhileChain(b, CompileWhile(test, body, b, cx))
    decreases WhileExp(test, body), 0
  {
    hide WhileShape, WhileChain, CodeGrows;
    var c := CompileWhile(test, body, b, cx);
    CompileGrows(test, c.atTest, cx);
    CompileGrows(body, c.atBody, cx);
    WhileChained(test, body, b, cx);
    WhileSteps(b, c);
  }
}
