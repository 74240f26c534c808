/** What is seen of a program: its primitive calls (src/llvmtranslate/translator.cc, src/llvmtranslate/tiger-runtime.c). */
module Primitives {
  import opened Int32
  import opened Options
  import opened Tiger

  /** A primitive call is seen with its name and its arguments, after what was seen before, and touches no
      variable. */
  lemma CallSeen(st: State, f: Sym, args: seq<int32>, ty: Ty, g: Sym, args2: seq<int32>, ty2: Ty)
    ensures st.Primitive(f, args, ty).trace == st.Primitive(g, args2, ty2).trace <==> f == g && args == args2
    ensures st.trace < st.Primitive(f, args, ty).trace && |st.Primitive(f, args, ty).trace| == |st.trace| + 1
    ensures st.Primitive(f, args, ty).mem == st.mem
  {
    var a, b := st.Primitive(f, args, ty).trace, st.Primitive(g, args2, ty2).trace;
    assert a[|st.trace|] == Event(f, args) && b[|st.trace|] == Event(g, args2);
  }

  /** After calls of the primitives `fs`, which return integers or nothing. */
  function After(st: State, fs: seq<(Sym, Ty)>): State {
    if fs == [] then st else After(st, fs[..|fs| - 1]).Primitive(fs[|fs| - 1].0, [], fs[|fs| - 1].1)
  }

  function Integers(fs: seq<(Sym, Ty)>): nat {
    if fs == [] then 0 else Integers(fs[..|fs| - 1]) + (if fs[|fs| - 1].1 == IntTy then 1 else 0)
  }

  /** The integers primitives return are those of the input, in order, and 0 after its end; primitives that
      return nothing read none. */
  lemma {:induction false} AnswersInOrder(st: State, fs: seq<(Sym, Ty)>)
    ensures After(st, fs).Answer(IntTy) == if Integers(fs) < |st.input| then st.input[Integers(fs)] else 0
    ensures After(st, fs).input == if Integers(fs) < |st.input| then st.input[Integers(fs)..] else []
    decreases |fs|
  {
    if fs != [] { AnswersInOrder(st, fs[..|fs| - 1]); }
  }

  // ----- the order of calls -----

  /** `f` is a primitive of `n` parameters in sight. */
  ghost predicate Prim(env: Env, f: Sym, n: nat) {
    var c := LookupFun(env, f); c.Some? && c.value.dec.Primitive? && |c.value.dec.formals| == n
  }

  function Calling(f: Sym): Exp { CallExp(f, NoExp) }

  lemma CallEval(f: Sym, env: Env, st: State, fuel: nat)
    requires Prim(env, f, 0)
    ensures var o := Eval(Calling(f), env, st, fuel); o.Val? && o.st.trace == st.trace + [Event(f, [])]
  {
    assert EvalArgs(NoExp, env, st, fuel) == Val([], st);
  }

  /** Operands are evaluated from left to right, and so are arguments, before the call. */
  lemma LeftToRight(f: Sym, g: Sym, h: Sym, op: CmpOp, env: Env, st: State, fuel: nat)
    requires Prim(env, f, 0) && Prim(env, g, 0) && Prim(env, h, 2)
    ensures Eval(OpExp(Calling(f), Comparison(op), Calling(g)), env, st, fuel).st.trace == st.trace + [Event(f, []), Event(g, [])]
    ensures var o := Eval(CallExp(h, Cons(Calling(f), Cons(Calling(g), NoExp))), env, st, fuel);
      o.Val? && exists m, n :: o.st.trace == st.trace + [Event(f, []), Event(g, []), Event(h, [m, n])]
  {
    CallEval(f, env, st, fuel);
    var a := Eval(Calling(f), env, st, fuel);
    CallEval(g, env, a.st, fuel);
    var b := Eval(Calling(g), env, a.st, fuel);
    assert b.st.trace == st.trace + [Event(f, []), Event(g, [])];
    assert EvalArgs(NoExp, env, b.st, fuel) == Val([], b.st);
    assert EvalArgs(Cons(Calling(g), NoExp), env, a.st, fuel) == Val([b.value], b.st) by { assert [b.value] + [] == [b.value]; }
    var vs := EvalArgs(Cons(Calling(f), Cons(Calling(g), NoExp)), env, st, fuel);
    assert vs == Val([a.value] + [b.value], b.st);
    assert [a.value] + [b.value] == [a.value, b.value];
    assert b.st.Primitive(h, [a.value, b.value], VoidTy).trace == st.trace + [Event(f, []), Event(g, []), Event(h, [a.value, b.value])];
  }

  // ----- the indices of a `for` -----

  function Indices(f: Sym, lo: int, hi: int32): seq<Event>
    requires INT_MIN <= lo <= INT_MAX + 1
    decreases hi - lo
  {
    if lo > hi then [] else [Event(f, [lo])] + Indices(f, lo + 1, hi)
  }

  function Showing(f: Sym, i: Sym): Exp { CallExp(f, Cons(VarExp(i), NoExp)) }

  /** `for i := lo to hi do f(i)` calls `f` with each integer from `lo` to `hi`, in order. */
  lemma ForIndices(f: Sym, i: Sym, lo: int32, hi: int32, env: Env, st: State, fuel: nat)
    requires Prim(env, f, 1) && fuel >= hi - lo + 1
    ensures var o := Eval(ForExp(i, IntExp(lo), IntExp(hi), Showing(f, i)), env, st, fuel);
      o.Val? && o.st.trace == st.trace + Indices(f, lo, hi)
  {
    var loc := |st.mem|;
    LoopIndices(f, i, lo, hi, BindVar(i, loc, true, env), loc, st.Alloc(lo), fuel);
  }

  lemma {:induction false} LoopIndices(f: Sym, i: Sym, k: int, hi: int32, env: Env, loc: nat, st: State, fuel: nat)
    requires INT_MIN <= k <= INT_MAX + 1 && Prim(env, f, 1) && LookupVar(env, i) == Some(loc) && loc < |st.mem| && fuel >= hi - k + 1
    ensures var o := EvalFor(Showing(f, i), env, loc, k, hi, st, fuel); o.Val? && o.st.trace == st.trace + Indices(f, k, hi)
    decreases fuel
  {
    if k <= hi {
      var s := st.Write(loc, k);
      var v: int32 := k;
      ShowEval(f, i, v, env, loc, s, fuel - 1);
      var b := Eval(Showing(f, i), env, s, fuel - 1);
      LoopIndices(f, i, k + 1, hi, env, loc, b.st, fuel - 1);
      assert st.trace + [Event(f, [v])] + Indices(f, k + 1, hi) == st.trace + ([Event(f, [v])] + Indices(f, k + 1, hi));
    }
  }

  lemma ShowEval(f: Sym, i: Sym, v: int32, env: Env, loc: nat, st: State, fuel: nat)
    requires Prim(env, f, 1) && LookupVar(env, i) == Some(loc) && loc < |st.mem| && st.mem[loc] == v
    ensures var o := Eval(Showing(f, i), env, st, fuel); o.Val? && o.st.trace == st.trace + [Event(f, [v])] && o.st.mem == st.mem
  {
    assert EvalArgs(NoExp, env, st, fuel) == Val([], st);
    assert EvalArgs(Cons(VarExp(i), NoExp), env, st, fuel) == Val([v], st) by { assert [v] + [] == [v]; }
  }
}
