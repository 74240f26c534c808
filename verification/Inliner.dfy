/** The inliner at work: it stops, leaves no expandable call, and keeps the meaning of programs. */
module Inliner {
  import opened Int32
  import opened Tiger
  import opened Check
  import opened Inline
  import opened CallGraph

  // ----- expansion stops -----

  /** No call stands in the arguments of another: the call graph misses none. */
  predicate NoCallsInArgs(e: Exp) {
    match e
    case IntExp(_) => true
    case VarExp(_) => true
    case OpExp(l, _, r) => NoCallsInArgs(l) && NoCallsInArgs(r)
    case SeqExp(es) => NoCallsInArgsAll(es)
    case AssignExp(_, e1) => NoCallsInArgs(e1)
    case IfExp(c, t, f) => NoCallsInArgs(c) && NoCallsInArgs(t) && NoCallsInArgs(f)
    case WhileExp(c, body) => NoCallsInArgs(c) && NoCallsInArgs(body)
    case ForExp(_, lo, hi, body) => NoCallsInArgs(lo) && NoCallsInArgs(hi) && NoCallsInArgs(body)
    case BreakExp => true
    case CallExp(_, args) => CalleesAll(args) == {}
    case LetVar(_, init, body) => NoCallsInArgs(init) && NoCallsInArgs(body)
    case LetFuns(ds, body) => NoCallsInArgsFuns(ds) && NoCallsInArgs(body)
  }

  predicate NoCallsInArgsAll(es: Exps) {
    match es
    case NoExp => true
    case Cons(e, rest) => NoCallsInArgs(e) && NoCallsInArgsAll(rest)
  }

  predicate NoCallsInArgsFuns(ds: Funs) {
    match ds
    case NoFun => true
    case FunCons(d, rest) => (d.Function? ==> NoCallsInArgs(d.body)) && NoCallsInArgsFuns(rest)
  }

  /** Every function in `e` can be reached through calls from the function it is declared in. */
  predicate NestedCalled(e: Exp, fn: Sym, closure: set<Edge>) {
    match e
    case IntExp(_) => true
    case VarExp(_) => true
    case OpExp(l, _, r) => NestedCalled(l, fn, closure) && NestedCalled(r, fn, closure)
    case SeqExp(es) => NestedCalledAll(es, fn, closure)
    case AssignExp(_, e1) => NestedCalled(e1, fn, closure)
    case IfExp(c, t, f) => NestedCalled(c, fn, closure) && NestedCalled(t, fn, closure) && NestedCalled(f, fn, closure)
    case WhileExp(c, body) => NestedCalled(c, fn, closure) && NestedCalled(body, fn, closure)
    case ForExp(_, lo, hi, body) => NestedCalled(lo, fn, closure) && NestedCalled(hi, fn, closure) && NestedCalled(body, fn, closure)
    case BreakExp => true
    case CallExp(_, args) => NestedCalledAll(args, fn, closure)
    case LetVar(_, init, body) => NestedCalled(init, fn, closure) && NestedCalled(body, fn, closure)
    case LetFuns(ds, body) => NestedCalledFuns(ds, fn, closure) && NestedCalled(body, fn, closure)
  }

  predicate NestedCalledAll(es: Exps, fn: Sym, closure: set<Edge>) {
    match es
    case NoExp => true
    case Cons(e, rest) => NestedCalled(e, fn, closure) && NestedCalledAll(rest, fn, closure)
  }

  predicate NestedCalledFuns(ds: Funs, fn: Sym, closure: set<Edge>) {
    match ds
    case NoFun => true
    case FunCons(d, rest) =>
      && (d.Function? ==> Edge(fn, d.name) in closure && NestedCalled(d.body, d.name, closure))
      && NestedCalledFuns(rest, fn, closure)
  }

  /** Then the closure of the call graph has every call of a body, nested functions included. */
  lemma {:induction false} CallsReached(e: Exp, fn: Sym, closure: set<Edge>)
    requires NoCallsInArgs(e) && NestedCalled(e, fn, closure) && Edges(e, fn) <= closure && Transitive(closure)
    ensures forall g :: g in Callees(e) ==> Edge(fn, g) in closure
  {
    match e
    case OpExp(l, _, r) => CallsReached(l, fn, closure); CallsReached(r, fn, closure);
    case SeqExp(es) => AllCallsReached(es, fn, closure);
    case AssignExp(_, e1) => CallsReached(e1, fn, closure);
    case IfExp(c, t, f) => CallsReached(c, fn, closure); CallsReached(t, fn, closure); CallsReached(f, fn, closure);
    case WhileExp(c, body) => CallsReached(c, fn, closure); CallsReached(body, fn, closure);
    case ForExp(_, lo, hi, body) => CallsReached(lo, fn, closure); CallsReached(hi, fn, closure); CallsReached(body, fn, closure);
    case CallExp(f, _) => assert Edge(fn, f) in Edges(e, fn);
    case LetVar(_, init, body) => CallsReached(init, fn, closure); CallsReached(body, fn, closure);
    case LetFuns(ds, body) => FunsCallsReached(ds, fn, closure); CallsReached(body, fn, closure);
    case _ =>
  }

  lemma {:induction false} AllCallsReached(es: Exps, fn: Sym, closure: set<Edge>)
    requires NoCallsInArgsAll(es) && NestedCalledAll(es, fn, closure) && EdgesAll(es, fn) <= closure && Transitive(closure)
    ensures forall g :: g in CalleesAll(es) ==> Edge(fn, g) in closure
  {
    if es.Cons? { CallsReached(es.head, fn, closure); AllCallsReached(es.tail, fn, closure); }
  }

  lemma {:induction false} FunsCallsReached(ds: Funs, fn: Sym, closure: set<Edge>)
    requires NoCallsInArgsFuns(ds) && NestedCalledFuns(ds, fn, closure) && EdgesOf(ds) <= closure && Transitive(closure)
    ensures forall g :: g in CalleesOf(ds) ==> Edge(fn, g) in closure
  {
    if ds.FunCons? {
      if ds.first.Function? { CallsReached(ds.first.body, ds.first.name, closure); }
      FunsCallsReached(ds.rest, fn, closure);
    }
  }

  /** Calls have as many arguments as the function they are bound to has formals. */
  predicate ArityOk(e: Exp, defs: map<Sym, FunDec>) {
    match e
    case IntExp(_) => true
    case VarExp(_) => true
    case OpExp(l, _, r) => ArityOk(l, defs) && ArityOk(r, defs)
    case SeqExp(es) => ArityOkAll(es, defs)
    case AssignExp(_, e1) => ArityOk(e1, defs)
    case IfExp(c, t, f) => ArityOk(c, defs) && ArityOk(t, defs) && ArityOk(f, defs)
    case WhileExp(c, body) => ArityOk(c, defs) && ArityOk(body, defs)
    case ForExp(_, lo, hi, body) => ArityOk(lo, defs) && ArityOk(hi, defs) && ArityOk(body, defs)
    case BreakExp => true
    case CallExp(f, args) => ArityOkAll(args, defs) && (f in defs ==> |defs[f].formals| == Length(args))
    case LetVar(_, init, body) => ArityOk(init, defs) && ArityOk(body, defs)
    case LetFuns(ds, body) => ArityOkFuns(ds, defs) && ArityOk(body, defs)
  }

  predicate ArityOkAll(es: Exps, defs: map<Sym, FunDec>) {
    match es
    case NoExp => true
    case Cons(e, rest) => ArityOk(e, defs) && ArityOkAll(rest, defs)
  }

  predicate ArityOkFuns(ds: Funs, defs: map<Sym, FunDec>) {
    match ds
    case NoFun => true
    case FunCons(d, rest) => (d.Function? ==> ArityOk(d.body, defs)) && ArityOkFuns(rest, defs)
  }

  // ----- when expansion ends -----

  /** Expanding a call to `src` comes to a call to `dst` that is expanded as well. */
  ghost function Expansions(cx: Unit): set<Edge> {
    set f, g | f in cx.defs.Keys && cx.Expands(f) && g in Callees(cx.defs[f].body) && cx.Expands(g) :: Edge(f, g)
  }

  ghost predicate Reaches(f: Sym, g: Sym, cx: Unit) { f == g || Edge(f, g) in Closure(Expansions(cx)) }

  /** Expanding `f` comes to no cycle of expandable functions. */
  ghost predicate AcyclicFrom(f: Sym, cx: Unit) { forall g :: Reaches(f, g, cx) ==> Edge(g, g) !in Closure(Expansions(cx)) }

  ghost predicate Acyclic(calls: set<Sym>, cx: Unit) { forall f :: f in calls && cx.Expands(f) ==> AcyclicFrom(f, cx) }

  /** Calls and formals agree in number, everywhere. */
  ghost predicate Arities(cx: Unit) {
    cx.bound >= |cx.defs.Keys| && forall f :: cx.Expands(f) ==> ArityOk(cx.defs[f].body, cx.defs)
  }

  lemma ClosureTransitive(r: set<Edge>, a: Sym, b: Sym, c: Sym)
    requires Edge(a, b) in Closure(r) && Edge(b, c) in Closure(r)
    ensures Edge(a, c) in Closure(r)
  {
    ClosureIsLeast(r, r);
  }

  lemma ExpansionEdge(f: Sym, g: Sym, cx: Unit)
    requires cx.Expands(f) && cx.Expands(g) && g in Callees(cx.defs[f].body)
    ensures Edge(f, g) in Closure(Expansions(cx))
  {
    assert Edge(f, g) in Expansions(cx);
    ClosureIsLeast(Expansions(cx), {});
  }

  /** The functions that expanding `f` comes to. */
  ghost function Reach(f: Sym, cx: Unit): set<Sym> { set g | g in cx.defs.Keys && Edge(f, g) in Closure(Expansions(cx)) }

  ghost function Rank(f: Sym, cx: Unit): nat { |Reach(f, cx)| }

  /** Expansion always moves down. */
  lemma RankFalls(f: Sym, g: Sym, cx: Unit)
    requires cx.Expands(f) && cx.Expands(g) && g in Callees(cx.defs[f].body) && AcyclicFrom(f, cx)
    ensures Rank(g, cx) < Rank(f, cx)
  {
    ExpansionEdge(f, g, cx);
    assert Reaches(f, g, cx);
    var a, b := Reach(g, cx), Reach(f, cx);
    forall h | h in a ensures h in b - {g} { ClosureTransitive(Expansions(cx), f, g, h); }
    assert g in b;
    Smaller(a, b - {g});
  }

  lemma RankBounded(f: Sym, cx: Unit)
    requires cx.Expands(f) && AcyclicFrom(f, cx) && Arities(cx)
    ensures Rank(f, cx) < cx.bound
  {
    assert Reaches(f, f, cx);
    assert Reach(f, cx) <= cx.defs.Keys - {f};
    Smaller(Reach(f, cx), cx.defs.Keys - {f});
  }

  /** `n` expansions, nested, are enough for the calls of `e`. */
  ghost predicate Enough(calls: set<Sym>, n: nat, cx: Unit) {
    n <= cx.bound && forall g :: g in calls && cx.Expands(g) ==> AcyclicFrom(g, cx) && Rank(g, cx) < n
  }

  lemma AcyclicDown(f: Sym, g: Sym, cx: Unit)
    requires cx.Expands(f) && cx.Expands(g) && g in Callees(cx.defs[f].body) && AcyclicFrom(f, cx)
    ensures AcyclicFrom(g, cx)
  {
    forall h | Reaches(g, h, cx) ensures Edge(h, h) !in Closure(Expansions(cx)) {
      ExpansionEdge(f, g, cx);
      if g != h { ClosureTransitive(Expansions(cx), f, g, h); }
      assert Reaches(f, h, cx);
    }
  }

  lemma BodyEnough(f: Sym, cx: Unit)
    requires cx.Expands(f) && AcyclicFrom(f, cx) && Arities(cx)
    ensures Enough(Callees(cx.defs[f].body), Rank(f, cx), cx)
  {
    hide Rank;
    var calls := Callees(cx.defs[f].body);
    forall g | g in calls && cx.Expands(g) ensures AcyclicFrom(g, cx) && Rank(g, cx) < Rank(f, cx) {
      AcyclicDown(f, g, cx);
      RankFalls(f, g, cx);
    }
    RankBounded(f, cx);
  }

  lemma AcyclicEnough(calls: set<Sym>, cx: Unit)
    requires Acyclic(calls, cx) && Arities(cx)
    ensures Enough(calls, cx.bound, cx)
  {
    forall g | g in calls && cx.Expands(g) ensures Rank(g, cx) < cx.bound { RankBounded(g, cx); }
  }

  lemma {:induction false} InlinedDeeper(e: Exp, e2: Exp, cx: Unit, d: nat, d2: nat)
    requires Inlined(e, e2, cx, d) && d <= d2
    ensures Inlined(e, e2, cx, d2)
    decreases e2, 1
  {
    match e
    case OpExp(l, _, r) => InlinedDeeper(l, e2.left, cx, d, d2); InlinedDeeper(r, e2.right, cx, d, d2);
    case SeqExp(es) => AllInlinedDeeper(es, e2.exps, cx, d, d2);
    case AssignExp(_, e1) => InlinedDeeper(e1, e2.exp, cx, d, d2);
    case IfExp(c, t, f) =>
      InlinedDeeper(c, e2.test, cx, d, d2);
      InlinedDeeper(t, e2.thenclause, cx, d, d2);
      InlinedDeeper(f, e2.elseclause, cx, d, d2);
    case WhileExp(c, body) => InlinedDeeper(c, e2.test, cx, d, d2); InlinedDeeper(body, e2.body, cx, d, d2);
    case ForExp(_, lo, hi, body) =>
      InlinedDeeper(lo, e2.lo, cx, d, d2);
      InlinedDeeper(hi, e2.hi, cx, d, d2);
      InlinedDeeper(body, e2.body, cx, d, d2);
    case CallExp(f, args) =>
      if cx.Expands(f) { ExpandedDeeper(cx.defs[f].formals, args, cx.defs[f].body, e2, cx, d, d2); }
      else { AllInlinedDeeper(args, e2.args, cx, d, d2); }
    case LetVar(_, init, body) => InlinedDeeper(init, e2.init, cx, d, d2); InlinedDeeper(body, e2.body, cx, d, d2);
    case LetFuns(_, body) => InlinedDeeper(body, e2.body, cx, d, d2);
    case _ =>
  }

  lemma {:induction false} AllInlinedDeeper(es: Exps, es2: Exps, cx: Unit, d: nat, d2: nat)
    requires InlinedAll(es, es2, cx, d) && d <= d2
    ensures InlinedAll(es, es2, cx, d2)
    decreases es2, 1
  {
    if es.Cons? { InlinedDeeper(es.head, es2.head, cx, d, d2); AllInlinedDeeper(es.tail, es2.tail, cx, d, d2); }
  }

  lemma {:induction false} ExpandedDeeper(xs: seq<Sym>, args: Exps, body: Exp, e2: Exp, cx: Unit, d: nat, d2: nat)
    requires Expanded(xs, args, body, e2, cx, d) && d <= d2
    ensures Expanded(xs, args, body, e2, cx, d2)
    decreases e2, 0
  {
    if xs == [] {
      InlinedDeeper(body, e2.init, cx, d - 1, d2 - 1);
    } else {
      InlinedDeeper(args.head, e2.init, cx, d, d2);
      ExpandedDeeper(xs[1..], args.tail, body, e2.body, cx, d, d2);
    }
  }

  // ----- when there is an expansion -----

  /** From a function of `fs` expansion always comes to another. */
  ghost predicate Looping(fs: set<Sym>, cx: Unit) {
    forall f :: f in fs ==> cx.Expands(f) && Callees(cx.defs[f].body) * fs != {}
  }

  lemma LoopExpands(f: Sym, fs: set<Sym>, cx: Unit)
    requires f in fs && Looping(fs, cx)
    ensures cx.Expands(f)
  {}

  lemma LoopNext(f: Sym, fs: set<Sym>, cx: Unit) returns (g: Sym)
    requires f in fs && Looping(fs, cx)
    ensures cx.Expands(f) && g in fs && g in Callees(cx.defs[f].body)
  {
    var next := Callees(cx.defs[f].body) * fs;
    g :| g in next;
  }

  /** Then no call to one of them has an expansion. */
  lemma {:induction false} Endless(f: Sym, fs: set<Sym>, e: Exp, e2: Exp, cx: Unit, d: nat)
    requires Inlined(e, e2, cx, d) && f in Callees(e) && f in fs && Looping(fs, cx)
    ensures false
    decreases e2, 1
  {
    hide Looping;
    match e
    case OpExp(l, _, r) => if f in Callees(l) { Endless(f, fs, l, e2.left, cx, d); } else { Endless(f, fs, r, e2.right, cx, d); }
    case SeqExp(es) => EndlessAll(f, fs, es, e2.exps, cx, d);
    case AssignExp(_, e1) => Endless(f, fs, e1, e2.exp, cx, d);
    case IfExp(c, t, els) =>
      if f in Callees(c) { Endless(f, fs, c, e2.test, cx, d); }
      else if f in Callees(t) { Endless(f, fs, t, e2.thenclause, cx, d); }
      else { Endless(f, fs, els, e2.elseclause, cx, d); }
    case WhileExp(c, body) =>
      if f in Callees(c) { Endless(f, fs, c, e2.test, cx, d); } else { Endless(f, fs, body, e2.body, cx, d); }
    case ForExp(_, lo, hi, body) =>
      if f in Callees(lo) { Endless(f, fs, lo, e2.lo, cx, d); }
      else if f in Callees(hi) { Endless(f, fs, hi, e2.hi, cx, d); }
      else { Endless(f, fs, body, e2.body, cx, d); }
    case CallExp(g, args) =>
      if cx.Expands(g) { EndlessExpanded(f, fs, g, cx.defs[g].formals, args, e2, cx, d); }
      else { EndlessCall(f, fs, g, args, e2, cx, d); }
    case LetVar(_, init, body) =>
      if f in Callees(init) { Endless(f, fs, init, e2.init, cx, d); } else { Endless(f, fs, body, e2.body, cx, d); }
    case LetFuns(ds, body) =>
      if f in CalleesOf(ds) { EndlessFuns(f, fs, ds, e2.funs, cx); } else { Endless(f, fs, body, e2.body, cx, d); }
    case _ =>
  }

  lemma {:induction false} EndlessCall(f: Sym, fs: set<Sym>, g: Sym, args: Exps, e2: Exp, cx: Unit, d: nat)
    requires !cx.Expands(g) && e2.CallExp? && InlinedAll(args, e2.args, cx, d)
    requires f in {g} + CalleesAll(args) && f in fs && Looping(fs, cx)
    ensures false
    decreases e2, 0
  {
    hide Looping;
    LoopExpands(f, fs, cx);
    EndlessAll(f, fs, args, e2.args, cx, d);
  }

  lemma {:induction false} EndlessAll(f: Sym, fs: set<Sym>, es: Exps, es2: Exps, cx: Unit, d: nat)
    requires InlinedAll(es, es2, cx, d) && f in CalleesAll(es) && f in fs && Looping(fs, cx)
    ensures false
    decreases es2, 1
  {
    hide Looping;
    if f in Callees(es.head) { Endless(f, fs, es.head, es2.head, cx, d); } else { EndlessAll(f, fs, es.tail, es2.tail, cx, d); }
  }

  lemma {:induction false} EndlessFuns(f: Sym, fs: set<Sym>, ds: Funs, ds2: Funs, cx: Unit)
    requires InlinedFuns(ds, ds2, cx) && f in CalleesOf(ds) && f in fs && Looping(fs, cx)
    ensures false
    decreases ds2, 1
  {
    hide Looping;
    if ds.first.Function? && f in Callees(ds.first.body) { Endless(f, fs, ds.first.body, ds2.first.body, cx, cx.bound); }
    else { EndlessFuns(f, fs, ds.rest, ds2.rest, cx); }
  }

  lemma {:induction false} EndlessExpanded(f: Sym, fs: set<Sym>, g: Sym, xs: seq<Sym>, args: Exps, e2: Exp, cx: Unit, d: nat)
    requires cx.Expands(g) && Expanded(xs, args, cx.defs[g].body, e2, cx, d)
    requires f == g || f in CalleesAll(args)
    requires f in fs && Looping(fs, cx)
    ensures false
    decreases e2, 0
  {
    hide Looping;
    if xs == [] {
      var h := LoopNext(f, fs, cx);
      Endless(h, fs, cx.defs[g].body, e2.init, cx, d - 1);
    } else if f in Callees(args.head) {
      Endless(f, fs, args.head, e2.init, cx, d);
    } else {
      EndlessExpanded(f, fs, g, xs[1..], args.tail, e2.body, cx, d);
    }
  }

  /** A path of the closure starts with an edge. */
  lemma FirstStep(r: set<Edge>, a: Sym, b: Sym) returns (m: Sym)
    requires Edge(a, b) in Closure(r)
    ensures Edge(a, m) in r && (m == b || Edge(m, b) in Closure(r))
  {
    var t := set e | e in Closure(r) && exists n :: Edge(e.src, n) in r && (n == e.dst || Edge(n, e.dst) in Closure(r));
    ClosureIsLeast(r, {});
    forall e | e in r ensures e in t { assert e == Edge(e.src, e.dst); }
    forall x, y, z | Edge(x, y) in t && Edge(y, z) in t ensures Edge(x, z) in t {
      var n :| Edge(x, n) in r && (n == y || Edge(n, y) in Closure(r));
    }
    ClosureIsLeast(r, t);
    m :| Edge(a, m) in r && (m == b || Edge(m, b) in Closure(r));
  }

  /** The expandable functions from which expansion comes to a cycle. */
  ghost function Trapped(cx: Unit): set<Sym> { set f | f in cx.defs.Keys && cx.Expands(f) && !AcyclicFrom(f, cx) }

  lemma TrappedLoop(cx: Unit)
    ensures Looping(Trapped(cx), cx)
  {
    var r := Expansions(cx);
    forall f | f in Trapped(cx) ensures Callees(cx.defs[f].body) * Trapped(cx) != {} {
      var h :| Reaches(f, h, cx) && Edge(h, h) in Closure(r);
      var g := FirstStep(r, f, h);
      assert Edge(f, g) in r && Reaches(g, h, cx);
      assert g in Callees(cx.defs[f].body) * Trapped(cx);
    }
  }

  /** The other way round: where it ends, this is the expansion. */
  lemma {:induction false} Expansion(e: Exp, n: nat, cx: Unit) returns (e2: Exp)
    requires Arities(cx) && Enough(Callees(e), n, cx) && ArityOk(e, cx.defs)
    ensures Inlined(e, e2, cx, n)
    decreases n, e, 1
  {
    hide AcyclicFrom, Rank, Arities;
    match e
    case IntExp(_) => e2 := e;
    case VarExp(_) => e2 := e;
    case OpExp(l, op, r) => var l2 := Expansion(l, n, cx); var r2 := Expansion(r, n, cx); e2 := OpExp(l2, op, r2);
    case SeqExp(es) => var es2 := AllExpansions(es, n, cx); e2 := SeqExp(es2);
    case AssignExp(x, e1) => var r := Expansion(e1, n, cx); e2 := AssignExp(x, r);
    case IfExp(c, t, f) =>
      var c2 := Expansion(c, n, cx);
      var t2 := Expansion(t, n, cx);
      var f2 := Expansion(f, n, cx);
      e2 := IfExp(c2, t2, f2);
    case WhileExp(c, body) => var c2 := Expansion(c, n, cx); var b2 := Expansion(body, n, cx); e2 := WhileExp(c2, b2);
    case ForExp(i, lo, hi, body) =>
      var lo2 := Expansion(lo, n, cx);
      var hi2 := Expansion(hi, n, cx);
      var b2 := Expansion(body, n, cx);
      e2 := ForExp(i, lo2, hi2, b2);
    case BreakExp => e2 := e;
    case CallExp(f, args) =>
      if cx.Expands(f) {
        e2 := CallExpansion(f, cx.defs[f].formals, args, n, cx);
      } else {
        var args2 := AllExpansions(args, n, cx);
        e2 := CallExp(f, args2);
      }
    case LetVar(x, init, body) => var i2 := Expansion(init, n, cx); var b2 := Expansion(body, n, cx); e2 := LetVar(x, i2, b2);
    case LetFuns(ds, body) => var ds2 := FunExpansions(ds, n, cx); var b2 := Expansion(body, n, cx); e2 := LetFuns(ds2, b2);
  }

  lemma {:induction false} AllExpansions(es: Exps, n: nat, cx: Unit) returns (es2: Exps)
    requires Arities(cx) && Enough(CalleesAll(es), n, cx) && ArityOkAll(es, cx.defs)
    ensures InlinedAll(es, es2, cx, n)
    decreases n, es, 1
  {
    hide AcyclicFrom, Rank, Arities, Inlined;
    if es == NoExp {
      es2 := NoExp;
    } else {
      var e2 := Expansion(es.head, n, cx);
      var rest := AllExpansions(es.tail, n, cx);
      es2 := Cons(e2, rest);
    }
  }

  lemma {:induction false} FunExpansions(ds: Funs, n: nat, cx: Unit) returns (ds2: Funs)
    requires Arities(cx) && Enough(CalleesOf(ds), n, cx) && ArityOkFuns(ds, cx.defs)
    ensures InlinedFuns(ds, ds2, cx)
    decreases n, ds, 1
  {
    hide AcyclicFrom, Rank, Arities, Inlined;
    ds2 := NoFun;
    if ds.FunCons? {
      var d2 := ds.first;
      if d2.Function? {
        var b2 := Expansion(d2.body, n, cx);
        InlinedDeeper(d2.body, b2, cx, n, cx.bound);
        d2 := Function(d2.name, d2.formals, d2.result, b2);
      }
      var rest := FunExpansions(ds.rest, n, cx);
      ds2 := FunCons(d2, rest);
    }
  }

  /** The arguments that remain for the formals `xs`, then the body. */
  lemma {:induction false} CallExpansion(f: Sym, xs: seq<Sym>, args: Exps, n: nat, cx: Unit) returns (e2: Exp)
    requires cx.Expands(f) && Arities(cx) && Enough({f} + CalleesAll(args), n, cx) && ArityOkAll(args, cx.defs) && |xs| == Length(args)
    ensures Expanded(xs, args, cx.defs[f].body, e2, cx, n)
    decreases n, args, 2
  {
    hide AcyclicFrom, Rank, Inlined;
    if xs == [] {
      var m := Rank(f, cx);
      BodyEnough(f, cx);
      var body2 := Expansion(cx.defs[f].body, m, cx);
      InlinedDeeper(cx.defs[f].body, body2, cx, m, n - 1);
      e2 := LetVar(RES, body2, VarExp(RES));
    } else {
      var arg2 := Expansion(args.head, n, cx);
      var rest := CallExpansion(f, xs[1..], args.tail, n, cx);
      e2 := LetVar(xs[0], arg2, rest);
    }
  }

  /** `e` has an expansion if and only if expanding its calls comes to no cycle of expandable
      functions; a calls b when `b` is called anywhere in the body of `a`, in arguments and in
      nested functions too. */
  lemma InlinedExactly(e: Exp, cx: Unit)
    requires Arities(cx) && ArityOk(e, cx.defs)
    ensures (exists e2 :: Inlined(e, e2, cx, cx.bound)) <==> Acyclic(Callees(e), cx)
  {
    hide AcyclicFrom, Looping, Inlined, Arities;
    if Acyclic(Callees(e), cx) {
      AcyclicEnough(Callees(e), cx);
      var e2 := Expansion(e, cx.bound, cx);
    } else {
      var f :| f in Callees(e) && cx.Expands(f) && !AcyclicFrom(f, cx);
      TrappedLoop(cx);
      forall e2 | Inlined(e, e2, cx, cx.bound) ensures false { Endless(f, Trapped(cx), e, e2, cx, cx.bound); }
    }
  }

  // ----- what makes sure of it -----

  /** What the call graph is to have of the body of `f`. */
  ghost predicate Traced(f: Sym, body: Exp, closure: set<Edge>) {
    NoCallsInArgs(body) && NestedCalled(body, f, closure) && Edges(body, f) <= closure
  }

  lemma {:induction false} NoCallsNoEdges(e: Exp, fn: Sym)
    ensures Callees(e) == {} ==> NoCallsInArgs(e) && Edges(e, fn) == {}
  {
    match e
    case OpExp(l, _, r) => NoCallsNoEdges(l, fn); NoCallsNoEdges(r, fn);
    case SeqExp(es) => NoCallsNoEdgesAll(es, fn);
    case AssignExp(_, e1) => NoCallsNoEdges(e1, fn);
    case IfExp(c, t, f) => NoCallsNoEdges(c, fn); NoCallsNoEdges(t, fn); NoCallsNoEdges(f, fn);
    case WhileExp(c, body) => NoCallsNoEdges(c, fn); NoCallsNoEdges(body, fn);
    case ForExp(_, lo, hi, body) => NoCallsNoEdges(lo, fn); NoCallsNoEdges(hi, fn); NoCallsNoEdges(body, fn);
    case CallExp(f, args) => assert f in Callees(e);
    case LetVar(_, init, body) => NoCallsNoEdges(init, fn); NoCallsNoEdges(body, fn);
    case LetFuns(ds, body) => NoCallsNoEdgesOf(ds); NoCallsNoEdges(body, fn);
    case _ =>
  }

  lemma {:induction false} NoCallsNoEdgesAll(es: Exps, fn: Sym)
    ensures CalleesAll(es) == {} ==> NoCallsInArgsAll(es) && EdgesAll(es, fn) == {}
  {
    if es.Cons? { NoCallsNoEdges(es.head, fn); NoCallsNoEdgesAll(es.tail, fn); }
  }

  lemma {:induction false} NoCallsNoEdgesOf(ds: Funs)
    ensures CalleesOf(ds) == {} ==> NoCallsInArgsFuns(ds) && EdgesOf(ds) == {}
  {
    if ds.FunCons? {
      if ds.first.Function? { NoCallsNoEdges(ds.first.body, ds.first.name); }
      NoCallsNoEdgesOf(ds.rest);
    }
  }

  /** When the graph has every call, leaving alone the functions on its cycles is enough. */
  lemma TracedAcyclic(calls: set<Sym>, cx: Unit, closure: set<Edge>)
    requires Transitive(closure) && forall f :: Edge(f, f) in closure ==> f in cx.recs
    requires forall f :: cx.Expands(f) ==> Traced(f, cx.defs[f].body, closure)
    ensures Acyclic(calls, cx)
  {
    var r := Expansions(cx);
    forall e | e in r ensures e in closure { CallsReached(cx.defs[e.src].body, e.src, closure); }
    ClosureIsLeast(r, closure);
    forall h | Edge(h, h) in Closure(r) ensures cx.Expands(h) { OnCycleExpands(h, cx); }
  }

  lemma OnCycleExpands(h: Sym, cx: Unit)
    requires Edge(h, h) in Closure(Expansions(cx))
    ensures cx.Expands(h)
  {
    var m := FirstStep(Expansions(cx), h, h);
  }

  // ----- the visitor -----

  /** `let var x := init .. in last end` */
  function LetAll(xs: seq<Sym>, inits: seq<Exp>, last: Exp): Exp
    requires |xs| == |inits|
  {
    if xs == [] then last else LetVar(xs[0], inits[0], LetAll(xs[1..], inits[1..], last))
  }

  ghost predicate InlinedSeq(args: Exps, inits: seq<Exp>, cx: Unit, d: nat) {
    match args
    case NoExp => inits == []
    case Cons(e, rest) => inits != [] && Inlined(e, inits[0], cx, d) && InlinedSeq(rest, inits[1..], cx, d)
  }

  lemma {:induction false} LetAllExpanded(xs: seq<Sym>, args: Exps, inits: seq<Exp>, body: Exp, body2: Exp, cx: Unit, d: nat)
    requires InlinedSeq(args, inits, cx, d) && |xs| == |inits| && d > 0 && Inlined(body, body2, cx, d - 1)
    ensures Expanded(xs, args, body, LetAll(xs, inits, LetVar(RES, body2, VarExp(RES))), cx, d)
    decreases |xs|
  {
    if xs != [] { LetAllExpanded(xs[1..], args.tail, inits[1..], body, body2, cx, d); }
  }

  lemma {:induction false} InlinedSeqMore(args: Exps, inits: seq<Exp>, e: Exp, e2: Exp, cx: Unit, d: nat)
    requires InlinedSeq(args, inits, cx, d) && Inlined(e, e2, cx, d)
    ensures InlinedSeq(Snoc(args, e), inits + [e2], cx, d)
  {
    if args.Cons? {
      assert (inits + [e2])[1..] == inits[1..] + [e2];
      InlinedSeqMore(args.tail, inits[1..], e, e2, cx, d);
    }
  }

  function Snoc(es: Exps, e: Exp): Exps {
    match es
    case NoExp => Cons(e, NoExp)
    case Cons(h, t) => Cons(h, Snoc(t, e))
  }

  function Append(es: Exps, rest: Exps): Exps {
    match es
    case NoExp => rest
    case Cons(h, t) => Cons(h, Append(t, rest))
  }

  lemma {:induction false} AppendSnoc(es: Exps, e: Exp, rest: Exps)
    ensures Append(Snoc(es, e), rest) == Append(es, Cons(e, rest))
  {
    if es.Cons? { AppendSnoc(es.tail, e, rest); }
  }

  lemma {:induction false} AppendNone(es: Exps)
    ensures Append(es, NoExp) == es
  {
    if es.Cons? { AppendNone(es.tail); }
  }

  lemma CallLeft(f: Sym, args: Exps, args2: Exps, cx: Unit, d: nat)
    requires !cx.Expands(f) && InlinedAll(args, args2, cx, d)
    ensures Inlined(CallExp(f, args), CallExp(f, args2), cx, d)
  {}

  lemma CallExpanded(f: Sym, args: Exps, e2: Exp, cx: Unit, d: nat)
    requires cx.Expands(f) && Expanded(cx.defs[f].formals, args, cx.defs[f].body, e2, cx, d)
    ensures Inlined(CallExp(f, args), e2, cx, d)
  {}

  // A node is expanded when its parts are.

  lemma OpInlined(l: Exp, op: Oper, r: Exp, l2: Exp, r2: Exp, cx: Unit, d: nat)
    requires Inlined(l, l2, cx, d) && Inlined(r, r2, cx, d)
    ensures Inlined(OpExp(l, op, r), OpExp(l2, op, r2), cx, d)
  {}

  lemma SeqInlined(es: Exps, es2: Exps, cx: Unit, d: nat)
    requires InlinedAll(es, es2, cx, d)
    ensures Inlined(SeqExp(es), SeqExp(es2), cx, d)
  {}

  lemma AssignInlined(x: Sym, e1: Exp, r: Exp, cx: Unit, d: nat)
    requires Inlined(e1, r, cx, d)
    ensures Inlined(AssignExp(x, e1), AssignExp(x, r), cx, d)
  {}

  lemma IfInlined(c: Exp, t: Exp, f: Exp, c2: Exp, t2: Exp, f2: Exp, cx: Unit, d: nat)
    requires Inlined(c, c2, cx, d) && Inlined(t, t2, cx, d) && Inlined(f, f2, cx, d)
    ensures Inlined(IfExp(c, t, f), IfExp(c2, t2, f2), cx, d)
  {}

  lemma WhileInlined(c: Exp, body: Exp, c2: Exp, b2: Exp, cx: Unit, d: nat)
    requires Inlined(c, c2, cx, d) && Inlined(body, b2, cx, d)
    ensures Inlined(WhileExp(c, body), WhileExp(c2, b2), cx, d)
  {}

  lemma ForInlined(i: Sym, lo: Exp, hi: Exp, body: Exp, lo2: Exp, hi2: Exp, b2: Exp, cx: Unit, d: nat)
    requires Inlined(lo, lo2, cx, d) && Inlined(hi, hi2, cx, d) && Inlined(body, b2, cx, d)
    ensures Inlined(ForExp(i, lo, hi, body), ForExp(i, lo2, hi2, b2), cx, d)
  {}

  lemma LetInlined(x: Sym, init: Exp, body: Exp, i2: Exp, b2: Exp, cx: Unit, d: nat)
    requires Inlined(init, i2, cx, d) && Inlined(body, b2, cx, d)
    ensures Inlined(LetVar(x, init, body), LetVar(x, i2, b2), cx, d)
  {}

  lemma LetFunsInlined(ds: Funs, body: Exp, ds2: Funs, b2: Exp, cx: Unit, d: nat)
    requires InlinedFuns(ds, ds2, cx) && Inlined(body, b2, cx, d)
    ensures Inlined(LetFuns(ds, body), LetFuns(ds2, b2), cx, d)
  {}

  lemma LeafInlined(e: Exp, cx: Unit, d: nat)
    requires e.IntExp? || e.VarExp? || e.BreakExp?
    ensures Inlined(e, e, cx, d)
  {}

  /** `n` nested expansions do for `e`, and its calls have the arguments they need. */
  ghost predicate Suits(e: Exp, n: nat, cx: Unit) { Enough(Callees(e), n, cx) && ArityOk(e, cx.defs) }

  ghost predicate SuitsAll(es: Exps, n: nat, cx: Unit) { Enough(CalleesAll(es), n, cx) && ArityOkAll(es, cx.defs) }

  ghost predicate SuitsFuns(ds: Funs, n: nat, cx: Unit) { Enough(CalleesOf(ds), n, cx) && ArityOkFuns(ds, cx.defs) }

  lemma PartsSuit(e: Exp, n: nat, cx: Unit)
    requires Suits(e, n, cx)
    ensures match e
      case OpExp(l, _, r) => Suits(l, n, cx) && Suits(r, n, cx)
      case SeqExp(es) => SuitsAll(es, n, cx)
      case AssignExp(_, e1) => Suits(e1, n, cx)
      case IfExp(c, t, f) => Suits(c, n, cx) && Suits(t, n, cx) && Suits(f, n, cx)
      case WhileExp(c, body) => Suits(c, n, cx) && Suits(body, n, cx)
      case ForExp(_, lo, hi, body) => Suits(lo, n, cx) && Suits(hi, n, cx) && Suits(body, n, cx)
      case CallExp(_, args) => SuitsAll(args, n, cx)
      case LetVar(_, init, body) => Suits(init, n, cx) && Suits(body, n, cx)
      case LetFuns(ds, body) => SuitsFuns(ds, n, cx) && Suits(body, n, cx)
      case _ => true
  {
    hide AcyclicFrom, Rank;
  }

  lemma ListSuits(es: Exps, n: nat, cx: Unit)
    requires es.Cons? && SuitsAll(es, n, cx)
    ensures Suits(es.head, n, cx) && SuitsAll(es.tail, n, cx)
  {
    hide AcyclicFrom, Rank;
  }

  lemma ChunkSuits(ds: Funs, n: nat, cx: Unit)
    requires ds.FunCons? && SuitsFuns(ds, n, cx)
    ensures (ds.first.Function? ==> Suits(ds.first.body, n, cx)) && SuitsFuns(ds.rest, n, cx) && n <= cx.bound
  {
    hide AcyclicFrom, Rank;
  }

  /** A call that is expanded has a body that less will do for. */
  lemma CallSuits(f: Sym, args: Exps, n: nat, cx: Unit)
    requires Arities(cx) && Suits(CallExp(f, args), n, cx) && cx.Expands(f)
    ensures Rank(f, cx) < n <= cx.bound && Suits(cx.defs[f].body, Rank(f, cx), cx) && |cx.defs[f].formals| == Length(args)
  {
    hide AcyclicFrom, Rank;
    assert f in Callees(CallExp(f, args));
    BodyEnough(f, cx);
  }

  /** The inliner: a cloner that replaces calls. */
  class Inliner {
    const defs: map<Sym, FunDec>
    const recs: set<Sym>

    /** Finds the recursive functions from the closure of the call graph and the nesting of functions. */
    constructor (defs: map<Sym, FunDec>, edges: set<Edge>, links: map<Sym, Sym>)
      ensures this.defs == defs && recs == RecFuns(edges, links)
      ensures forall f :: Edge(f, f) in Closure(edges) ==> f in recs
    {
      this.defs := defs;
      var found := ComputeRecFuns(edges, links);
      this.recs := found;
    }

    ghost function Scope(): Unit { Unit(defs, recs, |defs.Keys|) }

    method InlineExp(e: Exp, ghost n: nat) returns (e2: Exp)
      requires Arities(Scope()) && Suits(e, n, Scope())
      ensures Inlined(e, e2, Scope(), n)
      decreases n, e, 2
    {
      hide Arities, Inlined, InlinedAll, InlinedFuns, Suits, SuitsAll, SuitsFuns;
      PartsSuit(e, n, Scope());
      match e
      case IntExp(_) =>
        e2 := e;
        LeafInlined(e, Scope(), n);
      case VarExp(_) =>
        e2 := e;
        LeafInlined(e, Scope(), n);
      case OpExp(l, op, r) =>
        var l2, r2 := InlineTwo(l, r, n, e);
        e2 := OpExp(l2, op, r2);
        OpInlined(l, op, r, l2, r2, Scope(), n);
      case SeqExp(es) =>
        var es2 := InlineExps(es, n);
        e2 := SeqExp(es2);
        SeqInlined(es, es2, Scope(), n);
      case AssignExp(x, e1) =>
        var r := InlineExp(e1, n);
        e2 := AssignExp(x, r);
        AssignInlined(x, e1, r, Scope(), n);
      case IfExp(c, t, f) =>
        var c2, t2, f2 := InlineThree(c, t, f, n, e);
        e2 := IfExp(c2, t2, f2);
        IfInlined(c, t, f, c2, t2, f2, Scope(), n);
      case WhileExp(c, body) =>
        var c2, b2 := InlineTwo(c, body, n, e);
        e2 := WhileExp(c2, b2);
        WhileInlined(c, body, c2, b2, Scope(), n);
      case ForExp(i, lo, hi, body) =>
        var lo2, hi2, b2 := InlineThree(lo, hi, body, n, e);
        e2 := ForExp(i, lo2, hi2, b2);
        ForInlined(i, lo, hi, body, lo2, hi2, b2, Scope(), n);
      case BreakExp =>
        e2 := e;
        LeafInlined(e, Scope(), n);
      case CallExp(f, args) => e2 := InlineCall(f, args, n);
      case LetVar(x, init, body) =>
        var i2, b2 := InlineTwo(init, body, n, e);
        e2 := LetVar(x, i2, b2);
        LetInlined(x, init, body, i2, b2, Scope(), n);
      case LetFuns(ds, body) =>
        var ds2 := InlineFuns(ds, n);
        var b2 := InlineExp(body, n);
        e2 := LetFuns(ds2, b2);
        LetFunsInlined(ds, body, ds2, b2, Scope(), n);
    }

    method InlineTwo(a: Exp, b: Exp, ghost n: nat, ghost whole: Exp) returns (a2: Exp, b2: Exp)
      requires Arities(Scope()) && Suits(a, n, Scope()) && Suits(b, n, Scope()) && a < whole && b < whole
      ensures Inlined(a, a2, Scope(), n) && Inlined(b, b2, Scope(), n)
      decreases n, whole, 0
    {
      hide Arities, Inlined, Suits;
      a2 := InlineExp(a, n);
      b2 := InlineExp(b, n);
    }

    method InlineThree(a: Exp, b: Exp, c: Exp, ghost n: nat, ghost whole: Exp) returns (a2: Exp, b2: Exp, c2: Exp)
      requires Arities(Scope()) && Suits(a, n, Scope()) && Suits(b, n, Scope()) && Suits(c, n, Scope())
      requires a < whole && b < whole && c < whole
      ensures Inlined(a, a2, Scope(), n) && Inlined(b, b2, Scope(), n) && Inlined(c, c2, Scope(), n)
      decreases n, whole, 1
    {
      hide Arities, Inlined, Suits;
      a2, b2 := InlineTwo(a, b, n, whole);
      c2 := InlineExp(c, n);
    }

    method InlineExps(es: Exps, ghost n: nat) returns (es2: Exps)
      requires Arities(Scope()) && SuitsAll(es, n, Scope())
      ensures InlinedAll(es, es2, Scope(), n)
      decreases n, es, 1
    {
      if es == NoExp {
        es2 := NoExp;
      } else {
        hide Arities, Inlined, Suits, SuitsAll;
        ListSuits(es, n, Scope());
        var e2 := InlineExp(es.head, n);
        var rest := InlineExps(es.tail, n);
        es2 := Cons(e2, rest);
      }
    }

    method InlineFuns(ds: Funs, ghost n: nat) returns (ds2: Funs)
      requires Arities(Scope()) && SuitsFuns(ds, n, Scope())
      ensures InlinedFuns(ds, ds2, Scope())
      decreases n, ds, 1
    {
      hide Arities, Inlined, Suits, SuitsFuns;
      if ds == NoFun {
        ds2 := NoFun;
      } else {
        ChunkSuits(ds, n, Scope());
        var d := ds.first;
        var d2 := d;
        if d.Function? {
          var b2 := InlineExp(d.body, n);
          InlinedDeeper(d.body, b2, Scope(), n, Scope().bound);
          d2 := Function(d.name, d.formals, d.result, b2);
        }
        var rest := InlineFuns(ds.rest, n);
        ds2 := FunCons(d2, rest);
      }
    }

    /** An argument for each formal. */
    method InlineArgs(xs: seq<Sym>, args: Exps, ghost n: nat) returns (inits: seq<Exp>)
      requires Arities(Scope()) && SuitsAll(args, n, Scope()) && |xs| == Length(args)
      ensures InlinedSeq(args, inits, Scope(), n) && |inits| == |xs|
      decreases n, args, 1
    {
      hide Arities, Inlined, Suits, SuitsAll;
      inits := [];
      var rest := args;
      ghost var done := NoExp;
      for i := 0 to |xs|
        invariant |inits| == i && Length(rest) == |xs| - i
        invariant Append(done, rest) == args && InlinedSeq(done, inits, Scope(), n)
        invariant (rest == args || rest < args) && SuitsAll(rest, n, Scope())
      {
        ListSuits(rest, n, Scope());
        var exp := InlineExp(rest.head, n);
        InlinedSeqMore(done, inits, rest.head, exp, Scope(), n);
        AppendSnoc(done, rest.head, rest.tail);
        inits := inits + [exp];
        done := Snoc(done, rest.head);
        rest := rest.tail;
      }
      AppendNone(done);
    }

    /** Expands the call unless the function is recursive or a primitive. */
    method InlineCall(f: Sym, args: Exps, ghost n: nat) returns (e2: Exp)
      requires Arities(Scope()) && Suits(CallExp(f, args), n, Scope())
      ensures Inlined(CallExp(f, args), e2, Scope(), n)
      decreases n, CallExp(f, args), 0
    {
      hide Arities, Rank, Inlined, Expanded, Suits, SuitsAll;
      PartsSuit(CallExp(f, args), n, Scope());
      if f !in defs || f in recs || !defs[f].Function? {
        var args2 := InlineExps(args, n);
        e2 := CallExp(f, args2);
        CallLeft(f, args, args2, Scope(), n);
      } else {
        var xs, body := defs[f].formals, defs[f].body;
        CallSuits(f, args, n, Scope());
        var inits := InlineArgs(xs, args, n);
        ghost var m := Rank(f, Scope());
        var body2 := InlineExp(body, m);
        InlinedDeeper(body, body2, Scope(), m, n - 1);
        LetAllExpanded(xs, args, inits, body, body2, Scope(), n);
        e2 := LetAll(xs, inits, LetVar(RES, body2, VarExp(RES)));
        CallExpanded(f, args, e2, Scope(), n);
      }
    }
  }

  // ----- what is left -----

  /** After expansion every call, at any depth, in arguments and in functions, is to a recursive
      function or a primitive. */
  lemma {:induction false} OnlyRecursiveLeft(e: Exp, e2: Exp, cx: Unit, d: nat)
    requires Inlined(e, e2, cx, d)
    ensures forall g :: g in Callees(e2) ==> !cx.Expands(g)
    decreases e2, 1
  {
    match e
    case OpExp(l, _, r) => OnlyRecursiveLeft(l, e2.left, cx, d); OnlyRecursiveLeft(r, e2.right, cx, d);
    case SeqExp(es) => AllOnlyRecursive(es, e2.exps, cx, d);
    case AssignExp(_, e1) => OnlyRecursiveLeft(e1, e2.exp, cx, d);
    case IfExp(c, t, f) =>
      OnlyRecursiveLeft(c, e2.test, cx, d);
      OnlyRecursiveLeft(t, e2.thenclause, cx, d);
      OnlyRecursiveLeft(f, e2.elseclause, cx, d);
    case WhileExp(c, body) => OnlyRecursiveLeft(c, e2.test, cx, d); OnlyRecursiveLeft(body, e2.body, cx, d);
    case ForExp(_, lo, hi, body) =>
      OnlyRecursiveLeft(lo, e2.lo, cx, d);
      OnlyRecursiveLeft(hi, e2.hi, cx, d);
      OnlyRecursiveLeft(body, e2.body, cx, d);
    case CallExp(f, args) =>
      if cx.Expands(f) { ExpandedLeft(cx.defs[f].formals, args, cx.defs[f].body, e2, cx, d); }
      else { AllOnlyRecursive(args, e2.args, cx, d); }
    case LetVar(_, init, body) => OnlyRecursiveLeft(init, e2.init, cx, d); OnlyRecursiveLeft(body, e2.body, cx, d);
    case LetFuns(ds, body) => FunsOnlyRecursive(ds, e2.funs, cx); OnlyRecursiveLeft(body, e2.body, cx, d);
    case _ =>
  }

  lemma {:induction false} AllOnlyRecursive(es: Exps, es2: Exps, cx: Unit, d: nat)
    requires InlinedAll(es, es2, cx, d)
    ensures forall g :: g in CalleesAll(es2) ==> !cx.Expands(g)
    decreases es2, 1
  {
    if es.Cons? { OnlyRecursiveLeft(es.head, es2.head, cx, d); AllOnlyRecursive(es.tail, es2.tail, cx, d); }
  }

  lemma {:induction false} FunsOnlyRecursive(ds: Funs, ds2: Funs, cx: Unit)
    requires InlinedFuns(ds, ds2, cx)
    ensures forall g :: g in CalleesOf(ds2) ==> !cx.Expands(g)
    decreases ds2, 1
  {
    if ds.FunCons? {
      if ds.first.Function? { OnlyRecursiveLeft(ds.first.body, ds2.first.body, cx, cx.bound); }
      FunsOnlyRecursive(ds.rest, ds2.rest, cx);
    }
  }

  lemma {:induction false} ExpandedLeft(xs: seq<Sym>, args: Exps, body: Exp, e2: Exp, cx: Unit, d: nat)
    requires Expanded(xs, args, body, e2, cx, d)
    ensures forall g :: g in Callees(e2) ==> !cx.Expands(g)
    decreases e2, 0
  {
    if xs == [] {
      OnlyRecursiveLeft(body, e2.init, cx, d - 1);
    } else {
      OnlyRecursiveLeft(args.head, e2.init, cx, d);
      ExpandedLeft(xs[1..], args.tail, body, e2.body, cx, d);
    }
  }
}
