/** The scoped symbol table and the binder (lib/misc/scoped-map.hxx, src/bind/binder.cc). */
module Binder {
  import opened Options
  import opened Tiger

  // ----- the scoped map -----

  datatype Found<Data> = Data(data: Data) | InvalidKey | NoScope

  /** A stack of maps.  Opening a scope copies the top map, so that looking at the top is enough. */
  class ScopedMap<Data> {
    var stack: seq<map<Sym, Data>>

    constructor ()
      ensures stack == [map[]]
    {
      stack := [map[]];
    }

    method Get(key: Sym) returns (r: Found<Data>)
      ensures r == if stack == [] then NoScope else if key in TopMap(stack) then Data(TopMap(stack)[key]) else InvalidKey
    {
      if |stack| == 0 { return NoScope; }
      var top := stack[|stack| - 1];
      if key !in top { return InvalidKey; }
      return Data(top[key]);
    }

    method ScopeBegin()
      modifies this
      ensures stack == Begin(old(stack))
    {
      if |stack| == 0 {
        stack := [map[]];
      } else {
        stack := stack + [stack[|stack| - 1]];
      }
    }

    method ScopeEnd()
      modifies this
      ensures stack == End(old(stack))
    {
      if |stack| == 0 { return; }
      stack := stack[..|stack| - 1];
    }

    method Put(key: Sym, data: Data)
      modifies this
      ensures stack == Stored(old(stack), key, data)
    {
      if |stack| == 0 { return; }
      var top := stack[|stack| - 1];
      stack := stack[..|stack| - 1] + [top[key := data]];
    }
  }

  function TopMap<D>(s: seq<map<Sym, D>>): map<Sym, D> { if s == [] then map[] else s[|s| - 1] }

  function Begin<D>(s: seq<map<Sym, D>>): seq<map<Sym, D>> { s + [TopMap(s)] }

  function End<D>(s: seq<map<Sym, D>>): seq<map<Sym, D>> { if s == [] then s else s[..|s| - 1] }

  function Stored<D>(s: seq<map<Sym, D>>, k: Sym, d: D): seq<map<Sym, D>> {
    if s == [] then s else s[..|s| - 1] + [TopMap(s)[k := d]]
  }

  /** A textbook symbol table: one dictionary a scope, looked up from the innermost on. */
  function Lookup<D>(layers: seq<map<Sym, D>>, k: Sym): Option<D> {
    if layers == [] then None
    else if k in layers[|layers| - 1] then Some(layers[|layers| - 1][k])
    else Lookup(layers[..|layers| - 1], k)
  }

  // ----- three name spaces in one table -----

  /** A declaration, and the number of the chunk it was found in. */
  datatype Bound = Bound(dec: nat, stamp: nat)

  datatype Space = Funs | Vars | Types

  /** What the table holds for a name: a declaration in each name space, or none. */
  datatype Entry = Entry(fun: Option<Bound>, variable: Option<Bound>, typ: Option<Bound>)
  {
    function In(ns: Space): Option<Bound> { match ns case Funs => fun case Vars => variable case Types => typ }

    function With(ns: Space, b: Bound): Entry {
      match ns
      case Funs => this.(fun := Some(b))
      case Vars => this.(variable := Some(b))
      case Types => this.(typ := Some(b))
    }
  }

  const NOTHING := Entry(None, None, None)

  function EntryOf(s: seq<map<Sym, Entry>>, k: Sym): Entry { if k in TopMap(s) then TopMap(s)[k] else NOTHING }

  datatype Op = OpBegin | OpEnd | OpPut(ns: Space, k: Sym, b: Bound)

  /** How the binder uses the table: a put keeps the other components of the entry in sight. */
  function OnTuples(s: seq<map<Sym, Entry>>, op: Op): seq<map<Sym, Entry>> {
    match op
    case OpBegin => Begin(s)
    case OpEnd => End(s)
    case OpPut(ns, k, b) => Stored(s, k, EntryOf(s, k).With(ns, b))
  }

  /** The same operations on a table of its own for name space `ns`. */
  function OnTable(layers: seq<map<Sym, Bound>>, ns: Space, op: Op): seq<map<Sym, Bound>> {
    match op
    case OpBegin => layers + [map[]]
    case OpEnd => if layers == [] then layers else layers[..|layers| - 1]
    case OpPut(n, k, b) => if n != ns || layers == [] then layers else layers[..|layers| - 1] + [layers[|layers| - 1][k := b]]
  }

  function RunTuples(ops: seq<Op>): seq<map<Sym, Entry>> {
    if ops == [] then [map[]] else OnTuples(RunTuples(ops[..|ops| - 1]), ops[|ops| - 1])
  }

  function RunTable(ops: seq<Op>, ns: Space): seq<map<Sym, Bound>> {
    if ops == [] then [map[]] else OnTable(RunTable(ops[..|ops| - 1], ns), ns, ops[|ops| - 1])
  }

  /** At every depth the tuples show what the table of the name space shows. */
  ghost predicate Shows(s: seq<map<Sym, Entry>>, layers: seq<map<Sym, Bound>>, ns: Space) {
    |s| == |layers| && forall i, k :: 0 <= i <= |s| ==> EntryOf(s[..i], k).In(ns) == Lookup(layers[..i], k)
  }

  lemma ShowsStep(s: seq<map<Sym, Entry>>, layers: seq<map<Sym, Bound>>, ns: Space, op: Op)
    requires Shows(s, layers, ns)
    ensures Shows(OnTuples(s, op), OnTable(layers, ns, op), ns)
  {
    var s2, l2 := OnTuples(s, op), OnTable(layers, ns, op);
    var n := |s|;
    forall i, k | 0 <= i <= |s2| ensures EntryOf(s2[..i], k).In(ns) == Lookup(l2[..i], k) {
      match op
      case OpBegin =>
        assert s[..n] == s && layers[..n] == layers;
        if i <= n { assert s2[..i] == s[..i] && l2[..i] == layers[..i]; } else { BeginShows(s, layers, ns, k); }
      case OpEnd =>
        assert s2[..i] == s[..i] && l2[..i] == layers[..i];
      case OpPut(m, x, b) =>
        if n > 0 && i < n {
          assert s2[..i] == s[..i] && l2[..i] == layers[..i];
        } else if n > 0 {
          assert s2[..i] == s2 && l2[..i] == l2 && s[..n] == s && layers[..n] == layers;
          PutShows(s, layers, ns, m, x, b, k);
        }
    }
  }

  lemma BeginShows(s: seq<map<Sym, Entry>>, layers: seq<map<Sym, Bound>>, ns: Space, k: Sym)
    requires |s| == |layers| && EntryOf(s, k).In(ns) == Lookup(layers, k)
    ensures var s2, l2 := Begin(s), layers + [map[]]; EntryOf(s2[..|s2|], k).In(ns) == Lookup(l2[..|l2|], k)
  {
    var s2, l2 := Begin(s), layers + [map[]];
    assert s2[..|s2|] == s2 && l2[..|l2|] == l2 && l2[..|l2| - 1] == layers;
  }

  lemma PutShows(s: seq<map<Sym, Entry>>, layers: seq<map<Sym, Bound>>, ns: Space, m: Space, x: Sym, b: Bound, k: Sym)
    requires s != [] && |s| == |layers| && forall y :: EntryOf(s, y).In(ns) == Lookup(layers, y)
    ensures EntryOf(OnTuples(s, OpPut(m, x, b)), k).In(ns) == Lookup(OnTable(layers, ns, OpPut(m, x, b)), k)
  {
    var l2 := OnTable(layers, ns, OpPut(m, x, b));
    assert EntryOf(s, k).In(ns) == Lookup(layers, k);
    assert l2[..|l2| - 1] == layers[..|layers| - 1];
  }

  /** One scoped map of tuples is three independent symbol tables: over every sequence of
      operations, what a name resolves to in one name space is what the innermost put in that name
      space, in a scope still open, gave it. */
  lemma {:induction false} TuplesAreTables(ops: seq<Op>, ns: Space)
    ensures Shows(RunTuples(ops), RunTable(ops, ns), ns)
    ensures forall k :: EntryOf(RunTuples(ops), k).In(ns) == Lookup(RunTable(ops, ns), k)
    decreases |ops|
  {
    var s, layers := RunTuples(ops), RunTable(ops, ns);
    if ops == [] {
      forall i, k | 0 <= i <= 1 ensures EntryOf(s[..i], k).In(ns) == Lookup(layers[..i], k) {
        if i == 1 { assert layers[..1][..0] == []; }
      }
    } else {
      TuplesAreTables(ops[..|ops| - 1], ns);
      ShowsStep(RunTuples(ops[..|ops| - 1]), RunTable(ops[..|ops| - 1], ns), ns, ops[|ops| - 1]);
    }
    assert s[..|s|] == s && layers[..|layers|] == layers;
    forall k ensures EntryOf(s, k).In(ns) == Lookup(layers, k) { assert EntryOf(s[..|s|], k).In(ns) == Lookup(layers[..|s|], k); }
  }

  // ----- what the binder reports -----

  /** What the binder does at a node: binds a use or a `break`, or reports an error. */
  datatype Msg =
    | BoundVar(x: Sym, dec: nat)
    | BoundFun(f: Sym, dec: nat)
    | BoundBreak(loop: nat)
    | UndeclaredVar(x: Sym)
    | UndeclaredFun(f: Sym)
    | StrayBreak
    | RedefinedVar(x: Sym)
    | RedefinedFun(f: Sym)

  /** The names in sight, by name space: scoping by value. */
  datatype Sight = Sight(vars: map<Sym, Bound>, funs: map<Sym, Bound>)
  {
    function Var(x: Sym, b: Bound): Sight { this.(vars := vars[x := b]) }

    function Fun(f: Sym, b: Bound): Sight { this.(funs := funs[f := b]) }
  }

  /** The messages written, the count of chunks completed (`nb_chunks`) and of nodes numbered. */
  datatype Progress = Progress(log: seq<Msg>, chunks: nat, nodes: nat)
  {
    function Log(m: Msg): Progress { this.(log := log + [m]) }

    function Node(): Progress { this.(nodes := nodes + 1) }

    function Chunk(): Progress { this.(chunks := chunks + 1) }
  }

  /** A declaration is bound to its node, unless its name was bound with the current stamp: that is
      an error, and the first definition stays. */
  function DeclareVar(x: Sym, sight: Sight, p: Progress): (Sight, Progress) {
    if x in sight.vars && sight.vars[x].stamp == p.chunks then (sight, p.Node().Log(RedefinedVar(x)))
    else (sight.Var(x, Bound(p.nodes, p.chunks)), p.Node())
  }

  function DeclareFun(f: Sym, sight: Sight, p: Progress): (Sight, Progress) {
    if f in sight.funs && sight.funs[f].stamp == p.chunks then (sight, p.Node().Log(RedefinedFun(f)))
    else (sight.Fun(f, Bound(p.nodes, p.chunks)), p.Node())
  }

  function DeclareFormals(xs: seq<Sym>, sight: Sight, p: Progress): (Sight, Progress)
    decreases |xs|
  {
    if xs == [] then (sight, p) else
    var d := DeclareVar(xs[0], sight, p);
    DeclareFormals(xs[1..], d.0, d.1)
  }

  function DeclareHeaders(ds: Funs, sight: Sight, p: Progress): (Sight, Progress) {
    match ds
    case NoFun => (sight, p)
    case FunCons(d, rest) =>
      var r := DeclareFun(d.name, sight, p);
      DeclareHeaders(rest, r.0, r.1)
  }

  function Use(x: Sym, sight: Sight): Msg { if x in sight.vars then BoundVar(x, sight.vars[x].dec) else UndeclaredVar(x) }

  /** Visiting `e`: scopes nest as the tree does, a chunk's stamp is the count of chunks completed
      before, and the stack of loops is not reset at functions. */
  function Bind(e: Exp, sight: Sight, p: Progress, loops: seq<nat>): Progress {
    match e
    case IntExp(_) => p
    case VarExp(x) => p.Log(Use(x, sight))
    case OpExp(l, _, r) => Bind(r, sight, Bind(l, sight, p, loops), loops)
    case SeqExp(es) => BindAll(es, sight, p, loops)
    case AssignExp(x, e1) => Bind(e1, sight, p.Log(Use(x, sight)), loops)
    case IfExp(c, t, f) => Bind(f, sight, Bind(t, sight, Bind(c, sight, p, loops), loops), loops)
    case WhileExp(c, body) =>
      var a := Bind(c, sight, p, loops);
      Bind(body, sight, a.Node(), loops + [a.nodes])
    case ForExp(i, lo, hi, body) =>
      var d := DeclareVar(i, sight, Bind(lo, sight, Bind(hi, sight, p, loops), loops));
      Bind(body, d.0, d.1.Node(), loops + [d.1.nodes])
    case BreakExp => p.Log(if loops == [] then StrayBreak else BoundBreak(loops[|loops| - 1]))
    case CallExp(f, args) =>
      if f in sight.funs then BindAll(args, sight, p, loops).Log(BoundFun(f, sight.funs[f].dec))
      else if f in sight.vars then BindAll(args, sight, p.Log(UndeclaredFun(f)), loops)
      else p.Log(UndeclaredFun(f))
    case LetVar(x, init, body) =>
      var d := DeclareVar(x, sight, Bind(init, sight, p, loops));
      Bind(body, d.0, d.1.Chunk(), loops)
    case LetFuns(ds, body) =>
      var h := DeclareHeaders(ds, sight, p);
      Bind(body, h.0, BindBodies(ds, h.0, h.1, loops).Chunk(), loops)
  }

  function BindAll(es: Exps, sight: Sight, p: Progress, loops: seq<nat>): Progress {
    match es
    case NoExp => p
    case Cons(e, rest) => BindAll(rest, sight, Bind(e, sight, p, loops), loops)
  }

  /** Formals are a chunk of variables of their own. */
  function BindBodies(ds: Funs, sight: Sight, p: Progress, loops: seq<nat>): Progress {
    match ds
    case NoFun => p
    case FunCons(d, rest) =>
      var f := DeclareFormals(d.formals, sight, p);
      BindBodies(rest, sight, if d.Function? then Bind(d.body, f.0, f.1.Chunk(), loops) else f.1.Chunk(), loops)
  }

  // ----- the visitor -----

  /** What the top of the table shows. */
  function SightOf(top: map<Sym, Entry>): Sight {
    Sight(map k | k in top && top[k].variable.Some? :: top[k].variable.value,
          map k | k in top && top[k].fun.Some? :: top[k].fun.value)
  }

  ghost predicate Binds(top: map<Sym, Entry>) { forall k :: k in top ==> top[k].variable.Some? || top[k].fun.Some? }

  ghost predicate AllBind(s: seq<map<Sym, Entry>>) { s != [] && forall i :: 0 <= i < |s| ==> Binds(s[i]) }

  /** Only the top of the stack differs. */
  ghost predicate SameBelow(s: seq<map<Sym, Entry>>, t: seq<map<Sym, Entry>>) {
    |s| == |t| > 0 && s[..|s| - 1] == t[..|t| - 1]
  }

  lemma SeenIn(top: map<Sym, Entry>, x: Sym)
    ensures x in SightOf(top).vars <==> x in top && top[x].variable.Some?
    ensures x in SightOf(top).vars ==> SightOf(top).vars[x] == top[x].variable.value
    ensures x in SightOf(top).funs <==> x in top && top[x].fun.Some?
    ensures x in SightOf(top).funs ==> SightOf(top).funs[x] == top[x].fun.value
  {}

  /** A put shows in its own name space only. */
  lemma PutSees(top: map<Sym, Entry>, x: Sym, ns: Space, b: Bound)
    requires ns != Types
    ensures var top2 := top[x := (if x in top then top[x] else NOTHING).With(ns, b)];
      && SightOf(top2) == (if ns == Vars then SightOf(top).Var(x, b) else SightOf(top).Fun(x, b))
      && (Binds(top) ==> Binds(top2))
  {
    var e := (if x in top then top[x] else NOTHING).With(ns, b);
    var top2, s := top[x := e], SightOf(top);
    if ns == Vars {
      assert SightOf(top2).vars == s.vars[x := b];
      assert SightOf(top2).funs == s.funs;
    } else {
      assert SightOf(top2).funs == s.funs[x := b];
      assert SightOf(top2).vars == s.vars;
    }
  }

  class Binder {
    const sm: ScopedMap<Entry>
    var breakStack: seq<nat>
    var nbChunks: nat
    var nodes: nat
    var log: seq<Msg>

    constructor ()
      ensures Valid() && fresh(sm) && sm.stack == [map[]] && breakStack == [] && Done() == Progress([], 0, 0)
    {
      sm := new ScopedMap();
      breakStack, nbChunks, nodes, log := [], 0, 0, [];
    }

    /** Every entry of the table binds something. */
    ghost predicate Valid() reads this, sm { AllBind(sm.stack) }

    /** What is bound at this point. */
    ghost function Sees(): Sight reads this, sm { SightOf(TopMap(sm.stack)) }

    ghost function Done(): Progress reads this { Progress(log, nbChunks, nodes) }

    method OpenScope()
      requires Valid()
      modifies sm
      ensures Valid() && Sees() == old(Sees()) && sm.stack != [] && sm.stack[..|sm.stack| - 1] == old(sm.stack)
    {
      sm.ScopeBegin();
      assert sm.stack[..|sm.stack| - 1] == old(sm.stack);
    }

    method CloseScope(ghost outer: seq<map<Sym, Entry>>)
      requires sm.stack != [] && sm.stack[..|sm.stack| - 1] == outer && AllBind(outer)
      modifies sm
      ensures Valid() && sm.stack == outer
    {
      sm.ScopeEnd();
    }

    method Write(m: Msg)
      modifies this
      ensures Done() == old(Done()).Log(m) && breakStack == old(breakStack)
    {
      log := log + [m];
    }

    method Declare(x: Sym, ns: Space)
      requires Valid() && ns != Types
      modifies this, sm
      ensures Valid() && SameBelow(old(sm.stack), sm.stack) && breakStack == old(breakStack)
      ensures (Sees(), Done()) == if ns == Vars then DeclareVar(x, old(Sees()), old(Done())) else DeclareFun(x, old(Sees()), old(Done()))
    {
      hide SightOf, Binds;
      ghost var top := TopMap(sm.stack);
      SeenIn(top, x);
      PutSees(top, x, ns, Bound(nodes, nbChunks));
      var id := nodes;
      nodes := nodes + 1;
      var r := sm.Get(x);
      if r.Data? {
        var b := r.data.In(ns);
        if b.Some? && b.value.stamp == nbChunks {
          Write(if ns == Vars then RedefinedVar(x) else RedefinedFun(x));
        } else {
          sm.Put(x, r.data.With(ns, Bound(id, nbChunks)));
        }
      } else {
        sm.Put(x, NOTHING.With(ns, Bound(id, nbChunks)));
      }
    }

    method VisitSimpleVar(x: Sym)
      requires Valid()
      modifies this
      ensures Valid() && Done() == old(Done()).Log(Use(x, Sees())) && breakStack == old(breakStack)
    {
      var r := sm.Get(x);
      if r.Data? && r.data.variable.Some? {
        Write(BoundVar(x, r.data.variable.value.dec));
      } else {
        Write(UndeclaredVar(x));
      }
    }

    method VisitExp(e: Exp)
      requires Valid()
      modifies this, sm
      ensures Valid() && sm.stack == old(sm.stack) && breakStack == old(breakStack)
      ensures Done() == Bind(e, Sees(), old(Done()), breakStack)
      decreases e, 1
    {
      hide AllBind, SightOf;
      match e
      case IntExp(_) =>
      case VarExp(x) => VisitSimpleVar(x);
      case OpExp(l, _, r) => VisitExp(l); VisitExp(r);
      case SeqExp(es) => VisitExps(es);
      case AssignExp(x, e1) => VisitSimpleVar(x); VisitExp(e1);
      case IfExp(c, t, f) => VisitExp(c); VisitExp(t); VisitExp(f);
      case WhileExp(c, body) => VisitExp(c); VisitLoopBody(body);
      case ForExp(i, lo, hi, body) => VisitFor(i, lo, hi, body);
      case BreakExp => if |breakStack| == 0 { Write(StrayBreak); } else { Write(BoundBreak(breakStack[|breakStack| - 1])); }
      case CallExp(f, args) => VisitCall(f, args);
      case LetVar(x, init, body) => VisitLetVar(x, init, body);
      case LetFuns(ds, body) => VisitLetFuns(ds, body);
    }

    /** The loop is on the break stack while its body is visited. */
    method VisitLoopBody(body: Exp)
      requires Valid()
      modifies this, sm
      ensures Valid() && sm.stack == old(sm.stack) && breakStack == old(breakStack)
      ensures Done() == Bind(body, Sees(), old(Done()).Node(), breakStack + [old(nodes)])
      decreases body, 2
    {
      breakStack := breakStack + [nodes];
      nodes := nodes + 1;
      VisitExp(body);
      breakStack := breakStack[..|breakStack| - 1];
    }

    method VisitFor(i: Sym, lo: Exp, hi: Exp, body: Exp)
      requires Valid()
      modifies this, sm
      ensures Valid() && sm.stack == old(sm.stack) && breakStack == old(breakStack)
      ensures Done() == Bind(ForExp(i, lo, hi, body), Sees(), old(Done()), breakStack)
      decreases ForExp(i, lo, hi, body), 0
    {
      hide AllBind, SightOf, DeclareVar;
      ghost var s := sm.stack;
      VisitExp(hi);
      OpenScope();
      VisitExp(lo);
      Declare(i, Vars);
      VisitLoopBody(body);
      CloseScope(s);
    }

    /** The arguments of a call are visited unless nothing at all has the name. */
    method VisitCall(f: Sym, args: Exps)
      requires Valid()
      modifies this, sm
      ensures Valid() && sm.stack == old(sm.stack) && breakStack == old(breakStack)
      ensures Done() == Bind(CallExp(f, args), Sees(), old(Done()), breakStack)
      decreases CallExp(f, args), 0
    {
      var r := sm.Get(f);
      if !r.Data? {
        Write(UndeclaredFun(f));
      } else if r.data.fun.None? {
        Write(UndeclaredFun(f));
        VisitExps(args);
      } else {
        VisitExps(args);
        Write(BoundFun(f, r.data.fun.value.dec));
      }
    }

    method VisitExps(es: Exps)
      requires Valid()
      modifies this, sm
      ensures Valid() && sm.stack == old(sm.stack) && breakStack == old(breakStack)
      ensures Done() == BindAll(es, Sees(), old(Done()), breakStack)
      decreases es, 1
    {
      var rest := es;
      while rest.Cons?
        invariant (rest == es || rest < es) && Valid() && sm.stack == old(sm.stack) && breakStack == old(breakStack)
        invariant BindAll(rest, Sees(), Done(), breakStack) == BindAll(es, old(Sees()), old(Done()), breakStack)
        decreases rest
      {
        VisitExp(rest.head);
        rest := rest.tail;
      }
    }

    method VisitLetVar(x: Sym, init: Exp, body: Exp)
      requires Valid()
      modifies this, sm
      ensures Valid() && sm.stack == old(sm.stack) && breakStack == old(breakStack)
      ensures Done() == Bind(LetVar(x, init, body), Sees(), old(Done()), breakStack)
      decreases LetVar(x, init, body), 0
    {
      hide AllBind, SightOf, DeclareVar;
      ghost var s := sm.stack;
      OpenScope();
      VisitExp(init);
      Declare(x, Vars);
      nbChunks := nbChunks + 1;
      VisitExp(body);
      CloseScope(s);
    }

    method VisitLetFuns(ds: Funs, body: Exp)
      requires Valid()
      modifies this, sm
      ensures Valid() && sm.stack == old(sm.stack) && breakStack == old(breakStack)
      ensures Done() == Bind(LetFuns(ds, body), Sees(), old(Done()), breakStack)
      decreases LetFuns(ds, body), 0
    {
      hide AllBind, SightOf, DeclareHeaders, BindBodies;
      ghost var s := sm.stack;
      OpenScope();
      VisitFunctionChunk(ds);
      VisitExp(body);
      CloseScope(s);
    }

    /** Headers, then bodies; the chunk is complete after both. */
    method VisitFunctionChunk(ds: Funs)
      requires Valid()
      modifies this, sm
      ensures Valid() && SameBelow(old(sm.stack), sm.stack) && breakStack == old(breakStack)
      ensures var h := DeclareHeaders(ds, old(Sees()), old(Done()));
        Sees() == h.0 && Done() == BindBodies(ds, h.0, h.1, breakStack).Chunk()
      decreases ds, 2
    {
      hide AllBind, SightOf, DeclareHeaders, BindBodies;
      VisitHeaders(ds);
      VisitBodies(ds);
      nbChunks := nbChunks + 1;
    }

    method VisitHeaders(ds: Funs)
      requires Valid()
      modifies this, sm
      ensures Valid() && SameBelow(old(sm.stack), sm.stack) && breakStack == old(breakStack)
      ensures (Sees(), Done()) == DeclareHeaders(ds, old(Sees()), old(Done()))
    {
      var rest := ds;
      while rest.FunCons?
        invariant Valid() && SameBelow(old(sm.stack), sm.stack) && breakStack == old(breakStack)
        invariant DeclareHeaders(rest, Sees(), Done()) == DeclareHeaders(ds, old(Sees()), old(Done()))
        decreases rest
      {
        Declare(rest.first.name, Funs);
        rest := rest.rest;
      }
    }

    method VisitFormals(xs: seq<Sym>)
      requires Valid()
      modifies this, sm
      ensures Valid() && SameBelow(old(sm.stack), sm.stack) && breakStack == old(breakStack)
      ensures (Sees(), Done()) == DeclareFormals(xs, old(Sees()), old(Done()))
    {
      for i := 0 to |xs|
        invariant Valid() && SameBelow(old(sm.stack), sm.stack) && breakStack == old(breakStack)
        invariant DeclareFormals(xs[i..], Sees(), Done()) == DeclareFormals(xs, old(Sees()), old(Done()))
      {
        assert xs[i..][1..] == xs[i + 1..];
        Declare(xs[i], Vars);
      }
    }

    method VisitBodies(ds: Funs)
      requires Valid()
      modifies this, sm
      ensures Valid() && sm.stack == old(sm.stack) && breakStack == old(breakStack)
      ensures Done() == BindBodies(ds, Sees(), old(Done()), breakStack)
      decreases ds, 1
    {
      var rest := ds;
      while rest.FunCons?
        invariant (rest == ds || rest < ds) && Valid() && sm.stack == old(sm.stack) && breakStack == old(breakStack)
        invariant BindBodies(rest, Sees(), Done(), breakStack) == BindBodies(ds, old(Sees()), old(Done()), breakStack)
        decreases rest
      {
        VisitDecBody(rest.first);
        rest := rest.rest;
      }
    }

    method VisitDecBody(d: FunDec)
      requires Valid()
      modifies this, sm
      ensures Valid() && sm.stack == old(sm.stack) && breakStack == old(breakStack)
      ensures BindBodies(FunCons(d, NoFun), Sees(), old(Done()), breakStack) == Done()
      decreases d, 2
    {
      hide AllBind, SightOf, DeclareFormals;
      ghost var s := sm.stack;
      OpenScope();
      VisitFormals(d.formals);
      nbChunks := nbChunks + 1;
      if d.Function? { VisitExp(d.body); }
      CloseScope(s);
    }
  }
}
