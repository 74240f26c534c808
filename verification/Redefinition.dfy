/** What the binder's reports come to: lexical scoping, and redefinition of a name within its chunk. */
module Redefinition {
  import opened Int32
  import opened Options
  import opened Tiger
  import opened Programs
  import opened Binder

  // ----- scoping without stamps -----

  type Decs = map<Sym, nat>

  /** A repeated formal is an error and keeps its first definition. */
  function LexFormals(xs: seq<Sym>, seen: set<Sym>, vars: Decs, p: Progress): (Decs, Progress)
    decreases |xs|
  {
    if xs == [] then (vars, p)
    else if xs[0] in seen then LexFormals(xs[1..], seen, vars, p.Node().Log(RedefinedVar(xs[0])))
    else LexFormals(xs[1..], seen + {xs[0]}, vars[xs[0] := p.nodes], p.Node())
  }

  function LexHeaders(ds: Funs, seen: set<Sym>, funs: Decs, p: Progress): (Decs, Progress) {
    match ds
    case NoFun => (funs, p)
    case FunCons(d, rest) =>
      if d.name in seen then LexHeaders(rest, seen, funs, p.Node().Log(RedefinedFun(d.name)))
      else LexHeaders(rest, seen + {d.name}, funs[d.name := p.nodes], p.Node())
  }

  function LexUse(x: Sym, vars: Decs): Msg { if x in vars then BoundVar(x, vars[x]) else UndeclaredVar(x) }

  /** Lexical scoping: a declaration in a scope of its own hides, and is never an error. */
  function Lexical(e: Exp, vars: Decs, funs: Decs, p: Progress, loops: seq<nat>): Progress {
    match e
    case IntExp(_) => p
    case VarExp(x) => p.Log(LexUse(x, vars))
    case OpExp(l, _, r) => Lexical(r, vars, funs, Lexical(l, vars, funs, p, loops), loops)
    case SeqExp(es) => LexicalAll(es, vars, funs, p, loops)
    case AssignExp(x, e1) => Lexical(e1, vars, funs, p.Log(LexUse(x, vars)), loops)
    case IfExp(c, t, f) => Lexical(f, vars, funs, Lexical(t, vars, funs, Lexical(c, vars, funs, p, loops), loops), loops)
    case WhileExp(c, body) =>
      var a := Lexical(c, vars, funs, p, loops);
      Lexical(body, vars, funs, a.Node(), loops + [a.nodes])
    case ForExp(i, lo, hi, body) =>
      var a := Lexical(lo, vars, funs, Lexical(hi, vars, funs, p, loops), loops);
      Lexical(body, vars[i := a.nodes], funs, a.Node().Node(), loops + [a.nodes + 1])
    case BreakExp => p.Log(if loops == [] then StrayBreak else BoundBreak(loops[|loops| - 1]))
    case CallExp(f, args) =>
      if f in funs then LexicalAll(args, vars, funs, p, loops).Log(BoundFun(f, funs[f]))
      else if f in vars then LexicalAll(args, vars, funs, p.Log(UndeclaredFun(f)), loops)
      else p.Log(UndeclaredFun(f))
    case LetVar(x, init, body) =>
      var a := Lexical(init, vars, funs, p, loops);
      Lexical(body, vars[x := a.nodes], funs, a.Node().Chunk(), loops)
    case LetFuns(ds, body) =>
      var h := LexHeaders(ds, {}, funs, p);
      Lexical(body, vars, h.0, LexicalBodies(ds, vars, h.0, h.1, loops).Chunk(), loops)
  }

  function LexicalAll(es: Exps, vars: Decs, funs: Decs, p: Progress, loops: seq<nat>): Progress {
    match es
    case NoExp => p
    case Cons(e, rest) => LexicalAll(rest, vars, funs, Lexical(e, vars, funs, p, loops), loops)
  }

  function LexicalBodies(ds: Funs, vars: Decs, funs: Decs, p: Progress, loops: seq<nat>): Progress {
    match ds
    case NoFun => p
    case FunCons(d, rest) =>
      var f := LexFormals(d.formals, {}, vars, p);
      LexicalBodies(rest, vars, funs, if d.Function? then Lexical(d.body, f.0, funs, f.1.Chunk(), loops) else f.1.Chunk(), loops)
  }

  // ----- stamps tell chunks apart, but for the index of a loop -----

  function DecsOf(m: map<Sym, Bound>): Decs { map k | k in m :: m[k].dec }

  function KnownIn(sight: Sight): set<Sym> { sight.vars.Keys + sight.funs.Keys }

  function Heads(ds: Funs): set<Sym> { match ds case NoFun => {} case FunCons(d, rest) => {d.name} + Heads(rest) }

  /** Visiting `e` completes a chunk, where the names `known` are bound: the arguments of a call to a
      name bound to nothing are not visited. */
  predicate Completes(e: Exp, known: set<Sym>) {
    match e
    case IntExp(_) => false
    case VarExp(_) => false
    case OpExp(l, _, r) => Completes(l, known) || Completes(r, known)
    case SeqExp(es) => CompletesAll(es, known)
    case AssignExp(_, e1) => Completes(e1, known)
    case IfExp(c, t, f) => Completes(c, known) || Completes(t, known) || Completes(f, known)
    case WhileExp(c, body) => Completes(c, known) || Completes(body, known)
    case ForExp(i, lo, hi, body) => Completes(lo, known) || Completes(hi, known) || Completes(body, known + {i})
    case BreakExp => false
    case CallExp(f, args) => f in known && CompletesAll(args, known)
    case LetVar(_, _, _) => true
    case LetFuns(_, _) => true
  }

  predicate CompletesAll(es: Exps, known: set<Sym>) {
    match es
    case NoExp => false
    case Cons(e, rest) => Completes(e, known) || CompletesAll(rest, known)
  }

  /** Of the names that carry the current stamp, those that still do after `e`. */
  function Cool(e: Exp, hot: set<Sym>, known: set<Sym>): set<Sym> { if Completes(e, known) then {} else hot }

  /** How many declarations meet the name of an index with no chunk completed in between; `hot` are
      the indices in sight of which this holds at the start. */
  function Collisions(e: Exp, hot: set<Sym>, known: set<Sym>): nat {
    match e
    case IntExp(_) => 0
    case VarExp(_) => 0
    case OpExp(l, _, r) => Collisions(l, hot, known) + Collisions(r, Cool(l, hot, known), known)
    case SeqExp(es) => CollisionsAll(es, hot, known)
    case AssignExp(_, e1) => Collisions(e1, hot, known)
    case IfExp(c, t, f) =>
      var hot1 := Cool(c, hot, known);
      Collisions(c, hot, known) + Collisions(t, hot1, known) + Collisions(f, Cool(t, hot1, known), known)
    case WhileExp(c, body) => Collisions(c, hot, known) + Collisions(body, Cool(c, hot, known), known)
    case ForExp(i, lo, hi, body) =>
      var hot1 := Cool(hi, hot, known);
      var hot2 := Cool(lo, hot1, known);
      Collisions(hi, hot, known) + Collisions(lo, hot1, known) + Meets(i, hot2) + Collisions(body, hot2 + {i}, known + {i})
    case BreakExp => 0
    case CallExp(f, args) => if f in known then CollisionsAll(args, hot, known) else 0
    case LetVar(x, init, body) =>
      Collisions(init, hot, known) + Meets(x, Cool(init, hot, known)) + Collisions(body, {}, known + {x})
    case LetFuns(ds, body) => CollisionsIn(ds, hot, known + Heads(ds)) + Collisions(body, {}, known + Heads(ds))
  }

  function Meets(x: Sym, hot: set<Sym>): nat { if x in hot then 1 else 0 }

  function CollisionsAll(es: Exps, hot: set<Sym>, known: set<Sym>): nat {
    match es
    case NoExp => 0
    case Cons(e, rest) => Collisions(e, hot, known) + CollisionsAll(rest, Cool(e, hot, known), known)
  }

  /** Formals are declared before their own chunk is complete. */
  function CollisionsIn(ds: Funs, hot: set<Sym>, known: set<Sym>): nat {
    match ds
    case NoFun => 0
    case FunCons(d, rest) =>
      FormalCollisions(d.formals, {}, hot)
      + (if d.Function? then Collisions(d.body, {}, known + NamesOf(d.formals)) else 0) + CollisionsIn(rest, {}, known)
  }

  function NamesOf(xs: seq<Sym>): set<Sym> { set x | x in xs }

  function FormalCollisions(xs: seq<Sym>, seen: set<Sym>, hot: set<Sym>): nat
    decreases |xs|
  {
    if xs == [] then 0
    else (if xs[0] in seen then 0 else Meets(xs[0], hot)) + FormalCollisions(xs[1..], seen + {xs[0]}, hot)
  }

  /** Every stamp in sight is of a chunk completed before. */
  ghost predicate Older(m: map<Sym, Bound>, chunks: nat) { forall k :: k in m ==> m[k].stamp < chunks }

  /** The names with the current stamp are those of `seen`. */
  ghost predicate Stamped(m: map<Sym, Bound>, seen: set<Sym>, chunks: nat) {
    forall k :: k in m ==> m[k].stamp <= chunks && (m[k].stamp == chunks <==> k in seen)
  }

  /** Of the variables in sight `hot` have the current stamp, of the functions none has. */
  ghost predicate Ready(sight: Sight, p: Progress, hot: set<Sym>) {
    Stamped(sight.vars, hot, p.chunks) && hot <= sight.vars.Keys && Older(sight.funs, p.chunks)
  }

  /** The same while the bodies of a function chunk are visited: its own functions do have it. */
  ghost predicate InChunk(sight: Sight, p: Progress, hot: set<Sym>) {
    Stamped(sight.vars, hot, p.chunks) && hot <= sight.vars.Keys && Older(sight.funs, p.chunks + 1)
  }

  /** The count of chunks moves on exactly where the text has one. */
  ghost predicate Counts(p: Progress, q: Progress, completes: bool) {
    q.chunks >= p.chunks && (q.chunks > p.chunks <==> completes)
  }

  lemma DecsPut(m: map<Sym, Bound>, x: Sym, b: Bound)
    ensures DecsOf(m[x := b]) == DecsOf(m)[x := b.dec]
  {}

  lemma {:induction false} FormalsKnown(xs: seq<Sym>, sight: Sight, p: Progress)
    ensures var d := DeclareFormals(xs, sight, p);
      d.0.vars.Keys == sight.vars.Keys + NamesOf(xs) && d.0.funs == sight.funs && d.1.chunks == p.chunks
    decreases |xs|
  {
    if xs != [] {
      var d := DeclareVar(xs[0], sight, p);
      FormalsKnown(xs[1..], d.0, d.1);
      assert NamesOf(xs) == {xs[0]} + NamesOf(xs[1..]) by { assert xs == [xs[0]] + xs[1..]; }
    }
  }

  lemma {:induction false} HeadersKnown(ds: Funs, sight: Sight, p: Progress)
    ensures var d := DeclareHeaders(ds, sight, p);
      d.0.funs.Keys == sight.funs.Keys + Heads(ds) && d.0.vars == sight.vars && d.1.chunks == p.chunks
  {
    if ds.FunCons? {
      var d := DeclareFun(ds.first.name, sight, p);
      HeadersKnown(ds.rest, d.0, d.1);
    }
  }

  lemma {:induction false} ChunksCounted(e: Exp, sight: Sight, p: Progress, loops: seq<nat>)
    ensures Counts(p, Bind(e, sight, p, loops), Completes(e, KnownIn(sight)))
    decreases e
  {
    match e
    case OpExp(l, _, r) =>
      ChunksCounted(l, sight, p, loops);
      ChunksCounted(r, sight, Bind(l, sight, p, loops), loops);
    case SeqExp(es) => AllChunksCounted(es, sight, p, loops);
    case AssignExp(x, e1) => ChunksCounted(e1, sight, p.Log(Use(x, sight)), loops);
    case IfExp(c, t, f) =>
      var a := Bind(c, sight, p, loops);
      ChunksCounted(c, sight, p, loops);
      ChunksCounted(t, sight, a, loops);
      ChunksCounted(f, sight, Bind(t, sight, a, loops), loops);
    case WhileExp(c, body) =>
      var a := Bind(c, sight, p, loops);
      ChunksCounted(c, sight, p, loops);
      ChunksCounted(body, sight, a.Node(), loops + [a.nodes]);
    case ForExp(i, lo, hi, body) =>
      var a := Bind(hi, sight, p, loops);
      var b := Bind(lo, sight, a, loops);
      var d := DeclareVar(i, sight, b);
      ChunksCounted(hi, sight, p, loops);
      ChunksCounted(lo, sight, a, loops);
      ChunksCounted(body, d.0, d.1.Node(), loops + [d.1.nodes]);
      assert KnownIn(d.0) == KnownIn(sight) + {i};
    case CallExp(f, args) =>
      AllChunksCounted(args, sight, p, loops);
      AllChunksCounted(args, sight, p.Log(UndeclaredFun(f)), loops);
    case LetVar(x, init, body) =>
      var d := DeclareVar(x, sight, Bind(init, sight, p, loops));
      ChunksCounted(init, sight, p, loops);
      ChunksCounted(body, d.0, d.1.Chunk(), loops);
    case LetFuns(ds, body) =>
      var h := DeclareHeaders(ds, sight, p);
      HeadersKnown(ds, sight, p);
      BodiesCounted(ds, h.0, h.1, loops);
      ChunksCounted(body, h.0, BindBodies(ds, h.0, h.1, loops).Chunk(), loops);
    case _ =>
  }

  lemma {:induction false} AllChunksCounted(es: Exps, sight: Sight, p: Progress, loops: seq<nat>)
    ensures Counts(p, BindAll(es, sight, p, loops), CompletesAll(es, KnownIn(sight)))
    decreases es
  {
    if es.Cons? {
      ChunksCounted(es.head, sight, p, loops);
      AllChunksCounted(es.tail, sight, Bind(es.head, sight, p, loops), loops);
    }
  }

  lemma {:induction false} BodiesCounted(ds: Funs, sight: Sight, p: Progress, loops: seq<nat>)
    ensures Counts(p, BindBodies(ds, sight, p, loops), ds.FunCons?)
    decreases ds
  {
    if ds.FunCons? {
      var d := ds.first;
      var f := DeclareFormals(d.formals, sight, p);
      FormalsKnown(d.formals, sight, p);
      if d.Function? { ChunksCounted(d.body, f.0, f.1.Chunk(), loops); }
      BodiesCounted(ds.rest, sight, if d.Function? then Bind(d.body, f.0, f.1.Chunk(), loops) else f.1.Chunk(), loops);
    }
  }

  /** After `e` the binder is ready for what comes next. */
  lemma StaysReady(e: Exp, sight: Sight, p: Progress, loops: seq<nat>, hot: set<Sym>)
    requires Ready(sight, p, hot)
    ensures Ready(sight, Bind(e, sight, p, loops), Cool(e, hot, KnownIn(sight)))
  {
    ChunksCounted(e, sight, p, loops);
  }

  lemma IndexReady(i: Sym, sight: Sight, p: Progress, hot: set<Sym>)
    requires Ready(sight, p, hot)
    ensures var d := DeclareVar(i, sight, p);
      Ready(d.0, d.1, hot + {i}) && Ready(d.0, d.1.Chunk(), {}) && KnownIn(d.0) == KnownIn(sight) + {i}
  {}

  /** No name of `hot` is met: the declaration is bound. */
  lemma DeclaredNew(x: Sym, sight: Sight, p: Progress, hot: set<Sym>)
    requires Ready(sight, p, hot) && x !in hot
    ensures DeclareVar(x, sight, p) == (sight.Var(x, Bound(p.nodes, p.chunks)), p.Node())
    ensures DecsOf(sight.vars[x := Bound(p.nodes, p.chunks)]) == DecsOf(sight.vars)[x := p.nodes]
  {}

  lemma FormalsReady(xs: seq<Sym>, sight: Sight, p: Progress, hot: set<Sym>)
    requires InChunk(sight, p, hot)
    ensures var d := DeclareFormals(xs, sight, p);
      Ready(d.0, d.1.Chunk(), {}) && KnownIn(d.0) == KnownIn(sight) + NamesOf(xs)
  {
    FormalsOlder(xs, sight, p);
    FormalsKnown(xs, sight, p);
  }

  lemma {:induction false} FormalsOlder(xs: seq<Sym>, sight: Sight, p: Progress)
    requires Older(sight.vars, p.chunks + 1)
    ensures Older(DeclareFormals(xs, sight, p).0.vars, p.chunks + 1)
    decreases |xs|
  {
    if xs != [] {
      var d := DeclareVar(xs[0], sight, p);
      FormalsOlder(xs[1..], d.0, d.1);
    }
  }

  lemma {:induction false} HeadersOlder(ds: Funs, sight: Sight, p: Progress)
    requires Older(sight.funs, p.chunks + 1)
    ensures Older(DeclareHeaders(ds, sight, p).0.funs, p.chunks + 1)
  {
    if ds.FunCons? {
      var d := DeclareFun(ds.first.name, sight, p);
      HeadersOlder(ds.rest, d.0, d.1);
    }
  }

  lemma ChunkReady(ds: Funs, sight: Sight, p: Progress, loops: seq<nat>, hot: set<Sym>)
    requires Ready(sight, p, hot)
    ensures var h := DeclareHeaders(ds, sight, p);
      && InChunk(h.0, h.1, hot) && Ready(h.0, BindBodies(ds, h.0, h.1, loops).Chunk(), {})
      && KnownIn(h.0) == KnownIn(sight) + Heads(ds)
  {
    var h := DeclareHeaders(ds, sight, p);
    HeadersOlder(ds, sight, p);
    HeadersKnown(ds, sight, p);
    BodiesCounted(ds, h.0, h.1, loops);
  }

  lemma BodyReady(ds: Funs, sight: Sight, p: Progress, loops: seq<nat>, hot: set<Sym>)
    requires ds.FunCons? && InChunk(sight, p, hot)
    ensures InChunk(sight, BindBodies(FunCons(ds.first, NoFun), sight, p, loops), {})
  {
    BodiesCounted(FunCons(ds.first, NoFun), sight, p, loops);
  }

  // ----- without collisions -----

  lemma {:induction false} FormalsExact(xs: seq<Sym>, seen: set<Sym>, hot: set<Sym>, sight: Sight, p: Progress)
    requires Stamped(sight.vars, hot + seen, p.chunks) && hot + seen <= sight.vars.Keys && FormalCollisions(xs, seen, hot) == 0
    ensures var a, b := DeclareFormals(xs, sight, p), LexFormals(xs, seen, DecsOf(sight.vars), p);
      DecsOf(a.0.vars) == b.0 && a.1 == b.1 && a.0.funs == sight.funs
    decreases |xs|
  {
    if xs != [] {
      var d := DeclareVar(xs[0], sight, p);
      DecsPut(sight.vars, xs[0], Bound(p.nodes, p.chunks));
      if xs[0] in seen { assert seen + {xs[0]} == seen; }
      FormalsExact(xs[1..], seen + {xs[0]}, hot, d.0, d.1);
    }
  }

  lemma {:induction false} HeadersExact(ds: Funs, seen: set<Sym>, sight: Sight, p: Progress)
    requires Stamped(sight.funs, seen, p.chunks) && seen <= sight.funs.Keys
    ensures var a, b := DeclareHeaders(ds, sight, p), LexHeaders(ds, seen, DecsOf(sight.funs), p);
      DecsOf(a.0.funs) == b.0 && a.1 == b.1 && a.0.vars == sight.vars
  {
    if ds.FunCons? {
      var f := ds.first.name;
      var d := DeclareFun(f, sight, p);
      DecsPut(sight.funs, f, Bound(p.nodes, p.chunks));
      HeadersExact(ds.rest, if f in seen then seen else seen + {f}, d.0, d.1);
    }
  }

  /** Where no declaration meets an index so, the binder is lexical scoping: every use is bound to the
      innermost declaration of its name space, a name is reported exactly when its own chunk declares
      it again, and stamps of nested, earlier or enclosing chunks never collide. */
  lemma {:induction false} BinderIsLexical(e: Exp, sight: Sight, p: Progress, loops: seq<nat>, hot: set<Sym>)
    requires Ready(sight, p, hot) && Collisions(e, hot, KnownIn(sight)) == 0
    ensures Bind(e, sight, p, loops) == Lexical(e, DecsOf(sight.vars), DecsOf(sight.funs), p, loops)
    decreases e
  {
    hide Ready, InChunk;
    match e
    case OpExp(l, _, r) =>
      BinderIsLexical(l, sight, p, loops, hot);
      StaysReady(l, sight, p, loops, hot);
      BinderIsLexical(r, sight, Bind(l, sight, p, loops), loops, Cool(l, hot, KnownIn(sight)));
    case SeqExp(es) => AllLexical(es, sight, p, loops, hot);
    case AssignExp(x, e1) =>
      SameReady(sight, p, p.Log(Use(x, sight)), hot);
      BinderIsLexical(e1, sight, p.Log(Use(x, sight)), loops, hot);
    case IfExp(c, t, f) =>
      var a, hot1 := Bind(c, sight, p, loops), Cool(c, hot, KnownIn(sight));
      BinderIsLexical(c, sight, p, loops, hot);
      StaysReady(c, sight, p, loops, hot);
      BinderIsLexical(t, sight, a, loops, hot1);
      StaysReady(t, sight, a, loops, hot1);
      BinderIsLexical(f, sight, Bind(t, sight, a, loops), loops, Cool(t, hot1, KnownIn(sight)));
    case WhileExp(c, body) =>
      var a := Bind(c, sight, p, loops);
      BinderIsLexical(c, sight, p, loops, hot);
      StaysReady(c, sight, p, loops, hot);
      SameReady(sight, a, a.Node(), Cool(c, hot, KnownIn(sight)));
      BinderIsLexical(body, sight, a.Node(), loops + [a.nodes], Cool(c, hot, KnownIn(sight)));
    case ForExp(i, lo, hi, body) => ForLexical(i, lo, hi, body, sight, p, loops, hot);
    case CallExp(f, args) => CallLexical(f, args, sight, p, loops, hot);
    case LetVar(x, init, body) => LetVarLexical(x, init, body, sight, p, loops, hot);
    case LetFuns(ds, body) =>
      var h := DeclareHeaders(ds, sight, p);
      ReadyFuns(sight, p, hot);
      HeadersExact(ds, {}, sight, p);
      ChunkReady(ds, sight, p, loops, hot);
      BodiesLexical(ds, h.0, h.1, loops, hot);
      BinderIsLexical(body, h.0, BindBodies(ds, h.0, h.1, loops).Chunk(), loops, {});
    case _ =>
  }

  lemma SameReady(sight: Sight, p: Progress, q: Progress, hot: set<Sym>)
    requires Ready(sight, p, hot) && q.chunks == p.chunks
    ensures Ready(sight, q, hot)
  {}

  lemma ReadyFuns(sight: Sight, p: Progress, hot: set<Sym>)
    requires Ready(sight, p, hot)
    ensures Stamped(sight.funs, {}, p.chunks)
  {}

  lemma {:induction false} ForLexical(i: Sym, lo: Exp, hi: Exp, body: Exp, sight: Sight, p: Progress, loops: seq<nat>, hot: set<Sym>)
    requires Ready(sight, p, hot) && Collisions(ForExp(i, lo, hi, body), hot, KnownIn(sight)) == 0
    ensures Bind(ForExp(i, lo, hi, body), sight, p, loops)
         == Lexical(ForExp(i, lo, hi, body), DecsOf(sight.vars), DecsOf(sight.funs), p, loops)
    decreases ForExp(i, lo, hi, body), 0
  {
    hide KnownIn, Ready, DecsOf, DeclareVar;
    var known := KnownIn(sight);
    var hot1 := Cool(hi, hot, known);
    var hot2 := Cool(lo, hot1, known);
    var a := Bind(hi, sight, p, loops);
    var b := Bind(lo, sight, a, loops);
    BinderIsLexical(hi, sight, p, loops, hot);
    StaysReady(hi, sight, p, loops, hot);
    BinderIsLexical(lo, sight, a, loops, hot1);
    StaysReady(lo, sight, a, loops, hot1);
    var d := DeclareVar(i, sight, b);
    IndexReady(i, sight, b, hot2);
    DeclaredNew(i, sight, b, hot2);
    SameReady(d.0, d.1, d.1.Node(), hot2 + {i});
    BinderIsLexical(body, d.0, d.1.Node(), loops + [d.1.nodes], hot2 + {i});
  }

  lemma {:induction false} LetVarLexical(x: Sym, init: Exp, body: Exp, sight: Sight, p: Progress, loops: seq<nat>, hot: set<Sym>)
    requires Ready(sight, p, hot) && Collisions(LetVar(x, init, body), hot, KnownIn(sight)) == 0
    ensures Bind(LetVar(x, init, body), sight, p, loops)
         == Lexical(LetVar(x, init, body), DecsOf(sight.vars), DecsOf(sight.funs), p, loops)
    decreases LetVar(x, init, body), 0
  {
    hide KnownIn, Ready, DecsOf, DeclareVar;
    var a, hot1 := Bind(init, sight, p, loops), Cool(init, hot, KnownIn(sight));
    BinderIsLexical(init, sight, p, loops, hot);
    StaysReady(init, sight, p, loops, hot);
    IndexReady(x, sight, a, hot1);
    DeclaredNew(x, sight, a, hot1);
    BinderIsLexical(body, sight.Var(x, Bound(a.nodes, a.chunks)), a.Node().Chunk(), loops, {});
  }

  lemma {:induction false} CallLexical(f: Sym, args: Exps, sight: Sight, p: Progress, loops: seq<nat>, hot: set<Sym>)
    requires Ready(sight, p, hot) && Collisions(CallExp(f, args), hot, KnownIn(sight)) == 0
    ensures Bind(CallExp(f, args), sight, p, loops) == Lexical(CallExp(f, args), DecsOf(sight.vars), DecsOf(sight.funs), p, loops)
    decreases CallExp(f, args), 0
  {
    if f in KnownIn(sight) {
      AllLexical(args, sight, p, loops, hot);
      AllLexical(args, sight, p.Log(UndeclaredFun(f)), loops, hot);
    }
  }

  lemma {:induction false} AllLexical(es: Exps, sight: Sight, p: Progress, loops: seq<nat>, hot: set<Sym>)
    requires Ready(sight, p, hot) && CollisionsAll(es, hot, KnownIn(sight)) == 0
    ensures BindAll(es, sight, p, loops) == LexicalAll(es, DecsOf(sight.vars), DecsOf(sight.funs), p, loops)
    decreases es
  {
    hide Ready;
    if es.Cons? {
      BinderIsLexical(es.head, sight, p, loops, hot);
      StaysReady(es.head, sight, p, loops, hot);
      AllLexical(es.tail, sight, Bind(es.head, sight, p, loops), loops, Cool(es.head, hot, KnownIn(sight)));
    }
  }

  lemma {:induction false} BodiesLexical(ds: Funs, sight: Sight, p: Progress, loops: seq<nat>, hot: set<Sym>)
    requires InChunk(sight, p, hot) && CollisionsIn(ds, hot, KnownIn(sight)) == 0
    ensures BindBodies(ds, sight, p, loops) == LexicalBodies(ds, DecsOf(sight.vars), DecsOf(sight.funs), p, loops)
    decreases ds
  {
    if ds.FunCons? {
      var d := ds.first;
      var f := DeclareFormals(d.formals, sight, p);
      assert hot + {} == hot;
      FormalsExact(d.formals, {}, hot, sight, p);
      FormalsReady(d.formals, sight, p, hot);
      BodyReady(ds, sight, p, loops, hot);
      hide InChunk, Ready;
      var q := if d.Function? then Bind(d.body, f.0, f.1.Chunk(), loops) else f.1.Chunk();
      assert BindBodies(FunCons(d, NoFun), sight, p, loops) == q;
      if d.Function? { BinderIsLexical(d.body, f.0, f.1.Chunk(), loops, {}); }
      BodiesLexical(ds.rest, sight, q, loops, {});
    }
  }

  // ----- with collisions -----

  predicate IsRedefinition(m: Msg) { m.RedefinedVar? || m.RedefinedFun? }

  /** How many redefinitions are reported. */
  function Redefinitions(log: seq<Msg>): nat {
    if log == [] then 0 else Redefinitions(log[..|log| - 1]) + if IsRedefinition(log[|log| - 1]) then 1 else 0
  }

  /** How many more the binder has reported than lexical scoping. */
  function Gap(p: Progress, q: Progress): int { Redefinitions(p.log) - Redefinitions(q.log) }

  lemma LogCounted(p: Progress, m: Msg)
    ensures Redefinitions(p.Log(m).log) == Redefinitions(p.log) + if IsRedefinition(m) then 1 else 0
  {
    assert p.Log(m).log[..|p.log|] == p.log;
  }

  lemma GapUse(p: Progress, q: Progress, m: Msg, m2: Msg)
    requires !IsRedefinition(m) && !IsRedefinition(m2)
    ensures Gap(p.Log(m), q.Log(m2)) == Gap(p, q)
  {
    LogCounted(p, m);
    LogCounted(q, m2);
  }

  /** The same names in sight, whatever they are bound to. */
  ghost predicate SameNames(sight: Sight, vars: Decs, funs: Decs) { vars.Keys == sight.vars.Keys && funs.Keys == sight.funs.Keys }

  lemma DeclareGap(x: Sym, sight: Sight, p: Progress, hot: set<Sym>, vars: Decs, funs: Decs, q: Progress)
    requires Ready(sight, p, hot) && SameNames(sight, vars, funs)
    ensures var d := DeclareVar(x, sight, p);
      Gap(d.1, q.Node()) == Gap(p, q) + Meets(x, hot) && SameNames(d.0, vars[x := q.nodes], funs)
  {
    LogCounted(p.Node(), RedefinedVar(x));
  }

  lemma {:induction false} FormalsGap(xs: seq<Sym>, seen: set<Sym>, hot: set<Sym>, sight: Sight, p: Progress, vars: Decs, q: Progress)
    requires Stamped(sight.vars, hot + seen, p.chunks) && hot + seen <= sight.vars.Keys && vars.Keys == sight.vars.Keys
    ensures var a, b := DeclareFormals(xs, sight, p), LexFormals(xs, seen, vars, q);
      Gap(a.1, b.1) == Gap(p, q) + FormalCollisions(xs, seen, hot) && b.0.Keys == a.0.vars.Keys && a.0.funs == sight.funs
    decreases |xs|
  {
    if xs != [] {
      var x := xs[0];
      var d := DeclareVar(x, sight, p);
      LogCounted(p.Node(), RedefinedVar(x));
      LogCounted(q.Node(), RedefinedVar(x));
      if x in seen {
        assert seen + {x} == seen;
        FormalsGap(xs[1..], seen, hot, d.0, d.1, vars, q.Node().Log(RedefinedVar(x)));
      } else {
        FormalsGap(xs[1..], seen + {x}, hot, d.0, d.1, vars[x := q.nodes], q.Node());
      }
    }
  }

  lemma {:induction false} HeadersGap(ds: Funs, seen: set<Sym>, sight: Sight, p: Progress, funs: Decs, q: Progress)
    requires Stamped(sight.funs, seen, p.chunks) && seen <= sight.funs.Keys && funs.Keys == sight.funs.Keys
    ensures var a, b := DeclareHeaders(ds, sight, p), LexHeaders(ds, seen, funs, q);
      Gap(a.1, b.1) == Gap(p, q) && b.0.Keys == a.0.funs.Keys && a.0.vars == sight.vars
  {
    if ds.FunCons? {
      var f := ds.first.name;
      var d := DeclareFun(f, sight, p);
      LogCounted(p.Node(), RedefinedFun(f));
      LogCounted(q.Node(), RedefinedFun(f));
      if f in seen { HeadersGap(ds.rest, seen, d.0, d.1, funs, q.Node().Log(RedefinedFun(f))); }
      else { HeadersGap(ds.rest, seen + {f}, d.0, d.1, funs[f := q.nodes], q.Node()); }
    }
  }

  /** The binder reports a redefinition more than lexical scoping for each declaration that meets an
      index so, and no other. */
  lemma {:induction false} CollisionsReported(e: Exp, sight: Sight, p: Progress, loops: seq<nat>, hot: set<Sym>,
                                              vars: Decs, funs: Decs, q: Progress, loops2: seq<nat>)
    requires Ready(sight, p, hot) && SameNames(sight, vars, funs)
    ensures Gap(Bind(e, sight, p, loops), Lexical(e, vars, funs, q, loops2)) == Gap(p, q) + Collisions(e, hot, KnownIn(sight))
    decreases e
  {
    hide Ready, InChunk, Redefinitions;
    match e
    case VarExp(x) => GapUse(p, q, Use(x, sight), LexUse(x, vars));
    case OpExp(l, _, r) =>
      CollisionsReported(l, sight, p, loops, hot, vars, funs, q, loops2);
      StaysReady(l, sight, p, loops, hot);
      CollisionsReported(r, sight, Bind(l, sight, p, loops), loops, Cool(l, hot, KnownIn(sight)),
                         vars, funs, Lexical(l, vars, funs, q, loops2), loops2);
    case SeqExp(es) => AllCollisionsReported(es, sight, p, loops, hot, vars, funs, q, loops2);
    case AssignExp(x, e1) =>
      GapUse(p, q, Use(x, sight), LexUse(x, vars));
      SameReady(sight, p, p.Log(Use(x, sight)), hot);
      CollisionsReported(e1, sight, p.Log(Use(x, sight)), loops, hot, vars, funs, q.Log(LexUse(x, vars)), loops2);
    case IfExp(c, t, f) =>
      var a, b, hot1 := Bind(c, sight, p, loops), Lexical(c, vars, funs, q, loops2), Cool(c, hot, KnownIn(sight));
      CollisionsReported(c, sight, p, loops, hot, vars, funs, q, loops2);
      StaysReady(c, sight, p, loops, hot);
      CollisionsReported(t, sight, a, loops, hot1, vars, funs, b, loops2);
      StaysReady(t, sight, a, loops, hot1);
      CollisionsReported(f, sight, Bind(t, sight, a, loops), loops, Cool(t, hot1, KnownIn(sight)),
                         vars, funs, Lexical(t, vars, funs, b, loops2), loops2);
    case WhileExp(c, body) =>
      var a, b := Bind(c, sight, p, loops), Lexical(c, vars, funs, q, loops2);
      CollisionsReported(c, sight, p, loops, hot, vars, funs, q, loops2);
      StaysReady(c, sight, p, loops, hot);
      SameReady(sight, a, a.Node(), Cool(c, hot, KnownIn(sight)));
      CollisionsReported(body, sight, a.Node(), loops + [a.nodes], Cool(c, hot, KnownIn(sight)),
                         vars, funs, b.Node(), loops2 + [b.nodes]);
    case ForExp(i, lo, hi, body) => ForCollisions(i, lo, hi, body, sight, p, loops, hot, vars, funs, q, loops2);
    case BreakExp =>
      GapUse(p, q, if loops == [] then StrayBreak else BoundBreak(loops[|loops| - 1]),
             if loops2 == [] then StrayBreak else BoundBreak(loops2[|loops2| - 1]));
    case CallExp(f, args) => CallCollisions(f, args, sight, p, loops, hot, vars, funs, q, loops2);
    case LetVar(x, init, body) => LetVarCollisions(x, init, body, sight, p, loops, hot, vars, funs, q, loops2);
    case LetFuns(ds, body) => LetFunsCollisions(ds, body, sight, p, loops, hot, vars, funs, q, loops2);
    case _ =>
  }

  lemma {:induction false} ForCollisions(i: Sym, lo: Exp, hi: Exp, body: Exp, sight: Sight, p: Progress, loops: seq<nat>, hot: set<Sym>,
                                         vars: Decs, funs: Decs, q: Progress, loops2: seq<nat>)
    requires Ready(sight, p, hot) && SameNames(sight, vars, funs)
    ensures var e := ForExp(i, lo, hi, body);
      Gap(Bind(e, sight, p, loops), Lexical(e, vars, funs, q, loops2)) == Gap(p, q) + Collisions(e, hot, KnownIn(sight))
    decreases ForExp(i, lo, hi, body), 0
  {
    hide Ready, DeclareVar, Redefinitions, KnownIn;
    var hot1 := Cool(hi, hot, KnownIn(sight));
    var hot2 := Cool(lo, hot1, KnownIn(sight));
    var a, a2 := Bind(hi, sight, p, loops), Lexical(hi, vars, funs, q, loops2);
    var b, b2 := Bind(lo, sight, a, loops), Lexical(lo, vars, funs, a2, loops2);
    CollisionsReported(hi, sight, p, loops, hot, vars, funs, q, loops2);
    StaysReady(hi, sight, p, loops, hot);
    CollisionsReported(lo, sight, a, loops, hot1, vars, funs, a2, loops2);
    StaysReady(lo, sight, a, loops, hot1);
    var d := DeclareVar(i, sight, b);
    IndexReady(i, sight, b, hot2);
    DeclareGap(i, sight, b, hot2, vars, funs, b2);
    SameReady(d.0, d.1, d.1.Node(), hot2 + {i});
    CollisionsReported(body, d.0, d.1.Node(), loops + [d.1.nodes], hot2 + {i},
                       vars[i := b2.nodes], funs, b2.Node().Node(), loops2 + [b2.nodes + 1]);
  }

  lemma {:induction false} LetVarCollisions(x: Sym, init: Exp, body: Exp, sight: Sight, p: Progress, loops: seq<nat>, hot: set<Sym>,
                                            vars: Decs, funs: Decs, q: Progress, loops2: seq<nat>)
    requires Ready(sight, p, hot) && SameNames(sight, vars, funs)
    ensures var e := LetVar(x, init, body);
      Gap(Bind(e, sight, p, loops), Lexical(e, vars, funs, q, loops2)) == Gap(p, q) + Collisions(e, hot, KnownIn(sight))
    decreases LetVar(x, init, body), 0
  {
    hide Ready, DeclareVar, Redefinitions, KnownIn;
    var hot1 := Cool(init, hot, KnownIn(sight));
    var a, a2 := Bind(init, sight, p, loops), Lexical(init, vars, funs, q, loops2);
    CollisionsReported(init, sight, p, loops, hot, vars, funs, q, loops2);
    StaysReady(init, sight, p, loops, hot);
    var d := DeclareVar(x, sight, a);
    IndexReady(x, sight, a, hot1);
    DeclareGap(x, sight, a, hot1, vars, funs, a2);
    CollisionsReported(body, d.0, d.1.Chunk(), loops, {}, vars[x := a2.nodes], funs, a2.Node().Chunk(), loops2);
  }

  lemma {:induction false} LetFunsCollisions(ds: Funs, body: Exp, sight: Sight, p: Progress, loops: seq<nat>, hot: set<Sym>,
                                             vars: Decs, funs: Decs, q: Progress, loops2: seq<nat>)
    requires Ready(sight, p, hot) && SameNames(sight, vars, funs)
    ensures var e := LetFuns(ds, body);
      Gap(Bind(e, sight, p, loops), Lexical(e, vars, funs, q, loops2)) == Gap(p, q) + Collisions(e, hot, KnownIn(sight))
    decreases LetFuns(ds, body), 0
  {
    hide Ready, InChunk, DeclareHeaders, LexHeaders, Redefinitions, KnownIn, CollisionsIn, BindBodies, LexicalBodies, NamesOf;
    var h, h2 := DeclareHeaders(ds, sight, p), LexHeaders(ds, {}, funs, q);
    ReadyFuns(sight, p, hot);
    HeadersGap(ds, {}, sight, p, funs, q);
    ChunkReady(ds, sight, p, loops, hot);
    BodiesCollisions(ds, h.0, h.1, loops, hot, vars, h2.0, h2.1, loops2);
    CollisionsReported(body, h.0, BindBodies(ds, h.0, h.1, loops).Chunk(), loops, {},
                       vars, h2.0, LexicalBodies(ds, vars, h2.0, h2.1, loops2).Chunk(), loops2);
  }

  lemma {:induction false} CallCollisions(f: Sym, args: Exps, sight: Sight, p: Progress, loops: seq<nat>, hot: set<Sym>,
                                          vars: Decs, funs: Decs, q: Progress, loops2: seq<nat>)
    requires Ready(sight, p, hot) && SameNames(sight, vars, funs)
    ensures var e := CallExp(f, args);
      Gap(Bind(e, sight, p, loops), Lexical(e, vars, funs, q, loops2)) == Gap(p, q) + Collisions(e, hot, KnownIn(sight))
    decreases CallExp(f, args), 0
  {
    hide Redefinitions;
    if f in sight.funs {
      AllCollisionsReported(args, sight, p, loops, hot, vars, funs, q, loops2);
      GapUse(BindAll(args, sight, p, loops), LexicalAll(args, vars, funs, q, loops2), BoundFun(f, sight.funs[f].dec), BoundFun(f, funs[f]));
    } else {
      GapUse(p, q, UndeclaredFun(f), UndeclaredFun(f));
      AllCollisionsReported(args, sight, p.Log(UndeclaredFun(f)), loops, hot, vars, funs, q.Log(UndeclaredFun(f)), loops2);
    }
  }

  lemma {:induction false} AllCollisionsReported(es: Exps, sight: Sight, p: Progress, loops: seq<nat>, hot: set<Sym>,
                                                 vars: Decs, funs: Decs, q: Progress, loops2: seq<nat>)
    requires Ready(sight, p, hot) && SameNames(sight, vars, funs)
    ensures Gap(BindAll(es, sight, p, loops), LexicalAll(es, vars, funs, q, loops2)) == Gap(p, q) + CollisionsAll(es, hot, KnownIn(sight))
    decreases es
  {
    hide Ready, Redefinitions;
    if es.Cons? {
      CollisionsReported(es.head, sight, p, loops, hot, vars, funs, q, loops2);
      StaysReady(es.head, sight, p, loops, hot);
      AllCollisionsReported(es.tail, sight, Bind(es.head, sight, p, loops), loops, Cool(es.head, hot, KnownIn(sight)),
                            vars, funs, Lexical(es.head, vars, funs, q, loops2), loops2);
    }
  }

  lemma {:induction false} BodiesCollisions(ds: Funs, sight: Sight, p: Progress, loops: seq<nat>, hot: set<Sym>,
                                            vars: Decs, funs: Decs, q: Progress, loops2: seq<nat>)
    requires InChunk(sight, p, hot) && SameNames(sight, vars, funs)
    ensures Gap(BindBodies(ds, sight, p, loops), LexicalBodies(ds, vars, funs, q, loops2)) == Gap(p, q) + CollisionsIn(ds, hot, KnownIn(sight))
    decreases ds
  {
    if ds.FunCons? {
      var d := ds.first;
      var f, f2 := DeclareFormals(d.formals, sight, p), LexFormals(d.formals, {}, vars, q);
      assert hot + {} == hot;
      FormalsGap(d.formals, {}, hot, sight, p, vars, q);
      FormalsReady(d.formals, sight, p, hot);
      BodyReady(ds, sight, p, loops, hot);
      hide InChunk, Ready, Redefinitions, DeclareFormals, LexFormals;
      var b := if d.Function? then Bind(d.body, f.0, f.1.Chunk(), loops) else f.1.Chunk();
      var b2 := if d.Function? then Lexical(d.body, f2.0, funs, f2.1.Chunk(), loops2) else f2.1.Chunk();
      assert BindBodies(FunCons(d, NoFun), sight, p, loops) == b;
      if d.Function? { CollisionsReported(d.body, f.0, f.1.Chunk(), loops, {}, f2.0, funs, f2.1.Chunk(), loops2); }
      BodiesCollisions(ds.rest, sight, b, loops, {}, vars, funs, b2, loops2);
    }
  }

  /** The binder's messages are those of lexical scoping if and only if no declaration meets an index
      before a chunk is completed. */
  lemma LexicalUnlessCollision(e: Exp, sight: Sight, p: Progress, loops: seq<nat>, hot: set<Sym>)
    requires Ready(sight, p, hot)
    ensures Bind(e, sight, p, loops).log == Lexical(e, DecsOf(sight.vars), DecsOf(sight.funs), p, loops).log
       <==> Collisions(e, hot, KnownIn(sight)) == 0
  {
    hide Ready, Redefinitions;
    if Collisions(e, hot, KnownIn(sight)) == 0 {
      BinderIsLexical(e, sight, p, loops, hot);
    } else {
      CollisionsReported(e, sight, p, loops, hot, DecsOf(sight.vars), DecsOf(sight.funs), p, loops);
    }
  }

  lemma {:induction false} NoForNoCollisions(e: Exp, known: set<Sym>)
    requires NoFor(e)
    ensures Collisions(e, {}, known) == 0
    decreases e
  {
    match e
    case OpExp(l, _, r) => NoForNoCollisions(l, known); NoForNoCollisions(r, known);
    case SeqExp(es) => NoForNoCollisionsAll(es, known);
    case AssignExp(_, e1) => NoForNoCollisions(e1, known);
    case IfExp(c, t, f) => NoForNoCollisions(c, known); NoForNoCollisions(t, known); NoForNoCollisions(f, known);
    case WhileExp(c, body) => NoForNoCollisions(c, known); NoForNoCollisions(body, known);
    case CallExp(_, args) => NoForNoCollisionsAll(args, known);
    case LetVar(x, init, body) => NoForNoCollisions(init, known); NoForNoCollisions(body, known + {x});
    case LetFuns(ds, body) => NoForNoCollisionsIn(ds, known + Heads(ds)); NoForNoCollisions(body, known + Heads(ds));
    case _ =>
  }

  lemma {:induction false} NoForNoCollisionsAll(es: Exps, known: set<Sym>)
    requires NoForAll(es)
    ensures CollisionsAll(es, {}, known) == 0
    decreases es
  {
    if es.Cons? { NoForNoCollisions(es.head, known); NoForNoCollisionsAll(es.tail, known); }
  }

  lemma {:induction false} NoForNoCollisionsIn(ds: Funs, known: set<Sym>)
    requires NoForFuns(ds)
    ensures CollisionsIn(ds, {}, known) == 0
    decreases ds
  {
    if ds.FunCons? {
      NothingMet(ds.first.formals, {});
      if ds.first.Function? { NoForNoCollisions(ds.first.body, known + NamesOf(ds.first.formals)); }
      NoForNoCollisionsIn(ds.rest, known);
    }
  }

  lemma {:induction false} NothingMet(xs: seq<Sym>, seen: set<Sym>)
    ensures FormalCollisions(xs, seen, {}) == 0
    decreases |xs|
  {
    if xs != [] { NothingMet(xs[1..], seen + {xs[0]}); }
  }

  /** The index of a `for` is declared outside any chunk: a variable of the body with the same name
      has the same stamp, and is taken for a redefinition. */
  lemma ForIndexRedefined(i: Sym, known: set<Sym>)
    ensures var body := LetVar(i, IntExp(2), SeqExp(NoExp)); Collisions(ForExp(i, IntExp(0), IntExp(1), body), {}, known) == 1
  {
    NothingCollides(known + {i});
    NothingCollides(known + {i} + {i});
    LoopCollisions(i, LetVar(i, IntExp(2), SeqExp(NoExp)), known);
  }

  /** So is an inner index. */
  lemma InnerIndexRedefined(i: Sym, known: set<Sym>)
    ensures var inner := ForExp(i, IntExp(2), IntExp(3), SeqExp(NoExp));
      Collisions(ForExp(i, IntExp(0), IntExp(1), inner), {}, known) == 1
  {
    NothingCollides(known + {i});
    NothingCollides(known + {i} + {i});
    LoopCollisions(i, ForExp(i, IntExp(2), IntExp(3), SeqExp(NoExp)), known);
    assert Cool(IntExp(2), Cool(IntExp(3), {i}, known + {i}), known + {i}) == {i};
  }

  /** So is a formal, but not a variable of the function's body: formals complete a chunk. */
  lemma FormalRedefined(i: Sym, f: Sym, body: Exp, known: set<Sym>)
    ensures var ds := FunCons(Function(f, [i], VoidTy, body), NoFun);
      CollisionsIn(ds, {i}, known) == 1 + Collisions(body, {}, known + {i})
    ensures var ds := FunCons(Function(f, [], VoidTy, body), NoFun);
      CollisionsIn(ds, {i}, known) == Collisions(body, {}, known)
  {
    assert NamesOf([i]) == {i} && known + NamesOf([]) == known;
    assert [i][1..] == [] && FormalCollisions([], {} + {i}, {i}) == 0;
    assert CollisionsIn(NoFun, {}, known) == 0;
  }

  lemma NothingCollides(known: set<Sym>)
    ensures forall hot: set<Sym> :: Collisions(SeqExp(NoExp), hot, known) == 0
    ensures forall hot: set<Sym>, n: int32 :: Collisions(IntExp(n), hot, known) == 0 && Cool(IntExp(n), hot, known) == hot
    ensures forall hot: set<Sym> :: CollisionsIn(NoFun, hot, known) == 0
  {
    assert forall hot: set<Sym> :: CollisionsAll(NoExp, hot, known) == 0;
  }

  lemma LoopCollisions(i: Sym, body: Exp, known: set<Sym>)
    ensures Collisions(ForExp(i, IntExp(0), IntExp(1), body), {}, known) == Collisions(body, {i}, known + {i})
  {
    NothingCollides(known);
    assert {} + {i} == {i};
  }

  /** Several variables in one chunk: each is declared after its initial value has been visited. */
  function BindVarChunk(xs: seq<Sym>, inits: seq<Exp>, sight: Sight, p: Progress, loops: seq<nat>): (Sight, Progress)
    requires |xs| == |inits|
    decreases |xs|
  {
    if xs == [] then (sight, p.Chunk()) else
    var d := DeclareVar(xs[0], sight, Bind(inits[0], sight, p, loops));
    BindVarChunk(xs[1..], inits[1..], d.0, d.1, loops)
  }

  /** A variable declared twice in its chunk is reported if and only if the second initial value has no
      chunk. */
  lemma RedefinedUnlessChunk(x: Sym, init: Exp, init2: Exp, sight: Sight, p: Progress, loops: seq<nat>)
    ensures var a := DeclareVar(x, sight, Bind(init, sight, p, loops));
      (BindVarChunk([x, x], [init, init2], sight, p, loops).1.log == Bind(init2, a.0, a.1, loops).log + [RedefinedVar(x)])
      <==> !Completes(init2, KnownIn(sight) + {x})
  {
    var a := DeclareVar(x, sight, Bind(init, sight, p, loops));
    var b := Bind(init2, a.0, a.1, loops);
    var c := DeclareVar(x, a.0, b);
    ChunksCounted(init2, a.0, a.1, loops);
    assert KnownIn(a.0) == KnownIn(sight) + {x};
    assert [x, x][1..] == [x] && [init, init2][1..] == [init2] && [x][1..] == [] && [init2][1..] == [];
    assert BindVarChunk([], [], c.0, c.1, loops) == (c.0, c.1.Chunk());
    assert BindVarChunk([x], [init2], a.0, a.1, loops).1.log == c.1.log;
    assert BindVarChunk([x, x], [init, init2], sight, p, loops).1.log == c.1.log;
    assert |b.log + [RedefinedVar(x)]| == |b.log| + 1;
  }

  // ----- when a redefinition is reported -----

  ghost predicate Redefined(log: seq<Msg>) { exists m :: m in log && IsRedefinition(m) }

  ghost predicate AllFunsKnown(log: seq<Msg>) { forall f :: UndeclaredFun(f) !in log }

  predicate RepeatsName(xs: seq<Sym>, seen: set<Sym>)
    decreases |xs|
  {
    xs != [] && (xs[0] in seen || RepeatsName(xs[1..], seen + {xs[0]}))
  }

  function HeadsOf(ds: Funs): seq<Sym> { match ds case NoFun => [] case FunCons(d, rest) => [d.name] + HeadsOf(rest) }

  /** Some chunk of `e` declares a name twice. */
  predicate Repeats(e: Exp) {
    match e
    case IntExp(_) => false
    case VarExp(_) => false
    case OpExp(l, _, r) => Repeats(l) || Repeats(r)
    case SeqExp(es) => RepeatsAll(es)
    case AssignExp(_, e1) => Repeats(e1)
    case IfExp(c, t, f) => Repeats(c) || Repeats(t) || Repeats(f)
    case WhileExp(c, body) => Repeats(c) || Repeats(body)
    case ForExp(_, lo, hi, body) => Repeats(lo) || Repeats(hi) || Repeats(body)
    case BreakExp => false
    case CallExp(_, args) => RepeatsAll(args)
    case LetVar(_, init, body) => Repeats(init) || Repeats(body)
    case LetFuns(ds, body) => RepeatsName(HeadsOf(ds), {}) || RepeatsIn(ds) || Repeats(body)
  }

  predicate RepeatsAll(es: Exps) {
    match es
    case NoExp => false
    case Cons(e, rest) => Repeats(e) || RepeatsAll(rest)
  }

  predicate RepeatsIn(ds: Funs) {
    match ds
    case NoFun => false
    case FunCons(d, rest) => RepeatsName(d.formals, {}) || (d.Function? && Repeats(d.body)) || RepeatsIn(rest)
  }

  /** `q` has the messages of `p`, and a new redefinition exactly if `repeats`. */
  ghost predicate Adds(p: Progress, q: Progress, repeats: bool) {
    p.log <= q.log && (AllFunsKnown(q.log) ==> (Redefined(q.log) <==> Redefined(p.log) || repeats))
  }

  lemma AddsLater(p: Progress, q: Progress, r: Progress, a: bool, b: bool)
    requires Adds(p, q, a) && Adds(q, r, b)
    ensures Adds(p, r, a || b)
  {
    if AllFunsKnown(r.log) {
      forall f ensures UndeclaredFun(f) !in q.log { assert UndeclaredFun(f) !in r.log; }
    }
  }

  lemma AddsLog(p: Progress, m: Msg)
    requires !m.UndeclaredFun?
    ensures Adds(p, p.Log(m), IsRedefinition(m))
  {
    var q := p.Log(m);
    assert q.log == p.log + [m];
    assert m in q.log;
    if Redefined(p.log) {
      var k :| k in p.log && IsRedefinition(k);
      assert k in q.log;
    }
  }

  lemma AddsUnknown(p: Progress, f: Sym, repeats: bool)
    ensures Adds(p, p.Log(UndeclaredFun(f)), repeats)
  {
    assert UndeclaredFun(f) in p.Log(UndeclaredFun(f)).log;
  }

  lemma AddsCounts(p: Progress, q: Progress, r: Progress, a: bool)
    requires Adds(p, q, a) && r.log == q.log
    ensures Adds(p, r, a)
  {}

  lemma {:induction false} FormalsReported(xs: seq<Sym>, seen: set<Sym>, vars: Decs, p: Progress)
    ensures Adds(p, LexFormals(xs, seen, vars, p).1, RepeatsName(xs, seen))
    decreases |xs|
  {
    if xs != [] {
      var x := xs[0];
      if x in seen {
        var q := p.Node().Log(RedefinedVar(x));
        AddsLog(p.Node(), RedefinedVar(x));
        FormalsReported(xs[1..], seen, vars, q);
        AddsLater(p, q, LexFormals(xs, seen, vars, p).1, true, RepeatsName(xs[1..], seen));
      } else {
        FormalsReported(xs[1..], seen + {x}, vars[x := p.nodes], p.Node());
      }
    }
  }

  lemma {:induction false} HeadersReported(ds: Funs, seen: set<Sym>, funs: Decs, p: Progress)
    ensures Adds(p, LexHeaders(ds, seen, funs, p).1, RepeatsName(HeadsOf(ds), seen))
    decreases ds
  {
    if ds.FunCons? {
      var f := ds.first.name;
      assert HeadsOf(ds)[1..] == HeadsOf(ds.rest);
      if f in seen {
        var q := p.Node().Log(RedefinedFun(f));
        AddsLog(p.Node(), RedefinedFun(f));
        HeadersReported(ds.rest, seen, funs, q);
        AddsLater(p, q, LexHeaders(ds, seen, funs, p).1, true, RepeatsName(HeadsOf(ds.rest), seen));
      } else {
        HeadersReported(ds.rest, seen + {f}, funs[f := p.nodes], p.Node());
      }
    }
  }

  /** A program whose calls are all bound is told of a redefinition if and only if some chunk of
      it declares a name twice in one name space. */
  lemma {:induction false} RedefinitionExact(e: Exp, vars: Decs, funs: Decs, p: Progress, loops: seq<nat>)
    ensures Adds(p, Lexical(e, vars, funs, p, loops), Repeats(e))
    decreases e
  {
    hide Adds;
    match e
    case IntExp(_) => AddsNone(p);
    case VarExp(x) => AddsLog(p, LexUse(x, vars));
    case OpExp(l, _, r) => TwoReported(l, r, vars, funs, p, loops) by {
      RedefinitionExact(l, vars, funs, p, loops);
      RedefinitionExact(r, vars, funs, Lexical(l, vars, funs, p, loops), loops);
    }
    case SeqExp(es) => AllReported(es, vars, funs, p, loops);
    case AssignExp(x, e1) =>
      var q := p.Log(LexUse(x, vars));
      AddsLog(p, LexUse(x, vars));
      RedefinitionExact(e1, vars, funs, q, loops);
      AddsLater(p, q, Lexical(e1, vars, funs, q, loops), false, Repeats(e1));
    case IfExp(c, t, f) =>
      var q := Lexical(t, vars, funs, Lexical(c, vars, funs, p, loops), loops);
      TwoReported(c, t, vars, funs, p, loops) by {
        RedefinitionExact(c, vars, funs, p, loops);
        RedefinitionExact(t, vars, funs, Lexical(c, vars, funs, p, loops), loops);
      }
      RedefinitionExact(f, vars, funs, q, loops);
      AddsLater(p, q, Lexical(f, vars, funs, q, loops), Repeats(c) || Repeats(t), Repeats(f));
    case WhileExp(c, body) =>
      var a := Lexical(c, vars, funs, p, loops);
      RedefinitionExact(c, vars, funs, p, loops);
      AddsCounts(p, a, a.Node(), Repeats(c));
      RedefinitionExact(body, vars, funs, a.Node(), loops + [a.nodes]);
      AddsLater(p, a.Node(), Lexical(body, vars, funs, a.Node(), loops + [a.nodes]), Repeats(c), Repeats(body));
    case ForExp(i, lo, hi, body) => ForReported(i, lo, hi, body, vars, funs, p, loops);
    case BreakExp => AddsLog(p, if loops == [] then StrayBreak else BoundBreak(loops[|loops| - 1]));
    case CallExp(f, args) => CallReported(f, args, vars, funs, p, loops);
    case LetVar(x, init, body) =>
      var a := Lexical(init, vars, funs, p, loops);
      var b := a.Node().Chunk();
      RedefinitionExact(init, vars, funs, p, loops);
      AddsCounts(p, a, b, Repeats(init));
      RedefinitionExact(body, vars[x := a.nodes], funs, b, loops);
      AddsLater(p, b, Lexical(body, vars[x := a.nodes], funs, b, loops), Repeats(init), Repeats(body));
    case LetFuns(ds, body) =>
      var h := LexHeaders(ds, {}, funs, p);
      var b := LexicalBodies(ds, vars, h.0, h.1, loops);
      HeadersReported(ds, {}, funs, p);
      BodiesReported(ds, vars, h.0, h.1, loops);
      AddsLater(p, h.1, b, RepeatsName(HeadsOf(ds), {}), RepeatsIn(ds));
      AddsCounts(p, b, b.Chunk(), RepeatsName(HeadsOf(ds), {}) || RepeatsIn(ds));
      RedefinitionExact(body, vars, h.0, b.Chunk(), loops);
      AddsLater(p, b.Chunk(), Lexical(body, vars, h.0, b.Chunk(), loops), RepeatsName(HeadsOf(ds), {}) || RepeatsIn(ds), Repeats(body));
  }

  lemma AddsNone(p: Progress)
    ensures Adds(p, p, false)
  {}

  lemma TwoReported(a: Exp, b: Exp, vars: Decs, funs: Decs, p: Progress, loops: seq<nat>)
    requires Adds(p, Lexical(a, vars, funs, p, loops), Repeats(a))
    requires var q := Lexical(a, vars, funs, p, loops); Adds(q, Lexical(b, vars, funs, q, loops), Repeats(b))
    ensures Adds(p, Lexical(b, vars, funs, Lexical(a, vars, funs, p, loops), loops), Repeats(a) || Repeats(b))
  {
    var q := Lexical(a, vars, funs, p, loops);
    AddsLater(p, q, Lexical(b, vars, funs, q, loops), Repeats(a), Repeats(b));
  }

  lemma {:induction false} ForReported(i: Sym, lo: Exp, hi: Exp, body: Exp, vars: Decs, funs: Decs, p: Progress, loops: seq<nat>)
    ensures Adds(p, Lexical(ForExp(i, lo, hi, body), vars, funs, p, loops), Repeats(ForExp(i, lo, hi, body)))
    decreases ForExp(i, lo, hi, body), 0
  {
    hide Adds;
    var a := Lexical(lo, vars, funs, Lexical(hi, vars, funs, p, loops), loops);
    TwoReported(hi, lo, vars, funs, p, loops) by {
      RedefinitionExact(hi, vars, funs, p, loops);
      RedefinitionExact(lo, vars, funs, Lexical(hi, vars, funs, p, loops), loops);
    }
    var b := a.Node().Node();
    AddsCounts(p, a, b, Repeats(hi) || Repeats(lo));
    RedefinitionExact(body, vars[i := a.nodes], funs, b, loops + [a.nodes + 1]);
    AddsLater(p, b, Lexical(body, vars[i := a.nodes], funs, b, loops + [a.nodes + 1]), Repeats(hi) || Repeats(lo), Repeats(body));
  }

  lemma {:induction false} CallReported(f: Sym, args: Exps, vars: Decs, funs: Decs, p: Progress, loops: seq<nat>)
    ensures Adds(p, Lexical(CallExp(f, args), vars, funs, p, loops), RepeatsAll(args))
    decreases CallExp(f, args), 0
  {
    hide Adds;
    if f in funs {
      var q := LexicalAll(args, vars, funs, p, loops);
      AllReported(args, vars, funs, p, loops);
      AddsLog(q, BoundFun(f, funs[f]));
      AddsLater(p, q, q.Log(BoundFun(f, funs[f])), RepeatsAll(args), false);
    } else if f in vars {
      var q := p.Log(UndeclaredFun(f));
      AddsUnknown(p, f, RepeatsAll(args));
      AllReported(args, vars, funs, q, loops);
      AddsLater(p, q, LexicalAll(args, vars, funs, q, loops), RepeatsAll(args), RepeatsAll(args));
    } else {
      AddsUnknown(p, f, RepeatsAll(args));
    }
  }

  lemma {:induction false} AllReported(es: Exps, vars: Decs, funs: Decs, p: Progress, loops: seq<nat>)
    ensures Adds(p, LexicalAll(es, vars, funs, p, loops), RepeatsAll(es))
    decreases es
  {
    hide Adds;
    if es == NoExp {
      AddsNone(p);
    } else {
      var q := Lexical(es.head, vars, funs, p, loops);
      RedefinitionExact(es.head, vars, funs, p, loops);
      AllReported(es.tail, vars, funs, q, loops);
      AddsLater(p, q, LexicalAll(es.tail, vars, funs, q, loops), Repeats(es.head), RepeatsAll(es.tail));
    }
  }

  lemma {:induction false} BodiesReported(ds: Funs, vars: Decs, funs: Decs, p: Progress, loops: seq<nat>)
    ensures Adds(p, LexicalBodies(ds, vars, funs, p, loops), RepeatsIn(ds))
    decreases ds
  {
    hide Adds;
    if ds == NoFun {
      AddsNone(p);
    } else {
      var d := ds.first;
      var f := LexFormals(d.formals, {}, vars, p);
      var a, r := RepeatsName(d.formals, {}), d.Function? && Repeats(d.body);
      FormalsReported(d.formals, {}, vars, p);
      AddsCounts(p, f.1, f.1.Chunk(), a);
      var q := if d.Function? then Lexical(d.body, f.0, funs, f.1.Chunk(), loops) else f.1.Chunk();
      if d.Function? { RedefinitionExact(d.body, f.0, funs, f.1.Chunk(), loops); } else { AddsNone(q); }
      AddsLater(p, f.1.Chunk(), q, a, r);
      BodiesReported(ds.rest, vars, funs, q, loops);
      AddsLater(p, q, LexicalBodies(ds.rest, vars, funs, q, loops), a || r, RepeatsIn(ds.rest));
    }
  }

  lemma {:induction false} RedefinedCounted(log: seq<Msg>)
    ensures Redefined(log) <==> Redefinitions(log) > 0
  {
    if log != [] {
      var rest, last := log[..|log| - 1], log[|log| - 1];
      RedefinedCounted(rest);
      assert log == rest + [last];
      if Redefined(rest) {
        var m :| m in rest && IsRedefinition(m);
        assert m in log;
      }
      if IsRedefinition(last) { assert last in log; }
    }
  }

  /** The binder tells a program whose calls are all bound of a redefinition if and only if some chunk
      declares a name twice in one name space, or a declaration meets an index. */
  lemma BinderReports(e: Exp)
    ensures var b := Bind(e, Sight(map[], map[]), Progress([], 0, 0), []);
      AllFunsKnown(b.log) ==> (Redefined(b.log) <==> Repeats(e) || Collisions(e, {}, {}) > 0)
  {
    hide Redefinitions;
    var sight, p := Sight(map[], map[]), Progress([], 0, 0);
    var b, l := Bind(e, sight, p, []), Lexical(e, map[], map[], p, []);
    assert KnownIn(sight) == {} && DecsOf(map[]) == map[] && Ready(sight, p, {});
    RedefinedCounted(b.log);
    RedefinedCounted(p.log);
    if Collisions(e, {}, {}) == 0 {
      BinderIsLexical(e, sight, p, [], {});
      RedefinitionExact(e, map[], map[], p, []);
    } else {
      CollisionsReported(e, sight, p, [], {}, map[], map[], p, []);
    }
  }
}
