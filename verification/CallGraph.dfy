/** Which calls the inliner leaves alone (src/callgraph, and the constructor of inlining::Inliner). */
module CallGraph {
  import opened Tiger

  datatype Edge = Edge(src: Sym, dst: Sym)

  /** Every function called in `e`, in arguments and in nested functions too. */
  function Callees(e: Exp): set<Sym> {
    match e
    case IntExp(_) => {}
    case VarExp(_) => {}
    case OpExp(l, _, r) => Callees(l) + Callees(r)
    case SeqExp(es) => CalleesAll(es)
    case AssignExp(_, e1) => Callees(e1)
    case IfExp(c, t, f) => Callees(c) + Callees(t) + Callees(f)
    case WhileExp(c, body) => Callees(c) + Callees(body)
    case ForExp(_, lo, hi, body) => Callees(lo) + Callees(hi) + Callees(body)
    case BreakExp => {}
    case CallExp(f, args) => {f} + CalleesAll(args)
    case LetVar(_, init, body) => Callees(init) + Callees(body)
    case LetFuns(ds, body) => CalleesOf(ds) + Callees(body)
  }

  function CalleesAll(es: Exps): set<Sym> {
    match es
    case NoExp => {}
    case Cons(e, rest) => Callees(e) + CalleesAll(rest)
  }

  function CalleesOf(ds: Funs): set<Sym> {
    match ds
    case NoFun => {}
    case FunCons(d, rest) => (if d.Function? then Callees(d.body) else {}) + CalleesOf(rest)
  }

  /** The edges of the call graph: a call is linked to the function it stands in.  The visitor of a
      call does not go into its arguments. */
  function Edges(e: Exp, caller: Sym): set<Edge> {
    match e
    case IntExp(_) => {}
    case VarExp(_) => {}
    case OpExp(l, _, r) => Edges(l, caller) + Edges(r, caller)
    case SeqExp(es) => EdgesAll(es, caller)
    case AssignExp(_, e1) => Edges(e1, caller)
    case IfExp(c, t, f) => Edges(c, caller) + Edges(t, caller) + Edges(f, caller)
    case WhileExp(c, body) => Edges(c, caller) + Edges(body, caller)
    case ForExp(_, lo, hi, body) => Edges(lo, caller) + Edges(hi, caller) + Edges(body, caller)
    case BreakExp => {}
    case CallExp(f, _) => {Edge(caller, f)}
    case LetVar(_, init, body) => Edges(init, caller) + Edges(body, caller)
    case LetFuns(ds, body) => EdgesOf(ds) + Edges(body, caller)
  }

  function EdgesAll(es: Exps, caller: Sym): set<Edge> {
    match es
    case NoExp => {}
    case Cons(e, rest) => Edges(e, caller) + EdgesAll(rest, caller)
  }

  function EdgesOf(ds: Funs): set<Edge> {
    match ds
    case NoFun => {}
    case FunCons(d, rest) => (if d.Function? then Edges(d.body, d.name) else {}) + EdgesOf(rest)
  }

  class CallGraphVisitor {
    var caller: Sym
    var edges: set<Edge>

    constructor ()
      ensures edges == {}
    {
      caller := Sym("");
      edges := {};
    }

    method VisitExp(e: Exp)
      modifies this
      ensures caller == old(caller) && edges == old(edges) + Edges(e, caller)
      decreases e
    {
      match e
      case IntExp(_) =>
      case VarExp(_) =>
      case OpExp(l, _, r) => VisitExp(l); VisitExp(r);
      case SeqExp(es) => VisitExps(es);
      case AssignExp(_, e1) => VisitExp(e1);
      case IfExp(c, t, f) => VisitExp(c); VisitExp(t); VisitExp(f);
      case WhileExp(c, body) => VisitExp(c); VisitExp(body);
      case ForExp(_, lo, hi, body) => VisitExp(lo); VisitExp(hi); VisitExp(body);
      case BreakExp =>
      case CallExp(f, _) => edges := edges + {Edge(caller, f)};
      case LetVar(_, init, body) => VisitExp(init); VisitExp(body);
      case LetFuns(ds, body) => VisitChunk(ds); VisitExp(body);
    }

    method VisitExps(es: Exps)
      modifies this
      ensures caller == old(caller) && edges == old(edges) + EdgesAll(es, caller)
      decreases es
    {
      if es.Cons? { VisitExp(es.head); VisitExps(es.tail); }
    }

    /** The current function becomes temporarily the caller. */
    method VisitChunk(ds: Funs)
      modifies this
      ensures caller == old(caller) && edges == old(edges) + EdgesOf(ds)
      decreases ds
    {
      var rest := ds;
      while rest.FunCons?
        invariant (rest == ds || rest < ds) && caller == old(caller) && edges + EdgesOf(rest) == old(edges) + EdgesOf(ds)
        decreases rest
      {
        var save := caller;
        caller := rest.first.name;
        if rest.first.Function? { VisitExp(rest.first.body); }
        caller := save;
        rest := rest.rest;
      }
    }
  }

  // ----- nesting -----

  /** The function each function of `e` is declared in. */
  function Parents(e: Exp, parent: Sym): map<Sym, Sym> {
    match e
    case IntExp(_) => map[]
    case VarExp(_) => map[]
    case OpExp(l, _, r) => Parents(l, parent) + Parents(r, parent)
    case SeqExp(es) => ParentsAll(es, parent)
    case AssignExp(_, e1) => Parents(e1, parent)
    case IfExp(c, t, f) => Parents(c, parent) + Parents(t, parent) + Parents(f, parent)
    case WhileExp(c, body) => Parents(c, parent) + Parents(body, parent)
    case ForExp(_, lo, hi, body) => Parents(lo, parent) + Parents(hi, parent) + Parents(body, parent)
    case BreakExp => map[]
    case CallExp(_, args) => ParentsAll(args, parent)
    case LetVar(_, init, body) => Parents(init, parent) + Parents(body, parent)
    case LetFuns(ds, body) => ParentsOf(ds, parent) + Parents(body, parent)
  }

  function ParentsAll(es: Exps, parent: Sym): map<Sym, Sym> {
    match es
    case NoExp => map[]
    case Cons(e, rest) => Parents(e, parent) + ParentsAll(rest, parent)
  }

  function Links(ds: Funs, parent: Sym): map<Sym, Sym> {
    match ds
    case NoFun => map[]
    case FunCons(d, rest) => map[d.name := parent] + Links(rest, parent)
  }

  function Inner(ds: Funs): map<Sym, Sym>
    decreases ds, 0
  {
    match ds
    case NoFun => map[]
    case FunCons(d, rest) => (if d.Function? then Parents(d.body, d.name) else map[]) + Inner(rest)
  }

  /** First the functions of the chunk, then those inside them. */
  function ParentsOf(ds: Funs, parent: Sym): map<Sym, Sym>
    decreases ds, 1
  {
    Links(ds, parent) + Inner(ds)
  }

  lemma Joined(a: map<Sym, Sym>, b: map<Sym, Sym>, c: map<Sym, Sym>)
    ensures a + b + c == a + (b + c)
  {}

  class ParentGraphVisitor {
    var parent: Sym
    var links: map<Sym, Sym>

    /** A function without parent is linked to the first vertex of the graph: the null pointer has
        no vertex of its own. */
    constructor (first: Sym)
      ensures links == map[] && parent == first
    {
      parent := first;
      links := map[];
    }

    method VisitExp(e: Exp)
      modifies this
      ensures parent == old(parent) && links == old(links) + Parents(e, parent)
      decreases e
    {
      match e
      case IntExp(_) =>
      case VarExp(_) =>
      case OpExp(l, _, r) => VisitTwo(l, r, e);
      case SeqExp(es) => VisitExps(es);
      case AssignExp(_, e1) => VisitExp(e1);
      case IfExp(c, t, f) => VisitThree(c, t, f, e);
      case WhileExp(c, body) => VisitTwo(c, body, e);
      case ForExp(_, lo, hi, body) => VisitThree(lo, hi, body, e);
      case BreakExp =>
      case CallExp(_, args) => VisitExps(args);
      case LetVar(_, init, body) => VisitTwo(init, body, e);
      case LetFuns(ds, body) =>
        ghost var m := links;
        VisitChunk(ds);
        VisitExp(body);
        Joined(m, ParentsOf(ds, parent), Parents(body, parent));
    }

    method VisitTwo(a: Exp, b: Exp, ghost whole: Exp)
      requires a < whole && b < whole
      modifies this
      ensures parent == old(parent) && links == old(links) + (Parents(a, parent) + Parents(b, parent))
      decreases whole, 0
    {
      VisitExp(a);
      VisitExp(b);
      Joined(old(links), Parents(a, parent), Parents(b, parent));
    }

    method VisitThree(a: Exp, b: Exp, c: Exp, ghost whole: Exp)
      requires a < whole && b < whole && c < whole
      modifies this
      ensures parent == old(parent) && links == old(links) + (Parents(a, parent) + Parents(b, parent) + Parents(c, parent))
      decreases whole, 1
    {
      VisitTwo(a, b, whole);
      VisitExp(c);
      Joined(old(links), Parents(a, parent) + Parents(b, parent), Parents(c, parent));
    }

    method VisitExps(es: Exps)
      modifies this
      ensures parent == old(parent) && links == old(links) + ParentsAll(es, parent)
      decreases es
    {
      if es.Cons? {
        VisitExp(es.head);
        VisitExps(es.tail);
        Joined(old(links), Parents(es.head, parent), ParentsAll(es.tail, parent));
      }
    }

    /** Links every function of the chunk to its parent, then goes into their bodies. */
    method VisitChunk(ds: Funs)
      modifies this
      ensures parent == old(parent) && links == old(links) + ParentsOf(ds, parent)
      decreases ds, 1
    {
      LinkAll(ds);
      VisitBodies(ds);
      Joined(old(links), Links(ds, parent), Inner(ds));
    }

    method LinkAll(ds: Funs)
      modifies this
      ensures parent == old(parent) && links == old(links) + Links(ds, parent)
      decreases ds
    {
      if ds.FunCons? {
        links := links[ds.first.name := parent];
        LinkAll(ds.rest);
        assert old(links)[ds.first.name := parent] == old(links) + map[ds.first.name := parent];
        Joined(old(links), map[ds.first.name := parent], Links(ds.rest, parent));
      }
    }

    method VisitBodies(ds: Funs)
      modifies this
      ensures parent == old(parent) && links == old(links) + Inner(ds)
      decreases ds, 0
    {
      if ds.FunCons? {
        var tmp := parent;
        parent := ds.first.name;
        if ds.first.Function? { VisitExp(ds.first.body); }
        parent := tmp;
        VisitBodies(ds.rest);
        Joined(old(links), if ds.first.Function? then Parents(ds.first.body, ds.first.name) else map[], Inner(ds.rest));
      }
    }
  }

  // ----- the closure of the call graph -----

  ghost predicate Transitive(r: set<Edge>) { forall a, b, c :: Edge(a, b) in r && Edge(b, c) in r ==> Edge(a, c) in r }

  function Compose(r: set<Edge>): set<Edge> { set e1, e2 | e1 in r && e2 in r && e1.dst == e2.src :: Edge(e1.src, e2.dst) }

  /** Every edge between the ends of `r`. */
  function AllEdges(r: set<Edge>): set<Edge> { set e1, e2 | e1 in r && e2 in r :: Edge(e1.src, e2.dst) }

  /** `boost::transitive_closure` */
  function Closure(r: set<Edge>): (c: set<Edge>)
    decreases |AllEdges(r) - r|
  {
    var more := r + Compose(r);
    if more == r then r else
    ClosureShrinks(r);
    Closure(more)
  }

  lemma ClosureShrinks(r: set<Edge>)
    requires r + Compose(r) != r
    ensures |AllEdges(r + Compose(r)) - (r + Compose(r))| < |AllEdges(r) - r|
  {
    hide AllEdges, Compose;
    var more := r + Compose(r);
    var e :| e in Compose(r) && e !in r;
    SameEnds(r);
    assert AllEdges(more) - more <= (AllEdges(r) - r) - {e};
    Smaller(AllEdges(more) - more, (AllEdges(r) - r) - {e});
  }

  lemma SameEnds(r: set<Edge>)
    ensures AllEdges(r + Compose(r)) == AllEdges(r) && Compose(r) <= AllEdges(r)
  {
    forall e | e in Compose(r) ensures exists e1, e2 :: e1 in r && e2 in r && e1.src == e.src && e2.dst == e.dst {}
    forall e | e in AllEdges(r + Compose(r)) ensures e in AllEdges(r) {
      var e1, e2 :| e1 in r + Compose(r) && e2 in r + Compose(r) && e == Edge(e1.src, e2.dst);
      var d1 :| d1 in r && d1.src == e1.src;
      var d2 :| d2 in r && d2.dst == e2.dst;
    }
  }

  lemma {:induction false} Smaller<T>(a: set<T>, b: set<T>)
    requires a <= b
    ensures |a| <= |b|
  {
    assert b == a + (b - a);
  }

  /** The closure is the least transitive relation with all edges. */
  lemma {:induction false} ClosureIsLeast(r: set<Edge>, t: set<Edge>)
    ensures r <= Closure(r) && Transitive(Closure(r))
    ensures r <= t && Transitive(t) ==> Closure(r) <= t
    decreases |AllEdges(r) - r|
  {
    var more := r + Compose(r);
    if more != r {
      ClosureShrinks(r);
      ClosureIsLeast(more, t);
    } else {
      forall a, b, c | Edge(a, b) in r && Edge(b, c) in r ensures Edge(a, c) in r {
        var e1, e2 := Edge(a, b), Edge(b, c);
        assert Edge(e1.src, e2.dst) in Compose(r);
      }
    }
  }

  /** `hfundec_deep_get`: whether `searched` is `start` or reached from it by going to the parent
      at most `steps` times. */
  predicate Within(start: Sym, searched: Sym, links: map<Sym, Sym>, steps: nat)
    decreases steps
  {
    || start == searched
    || (steps > 0 && start in links && links[start] != start && Within(links[start], searched, links, steps - 1))
  }

  /** The functions never expanded. */
  function RecFuns(edges: set<Edge>, links: map<Sym, Sym>): set<Sym> {
    set e | e in Closure(edges) && Within(e.src, e.dst, links, |links|) :: e.dst
  }

  /** Functions on a cycle of the closure are among them. */
  lemma RecursiveLeft(edges: set<Edge>, links: map<Sym, Sym>)
    ensures forall f :: Edge(f, f) in Closure(edges) ==> f in RecFuns(edges, links)
  {
    forall f | Edge(f, f) in Closure(edges) ensures f in RecFuns(edges, links) { assert Within(f, f, links, |links|); }
  }

  /** The loop over the vertices and their neighbours in the closure. */
  method ComputeRecFuns(edges: set<Edge>, links: map<Sym, Sym>) returns (recs: set<Sym>)
    ensures recs == RecFuns(edges, links)
    ensures forall f :: Edge(f, f) in Closure(edges) ==> f in recs
  {
    recs := {};
    var todo := Closure(edges);
    while todo != {}
      invariant todo <= Closure(edges)
      invariant recs == set e | e in Closure(edges) - todo && Within(e.src, e.dst, links, |links|) :: e.dst
      decreases todo
    {
      var e :| e in todo;
      todo := todo - {e};
      if Within(e.src, e.dst, links, |links|) { recs := recs + {e.dst}; }
    }
    RecursiveLeft(edges, links);
  }
}
