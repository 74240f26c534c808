/** The name space of types: binding type names (src/bind/binder.cc), and renaming them (src/bind/renamer.cc). */
module TypeNames {
  import opened Options
  import opened Tiger
  import opened Binder
  import opened Rename

  /** What a program has to do with type names.  `Complete` stands for a chunk of variables or
      functions: it declares no type, but moves the stamp for what comes after it. */
  datatype Text =
    | Plain
    | Named(x: Sym)
    | Both(first: Text, second: Text)
    | Complete(after: Text)
    | LetTypes(decs: TypeDecs, body: Text)

  /** A chunk of types: each has a name, and a right-hand side that uses names. */
  datatype TypeDecs = NoType | TypeCons(name: Sym, uses: seq<Sym>, rest: TypeDecs)

  function NamesOf(ds: TypeDecs): seq<Sym> {
    match ds
    case NoType => []
    case TypeCons(x, _, rest) => [x] + NamesOf(rest)
  }

  predicate Builtin(x: Sym) { x.text == "int" || x.text == "string" }

  datatype TypeMsg = BoundType(x: Sym, dec: nat) | UndeclaredType(x: Sym) | RedefinedType(x: Sym)

  type TypeSight = map<Sym, Bound>

  /** The messages written, the count of chunks completed and of types declared. */
  datatype Passed = Passed(log: seq<TypeMsg>, chunks: nat, nodes: nat)
  {
    function Log(m: TypeMsg): Passed { this.(log := log + [m]) }

    function Node(): Passed { this.(nodes := nodes + 1) }

    function Chunk(): Passed { this.(chunks := chunks + 1) }
  }

  // ----- the binder -----

  function UseType(x: Sym, sight: TypeSight, p: Passed): Passed {
    if Builtin(x) then p else p.Log(if x in sight then BoundType(x, sight[x].dec) else UndeclaredType(x))
  }

  function UseTypes(xs: seq<Sym>, sight: TypeSight, p: Passed): Passed
    decreases |xs|
  {
    if xs == [] then p else UseTypes(xs[1..], sight, UseType(xs[0], sight, p))
  }

  function DeclareType(x: Sym, sight: TypeSight, p: Passed): (TypeSight, Passed) {
    if x in sight && sight[x].stamp == p.chunks then (sight, p.Node().Log(RedefinedType(x)))
    else (sight[x := Bound(p.nodes, p.chunks)], p.Node())
  }

  function DeclareTypes(ds: TypeDecs, sight: TypeSight, p: Passed): (TypeSight, Passed) {
    match ds
    case NoType => (sight, p)
    case TypeCons(x, _, rest) => var d := DeclareType(x, sight, p); DeclareTypes(rest, d.0, d.1)
  }

  function UseBodies(ds: TypeDecs, sight: TypeSight, p: Passed): Passed {
    match ds
    case NoType => p
    case TypeCons(_, uses, rest) => UseBodies(rest, sight, UseTypes(uses, sight, p))
  }

  /** Visiting `t`: headers of a chunk before its right-hand sides, and then the next stamp. */
  function BindTypes(t: Text, sight: TypeSight, p: Passed): Passed {
    match t
    case Plain => p
    case Named(x) => UseType(x, sight, p)
    case Both(a, b) => BindTypes(b, sight, BindTypes(a, sight, p))
    case Complete(after) => BindTypes(after, sight, p.Chunk())
    case LetTypes(ds, body) =>
      var h := DeclareTypes(ds, sight, p);
      BindTypes(body, h.0, UseBodies(ds, h.0, h.1).Chunk())
  }

  /** What the top of the table shows of types. */
  function TypesOf(top: map<Sym, Entry>): TypeSight { map k | k in top && top[k].typ.Some? :: top[k].typ.value }

  lemma PutShowsType(top: map<Sym, Entry>, x: Sym, b: Bound)
    ensures TypesOf(top[x := (if x in top then top[x] else NOTHING).With(Types, b)]) == TypesOf(top)[x := b]
  {}

  /** The binder again, on type names; the table holds variables and functions as well. */
  class TypeBinder {
    const sm: ScopedMap<Entry>
    var nbChunks: nat
    var nodes: nat
    var log: seq<TypeMsg>

    constructor (sm: ScopedMap<Entry>)
      ensures this.sm == sm && Done() == Passed([], 0, 0)
    {
      this.sm := sm;
      nbChunks, nodes, log := 0, 0, [];
    }

    ghost predicate Valid() reads this, sm { sm.stack != [] }

    ghost function Sees(): TypeSight reads this, sm { TypesOf(TopMap(sm.stack)) }

    ghost function Done(): Passed reads this { Passed(log, nbChunks, nodes) }

    method Write(m: TypeMsg)
      modifies this
      ensures Done() == old(Done()).Log(m)
    {
      log := log + [m];
    }

    method VisitNameTy(x: Sym)
      requires Valid()
      modifies this
      ensures Valid() && Done() == UseType(x, Sees(), old(Done()))
    {
      if x.text == "int" || x.text == "string" { return; }
      var r := sm.Get(x);
      if r.Data? && r.data.typ.Some? {
        Write(BoundType(x, r.data.typ.value.dec));
      } else {
        Write(UndeclaredType(x));
      }
    }

    method VisitNames(xs: seq<Sym>)
      requires Valid()
      modifies this
      ensures Valid() && Done() == UseTypes(xs, Sees(), old(Done()))
    {
      for i := 0 to |xs|
        invariant Valid() && UseTypes(xs[i..], Sees(), Done()) == UseTypes(xs, Sees(), old(Done()))
      {
        assert xs[i..][1..] == xs[i + 1..];
        VisitNameTy(xs[i]);
      }
    }

    method VisitDecHeader(x: Sym)
      requires Valid()
      modifies this, sm
      ensures Valid() && SameBelow(old(sm.stack), sm.stack)
      ensures (Sees(), Done()) == DeclareType(x, old(Sees()), old(Done()))
    {
      PutShowsType(TopMap(sm.stack), x, Bound(nodes, nbChunks));
      hide TypesOf;
      var id := nodes;
      nodes := nodes + 1;
      var r := sm.Get(x);
      TypeIn(TopMap(sm.stack), x);
      if !r.Data? {
        sm.Put(x, NOTHING.With(Types, Bound(id, nbChunks)));
      } else if r.data.typ.Some? && r.data.typ.value.stamp == nbChunks {
        Write(RedefinedType(x));
      } else {
        sm.Put(x, r.data.With(Types, Bound(id, nbChunks)));
      }
    }

    /** Headers, then right-hand sides; the chunk is complete after both. */
    method VisitTypeChunk(ds: TypeDecs)
      requires Valid()
      modifies this, sm
      ensures Valid() && SameBelow(old(sm.stack), sm.stack)
      ensures var h := DeclareTypes(ds, old(Sees()), old(Done()));
        Sees() == h.0 && Done() == UseBodies(ds, h.0, h.1).Chunk()
    {
      var rest := ds;
      while rest.TypeCons?
        invariant Valid() && SameBelow(old(sm.stack), sm.stack)
        invariant DeclareTypes(rest, Sees(), Done()) == DeclareTypes(ds, old(Sees()), old(Done()))
        decreases rest
      {
        VisitDecHeader(rest.name);
        rest := rest.rest;
      }
      rest := ds;
      ghost var h := DeclareTypes(ds, old(Sees()), old(Done()));
      while rest.TypeCons?
        invariant Valid() && SameBelow(old(sm.stack), sm.stack) && Sees() == h.0
        invariant UseBodies(rest, h.0, Done()) == UseBodies(ds, h.0, h.1)
        decreases rest
      {
        VisitNames(rest.uses);
        rest := rest.rest;
      }
      nbChunks := nbChunks + 1;
    }

    method Visit(t: Text)
      requires Valid()
      modifies this, sm
      ensures Valid() && sm.stack == old(sm.stack) && Done() == BindTypes(t, Sees(), old(Done()))
      decreases t
    {
      hide TypesOf, DeclareTypes, UseBodies;
      match t
      case Plain =>
      case Named(x) => VisitNameTy(x);
      case Both(a, b) => Visit(a); Visit(b);
      case Complete(after) =>
        nbChunks := nbChunks + 1;
        Visit(after);
      case LetTypes(ds, body) =>
        ghost var s := sm.stack;
        sm.ScopeBegin();
        assert sm.stack[..|sm.stack| - 1] == s;
        VisitTypeChunk(ds);
        Visit(body);
        sm.ScopeEnd();
    }
  }

  lemma TypeIn(top: map<Sym, Entry>, x: Sym)
    ensures x in TypesOf(top) <==> x in top && top[x].typ.Some?
    ensures x in TypesOf(top) ==> TypesOf(top)[x] == top[x].typ.value
  {}

  // ----- lexical scoping -----

  type TypeNodes = map<Sym, nat>

  datatype Seen = Seen(log: seq<TypeMsg>, nodes: nat)
  {
    function Log(m: TypeMsg): Seen { this.(log := log + [m]) }

    function Node(): Seen { this.(nodes := nodes + 1) }
  }

  function LexType(x: Sym, decs: TypeNodes, p: Seen): Seen {
    if Builtin(x) then p else p.Log(if x in decs then BoundType(x, decs[x]) else UndeclaredType(x))
  }

  function LexTypes(xs: seq<Sym>, decs: TypeNodes, p: Seen): Seen
    decreases |xs|
  {
    if xs == [] then p else LexTypes(xs[1..], decs, LexType(xs[0], decs, p))
  }

  /** A name repeated in its chunk is an error and keeps its first definition. */
  function LexDecs(ds: TypeDecs, own: set<Sym>, decs: TypeNodes, p: Seen): (TypeNodes, Seen) {
    match ds
    case NoType => (decs, p)
    case TypeCons(x, _, rest) =>
      if x in own then LexDecs(rest, own, decs, p.Node().Log(RedefinedType(x)))
      else LexDecs(rest, own + {x}, decs[x := p.nodes], p.Node())
  }

  function LexBodies(ds: TypeDecs, decs: TypeNodes, p: Seen): Seen {
    match ds
    case NoType => p
    case TypeCons(_, uses, rest) => LexBodies(rest, decs, LexTypes(uses, decs, p))
  }

  /** Lexical scoping: a declaration hides any other outside its chunk, without stamps. */
  function Lexical(t: Text, decs: TypeNodes, p: Seen): Seen {
    match t
    case Plain => p
    case Named(x) => LexType(x, decs, p)
    case Both(a, b) => Lexical(b, decs, Lexical(a, decs, p))
    case Complete(after) => Lexical(after, decs, p)
    case LetTypes(ds, body) =>
      var h := LexDecs(ds, {}, decs, p);
      Lexical(body, h.0, LexBodies(ds, h.0, h.1))
  }

  function NodesOf(sight: TypeSight): TypeNodes { map x | x in sight :: sight[x].dec }

  function SeenOf(p: Passed): Seen { Seen(p.log, p.nodes) }

  /** Everything in sight was declared in a chunk that is complete. */
  ghost predicate Settled(sight: TypeSight, chunks: nat) { forall x :: x in sight ==> sight[x].stamp < chunks }

  /** What carries the current stamp is what the chunk has declared so far. */
  ghost predicate Stamped(sight: TypeSight, own: set<Sym>, chunks: nat) {
    forall x :: x in sight ==> sight[x].stamp <= chunks && (sight[x].stamp == chunks <==> x in own)
  }

  lemma {:induction false} UseLexical(xs: seq<Sym>, sight: TypeSight, p: Passed)
    ensures UseTypes(xs, sight, p).chunks == p.chunks
    ensures SeenOf(UseTypes(xs, sight, p)) == LexTypes(xs, NodesOf(sight), SeenOf(p))
    decreases |xs|
  {
    if xs != [] { UseLexical(xs[1..], sight, UseType(xs[0], sight, p)); }
  }

  lemma {:induction false} BodiesLexical(ds: TypeDecs, sight: TypeSight, p: Passed)
    ensures UseBodies(ds, sight, p).chunks == p.chunks
    ensures SeenOf(UseBodies(ds, sight, p)) == LexBodies(ds, NodesOf(sight), SeenOf(p))
  {
    if ds.TypeCons? {
      UseLexical(ds.uses, sight, p);
      BodiesLexical(ds.rest, sight, UseTypes(ds.uses, sight, p));
    }
  }

  lemma {:induction false} HeadersLexical(ds: TypeDecs, own: set<Sym>, sight: TypeSight, p: Passed)
    requires Stamped(sight, own, p.chunks) && forall x :: x in own ==> x in sight
    ensures var h, l := DeclareTypes(ds, sight, p), LexDecs(ds, own, NodesOf(sight), SeenOf(p));
      h.1.chunks == p.chunks && NodesOf(h.0) == l.0 && SeenOf(h.1) == l.1 && forall x :: x in h.0 ==> h.0[x].stamp <= p.chunks
  {
    if ds.TypeCons? {
      var d := DeclareType(ds.name, sight, p);
      if ds.name in own {
        HeadersLexical(ds.rest, own, d.0, d.1);
      } else {
        assert NodesOf(d.0) == NodesOf(sight)[ds.name := p.nodes];
        HeadersLexical(ds.rest, own + {ds.name}, d.0, d.1);
      }
    }
  }

  /** The one global stamp amounts to lexical scoping, whatever chunks of variables and functions come
      between: no index of a loop can be met, for it is not a type. */
  lemma {:induction false} BinderIsLexical(t: Text, sight: TypeSight, p: Passed)
    requires Settled(sight, p.chunks)
    ensures var r := BindTypes(t, sight, p); r.chunks >= p.chunks && SeenOf(r) == Lexical(t, NodesOf(sight), SeenOf(p))
  {
    match t
    case Plain =>
    case Named(x) =>
    case Both(a, b) =>
      BinderIsLexical(a, sight, p);
      BinderIsLexical(b, sight, BindTypes(a, sight, p));
    case Complete(after) => BinderIsLexical(after, sight, p.Chunk());
    case LetTypes(ds, body) =>
      var h := DeclareTypes(ds, sight, p);
      HeadersLexical(ds, {}, sight, p);
      BodiesLexical(ds, h.0, h.1);
      BinderIsLexical(body, h.0, UseBodies(ds, h.0, h.1).Chunk());
  }

  // ----- redefinition -----

  predicate Redefined(log: seq<TypeMsg>) { exists i :: 0 <= i < |log| && log[i].RedefinedType? }

  ghost predicate RepeatedIn(names: seq<Sym>, own: set<Sym>) {
    (exists i, j :: 0 <= i < j < |names| && names[i] == names[j]) || exists i :: 0 <= i < |names| && names[i] in own
  }

  /** Some chunk of types declares a name twice. */
  ghost predicate Repeats(t: Text) {
    match t
    case Plain => false
    case Named(_) => false
    case Both(a, b) => Repeats(a) || Repeats(b)
    case Complete(after) => Repeats(after)
    case LetTypes(ds, body) => RepeatedIn(NamesOf(ds), {}) || Repeats(body)
  }

  lemma RedefinedMore(log: seq<TypeMsg>, m: TypeMsg)
    ensures Redefined(log + [m]) <==> Redefined(log) || m.RedefinedType?
  {
    assert (log + [m])[|log|] == m;
    if i :| 0 <= i < |log| && log[i].RedefinedType? { assert (log + [m])[i].RedefinedType?; }
  }

  lemma {:induction false} UseNotRedefined(xs: seq<Sym>, decs: TypeNodes, p: Seen)
    ensures Redefined(LexTypes(xs, decs, p).log) <==> Redefined(p.log)
    decreases |xs|
  {
    hide Redefined;
    if xs != [] {
      UseNotRedefined(xs[1..], decs, LexType(xs[0], decs, p));
      RedefinedMore(p.log, if xs[0] in decs then BoundType(xs[0], decs[xs[0]]) else UndeclaredType(xs[0]));
    }
  }

  lemma {:induction false} BodiesNotRedefined(ds: TypeDecs, decs: TypeNodes, p: Seen)
    ensures Redefined(LexBodies(ds, decs, p).log) <==> Redefined(p.log)
  {
    hide Redefined;
    if ds.TypeCons? {
      UseNotRedefined(ds.uses, decs, p);
      BodiesNotRedefined(ds.rest, decs, LexTypes(ds.uses, decs, p));
    }
  }

  lemma RepeatedStep(x: Sym, rest: seq<Sym>, own: set<Sym>)
    ensures RepeatedIn([x] + rest, own) <==> x in own || RepeatedIn(rest, own + {x})
  {
    if x in own || RepeatedIn(rest, own + {x}) { RepeatedLonger(x, rest, own); }
    if RepeatedIn([x] + rest, own) { RepeatedShorter(x, rest, own); }
  }

  lemma RepeatedLonger(x: Sym, rest: seq<Sym>, own: set<Sym>)
    requires x in own || RepeatedIn(rest, own + {x})
    ensures RepeatedIn([x] + rest, own)
  {
    var names := [x] + rest;
    assert names[0] == x;
    if i, j :| 0 <= i < j < |rest| && rest[i] == rest[j] {
      assert names[i + 1] == names[j + 1];
    } else if i :| 0 <= i < |rest| && rest[i] in own + {x} {
      assert names[i + 1] == rest[i];
    }
  }

  lemma RepeatedShorter(x: Sym, rest: seq<Sym>, own: set<Sym>)
    requires RepeatedIn([x] + rest, own)
    ensures x in own || RepeatedIn(rest, own + {x})
  {
    var names := [x] + rest;
    if i, j :| 0 <= i < j < |names| && names[i] == names[j] {
      assert rest[j - 1] == names[j];
      if i > 0 { assert rest[i - 1] == names[i]; }
    } else {
      var i :| 0 <= i < |names| && names[i] in own;
      if i > 0 { assert rest[i - 1] == names[i]; }
    }
  }

  lemma NothingRepeated(own: set<Sym>)
    ensures !RepeatedIn([], own)
  {}

  lemma {:induction false} HeadersRedefined(ds: TypeDecs, own: set<Sym>, decs: TypeNodes, p: Seen)
    ensures Redefined(LexDecs(ds, own, decs, p).1.log) <==> Redefined(p.log) || RepeatedIn(NamesOf(ds), own)
  {
    hide Redefined, RepeatedIn;
    match ds
    case NoType =>
      NothingRepeated(own);
    case TypeCons(x, _, rest) =>
      RepeatedStep(x, NamesOf(rest), own);
      RedefinedMore(p.log, RedefinedType(x));
      if x in own {
        HeadersRedefined(rest, own, decs, p.Node().Log(RedefinedType(x)));
      } else {
        HeadersRedefined(rest, own + {x}, decs[x := p.nodes], p.Node());
      }
  }

  lemma {:induction false} LexicalRedefined(t: Text, decs: TypeNodes, p: Seen)
    ensures Redefined(Lexical(t, decs, p).log) <==> Redefined(p.log) || Repeats(t)
  {
    hide Redefined, RepeatedIn;
    match t
    case Plain =>
    case Named(x) => RedefinedMore(p.log, if x in decs then BoundType(x, decs[x]) else UndeclaredType(x));
    case Both(a, b) =>
      LexicalRedefined(a, decs, p);
      LexicalRedefined(b, decs, Lexical(a, decs, p));
    case Complete(after) => LexicalRedefined(after, decs, p);
    case LetTypes(ds, body) =>
      var h := LexDecs(ds, {}, decs, p);
      HeadersRedefined(ds, {}, decs, p);
      BodiesNotRedefined(ds, h.0, h.1);
      LexicalRedefined(body, h.0, LexBodies(ds, h.0, h.1));
  }

  /** The redefinition of a type is reported exactly if a chunk of types repeats a name. */
  lemma RedefinitionExact(t: Text)
    ensures Redefined(BindTypes(t, map[], Passed([], 0, 0)).log) <==> Repeats(t)
  {
    BinderIsLexical(t, map[], Passed([], 0, 0));
    assert NodesOf(map[]) == map[];
    LexicalRedefined(t, map[], Seen([], 0));
  }

  // ----- renaming -----

  /** The name given to the type declared as the `dec`th: the renamer's count, whatever order it visits
      declarations in, is different for different declarations. */
  function Given(x: Sym, dec: nat, count: nat -> nat): Sym { Fresh(x, count(dec)) }

  function RenameUse(x: Sym, decs: TypeNodes, count: nat -> nat): Sym {
    if Builtin(x) || x !in decs then x else Given(x, decs[x], count)
  }

  function RenameUses(xs: seq<Sym>, decs: TypeNodes, count: nat -> nat): seq<Sym> {
    if xs == [] then [] else [RenameUse(xs[0], decs, count)] + RenameUses(xs[1..], decs, count)
  }

  function RenameDecs(ds: TypeDecs, decs: TypeNodes, n: nat, count: nat -> nat): TypeDecs {
    match ds
    case NoType => NoType
    case TypeCons(x, uses, rest) => TypeCons(Given(x, n, count), RenameUses(uses, decs, count), RenameDecs(rest, decs, n + 1, count))
  }

  function CountDecs(ds: TypeDecs): nat {
    match ds
    case NoType => 0
    case TypeCons(_, _, rest) => 1 + CountDecs(rest)
  }

  function CountTypes(t: Text): nat {
    match t
    case Plain => 0
    case Named(_) => 0
    case Both(a, b) => CountTypes(a) + CountTypes(b)
    case Complete(after) => CountTypes(after)
    case LetTypes(ds, body) => CountDecs(ds) + CountTypes(body)
  }

  /** `t` with its types renamed, the first of them declared as the `n`th. */
  function RenameTypes(t: Text, decs: TypeNodes, n: nat, count: nat -> nat): Text {
    match t
    case Plain => Plain
    case Named(x) => Named(RenameUse(x, decs, count))
    case Both(a, b) => Both(RenameTypes(a, decs, n, count), RenameTypes(b, decs, n + CountTypes(a), count))
    case Complete(after) => Complete(RenameTypes(after, decs, n, count))
    case LetTypes(ds, body) =>
      var inner := LexDecs(ds, {}, decs, Seen([], n)).0;
      LetTypes(RenameDecs(ds, inner, n, count), RenameTypes(body, inner, n + CountDecs(ds), count))
  }

  ghost predicate Injective(count: nat -> nat) { forall i: nat, j: nat :: count(i) == count(j) ==> i == j }

  /** Every use is bound, and nothing is redefined. */
  predicate Clean(log: seq<TypeMsg>) { forall i :: 0 <= i < |log| ==> log[i].BoundType? }

  /** Both logs bind use by use to the same declarations. */
  ghost predicate SameLinks(log: seq<TypeMsg>, log2: seq<TypeMsg>) {
    |log2| == |log| && forall i :: 0 <= i < |log| ==> log[i].BoundType? && log2[i].BoundType? && log2[i].dec == log[i].dec
  }

  /** The new names of the declarations in sight are in sight, among new names of earlier declarations. */
  ghost predicate Matches(decs: TypeNodes, decs2: TypeNodes, count: nat -> nat, n: nat) {
    && (forall x :: x in decs ==> decs[x] < n && Given(x, decs[x], count) in decs2 && decs2[Given(x, decs[x], count)] == decs[x])
    && (forall y :: y in decs2 ==> Earlier(y, count, n))
  }

  ghost predicate Earlier(y: Sym, count: nat -> nat, n: nat) { exists x, d: nat :: d < n && y == Given(x, d, count) }

  lemma GivenNew(x: Sym, count: nat -> nat, n: nat)
    requires Injective(count)
    ensures !Earlier(Given(x, n, count), count, n)
  {
    if y, d: nat :| d < n && Given(x, n, count) == Given(y, d, count) { FreshInjective(x, count(n), y, count(d)); }
  }

  lemma GivenNotBuiltin(x: Sym, dec: nat, count: nat -> nat)
    ensures !Builtin(Given(x, dec, count))
  {
    FreshEnds(x, count(dec));
    assert "int"[2] == 't' && "string"[5] == 'g';
  }

  lemma {:induction false} UsesGrow(xs: seq<Sym>, decs: TypeNodes, p: Seen)
    ensures p.log <= LexTypes(xs, decs, p).log && LexTypes(xs, decs, p).nodes == p.nodes
    decreases |xs|
  {
    if xs != [] { UsesGrow(xs[1..], decs, LexType(xs[0], decs, p)); }
  }

  lemma {:induction false} BodiesGrow(ds: TypeDecs, decs: TypeNodes, p: Seen)
    ensures p.log <= LexBodies(ds, decs, p).log && LexBodies(ds, decs, p).nodes == p.nodes
  {
    if ds.TypeCons? {
      UsesGrow(ds.uses, decs, p);
      BodiesGrow(ds.rest, decs, LexTypes(ds.uses, decs, p));
    }
  }

  lemma {:induction false} HeadersGrow(ds: TypeDecs, own: set<Sym>, decs: TypeNodes, p: Seen)
    ensures p.log <= LexDecs(ds, own, decs, p).1.log && LexDecs(ds, own, decs, p).1.nodes == p.nodes + CountDecs(ds)
  {
    if ds.TypeCons? {
      if ds.name in own { HeadersGrow(ds.rest, own, decs, p.Node().Log(RedefinedType(ds.name))); }
      else { HeadersGrow(ds.rest, own + {ds.name}, decs[ds.name := p.nodes], p.Node()); }
    }
  }

  lemma {:induction false} LexicalGrows(t: Text, decs: TypeNodes, p: Seen)
    ensures p.log <= Lexical(t, decs, p).log && Lexical(t, decs, p).nodes == p.nodes + CountTypes(t)
  {
    match t
    case Plain =>
    case Named(_) =>
    case Both(a, b) =>
      LexicalGrows(a, decs, p);
      LexicalGrows(b, decs, Lexical(a, decs, p));
    case Complete(after) => LexicalGrows(after, decs, p);
    case LetTypes(ds, body) =>
      var h := LexDecs(ds, {}, decs, p);
      HeadersGrow(ds, {}, decs, p);
      BodiesGrow(ds, h.0, h.1);
      LexicalGrows(body, h.0, LexBodies(ds, h.0, h.1));
  }

  lemma CleanPrefix(log: seq<TypeMsg>, more: seq<TypeMsg>)
    requires log <= more && Clean(more)
    ensures Clean(log)
  {
    forall i | 0 <= i < |log| ensures log[i].BoundType? { assert log[i] == more[i]; }
  }

  lemma UseAlike(x: Sym, decs: TypeNodes, decs2: TypeNodes, p: Seen, p2: Seen, count: nat -> nat, n: nat)
    requires Matches(decs, decs2, count, n) && SameLinks(p.log, p2.log) && Clean(LexType(x, decs, p).log)
    ensures SameLinks(LexType(x, decs, p).log, LexType(RenameUse(x, decs, count), decs2, p2).log)
  {
    if !Builtin(x) {
      assert LexType(x, decs, p).log[|p.log|].BoundType?;
      GivenNotBuiltin(x, decs[x], count);
    }
  }

  lemma {:induction false} UsesAlike(xs: seq<Sym>, decs: TypeNodes, decs2: TypeNodes, p: Seen, p2: Seen, count: nat -> nat, n: nat)
    requires Matches(decs, decs2, count, n) && SameLinks(p.log, p2.log) && Clean(LexTypes(xs, decs, p).log)
    ensures SameLinks(LexTypes(xs, decs, p).log, LexTypes(RenameUses(xs, decs, count), decs2, p2).log)
    decreases |xs|
  {
    hide Matches, SameLinks, Clean, LexType;
    if xs != [] {
      var q := LexType(xs[0], decs, p);
      UsesGrow(xs[1..], decs, q);
      CleanPrefix(q.log, LexTypes(xs, decs, p).log);
      UseAlike(xs[0], decs, decs2, p, p2, count, n);
      UsesAlike(xs[1..], decs, decs2, q, LexType(RenameUse(xs[0], decs, count), decs2, p2), count, n);
    }
  }

  lemma {:induction false} BodiesAlike(ds: TypeDecs, decs: TypeNodes, decs2: TypeNodes, p: Seen, p2: Seen, count: nat -> nat, n: nat, k: nat)
    requires Matches(decs, decs2, count, n) && SameLinks(p.log, p2.log) && Clean(LexBodies(ds, decs, p).log)
    ensures SameLinks(LexBodies(ds, decs, p).log, LexBodies(RenameDecs(ds, decs, k, count), decs2, p2).log)
    decreases ds
  {
    hide Matches, SameLinks, Clean;
    if ds.TypeCons? {
      var q := LexTypes(ds.uses, decs, p);
      BodiesGrow(ds.rest, decs, q);
      CleanPrefix(q.log, LexBodies(ds, decs, p).log);
      UsesAlike(ds.uses, decs, decs2, p, p2, count, n);
      BodiesAlike(ds.rest, decs, decs2, q, LexTypes(RenameUses(ds.uses, decs, count), decs2, p2), count, n, k + 1);
    }
  }

  lemma MatchesMore(decs: TypeNodes, decs2: TypeNodes, count: nat -> nat, n: nat, x: Sym)
    requires Matches(decs, decs2, count, n) && Injective(count)
    ensures Given(x, n, count) !in decs2 && Matches(decs[x := n], decs2[Given(x, n, count) := n], count, n + 1)
  {
    hide Given, Injective;
    GivenNew(x, count, n);
    forall y | y in decs2 ensures Earlier(y, count, n + 1) {
      assert Earlier(y, count, n);
      var z, d: nat :| d < n && y == Given(z, d, count);
    }
    assert Earlier(Given(x, n, count), count, n + 1);
  }

  lemma RepeatedNotClean(ds: TypeDecs, own: set<Sym>, decs: TypeNodes, p: Seen)
    requires ds.TypeCons? && ds.name in own
    ensures !Clean(LexDecs(ds, own, decs, p).1.log)
  {
    var q := p.Node().Log(RedefinedType(ds.name));
    HeadersGrow(ds.rest, own, decs, q);
    assert LexDecs(ds, own, decs, p).1.log[|p.log|] == q.log[|p.log|];
  }

  lemma {:induction false} HeadersAlike(ds: TypeDecs, own: set<Sym>, own2: set<Sym>, decs: TypeNodes, decs2: TypeNodes, p: Seen, p2: Seen,
                                        count: nat -> nat, inner: TypeNodes)
    requires Matches(decs, decs2, count, p.nodes) && SameLinks(p.log, p2.log) && p2.nodes == p.nodes && Injective(count)
    requires (forall y :: y in own2 ==> y in decs2) && Clean(LexDecs(ds, own, decs, p).1.log)
    ensures var h, h2 := LexDecs(ds, own, decs, p), LexDecs(RenameDecs(ds, inner, p.nodes, count), own2, decs2, p2);
      Matches(h.0, h2.0, count, h.1.nodes) && SameLinks(h.1.log, h2.1.log) && h2.1.nodes == h.1.nodes
    decreases ds
  {
    hide Matches, SameLinks, Injective, Given;
    if ds.TypeCons? {
      var x, y := ds.name, Given(ds.name, p.nodes, count);
      MatchesMore(decs, decs2, count, p.nodes, x);
      if x in own {
        RepeatedNotClean(ds, own, decs, p);
        assert false;
      } else {
        HeadersAlike(ds.rest, own + {x}, own2 + {y}, decs[x := p.nodes], decs2[y := p.nodes], p.Node(), p2.Node(), count, inner);
      }
    }
  }

  lemma {:induction false} RenamedAlike(t: Text, decs: TypeNodes, decs2: TypeNodes, p: Seen, p2: Seen, count: nat -> nat)
    requires Matches(decs, decs2, count, p.nodes) && SameLinks(p.log, p2.log) && p2.nodes == p.nodes && Injective(count)
    requires Clean(Lexical(t, decs, p).log)
    ensures var r, r2 := Lexical(t, decs, p), Lexical(RenameTypes(t, decs, p.nodes, count), decs2, p2);
      SameLinks(r.log, r2.log) && r2.nodes == r.nodes
    decreases t, 1
  {
    hide Matches, SameLinks, Injective, Clean, LexType, RenameUse;
    match t
    case Plain =>
    case Named(x) => UseAlike(x, decs, decs2, p, p2, count, p.nodes); UseNodes(x, decs, p); UseNodes(RenameUse(x, decs, count), decs2, p2);
    case Both(a, b) =>
      var q, q2 := Lexical(a, decs, p), Lexical(RenameTypes(a, decs, p.nodes, count), decs2, p2);
      LexicalGrows(a, decs, p);
      LexicalGrows(b, decs, q);
      CleanPrefix(q.log, Lexical(t, decs, p).log);
      RenamedAlike(a, decs, decs2, p, p2, count);
      MatchesLater(decs, decs2, count, p.nodes, q.nodes);
      RenamedAlike(b, decs, decs2, q, q2, count);
    case Complete(after) => RenamedAlike(after, decs, decs2, p, p2, count);
    case LetTypes(ds, body) => ChunkAlike(ds, body, decs, decs2, p, p2, count);
  }

  lemma UseNodes(x: Sym, decs: TypeNodes, p: Seen)
    ensures LexType(x, decs, p).nodes == p.nodes
  {}

  lemma MatchesLater(decs: TypeNodes, decs2: TypeNodes, count: nat -> nat, n: nat, m: nat)
    requires Matches(decs, decs2, count, n) && n <= m
    ensures Matches(decs, decs2, count, m)
  {
    hide Given;
    forall y | y in decs2 ensures Earlier(y, count, m) {
      assert Earlier(y, count, n);
      var z, d: nat :| d < n && y == Given(z, d, count);
    }
  }

  lemma {:induction false} HeadersWithoutLog(ds: TypeDecs, own: set<Sym>, decs: TypeNodes, p: Seen, q: Seen)
    requires q.nodes == p.nodes
    ensures LexDecs(ds, own, decs, q).0 == LexDecs(ds, own, decs, p).0
  {
    if ds.TypeCons? {
      if ds.name in own {
        HeadersWithoutLog(ds.rest, own, decs, p.Node().Log(RedefinedType(ds.name)), q.Node().Log(RedefinedType(ds.name)));
      } else {
        HeadersWithoutLog(ds.rest, own + {ds.name}, decs[ds.name := p.nodes], p.Node(), q.Node());
      }
    }
  }

  lemma {:induction false} ChunkAlike(ds: TypeDecs, body: Text, decs: TypeNodes, decs2: TypeNodes, p: Seen, p2: Seen, count: nat -> nat)
    requires Matches(decs, decs2, count, p.nodes) && SameLinks(p.log, p2.log) && p2.nodes == p.nodes && Injective(count)
    requires Clean(Lexical(LetTypes(ds, body), decs, p).log)
    ensures var r, r2 := Lexical(LetTypes(ds, body), decs, p), Lexical(RenameTypes(LetTypes(ds, body), decs, p.nodes, count), decs2, p2);
      SameLinks(r.log, r2.log) && r2.nodes == r.nodes
    decreases LetTypes(ds, body), 0
  {
    hide Matches, SameLinks, Injective, Clean;
    var n := p.nodes;
    var h := LexDecs(ds, {}, decs, p);
    HeadersWithoutLog(ds, {}, decs, p, Seen([], n));
    var ds2 := RenameDecs(ds, h.0, n, count);
    var h2 := LexDecs(ds2, {}, decs2, p2);
    var q, q2 := LexBodies(ds, h.0, h.1), LexBodies(ds2, h2.0, h2.1);
    HeadersGrow(ds, {}, decs, p);
    BodiesGrow(ds, h.0, h.1);
    BodiesGrow(ds2, h2.0, h2.1);
    LexicalGrows(body, h.0, q);
    CleanPrefix(q.log, Lexical(body, h.0, q).log);
    CleanPrefix(h.1.log, q.log);
    HeadersAlike(ds, {}, {}, decs, decs2, p, p2, count, h.0);
    BodiesAlike(ds, h.0, h2.0, h.1, h2.1, count, h.1.nodes, n);
    RenamedAlike(body, h.0, h2.0, q, q2, count);
  }

  /** Binding the renamed program again gives every type name the declaration it had, and no error. */
  lemma TypesRebind(t: Text, count: nat -> nat)
    requires Injective(count) && Clean(BindTypes(t, map[], Passed([], 0, 0)).log)
    ensures SameLinks(BindTypes(t, map[], Passed([], 0, 0)).log, BindTypes(RenameTypes(t, map[], 0, count), map[], Passed([], 0, 0)).log)
  {
    hide Injective;
    var p := Passed([], 0, 0);
    assert NodesOf(map[]) == map[];
    BinderIsLexical(t, map[], p);
    BinderIsLexical(RenameTypes(t, map[], 0, count), map[], p);
    RenamedAlike(t, map[], map[], SeenOf(p), SeenOf(p), count);
  }

  // ----- new names -----

  function AllNames(t: Text): seq<Sym> {
    match t
    case Plain => []
    case Named(_) => []
    case Both(a, b) => AllNames(a) + AllNames(b)
    case Complete(after) => AllNames(after)
    case LetTypes(ds, body) => NamesOf(ds) + AllNames(body)
  }

  ghost predicate MadeFrom(y: Sym, k: nat, count: nat -> nat) { exists x :: y == Given(x, k, count) }

  /** The `i`th declaration of the renamed text has a name made from the `i`th count. */
  ghost predicate Numbered(names: seq<Sym>, n: nat, count: nat -> nat) {
    forall i :: 0 <= i < |names| ==> MadeFrom(names[i], n + i, count)
  }

  lemma NumberedBoth(a: seq<Sym>, b: seq<Sym>, n: nat, count: nat -> nat)
    requires Numbered(a, n, count) && Numbered(b, n + |a|, count)
    ensures Numbered(a + b, n, count)
  {
    hide MadeFrom;
    forall i | 0 <= i < |a + b| ensures MadeFrom((a + b)[i], n + i, count) {
      if i >= |a| { assert MadeFrom(b[i - |a|], n + |a| + (i - |a|), count); }
    }
  }

  lemma OneNumbered(x: Sym, n: nat, count: nat -> nat)
    ensures Numbered([Given(x, n, count)], n, count)
  {
    hide Given;
    assert MadeFrom(Given(x, n, count), n, count);
  }

  lemma {:induction false} DecsNumbered(ds: TypeDecs, decs: TypeNodes, n: nat, count: nat -> nat)
    ensures Numbered(NamesOf(RenameDecs(ds, decs, n, count)), n, count) && |NamesOf(RenameDecs(ds, decs, n, count))| == CountDecs(ds)
    decreases ds
  {
    hide Numbered, Given;
    match ds
    case NoType => NothingNumbered(n, count);
    case TypeCons(x, _, rest) =>
      DecsNumbered(rest, decs, n + 1, count);
      OneNumbered(x, n, count);
      NumberedBoth([Given(x, n, count)], NamesOf(RenameDecs(rest, decs, n + 1, count)), n, count);
  }

  lemma {:induction false} TextNumbered(t: Text, decs: TypeNodes, n: nat, count: nat -> nat)
    ensures Numbered(AllNames(RenameTypes(t, decs, n, count)), n, count) && |AllNames(RenameTypes(t, decs, n, count))| == CountTypes(t)
  {
    hide Numbered;
    match t
    case Plain => NothingNumbered(n, count);
    case Named(_) => NothingNumbered(n, count);
    case Both(a, b) =>
      TextNumbered(a, decs, n, count);
      TextNumbered(b, decs, n + CountTypes(a), count);
      NumberedBoth(AllNames(RenameTypes(a, decs, n, count)), AllNames(RenameTypes(b, decs, n + CountTypes(a), count)), n, count);
    case Complete(after) => TextNumbered(after, decs, n, count);
    case LetTypes(ds, body) =>
      var inner := LexDecs(ds, {}, decs, Seen([], n)).0;
      DecsNumbered(ds, inner, n, count);
      TextNumbered(body, inner, n + CountDecs(ds), count);
      NumberedBoth(NamesOf(RenameDecs(ds, inner, n, count)), AllNames(RenameTypes(body, inner, n + CountDecs(ds), count)), n, count);
  }

  lemma NothingNumbered(n: nat, count: nat -> nat)
    ensures Numbered([], n, count)
  {}

  /** After renaming no two types of a program have the same name, at whatever distance. */
  lemma RenamedTypesDiffer(t: Text, decs: TypeNodes, n: nat, count: nat -> nat, i: nat, j: nat)
    requires Injective(count) && i < j < |AllNames(RenameTypes(t, decs, n, count))|
    ensures AllNames(RenameTypes(t, decs, n, count))[i] != AllNames(RenameTypes(t, decs, n, count))[j]
  {
    var names := AllNames(RenameTypes(t, decs, n, count));
    TextNumbered(t, decs, n, count);
    hide RenameTypes, AllNames;
    assert MadeFrom(names[i], n + i, count) && MadeFrom(names[j], n + j, count);
    var x :| names[i] == Given(x, n + i, count);
    var y :| names[j] == Given(y, n + j, count);
    if names[i] == names[j] { FreshInjective(x, count(n + i), y, count(n + j)); }
  }

  // ----- complaints, told from the text -----

  /** The names that need a declaration: `int` and `string` do not. */
  function Uses(xs: seq<Sym>): set<Sym> { set x | x in xs && x != Sym("int") && x != Sym("string") }

  function UsesIn(ds: TypeDecs): set<Sym> {
    match ds
    case NoType => {}
    case TypeCons(_, uses, rest) => Uses(uses) + UsesIn(rest)
  }

  /** The type names used in a text that no chunk around the use within it declares. */
  function FreeTypes(t: Text): set<Sym> {
    match t
    case Plain => {}
    case Named(x) => Uses([x])
    case Both(a, b) => FreeTypes(a) + FreeTypes(b)
    case Complete(after) => FreeTypes(after)
    case LetTypes(ds, body) => UsesIn(ds) + FreeTypes(body) - (set x | x in NamesOf(ds))
  }

  ghost predicate Quiet(p: Passed) { forall x :: UndeclaredType(x) !in p.log }

  lemma QuietMore(p: Passed, m: TypeMsg)
    ensures Quiet(p.Log(m)) <==> Quiet(p) && !m.UndeclaredType?
    ensures Quiet(p.Node()) <==> Quiet(p)
    ensures Quiet(p.Chunk()) <==> Quiet(p)
  {
    if m.UndeclaredType? { assert UndeclaredType(m.x) in p.Log(m).log; }
  }

  lemma UseComplaint(x: Sym, sight: TypeSight, p: Passed)
    ensures Quiet(UseType(x, sight, p)) <==> Quiet(p) && Uses([x]) <= sight.Keys
  {
    QuietMore(p, if x in sight then BoundType(x, sight[x].dec) else UndeclaredType(x));
    assert Builtin(x) <==> x == Sym("int") || x == Sym("string");
    assert x in [x];
  }

  lemma {:induction false} UsesComplaints(xs: seq<Sym>, sight: TypeSight, p: Passed)
    ensures Quiet(UseTypes(xs, sight, p)) <==> Quiet(p) && Uses(xs) <= sight.Keys
    decreases |xs|
  {
    hide Quiet, UseType;
    if xs != [] {
      UseComplaint(xs[0], sight, p);
      UsesComplaints(xs[1..], sight, UseType(xs[0], sight, p));
      assert xs == [xs[0]] + xs[1..];
      assert Uses(xs) == Uses([xs[0]]) + Uses(xs[1..]);
    }
  }

  lemma {:induction false} BodyComplaints(ds: TypeDecs, sight: TypeSight, p: Passed)
    ensures Quiet(UseBodies(ds, sight, p)) <==> Quiet(p) && UsesIn(ds) <= sight.Keys
  {
    hide Quiet, UseTypes, Uses;
    if ds.TypeCons? {
      UsesComplaints(ds.uses, sight, p);
      BodyComplaints(ds.rest, sight, UseTypes(ds.uses, sight, p));
    }
  }

  lemma {:induction false} HeaderComplaints(ds: TypeDecs, sight: TypeSight, p: Passed)
    ensures var h := DeclareTypes(ds, sight, p); h.0.Keys == sight.Keys + (set x | x in NamesOf(ds)) && (Quiet(h.1) <==> Quiet(p))
  {
    hide Quiet;
    if ds.TypeCons? {
      QuietMore(p, RedefinedType(ds.name));
      QuietMore(p.Node(), RedefinedType(ds.name));
      var d := DeclareType(ds.name, sight, p);
      HeaderComplaints(ds.rest, d.0, d.1);
    }
  }

  /** A type name is told undeclared if and only if some name other than `int` and `string` is used outside
      every chunk that declares it. */
  lemma {:induction false} UndeclaredExact(t: Text, sight: TypeSight, p: Passed)
    ensures Quiet(BindTypes(t, sight, p)) <==> Quiet(p) && FreeTypes(t) <= sight.Keys
  {
    hide Quiet, UseType, Uses;
    match t
    case Plain =>
    case Named(x) => UseComplaint(x, sight, p);
    case Both(a, b) =>
      UndeclaredExact(a, sight, p);
      UndeclaredExact(b, sight, BindTypes(a, sight, p));
    case Complete(after) =>
      QuietMore(p, RedefinedType(Sym("")));
      UndeclaredExact(after, sight, p.Chunk());
    case LetTypes(ds, body) =>
      var h := DeclareTypes(ds, sight, p);
      var b := UseBodies(ds, h.0, h.1);
      HeaderComplaints(ds, sight, p);
      BodyComplaints(ds, h.0, h.1);
      QuietMore(b, RedefinedType(Sym("")));
      UndeclaredExact(body, h.0, b.Chunk());
  }

  // ----- what a chunk binds its names to -----

  /** In the chunk and its body a name means its first declaration in the chunk, whatever it meant before;
      other names mean what they did. */
  lemma {:induction false} ChunkBinds(ds: TypeDecs, own: set<Sym>, sight: TypeSight, p: Passed, i: nat)
    requires Stamped(sight, own, p.chunks) && forall x :: x in own ==> x in sight
    ensures var h, xs := DeclareTypes(ds, sight, p).0, NamesOf(ds);
      && (i < |xs| && xs[i] !in own && (forall j :: 0 <= j < i ==> xs[j] != xs[i]) ==> xs[i] in h && h[xs[i]].dec == p.nodes + i)
      && forall x :: x in sight && (x in own || x !in xs) ==> x in h && h[x] == sight[x]
  {
    if ds.TypeCons? {
      var xs := NamesOf(ds);
      var d := DeclareType(ds.name, sight, p);
      assert xs[0] == ds.name && xs[1..] == NamesOf(ds.rest);
      ChunkBinds(ds.rest, own + {ds.name}, d.0, d.1, if i > 0 then i - 1 else 0);
      if 0 < i < |xs| { assert xs[i] == xs[1..][i - 1]; }
      if 0 < i < |xs| && forall j :: 0 <= j < i ==> xs[j] != xs[i] {
        forall j | 0 <= j < i - 1 ensures xs[1..][j] != xs[i] { assert xs[1..][j] == xs[j + 1]; }
        assert xs[0] != xs[i];
      }
    }
  }
}
