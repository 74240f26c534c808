/** Which variables are passed down to which functions (src/llvmtranslate/escapes-collector.cc). */
module Collector {
  import opened Tiger
  import opened Escapes

  /** Function `fn` is to receive a pointer to `x`. */
  datatype Need = Need(fn: Sym, x: Sym)

  type Needs = set<Need>

  /** What a call in `f` to `g` hands over: the variables `g` needs, except those `f` declares. */
  function Handed(m: Marks, c: Needs, f: Sym, g: Sym): Needs {
    set n | n in c && n.fn == g && !(n.x in m.site && m.site[n.x] == f) :: Need(f, n.x)
  }

  function Collect(m: Marks, c: Needs, v: Visit): Needs {
    match v
    case Declares(_, _) => c
    case Reads(x, f) => if x in m.flagged then c + {Need(f, x)} else c
    case Calls(f, g) => c + Handed(m, c, f, g)
  }

  /** One pass over the visits. */
  function CollectAll(m: Marks, c: Needs, vs: seq<Visit>): Needs {
    if vs == [] then c else Collect(m, CollectAll(m, c, vs[..|vs| - 1]), vs[|vs| - 1])
  }

  /** The escaped variables used directly. */
  function Direct(m: Marks, vs: seq<Visit>): Needs {
    set v | v in vs && v.Reads? && v.x in m.flagged :: Need(v.fn, v.x)
  }

  /** Every function receives what the functions it calls need. */
  ghost predicate ClosedUnder(m: Marks, c: Needs, vs: seq<Visit>) {
    forall v :: v in vs && v.Calls? ==> Handed(m, c, v.fn, v.callee) <= c
  }

  /** A call makes the pass record something new: only then is there another pass. */
  predicate CallAdds(m: Marks, c: Needs, vs: seq<Visit>) {
    exists i :: 0 <= i < |vs| && AddsAt(m, CollectAll(m, c, vs[..i]), vs[i])
  }

  predicate AddsAt(m: Marks, c: Needs, v: Visit) { v.Calls? && !(Handed(m, c, v.fn, v.callee) <= c) }

  /** The same, read off the text: before some call, its callee was seen to use an escaped variable
      that the caller neither declares nor was seen to use. */
  predicate EarlyCall(m: Marks, c: Needs, vs: seq<Visit>) {
    exists i :: 0 <= i < |vs| && AddsAt(m, c + Direct(m, vs[..i]), vs[i])
  }

  lemma DirectLast(m: Marks, vs: seq<Visit>)
    requires vs != []
    ensures var v := vs[|vs| - 1];
      Direct(m, vs) == Direct(m, vs[..|vs| - 1]) + (if v.Reads? && v.x in m.flagged then {Need(v.fn, v.x)} else {})
  {
    assert vs == vs[..|vs| - 1] + [vs[|vs| - 1]];
  }

  lemma {:induction false} QuietPass(m: Marks, c: Needs, vs: seq<Visit>)
    requires forall i :: 0 <= i < |vs| ==> !AddsAt(m, CollectAll(m, c, vs[..i]), vs[i])
    ensures CollectAll(m, c, vs) == c + Direct(m, vs)
    decreases |vs|
  {
    hide Handed, Direct;
    if vs == [] {
      assert Direct(m, vs) == {} by { EmptyDirect(m); }
    } else {
      var n := |vs| - 1;
      assert !AddsAt(m, CollectAll(m, c, vs[..n]), vs[n]);
      forall i | 0 <= i < n ensures !AddsAt(m, CollectAll(m, c, vs[..n][..i]), vs[..n][i]) { assert vs[..n][..i] == vs[..i]; }
      QuietPass(m, c, vs[..n]);
      DirectLast(m, vs);
    }
  }

  lemma EmptyDirect(m: Marks)
    ensures Direct(m, []) == {}
  {}

  lemma {:induction false} QuietText(m: Marks, c: Needs, vs: seq<Visit>)
    requires forall i :: 0 <= i < |vs| ==> !AddsAt(m, c + Direct(m, vs[..i]), vs[i])
    ensures CollectAll(m, c, vs) == c + Direct(m, vs)
    decreases |vs|
  {
    if vs != [] {
      var n := |vs| - 1;
      forall i | 0 <= i < n ensures !AddsAt(m, c + Direct(m, vs[..n][..i]), vs[..n][i]) { assert vs[..n][..i] == vs[..i]; }
      QuietText(m, c, vs[..n]);
      assert vs == vs[..n] + [vs[n]];
    }
  }

  /** Whether a first pass is followed by another can be told from the text. */
  lemma CallAddsIsEarlyCall(m: Marks, c: Needs, vs: seq<Visit>)
    ensures CallAdds(m, c, vs) <==> EarlyCall(m, c, vs)
  {
    if !CallAdds(m, c, vs) {
      forall i | 0 <= i < |vs| ensures !AddsAt(m, c + Direct(m, vs[..i]), vs[i]) {
        forall j | 0 <= j < i ensures !AddsAt(m, CollectAll(m, c, vs[..i][..j]), vs[..i][j]) { assert vs[..i][..j] == vs[..j]; }
        QuietPass(m, c, vs[..i]);
        assert !AddsAt(m, CollectAll(m, c, vs[..i]), vs[i]);
      }
    }
    if !EarlyCall(m, c, vs) {
      forall i | 0 <= i < |vs| ensures !AddsAt(m, CollectAll(m, c, vs[..i]), vs[i]) {
        forall j | 0 <= j < i ensures !AddsAt(m, c + Direct(m, vs[..i][..j]), vs[..i][j]) { assert vs[..i][..j] == vs[..j]; }
        QuietText(m, c, vs[..i]);
        assert !AddsAt(m, c + Direct(m, vs[..i]), vs[i]);
      }
    }
  }

  // ----- what one traversal, or several, do to the map -----

  /** `c` is closed, and holds the direct uses. */
  ghost predicate Absorbs(m: Marks, c: Needs, vs: seq<Visit>) { Direct(m, vs) <= c && ClosedUnder(m, c, vs) }

  /** From `c0` to `c1` only justified pairs were recorded: none outside any closed map. */
  ghost predicate Justified(m: Marks, c0: Needs, c1: Needs, vs: seq<Visit>) {
    forall c: Needs :: Absorbs(m, c, vs) && c0 <= c ==> c1 <= c
  }

  /** What traversing `vs` does, however often the chunks in it are gone over. */
  ghost predicate Passed(m: Marks, c0: Needs, mod0: bool, c1: Needs, mod1: bool, vs: seq<Visit>) {
    && c0 <= c1 && Direct(m, vs) <= c1 && Justified(m, c0, c1, vs)
    && (mod0 ==> mod1) && (mod1 && !mod0 ==> c0 != c1)
  }

  /** What traversing `vs` once does. */
  ghost predicate PassedOnce(m: Marks, c0: Needs, mod0: bool, c1: Needs, mod1: bool, vs: seq<Visit>) {
    c1 == CollectAll(m, c0, vs) && mod1 == (mod0 || CallAdds(m, c0, vs))
  }

  lemma DirectBoth(m: Marks, a: seq<Visit>, b: seq<Visit>)
    ensures Direct(m, a + b) == Direct(m, a) + Direct(m, b)
  {}

  lemma ClosedBoth(m: Marks, c: Needs, a: seq<Visit>, b: seq<Visit>)
    ensures ClosedUnder(m, c, a + b) <==> ClosedUnder(m, c, a) && ClosedUnder(m, c, b)
  {
    hide Handed;
    if ClosedUnder(m, c, a + b) {
      forall v | v in a && v.Calls? ensures Handed(m, c, v.fn, v.callee) <= c { assert v in a + b; }
      forall v | v in b && v.Calls? ensures Handed(m, c, v.fn, v.callee) <= c { assert v in a + b; }
    }
  }

  lemma PassedBoth(m: Marks, c0: Needs, mod0: bool, c1: Needs, mod1: bool, c2: Needs, mod2: bool, a: seq<Visit>, b: seq<Visit>)
    requires Passed(m, c0, mod0, c1, mod1, a) && Passed(m, c1, mod1, c2, mod2, b)
    ensures Passed(m, c0, mod0, c2, mod2, a + b)
  {
    hide ClosedUnder, Direct;
    DirectBoth(m, a, b);
    forall c: Needs | Absorbs(m, c, a + b) && c0 <= c ensures c2 <= c {
      ClosedBoth(m, c, a, b);
      assert Absorbs(m, c, a) && Absorbs(m, c, b);
    }
  }

  lemma {:induction false} CollectBoth(m: Marks, c: Needs, a: seq<Visit>, b: seq<Visit>)
    ensures CollectAll(m, c, a + b) == CollectAll(m, CollectAll(m, c, a), b)
    decreases |b|
  {
    hide Collect;
    if b == [] {
      assert a + b == a;
    } else {
      assert (a + b)[..|a + b| - 1] == a + b[..|b| - 1];
      CollectBoth(m, c, a, b[..|b| - 1]);
    }
  }

  lemma PassedOnceBoth(m: Marks, c0: Needs, mod0: bool, c1: Needs, mod1: bool, c2: Needs, mod2: bool, a: seq<Visit>, b: seq<Visit>)
    requires PassedOnce(m, c0, mod0, c1, mod1, a) && PassedOnce(m, c1, mod1, c2, mod2, b)
    ensures PassedOnce(m, c0, mod0, c2, mod2, a + b)
  {
    hide AddsAt, CollectAll;
    CollectBoth(m, c0, a, b);
    var vs := a + b;
    if i :| 0 <= i < |a| && AddsAt(m, CollectAll(m, c0, a[..i]), a[i]) { assert vs[..i] == a[..i] && vs[i] == a[i]; }
    if i :| 0 <= i < |b| && AddsAt(m, CollectAll(m, c1, b[..i]), b[i]) {
      CollectBoth(m, c0, a, b[..i]);
      assert vs[..|a| + i] == a + b[..i] && vs[|a| + i] == b[i];
    }
    if i :| 0 <= i < |vs| && AddsAt(m, CollectAll(m, c0, vs[..i]), vs[i]) {
      if i < |a| {
        assert vs[..i] == a[..i] && vs[i] == a[i];
      } else {
        CollectBoth(m, c0, a, b[..i - |a|]);
        assert vs[..i] == a + b[..i - |a|] && vs[i] == b[i - |a|];
      }
    }
  }

  /** Visiting one node. */
  lemma OnceOne(m: Marks, c0: Needs, mod0: bool, v: Visit)
    ensures PassedOnce(m, c0, mod0, Collect(m, c0, v), mod0 || AddsAt(m, c0, v), [v])
    ensures Passed(m, c0, mod0, Collect(m, c0, v), mod0 || AddsAt(m, c0, v), [v])
  {
    var c1 := Collect(m, c0, v);
    assert [v][..0] == [] && [v][0] == v;
    assert CollectAll(m, c0, [v]) == c1;
    forall c: Needs | Absorbs(m, c, [v]) && c0 <= c ensures c1 <= c {
      assert v in [v];
      if v.Calls? { assert Handed(m, c0, v.fn, v.callee) <= Handed(m, c, v.fn, v.callee); }
      if v.Reads? && v.x in m.flagged { assert Need(v.fn, v.x) in Direct(m, [v]); }
    }
  }

  /** Visiting nothing. */
  lemma OnceNone(m: Marks, c: Needs, mod: bool)
    ensures PassedOnce(m, c, mod, c, mod, []) && Passed(m, c, mod, c, mod, [])
  {}

  /** Only declarations: nothing is recorded. */
  lemma {:induction false} OnceFormals(m: Marks, c: Needs, mod: bool, xs: seq<Sym>, f: Sym)
    ensures PassedOnce(m, c, mod, c, mod, VisitsFormals(xs, f)) && Passed(m, c, mod, c, mod, VisitsFormals(xs, f))
    decreases |xs|
  {
    var vs := VisitsFormals(xs, f);
    if xs == [] {
      assert vs == [];
      OnceNone(m, c, mod);
    } else {
      OnceOne(m, c, mod, vs[0]);
      OnceFormals(m, c, mod, xs[1..], f);
      assert vs == [vs[0]] + VisitsFormals(xs[1..], f);
      PassedBoth(m, c, mod, c, mod, c, mod, [vs[0]], VisitsFormals(xs[1..], f));
      PassedOnceBoth(m, c, mod, c, mod, c, mod, [vs[0]], VisitsFormals(xs[1..], f));
    }
  }

  /** No function is declared in `e`. */
  predicate Flat(e: Exp) {
    match e
    case IntExp(_) => true
    case VarExp(_) => true
    case OpExp(l, _, r) => Flat(l) && Flat(r)
    case SeqExp(es) => FlatAll(es)
    case AssignExp(_, e1) => Flat(e1)
    case IfExp(c, t, f) => Flat(c) && Flat(t) && Flat(f)
    case WhileExp(c, body) => Flat(c) && Flat(body)
    case ForExp(_, lo, hi, body) => Flat(lo) && Flat(hi) && Flat(body)
    case BreakExp => true
    case CallExp(_, args) => FlatAll(args)
    case LetVar(_, init, body) => Flat(init) && Flat(body)
    case LetFuns(_, _) => false
  }

  predicate FlatAll(es: Exps) {
    match es
    case NoExp => true
    case Cons(e, rest) => Flat(e) && FlatAll(rest)
  }

  predicate FlatDec(d: FunDec) { d.Function? ==> Flat(d.body) }

  predicate FlatFuns(ds: Funs) {
    match ds
    case NoFun => true
    case FunCons(d, rest) => FlatDec(d) && FlatFuns(rest)
  }

  ghost predicate Went(m: Marks, c0: Needs, mod0: bool, c1: Needs, mod1: bool, vs: seq<Visit>, once: bool) {
    Passed(m, c0, mod0, c1, mod1, vs) && (once ==> PassedOnce(m, c0, mod0, c1, mod1, vs))
  }

  lemma WentBoth(m: Marks, c0: Needs, mod0: bool, c1: Needs, mod1: bool, c2: Needs, mod2: bool, a: seq<Visit>, b: seq<Visit>,
                 once1: bool, once2: bool)
    requires Went(m, c0, mod0, c1, mod1, a, once1) && Went(m, c1, mod1, c2, mod2, b, once2)
    ensures Went(m, c0, mod0, c2, mod2, a + b, once1 && once2)
  {
    hide Passed, PassedOnce;
    PassedBoth(m, c0, mod0, c1, mod1, c2, mod2, a, b);
    if once1 && once2 { PassedOnceBoth(m, c0, mod0, c1, mod1, c2, mod2, a, b); }
  }

  /** Every pair that can ever be recorded. */
  ghost function Everything(c: Needs, vs: seq<Visit>): Needs {
    var fns := (set n | n in c :: n.fn) + (set v | v in vs :: v.fn);
    var xs := (set n | n in c :: n.x) + (set v | v in vs && !v.Calls? :: v.x);
    set f, x | f in fns && x in xs :: Need(f, x)
  }

  lemma EverythingAbsorbs(m: Marks, c: Needs, vs: seq<Visit>)
    ensures Absorbs(m, Everything(c, vs), vs) && c <= Everything(c, vs)
  {}

  lemma FewerLeft(all: Needs, c1: Needs, c2: Needs)
    requires c1 <= c2 <= all
    ensures |all - c2| <= |all - c1| && (c1 != c2 ==> |all - c2| < |all - c1|)
  {
    assert all - c1 == (all - c2) + (c2 - c1);
    if c1 != c2 {
      var n :| n in c2 - c1;
      assert |c2 - c1| > 0;
    }
  }

  /** When the loop over a chunk without nested chunks ends in a closed map. */
  ghost predicate EndsClosed(m: Marks, c: Needs, vs: seq<Visit>) {
    EarlyCall(m, c, vs) || ClosedUnder(m, c + Direct(m, vs), vs)
  }

  /** The state of the loop over a chunk after a pass: what it started from, and what it has now. */
  ghost predicate ChunkPassed(m: Marks, c0: Needs, c: Needs, mod: bool, vs: seq<Visit>, flat: bool) {
    && Direct(m, vs) <= c
    && (flat && mod ==> EarlyCall(m, c0, vs))
    && (flat && !mod ==> (ClosedUnder(m, c, vs) <==> EndsClosed(m, c0, vs)))
  }

  lemma NextPass(m: Marks, c0: Needs, start: bool, c1: Needs, c2: Needs, mod2: bool, vs: seq<Visit>, flat: bool)
    requires Went(m, c1, false, c2, mod2, vs, flat)
    requires if start then c1 == c0 else ChunkPassed(m, c0, c1, true, vs, flat)
    requires c0 <= c1 && Justified(m, c0, c1, vs)
    ensures ChunkPassed(m, c0, c2, mod2, vs, flat)
    ensures c1 <= c2 && Justified(m, c0, c2, vs) && (mod2 ==> c1 != c2)
  {
    if flat {
      CallAddsIsEarlyCall(m, c1, vs);
      if !mod2 {
        QuietPassCloses(m, c1, vs);
        if !start { assert c1 + Direct(m, vs) == c1; }
      }
    }
  }

  /** After a pass without news that started with all direct uses recorded, the map is closed. */
  lemma QuietPassCloses(m: Marks, c: Needs, vs: seq<Visit>)
    requires !CallAdds(m, c, vs)
    ensures CollectAll(m, c, vs) == c + Direct(m, vs)
    ensures Direct(m, vs) <= c ==> ClosedUnder(m, c, vs)
  {
    QuietPass(m, c, vs);
    if Direct(m, vs) <= c {
      forall v | v in vs && v.Calls? ensures Handed(m, c, v.fn, v.callee) <= c {
        var i :| 0 <= i < |vs| && vs[i] == v;
        forall j | 0 <= j < i ensures !AddsAt(m, CollectAll(m, c, vs[..i][..j]), vs[..i][j]) { assert vs[..i][..j] == vs[..j]; }
        QuietPass(m, c, vs[..i]);
        assert Direct(m, vs[..i]) <= Direct(m, vs);
        assert c + Direct(m, vs[..i]) == c;
        assert !AddsAt(m, CollectAll(m, c, vs[..i]), vs[i]);
      }
    }
  }

  // ----- the least closed map -----

  lemma {:induction false} PassBounds(m: Marks, c: Needs, vs: seq<Visit>, all: Needs)
    requires Absorbs(m, all, vs) && c <= all
    ensures c <= CollectAll(m, c, vs) <= all
    decreases |vs|
  {
    if vs != [] {
      var n := |vs| - 1;
      assert vs == vs[..n] + [vs[n]];
      DirectBoth(m, vs[..n], [vs[n]]);
      ClosedBoth(m, all, vs[..n], [vs[n]]);
      PassBounds(m, c, vs[..n], all);
      OnceOne(m, CollectAll(m, c, vs[..n]), false, vs[n]);
      assert Absorbs(m, all, [vs[n]]);
    }
  }

  /** Passes until nothing at all is added. */
  function LeastFrom(m: Marks, c: Needs, vs: seq<Visit>, ghost all: Needs): Needs
    requires Absorbs(m, all, vs) && c <= all
    decreases |all - c|
  {
    PassBounds(m, c, vs, all);
    var c2 := CollectAll(m, c, vs);
    if c2 == c then c else
    FewerLeft(all, c, c2);
    LeastFrom(m, c2, vs, all)
  }

  /** What closing `c` under calls comes to. */
  function LeastAbove(m: Marks, c: Needs, vs: seq<Visit>): Needs {
    EverythingAbsorbs(m, c, vs);
    LeastFrom(m, c, vs, Everything(c, vs))
  }

  function LeastNeeds(m: Marks, vs: seq<Visit>): Needs { LeastAbove(m, {}, vs) }

  lemma {:induction false} FixedIsClosed(m: Marks, c: Needs, vs: seq<Visit>)
    requires CollectAll(m, c, vs) == c
    ensures Absorbs(m, c, vs)
    decreases |vs|
  {
    if vs != [] {
      var n := |vs| - 1;
      var b := CollectAll(m, c, vs[..n]);
      assert vs == vs[..n] + [vs[n]];
      EverythingAbsorbs(m, c, vs[..n]);
      PassBounds(m, c, vs[..n], Everything(c, vs[..n]));
      assert b == c;
      FixedIsClosed(m, c, vs[..n]);
      DirectBoth(m, vs[..n], [vs[n]]);
      ClosedBoth(m, c, vs[..n], [vs[n]]);
    }
  }

  lemma {:induction false} LeastFromIsLeast(m: Marks, c: Needs, vs: seq<Visit>, all: Needs, other: Needs)
    requires Absorbs(m, all, vs) && c <= all && Absorbs(m, other, vs) && c <= other
    ensures Absorbs(m, LeastFrom(m, c, vs, all), vs) && LeastFrom(m, c, vs, all) <= other
    decreases |all - c|
  {
    PassBounds(m, c, vs, all);
    PassBounds(m, c, vs, other);
    var c2 := CollectAll(m, c, vs);
    if c2 == c {
      FixedIsClosed(m, c, vs);
    } else {
      FewerLeft(all, c, c2);
      LeastFromIsLeast(m, c2, vs, all, other);
    }
  }

  /** There is a least closed map with all direct uses that contains `c`. */
  lemma LeastAboveIsLeast(m: Marks, c: Needs, vs: seq<Visit>, other: Needs)
    requires Absorbs(m, other, vs) && c <= other
    ensures Absorbs(m, LeastAbove(m, c, vs), vs) && c <= LeastAbove(m, c, vs) <= other
  {
    EverythingAbsorbs(m, c, vs);
    LeastFromIsLeast(m, c, vs, Everything(c, vs), other);
    LeastFromGrows(m, c, vs, Everything(c, vs));
  }

  lemma {:induction false} LeastFromGrows(m: Marks, c: Needs, vs: seq<Visit>, all: Needs)
    requires Absorbs(m, all, vs) && c <= all
    ensures c <= LeastFrom(m, c, vs, all)
    decreases |all - c|
  {
    PassBounds(m, c, vs, all);
    var c2 := CollectAll(m, c, vs);
    if c2 != c {
      FewerLeft(all, c, c2);
      LeastFromGrows(m, c2, vs, all);
    }
  }

  lemma LeastNeedsIsLeast(m: Marks, vs: seq<Visit>, other: Needs)
    requires Absorbs(m, other, vs)
    ensures Absorbs(m, LeastNeeds(m, vs), vs) && LeastNeeds(m, vs) <= other
  {
    LeastAboveIsLeast(m, {}, vs, other);
  }

  /** Of what the collector can leave, the closed map is the least one: there is no other. */
  lemma LeastIffClosed(m: Marks, c0: Needs, mod0: bool, c1: Needs, mod1: bool, vs: seq<Visit>)
    requires Passed(m, c0, mod0, c1, mod1, vs)
    ensures c1 == LeastAbove(m, c0, vs) <==> ClosedUnder(m, c1, vs)
  {
    EverythingAbsorbs(m, c0, vs);
    LeastAboveIsLeast(m, c0, vs, Everything(c0, vs));
    if ClosedUnder(m, c1, vs) { LeastAboveIsLeast(m, c0, vs, c1); }
  }

  /** Started with all direct uses, the loop over a chunk always ends in a closed map. */
  lemma DirectEndsClosed(m: Marks, c: Needs, vs: seq<Visit>)
    requires Direct(m, vs) <= c
    ensures EndsClosed(m, c, vs)
  {
    hide Handed, Direct;
    assert c + Direct(m, vs) == c;
    if !EarlyCall(m, c, vs) {
      forall v | v in vs && v.Calls? ensures Handed(m, c, v.fn, v.callee) <= c {
        var i :| 0 <= i < |vs| && vs[i] == v;
        assert !AddsAt(m, c + Direct(m, vs[..i]), vs[i]);
        DirectPrefix(m, vs, i);
        assert c + Direct(m, vs[..i]) == c;
      }
    }
  }

  lemma DirectPrefix(m: Marks, vs: seq<Visit>, i: nat)
    requires i <= |vs|
    ensures Direct(m, vs[..i]) <= Direct(m, vs)
  {}


  // ----- programs whose functions hold no functions -----

  /** Variables, then one chunk of functions without functions of their own, then a body without. */
  predicate FlatText(e: Exp) {
    match e
    case LetVar(_, init, body) => Flat(init) && FlatText(body)
    case LetFuns(ds, body) => FlatFuns(ds) && Flat(body)
    case _ => false
  }

  function TextChunk(e: Exp): Funs
    requires FlatText(e)
  {
    if e.LetVar? then TextChunk(e.body) else e.funs
  }

  function BeforeChunk(e: Exp, fn: Sym): seq<Visit>
    requires FlatText(e)
  {
    if e.LetVar? then [Declares(e.name, fn)] + Visits(e.init, fn) + BeforeChunk(e.body, fn) else []
  }

  function AfterChunk(e: Exp, fn: Sym): seq<Visit>
    requires FlatText(e)
  {
    if e.LetVar? then AfterChunk(e.body, fn) else Visits(e.body, fn)
  }

  lemma {:induction false} TextVisits(e: Exp, fn: Sym)
    requires FlatText(e)
    ensures Visits(e, fn) == BeforeChunk(e, fn) + VisitsOf(TextChunk(e)) + AfterChunk(e, fn)
  {
    if e.LetVar? { TextVisits(e.body, fn); }
  }

  /** What the loop over a flat chunk does. */
  ghost predicate ChunkWent(m: Marks, c0: Needs, c1: Needs, mod: bool, vs: seq<Visit>) {
    Passed(m, c0, mod, c1, mod, vs) && (ClosedUnder(m, c1, vs) <==> EndsClosed(m, c0, vs))
  }

  /** One traversal of the text, the chunk in it gone over as often as its loop does. */
  ghost predicate TextWent(m: Marks, c0: Needs, mod0: bool, c3: Needs, mod3: bool, e: Exp, fn: Sym)
    requires FlatText(e)
  {
    exists c1, mod1, c2 :: TextSteps(m, c0, mod0, c1, mod1, c2, c3, mod3, e, fn)
  }

  ghost predicate TextSteps(m: Marks, c0: Needs, mod0: bool, c1: Needs, mod1: bool, c2: Needs, c3: Needs, mod3: bool, e: Exp, fn: Sym)
    requires FlatText(e)
  {
    && PassedOnce(m, c0, mod0, c1, mod1, BeforeChunk(e, fn)) && ChunkWent(m, c1, c2, mod1, VisitsOf(TextChunk(e)))
    && PassedOnce(m, c2, mod1, c3, mod3, AfterChunk(e, fn))
  }

  lemma TextLetVar(m: Marks, c0: Needs, mod0: bool, c1: Needs, mod1: bool, c3: Needs, mod3: bool, e: Exp, fn: Sym)
    requires e.LetVar? && FlatText(e)
    requires PassedOnce(m, c0, mod0, c1, mod1, Visits(e.init, fn)) && TextWent(m, c1, mod1, c3, mod3, e.body, fn)
    ensures TextWent(m, c0, mod0, c3, mod3, e, fn)
  {
    hide PassedOnce, ChunkWent;
    var b, modb, c2 :| TextSteps(m, c1, mod1, b, modb, c2, c3, mod3, e.body, fn);
    OnceOne(m, c0, mod0, Declares(e.name, fn));
    PassedOnceBoth(m, c0, mod0, c0, mod0, c1, mod1, [Declares(e.name, fn)], Visits(e.init, fn));
    PassedOnceBoth(m, c0, mod0, c1, mod1, b, modb, [Declares(e.name, fn)] + Visits(e.init, fn), BeforeChunk(e.body, fn));
    assert TextSteps(m, c0, mod0, b, modb, c2, c3, mod3, e, fn);
  }

  lemma TextLetFuns(m: Marks, c0: Needs, mod0: bool, c1: Needs, c3: Needs, mod3: bool, e: Exp, fn: Sym)
    requires e.LetFuns? && FlatText(e)
    requires ChunkWent(m, c0, c1, mod0, VisitsOf(e.funs)) && PassedOnce(m, c1, mod0, c3, mod3, Visits(e.body, fn))
    ensures TextWent(m, c0, mod0, c3, mod3, e, fn)
  {
    hide PassedOnce, ChunkWent;
    assert PassedOnce(m, c0, mod0, c0, mod0, []) by { OnceNone(m, c0, mod0); }
    assert TextSteps(m, c0, mod0, c0, mod0, c1, c3, mod3, e, fn);
  }

  lemma LetVarWent(m: Marks, c0: Needs, mod0: bool, c1: Needs, mod1: bool, c2: Needs, mod2: bool, e: Exp, fn: Sym)
    requires e.LetVar? && Went(m, c0, mod0, c1, mod1, Visits(e.init, fn), Flat(e.init))
    requires Went(m, c1, mod1, c2, mod2, Visits(e.body, fn), Flat(e.body))
    requires FlatText(e.body) ==> TextWent(m, c1, mod1, c2, mod2, e.body, fn)
    ensures Went(m, c0, mod0, c2, mod2, Visits(e, fn), Flat(e))
    ensures FlatText(e) ==> TextWent(m, c0, mod0, c2, mod2, e, fn)
  {
    hide Passed, PassedOnce, TextWent;
    OnceOne(m, c0, mod0, Declares(e.name, fn));
    WentBoth(m, c0, mod0, c1, mod1, c2, mod2, Visits(e.init, fn), Visits(e.body, fn), Flat(e.init), Flat(e.body));
    WentBoth(m, c0, mod0, c0, mod0, c2, mod2, [Declares(e.name, fn)], Visits(e.init, fn) + Visits(e.body, fn), true, Flat(e.init) && Flat(e.body));
    if FlatText(e) { TextLetVar(m, c0, mod0, c1, mod1, c2, mod2, e, fn); }
  }

  lemma LetFunsWent(m: Marks, c0: Needs, mod0: bool, c1: Needs, c2: Needs, mod2: bool, e: Exp, fn: Sym)
    requires e.LetFuns? && Passed(m, c0, mod0, c1, mod0, VisitsOf(e.funs)) && Went(m, c1, mod0, c2, mod2, Visits(e.body, fn), Flat(e.body))
    requires FlatFuns(e.funs) ==> (ClosedUnder(m, c1, VisitsOf(e.funs)) <==> EndsClosed(m, c0, VisitsOf(e.funs)))
    ensures Went(m, c0, mod0, c2, mod2, Visits(e, fn), Flat(e))
    ensures FlatText(e) ==> TextWent(m, c0, mod0, c2, mod2, e, fn)
  {
    hide Passed, PassedOnce, ClosedUnder, EndsClosed, TextWent;
    WentBoth(m, c0, mod0, c1, mod0, c2, mod2, VisitsOf(e.funs), Visits(e.body, fn), false, Flat(e.body));
    if FlatText(e) { TextLetFuns(m, c0, mod0, c1, c2, mod2, e, fn); }
  }

  /** A chunk of one function with such a text. */
  predicate TextAlone(ds: Funs) { ds.FunCons? && ds.rest == NoFun && ds.first.Function? && FlatText(ds.first.body) }

  /** A first traversal of it, and no other if that brings no news. */
  ghost predicate FirstTraversal(m: Marks, c0: Needs, c: Needs, ds: Funs)
    requires TextAlone(ds)
  {
    exists c1, mod1 :: TraversalThen(m, c0, c1, mod1, c, ds)
  }

  ghost predicate TraversalThen(m: Marks, c0: Needs, c1: Needs, mod1: bool, c: Needs, ds: Funs)
    requires TextAlone(ds)
  {
    TextWent(m, c0, false, c1, mod1, ds.first.body, ds.first.name) && (!mod1 ==> c == c1)
  }

  /** The collector: `marks` is what escape analysis left on the declarations. */
  class EscapesCollector {
    const marks: Marks
    var current: Sym
    var didModify: bool
    var escaped: Needs

    constructor (marks: Marks)
      ensures this.marks == marks && escaped == {} && !didModify
    {
      this.marks := marks;
      this.current := Sym("");
      this.didModify := false;
      this.escaped := {};
    }

    method VisitSimpleVar(x: Sym)
      modifies this
      ensures current == old(current) && didModify == old(didModify)
      ensures escaped == Collect(marks, old(escaped), Reads(x, current))
    {
      if x in marks.flagged { escaped := escaped + {Need(current, x)}; }
    }

    /** The part of a call after its arguments. */
    method PropagateFrom(callee: Sym)
      modifies this
      ensures current == old(current) && escaped == Collect(marks, old(escaped), Calls(current, callee))
      ensures didModify == (old(didModify) || AddsAt(marks, old(escaped), Calls(current, callee)))
    {
      ghost var c := escaped;
      var todo := set n | n in escaped && n.fn == callee;
      ghost var all := todo;
      while todo != {}
        invariant current == old(current) && todo <= all && c <= escaped
        invariant forall n :: n in escaped <==> n in c || (n in Handed(marks, c, current, callee) && Need(callee, n.x) !in todo)
        invariant didModify == (old(didModify) || escaped != c)
        decreases todo
      {
        var esc :| esc in todo;
        todo := todo - {esc};
        if !(esc.x in marks.site && marks.site[esc.x] == current) {
          assert Need(current, esc.x) in Handed(marks, c, current, callee);
          if Need(current, esc.x) !in escaped {
            escaped := escaped + {Need(current, esc.x)};
            didModify := true;
          }
        }
      }
    }

    method VisitExp(e: Exp)
      modifies this
      ensures current == old(current)
      ensures Went(marks, old(escaped), old(didModify), escaped, didModify, Visits(e, current), Flat(e))
      ensures FlatText(e) ==> TextWent(marks, old(escaped), old(didModify), escaped, didModify, e, current)
      decreases e
    {
      match e
      case IntExp(_) => OnceNone(marks, escaped, didModify);
      case VarExp(x) =>
        OnceOne(marks, escaped, didModify, Reads(x, current));
        VisitSimpleVar(x);
      case OpExp(l, _, r) => VisitTwo(l, r, e);
      case SeqExp(es) => VisitExps(es);
      case AssignExp(x, e1) =>
        ghost var c0, mod0 := escaped, didModify;
        OnceOne(marks, escaped, didModify, Reads(x, current));
        VisitSimpleVar(x);
        ghost var c1, mod1 := escaped, didModify;
        VisitExp(e1);
        WentBoth(marks, c0, mod0, c1, mod1, escaped, didModify, [Reads(x, current)], Visits(e1, current), true, Flat(e1));
      case IfExp(c, t, f) =>
        ghost var c0, mod0 := escaped, didModify;
        VisitExp(c);
        ghost var c1, mod1 := escaped, didModify;
        VisitTwo(t, f, e);
        WentBoth(marks, c0, mod0, c1, mod1, escaped, didModify, Visits(c, current), Visits(t, current) + Visits(f, current),
                 Flat(c), Flat(t) && Flat(f));
      case WhileExp(c, body) => VisitTwo(c, body, e);
      case ForExp(i, lo, hi, body) =>
        ghost var c0, mod0 := escaped, didModify;
        VisitExp(lo);
        ghost var c1, mod1 := escaped, didModify;
        VisitTwo(hi, body, e);
        WentBoth(marks, c0, mod0, c1, mod1, escaped, didModify, Visits(lo, current), Visits(hi, current) + Visits(body, current),
                 Flat(lo), Flat(hi) && Flat(body));
        OnceOne(marks, c0, mod0, Declares(i, current));
        WentBoth(marks, c0, mod0, c0, mod0, escaped, didModify, [Declares(i, current)],
                 Visits(lo, current) + (Visits(hi, current) + Visits(body, current)), true, Flat(lo) && Flat(hi) && Flat(body));
      case BreakExp => OnceNone(marks, escaped, didModify);
      case CallExp(f, args) =>
        ghost var c0, mod0 := escaped, didModify;
        VisitExps(args);
        ghost var c1, mod1 := escaped, didModify;
        OnceOne(marks, escaped, didModify, Calls(current, f));
        PropagateFrom(f);
        WentBoth(marks, c0, mod0, c1, mod1, escaped, didModify, VisitsAll(args, current), [Calls(current, f)], FlatAll(args), true);
      case LetVar(x, init, body) =>
        ghost var c0, mod0 := escaped, didModify;
        VisitExp(init);
        ghost var c1, mod1 := escaped, didModify;
        VisitExp(body);
        LetVarWent(marks, c0, mod0, c1, mod1, escaped, didModify, e, current);
      case LetFuns(ds, body) =>
        ghost var c0, mod0 := escaped, didModify;
        VisitFunctionChunk(ds);
        ghost var c1, mod1 := escaped, didModify;
        VisitExp(body);
        LetFunsWent(marks, c0, mod0, c1, escaped, didModify, e, current);
    }

    /** Two parts of an expression, one after the other. */
    method VisitTwo(a: Exp, b: Exp, ghost whole: Exp)
      requires a < whole && b < whole
      modifies this
      ensures current == old(current)
      ensures Went(marks, old(escaped), old(didModify), escaped, didModify, Visits(a, current) + Visits(b, current), Flat(a) && Flat(b))
      decreases whole, 0
    {
      VisitExp(a);
      ghost var c1, mod1 := escaped, didModify;
      VisitExp(b);
      WentBoth(marks, old(escaped), old(didModify), c1, mod1, escaped, didModify, Visits(a, current), Visits(b, current), Flat(a), Flat(b));
    }

    method VisitExps(es: Exps)
      modifies this
      ensures current == old(current)
      ensures Went(marks, old(escaped), old(didModify), escaped, didModify, VisitsAll(es, current), FlatAll(es))
      decreases es
    {
      if es == NoExp {
        OnceNone(marks, escaped, didModify);
      } else {
        VisitExp(es.head);
        ghost var c1, mod1 := escaped, didModify;
        VisitExps(es.tail);
        WentBoth(marks, old(escaped), old(didModify), c1, mod1, escaped, didModify, Visits(es.head, current),
                 VisitsAll(es.tail, current), Flat(es.head), FlatAll(es.tail));
      }
    }

    method VisitFunctionDec(d: FunDec)
      modifies this
      ensures current == old(current)
      ensures Went(marks, old(escaped), old(didModify), escaped, didModify, VisitsDec(d), FlatDec(d))
      ensures d.Function? && FlatText(d.body) ==> TextWent(marks, old(escaped), old(didModify), escaped, didModify, d.body, d.name)
      decreases d
    {
      var previous := current;
      current := d.name;
      OnceFormals(marks, escaped, didModify, d.formals, d.name);
      if d.Function? {
        VisitExp(d.body);
        WentBoth(marks, old(escaped), old(didModify), old(escaped), old(didModify), escaped, didModify, VisitsFormals(d.formals, d.name),
                 Visits(d.body, d.name), true, Flat(d.body));
      }
      current := previous;
    }

    /** One pass over the declarations of a chunk. */
    method VisitFunctionDecs(ds: Funs)
      modifies this
      ensures current == old(current)
      ensures Went(marks, old(escaped), old(didModify), escaped, didModify, VisitsOf(ds), FlatFuns(ds))
      ensures TextAlone(ds) ==> TextWent(marks, old(escaped), old(didModify), escaped, didModify, ds.first.body, ds.first.name)
      decreases ds, 0
    {
      if ds == NoFun {
        OnceNone(marks, escaped, didModify);
      } else {
        VisitFunctionDec(ds.first);
        ghost var c1, mod1 := escaped, didModify;
        VisitFunctionDecs(ds.rest);
        WentBoth(marks, old(escaped), old(didModify), c1, mod1, escaped, didModify, VisitsDec(ds.first), VisitsOf(ds.rest),
                 FlatDec(ds.first), FlatFuns(ds.rest));
      }
    }

    /** Passes over a chunk until a pass in which no call recorded anything. */
    method VisitFunctionChunk(ds: Funs)
      modifies this
      ensures current == old(current) && didModify == old(didModify)
      ensures Passed(marks, old(escaped), old(didModify), escaped, didModify, VisitsOf(ds))
      ensures FlatFuns(ds) ==>
        (ClosedUnder(marks, escaped, VisitsOf(ds)) <==> EndsClosed(marks, old(escaped), VisitsOf(ds)))
      ensures FlatFuns(ds) ==>
        (escaped == LeastAbove(marks, old(escaped), VisitsOf(ds)) <==> EndsClosed(marks, old(escaped), VisitsOf(ds)))
      ensures TextAlone(ds) ==> FirstTraversal(marks, old(escaped), escaped, ds)
      decreases ds, 1
    {
      var saved := didModify;
      ghost var c0, vs, first := escaped, VisitsOf(ds), true;
      ghost var all := Everything(c0, vs);
      EverythingAbsorbs(marks, c0, vs);
      ghost var c1f, mod1f := escaped, true;
      didModify := ds != NoFun;
      while didModify
        invariant current == old(current)
        invariant first ==> escaped == c0 && didModify == (ds != NoFun)
        invariant !first ==> ChunkPassed(marks, c0, escaped, didModify, vs, FlatFuns(ds))
        invariant c0 <= escaped && Justified(marks, c0, escaped, vs)
        invariant !first && TextAlone(ds) ==> TraversalThen(marks, c0, c1f, mod1f, escaped, ds)
        invariant !first && !mod1f ==> !didModify
        decreases |all - escaped|, didModify
      {
        ghost var c1, start := escaped, first;
        didModify := false;
        VisitFunctionDecs(ds);
        NextPass(marks, c0, start, c1, escaped, didModify, vs, FlatFuns(ds));
        assert escaped <= all by { assert Absorbs(marks, all, vs); }
        FewerLeft(all, c1, escaped);
        if first { c1f, mod1f := escaped, didModify; }
        first := false;
      }
      didModify := saved;
      LeastIffClosed(marks, c0, saved, escaped, saved, vs);
    }
  }

  lemma OneOrderMisses(m: Marks, f: Sym, h: Sym, x: Sym, fn: Sym)
    requires f != h && fn != f && fn != h && m == Marks(map[x := fn], {x})
    ensures !EndsClosed(m, {}, [Calls(f, h), Reads(x, h)])
  {
    var vs := [Calls(f, h), Reads(x, h)];
    var c := Direct(m, vs);
    assert vs[1] in vs && Need(h, x) in c;
    assert Need(f, x) in Handed(m, {} + c, f, h) && Need(f, x) !in {} + c;
    assert vs[0] in vs;
  }

  lemma OtherOrderCloses(m: Marks, f: Sym, h: Sym, x: Sym, fn: Sym)
    requires f != h && fn != f && fn != h && m == Marks(map[x := fn], {x})
    ensures EndsClosed(m, {}, [Reads(x, h), Calls(f, h)])
  {
    var ws := [Reads(x, h), Calls(f, h)];
    assert ws[..1] == [Reads(x, h)] && ws[0] in ws[..1];
    assert Need(h, x) in Direct(m, ws[..1]);
    assert Need(f, x) in Handed(m, {} + Direct(m, ws[..1]), f, h);
    assert AddsAt(m, {} + Direct(m, ws[..1]), ws[1]);
  }

  /** The loop misses a callee declared later: in a chunk `f() = h()`, `h() = x` of `fn`, the single
      pass sees the call before the use, and `f` is not given the pointer it has to hand on. */
  lemma LaterCalleeMissed(f: Sym, h: Sym, x: Sym, fn: Sym)
    requires f != h && fn != f && fn != h
    ensures var ds := FunCons(Function(f, [], IntTy, CallExp(h, NoExp)), FunCons(Function(h, [], IntTy, VarExp(x)), NoFun));
      var vs := VisitsOf(ds);
      FlatFuns(ds) && !EndsClosed(Marks(map[x := fn], {x}), {}, vs) && EndsClosed(Marks(map[x := fn], {x}), {}, VisitsOf(FunCons(ds.rest.first, FunCons(ds.first, NoFun))))
  {
    var m := Marks(map[x := fn], {x});
    var df, dh := Function(f, [], IntTy, CallExp(h, NoExp)), Function(h, [], IntTy, VarExp(x));
    assert VisitsFormals([], f) == [] && VisitsFormals([], h) == [];
    assert VisitsAll(NoExp, f) == [] && Visits(CallExp(h, NoExp), f) == [Calls(f, h)] && Visits(VarExp(x), h) == [Reads(x, h)];
    assert VisitsDec(df) == [Calls(f, h)] && VisitsDec(dh) == [Reads(x, h)];
    assert VisitsOf(FunCons(dh, NoFun)) == [Reads(x, h)] && VisitsOf(FunCons(df, NoFun)) == [Calls(f, h)];
    var vs, ws := [Calls(f, h), Reads(x, h)], [Reads(x, h), Calls(f, h)];
    assert VisitsOf(FunCons(df, FunCons(dh, NoFun))) == vs && VisitsOf(FunCons(dh, FunCons(df, NoFun))) == ws;
    OneOrderMisses(m, f, h, x, fn);
    OtherOrderCloses(m, f, h, x, fn);
  }
}
