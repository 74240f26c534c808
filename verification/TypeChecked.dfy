/** What the type checker accepts follows the typing rules; hence it is safe to run. */
module TypeChecked {
  import opened Int32
  import opened Options
  import opened TypeTable
  import opened TypeCheck
  import opened TypeSoundness

  // ----- errors are only added -----

  ghost predicate Later(a: Work, b: Work) { a.errors <= b.errors }

  lemma {:induction false} SoundnessLater(id: nat, count: nat, w: Work)
    ensures Later(w, Soundness(id, count, w))
    decreases count
  {
    if count > 0 && Resolves(w.types, Ref(id)) { SoundnessLater(id + 1, count - 1, w); }
  }

  lemma {:induction false} HeadersLater(decs: seq<TypeDec>, sc: Scope, w: Work)
    ensures Headers(decs, sc, w).1.errors == w.errors
    decreases |decs|
  {
    if decs != [] { HeadersLater(decs[1..], sc.(types := sc.types[decs[0].name := Ref(|w.types|)]), w.Make(Open)); }
  }

  lemma {:induction false} BodiesLater(decs: seq<TypeDec>, sc: Scope, id: nat, w: Work)
    ensures Later(w, Bodies(decs, sc, id, w))
    decreases |decs|
  {
    if decs != [] {
      var r := TyOf(sc, decs[0].ty, w);
      BodiesLater(decs[1..], sc, id + 1, r.1.Set(id, Named(r.0)));
    }
  }

  lemma ChunkLater(decs: seq<TypeDec>, sc: Scope, w: Work)
    ensures Later(w, TypeChunk(decs, sc, w).1)
  {
    var h := Headers(decs, sc, w);
    HeadersLater(decs, sc, w);
    BodiesLater(decs, h.0, |w.types|, h.1);
    SoundnessLater(|w.types|, |decs|, Bodies(decs, h.0, |w.types|, h.1));
  }

  lemma TypesLater(w: Work, what: string, a: Ty, b: Ty)
    ensures Later(w, CheckTypes(w, what, a, b))
  {}

  lemma {:induction false} VarLater(v: Var, sc: Scope, w: Work)
    ensures Later(w, CheckVar(v, sc, w).work)
    decreases v
  {
    match v
    case SimpleVar(_) =>
    case FieldVar(r, _, _) => VarLater(r, sc, w);
    case SubscriptVar(a, at) =>
      var i2 := Check(at, sc, w);
      ExpLater(at, sc, w);
      VarLater(a, sc, CheckTypes(i2.work, "index", i2.ty, IntTy));
  }

  lemma {:induction false} ExpLater(e: Exp, sc: Scope, w: Work)
    ensures Later(w, Check(e, sc, w).work)
    decreases e
  {
    hide Compatible, Actual;
    match e
    case VarExp(v) => VarLater(v, sc, w);
    case RecordExp(_, _, _) => RecordLater(e, sc, w);
    case ArrayExp(n, size, init, _) =>
      ExpLater(size, sc, w);
      var s2 := Check(size, sc, w);
      ExpLater(init, sc, CheckTypes(s2.work, "size clause", s2.ty, IntTy));
    case OpExp(_, _, _) => OpLater(e, sc, w);
    case StringCall(_, l, r) =>
      ExpLater(l, sc, w);
      var l2 := Check(l, sc, w);
      ExpLater(r, sc, CheckTypes(l2.work, "argument", l2.ty, StringTy));
    case AssignExp(v, e1) => VarLater(v, sc, w); ExpLater(e1, sc, CheckVar(v, sc, w).work);
    case IfExp(_, _, _) => IfLater(e, sc, w);
    case WhileExp(c, body) =>
      ExpLater(c, sc, w);
      var c2 := Check(c, sc, w);
      ExpLater(body, sc, CheckTypes(c2.work, "test clause", c2.ty, IntTy));
    case ForExp(_, _, _, _) => ForLater(e, sc, w);
    case SeqExp(es) => AllLater(es, sc, w, VoidTy);
    case LetVar(_, _, _, _, _) => LetVarLater(e, sc, w);
    case LetTypes(decs, body) =>
      ChunkLater(decs, sc, w);
      var c := TypeChunk(decs, sc, w);
      ExpLater(body, c.0, c.1);
    case _ =>
  }

  lemma {:induction false} RecordLater(e: Exp, sc: Scope, w: Work)
    requires e.RecordExp?
    ensures Later(w, Check(e, sc, w).work)
    decreases e, 0
  {
    hide Compatible, Actual;
    var n, fields := e.tyName, e.fields;
    var ty := Actual(w.types, NamedTy(sc, n));
    if RecordAt(w.types, ty) {
      var tys := w.types[ty.id].fields;
      InitsLater(fields, tys, sc, if CountInits(fields) != |tys| then w.Err(WrongFieldCount) else w);
    }
  }

  lemma {:induction false} LetVarLater(e: Exp, sc: Scope, w: Work)
    requires e.LetVar?
    ensures Later(w, Check(e, sc, w).work)
    decreases e, 0
  {
    hide Compatible, Actual;
    var x, named, init, body := e.dec, e.tyDec, e.init, e.body;
    ExpLater(init, sc, w);
    var i2 := Check(init, sc, w);
    var ty := if named.Some? then NamedTy(sc, named.value) else i2.ty;
    ExpLater(body, sc.Declare(x, ty, false), if named.Some? then CheckTypes(i2.work, "type", ty, i2.ty) else i2.work);
  }

  lemma {:induction false} OpLater(e: Exp, sc: Scope, w: Work)
    requires e.OpExp?
    ensures Later(w, Check(e, sc, w).work)
    decreases e, 0
  {
    hide Compatible, Actual;
    var l, op, r := e.left, e.oper, e.right;
    ExpLater(l, sc, w);
    var l2 := Check(l, sc, w);
    ExpLater(r, sc, if op.Arithmetic? then CheckTypes(l2.work, "left operand", l2.ty, IntTy) else l2.work);
  }

  lemma {:induction false} IfLater(e: Exp, sc: Scope, w: Work)
    requires e.IfExp?
    ensures Later(w, Check(e, sc, w).work)
    decreases e, 0
  {
    hide Compatible;
    var c2 := Check(e.test, sc, w);
    var w2 := CheckTypes(c2.work, "test clause", c2.ty, IntTy);
    ExpLater(e.test, sc, w);
    ExpLater(e.thenclause, sc, w2);
    ExpLater(e.elseclause, sc, Check(e.thenclause, sc, w2).work);
  }

  lemma {:induction false} ForLater(e: Exp, sc: Scope, w: Work)
    requires e.ForExp?
    ensures Later(w, Check(e, sc, w).work)
    decreases e, 0
  {
    hide Compatible;
    var l2 := Check(e.lo, sc, w);
    var w2 := CheckTypes(l2.work, "counter", l2.ty, IntTy);
    var h2 := Check(e.hi, sc, w2);
    ExpLater(e.lo, sc, w);
    ExpLater(e.hi, sc, w2);
    ExpLater(e.body, sc.Declare(e.counter, l2.ty, true), CheckTypes(h2.work, "bound", h2.ty, IntTy));
  }

  lemma {:induction false} AllLater(es: Exps, sc: Scope, w: Work, last: Ty)
    ensures Later(w, CheckAll(es, sc, w, last).work)
    decreases es
  {
    if es.Cons? {
      ExpLater(es.head, sc, w);
      var e2 := Check(es.head, sc, w);
      AllLater(es.tail, sc, e2.work, e2.ty);
    }
  }

  lemma {:induction false} InitsLater(fs: Inits, tys: seq<FieldTy>, sc: Scope, w: Work)
    ensures Later(w, CheckInits(fs, tys, sc, w).work)
    decreases fs
  {
    if fs.Init? && tys != [] {
      ExpLater(fs.exp, sc, w);
      var e2 := Check(fs.exp, sc, w);
      InitsLater(fs.rest, tys[1..], sc, CheckTypes(e2.work, "field", e2.ty, tys[0].ty));
    }
  }

  // ----- type chunks make sound tables -----

  ghost predicate ScopeClosed(t: Table, sc: Scope) {
    (forall x :: x in sc.vars ==> Closed(t, sc.vars[x].ty)) && (forall n :: n in sc.types ==> Closed(t, sc.types[n]))
  }

  lemma ScopeStill(t: Table, t2: Table, sc: Scope)
    requires ScopeClosed(t, sc) && |t| <= |t2|
    ensures ScopeClosed(t2, sc)
  {}

  lemma NamedClosed(t: Table, sc: Scope, n: string)
    requires ScopeClosed(t, sc)
    ensures Closed(t, NamedTy(sc, n))
  {}

  /** In the middle of a chunk: names from `lo` up to `hi` have no type yet; what is made from `hi` on
      are records and arrays. */
  ghost predicate Half(t: Table, lo: nat, hi: nat) {
    && lo <= hi <= |t|
    && (forall i :: lo <= i < hi ==> t[i] == Open)
    && (forall i :: 0 <= i < |t| && !(lo <= i < hi) ==> DefClosed(t, t[i]))
    && (forall i :: hi <= i < |t| ==> !t[i].Named?)
  }

  lemma {:induction false} HeadersMake(decs: seq<TypeDec>, sc: Scope, w: Work)
    requires ScopeClosed(w.types, sc)
    ensures var h := Headers(decs, sc, w);
      && ScopeClosed(h.1.types, h.0) && w.types <= h.1.types && |h.1.types| == |w.types| + |decs|
      && (forall i :: |w.types| <= i < |h.1.types| ==> h.1.types[i] == Open) && h.0.vars == sc.vars
    decreases |decs|
  {
    if decs != [] {
      var sc2, w2 := sc.(types := sc.types[decs[0].name := Ref(|w.types|)]), w.Make(Open);
      ScopeStill(w.types, w2.types, sc);
      HeadersMake(decs[1..], sc2, w2);
    }
  }

  lemma DefStill(t: Table, t2: Table, d: Def)
    requires DefClosed(t, d) && |t| <= |t2|
    ensures DefClosed(t2, d)
  {}

  lemma BodySet(sc: Scope, ty: TyExp, id: nat, hi: nat, w: Work)
    requires ScopeClosed(w.types, sc) && Half(w.types, id, hi) && id < hi
    ensures var r := TyOf(sc, ty, w);
      var w2 := r.1.Set(id, Named(r.0));
      && ScopeClosed(w2.types, sc) && Half(w2.types, id + 1, hi) && w.types[..id] == w2.types[..id] && w2.types[id] == Named(r.0)
      && |w.types| <= |w2.types| && (forall i :: 0 <= i < |w.types| && i != id ==> w2.types[i] == w.types[i])
  {
    var r := TyOf(sc, ty, w);
    var w2 := r.1.Set(id, Named(r.0));
    assert |w.types| <= |w2.types|;
    ScopeStill(w.types, w2.types, sc);
    forall n ensures Closed(w.types, NamedTy(sc, n)) { NamedClosed(w.types, sc, n); }
    forall i | 0 <= i < |w2.types| && !(id + 1 <= i < hi) ensures DefClosed(w2.types, w2.types[i]) {
      if i < |w.types| && i != id { DefStill(w.types, w2.types, w.types[i]); }
    }
  }

  /** After the second pass every type in the table refers to types in the table. */
  lemma {:induction false} BodiesMake(decs: seq<TypeDec>, sc: Scope, id: nat, hi: nat, w: Work)
    requires ScopeClosed(w.types, sc) && Half(w.types, id, hi) && hi == id + |decs|
    ensures var w2 := Bodies(decs, sc, id, w);
      && ScopeClosed(w2.types, sc) && Half(w2.types, hi, hi) && |w.types| <= |w2.types|
      && (forall i :: 0 <= i < id ==> w2.types[i] == w.types[i]) && forall i :: id <= i < hi ==> w2.types[i].Named?
    decreases |decs|
  {
    hide Half, TyOf, ScopeClosed;
    HalfBounds(w.types, id, hi);
    if decs != [] {
      var r := TyOf(sc, decs[0].ty, w);
      BodySet(sc, decs[0].ty, id, hi, w);
      BodiesMake(decs[1..], sc, id + 1, hi, r.1.Set(id, Named(r.0)));
    }
  }

  lemma HalfBounds(t: Table, lo: nat, hi: nat)
    requires Half(t, lo, hi)
    ensures lo <= hi <= |t|
  {}

  /** Without an error every name of the chunk leads to a type. */
  lemma {:induction false} AllResolve(id: nat, count: nat, w: Work)
    requires Soundness(id, count, w).errors == w.errors
    ensures Soundness(id, count, w) == w && forall i: nat :: id <= i < id + count ==> Resolves(w.types, Ref(i))
    decreases count
  {
    hide Resolves, Returns;
    if count > 0 { if Resolves(w.types, Ref(id)) { AllResolve(id + 1, count - 1, w); } }
  }

  /** A chunk without errors leaves a sound table, with the old types as they were. */
  lemma ChunkSound(decs: seq<TypeDec>, sc: Scope, w: Work)
    requires WellFormed(w.types) && ScopeClosed(w.types, sc) && TypeChunk(decs, sc, w).1.errors == w.errors
    ensures var c := TypeChunk(decs, sc, w);
      WellFormed(c.1.types) && ScopeClosed(c.1.types, c.0) && w.types <= c.1.types && c.0.vars == sc.vars
  {
    var h := Headers(decs, sc, w);
    var n, k := |w.types|, |decs|;
    HeadersLater(decs, sc, w);
    HeadersMake(decs, sc, w);
    assert Half(h.1.types, n, n + k) by {
      forall i | 0 <= i < n ensures DefClosed(h.1.types, h.1.types[i]) { DefStill(w.types, h.1.types, w.types[i]); }
    }
    BodiesMake(decs, h.0, n, n + k, h.1);
    BodiesLater(decs, h.0, n, h.1);
    var b := Bodies(decs, h.0, n, h.1);
    SoundnessLater(n, k, b);
    AllResolve(n, k, b);
    var t := b.types;
    forall i | 0 <= i < |t| ensures DefClosed(t, t[i]) && Resolves(t, Ref(i)) {
      if i < n {
        var m: nat :| EndsAt(w.types, Ref(i), m);
        assert w.types <= t;
        WalkStable(w.types, t, Ref(i), m);
        WalkClosed(w.types, Ref(i), m);
        assert EndsAt(t, Ref(i), m);
      } else if i >= n + k {
        assert EndsAt(t, Ref(i), 0);
      }
    }
  }

  // ----- what is checked follows the rules -----

  ghost predicate Ok(w: Work, sc: Scope) { WellFormed(w.types) && ScopeClosed(w.types, sc) }

  ghost predicate Grew(a: Table, b: Table) { a <= b }

  lemma GrewTrans(a: Table, b: Table, c: Table)
    requires Grew(a, b) && Grew(b, c)
    ensures Grew(a, c)
  {}

  /** From `w` to `r` nothing was reported and a type of the table was found. */
  ghost predicate Fine(w: Work, sc: Scope, r: Work, ty: Ty) {
    Ok(r, sc) && Grew(w.types, r.types) && Closed(r.types, ty) && r.errors == w.errors
  }

  ghost predicate Final(types: Table, t: Table) { Grew(types, t) && WellFormed(t) }

  lemma FinalEarlier(a: Table, b: Table, t: Table)
    requires Grew(a, b) && Final(b, t)
    ensures Final(a, t)
  {}

  /** Where nothing is reported in the end nothing is reported on the way. */
  lemma Silent(a: Work, b: Work, c: Work, d: Work, e: Work)
    requires Later(a, b) && Later(b, c) && Later(c, d) && Later(d, e) && e.errors == a.errors
    ensures b.errors == a.errors && c.errors == a.errors && d.errors == a.errors
  {}

  lemma LaterTrans(a: Work, b: Work, c: Work)
    requires Later(a, b) && Later(b, c)
    ensures Later(a, c)
  {}

  lemma ScopeFine(w: Work, w2: Work, sc: Scope)
    requires Ok(w, sc) && Grew(w.types, w2.types) && WellFormed(w2.types)
    ensures Ok(w2, sc)
  {
    ScopeStill(w.types, w2.types, sc);
  }

  lemma DeclareFine(w: Work, sc: Scope, x: string, ty: Ty, readOnly: bool)
    requires Ok(w, sc) && Closed(w.types, ty)
    ensures Ok(w, sc.Declare(x, ty, readOnly))
  {}

  /** A check of two types that passes, seen from any later table. */
  lemma TypesFine(w: Work, sc: Scope, what: string, a: Ty, b: Ty, t: Table)
    requires Ok(w, sc) && Closed(w.types, a) && Closed(w.types, b) && CheckTypes(w, what, a, b).errors == w.errors
    ensures CheckTypes(w, what, a, b) == w
    ensures Final(w.types, t) ==> Compatible(t, a, b) && Compatible(t, b, a)
  {
    if Final(w.types, t) {
      ActualStable(w.types, t, a);
      ActualStable(w.types, t, b);
    }
  }

  lemma ClosedLater(a: Table, b: Table, ty: Ty)
    requires Closed(a, ty) && Grew(a, b)
    ensures Closed(b, ty)
  {}

  lemma FineTrans(a: Work, b: Work, c: Work, sc: Scope, ty: Ty, ty2: Ty)
    requires Fine(a, sc, b, ty) && Fine(b, sc, c, ty2)
    ensures Fine(a, sc, c, ty) && Fine(a, sc, c, ty2)
  {
    hide WellFormed, ScopeClosed;
    ClosedLater(b.types, c.types, ty);
  }

  /** The definition a type leads to stays where it is, and its parts are types of the table. */
  lemma ActualFine(w: Work, sc: Scope, ty: Ty, t: Table)
    requires Ok(w, sc) && Closed(w.types, ty)
    ensures var a := Actual(w.types, ty);
      && Closed(w.types, a)
      && (RecordAt(w.types, a) ==> forall i :: 0 <= i < |w.types[a.id].fields| ==> Closed(w.types, w.types[a.id].fields[i].ty))
      && (ArrayAt(w.types, a) ==> Closed(w.types, w.types[a.id].elem))
      && (Final(w.types, t) ==> Actual(t, ty) == a && Actual(t, a) == a && (a.Ref? ==> a.id < |t| && t[a.id] == w.types[a.id]))
  {
    hide Actual;
    ActualClosed(w.types, ty);
    var a := Actual(w.types, ty);
    if a.Ref? { assert DefClosed(w.types, w.types[a.id]); }
    if Final(w.types, t) {
      ActualStable(w.types, t, ty);
      ActualStable(w.types, t, a);
    }
  }

  ghost predicate VarRule(t: Table, sc: Scope, r: Checked<Var>) { Final(r.work.types, t) ==> VarTy(t, sc.vars, r.tree) == Some(r.ty) }

  ghost predicate ExpRule(t: Table, sc: Scope, r: Checked<Exp>) { Final(r.work.types, t) ==> ExpTy(t, sc.vars, r.tree) == Some(r.ty) }

  /** What holds of a check that reports nothing. */
  ghost predicate Follows(t: Table, sc: Scope, w: Work, r: Checked<Exp>) { Fine(w, sc, r.work, r.ty) && ExpRule(t, sc, r) }

  lemma {:induction false} VarFollows(v: Var, sc: Scope, w: Work, t: Table)
    requires Ok(w, sc) && CheckVar(v, sc, w).work.errors == w.errors
    ensures var r := CheckVar(v, sc, w); Fine(w, sc, r.work, r.ty) && VarRule(t, sc, r)
    decreases v
  {
    match v
    case SimpleVar(x) =>
    case FieldVar(r, f, _) =>
      hide WellFormed, ScopeClosed, Actual;
      VarLater(r, sc, w);
      VarFollows(r, sc, w, t);
      var r2 := CheckVar(r, sc, w);
      ActualFine(r2.work, sc, r2.ty, t);
      var a := Actual(r2.work.types, r2.ty);
      if RecordAt(r2.work.types, a) { FieldIndexExact(r2.work.types[a.id].fields, f, 0); }
    case SubscriptVar(a, at) => SubscriptFollows(a, at, sc, w, t);
  }

  lemma {:induction false} SubscriptFollows(a: Var, at: Exp, sc: Scope, w: Work, t: Table)
    requires Ok(w, sc) && CheckVar(SubscriptVar(a, at), sc, w).work.errors == w.errors
    ensures var r := CheckVar(SubscriptVar(a, at), sc, w); Fine(w, sc, r.work, r.ty) && VarRule(t, sc, r)
    decreases SubscriptVar(a, at), 0
  {
    hide WellFormed, ScopeClosed, Actual, Compatible, CheckTypes, Grew;
    var i2 := Check(at, sc, w);
    var w2 := CheckTypes(i2.work, "index", i2.ty, IntTy);
    var a2 := CheckVar(a, sc, w2);
    ExpLater(at, sc, w);
    TypesLater(i2.work, "index", i2.ty, IntTy);
    VarLater(a, sc, w2);
    assert Later(a2.work, CheckVar(SubscriptVar(a, at), sc, w).work);
    Silent(w, i2.work, w2, a2.work, CheckVar(SubscriptVar(a, at), sc, w).work);
    ExpFollows(at, sc, w, t);
    TypesFine(i2.work, sc, "index", i2.ty, IntTy, t);
    VarFollows(a, sc, w2, t);
    ActualFine(a2.work, sc, a2.ty, t);
    FineTrans(w, i2.work, a2.work, sc, i2.ty, a2.ty);
    if Final(a2.work.types, t) { FinalEarlier(i2.work.types, a2.work.types, t); }
  }

  /** One expression, then a check of its type. */
  lemma {:induction false} ThenCheck(e: Exp, sc: Scope, w: Work, t: Table, what: string, want: Ty, end: Work, whole: Exp)
    requires e < whole && Ok(w, sc) && Closed(w.types, want)
    requires var r := Check(e, sc, w); Later(CheckTypes(r.work, what, r.ty, want), end) && end.errors == w.errors
    ensures var r := Check(e, sc, w);
      && CheckTypes(r.work, what, r.ty, want) == r.work && Follows(t, sc, w, r)
      && (Final(r.work.types, t) ==> IsA(t, ExpTy(t, sc.vars, r.tree), want))
    decreases whole, 0
  {
    hide WellFormed, ScopeClosed, Compatible, Closed, Grew;
    var r := Check(e, sc, w);
    ExpLater(e, sc, w);
    TypesLater(r.work, what, r.ty, want);
    Silent(w, r.work, CheckTypes(r.work, what, r.ty, want), end, end);
    ExpFollows(e, sc, w, t);
    ClosedLater(w.types, r.work.types, want);
    TypesFine(r.work, sc, what, r.ty, want, t);
  }

  /** The tree the checker makes of an expression it reports nothing about has the type it found, by
      the typing rules, in the table it leaves and in every sound table that extends it. */
  lemma {:induction false} ExpFollows(e: Exp, sc: Scope, w: Work, t: Table)
    requires Ok(w, sc) && Check(e, sc, w).work.errors == w.errors
    ensures Follows(t, sc, w, Check(e, sc, w))
    decreases e
  {
    hide WellFormed, ScopeClosed, Actual, Compatible, CheckTypes, TypeChunk;
    match e
    case IntExp(_) =>
    case StringExp(_, _) =>
    case VarExp(v) => VarFollows(v, sc, w, t);
    case RecordExp(_, _, _) => RecordFollows(e, sc, w, t);
    case ArrayExp(_, _, _, _) => ArrayFollows(e, sc, w, t);
    case OpExp(l, op, r) => if op.Arithmetic? { ArithmeticFollows(l, op, r, sc, w, t); } else { ComparisonFollows(l, op, r, sc, w, t); }
    case StringCall(fn, l, r) => StringCallFollows(fn, l, r, sc, w, t);
    case AssignExp(v, e1) => AssignFollows(v, e1, sc, w, t);
    case IfExp(_, _, _) => IfFollows(e, sc, w, t);
    case WhileExp(c, body) => WhileFollows(c, body, sc, w, t);
    case ForExp(_, _, _, _) => ForFollows(e, sc, w, t);
    case BreakExp =>
    case SeqExp(es) => AllFollows(es, sc, w, VoidTy, t);
    case LetVar(_, _, _, _, _) => LetVarFollows(e, sc, w, t);
    case LetTypes(decs, body) =>
      var c := TypeChunk(decs, sc, w);
      ChunkLater(decs, sc, w);
      ExpLater(body, c.0, c.1);
      Silent(w, w, c.1, c.1, Check(body, c.0, c.1).work);
      ChunkFine(decs, sc, w);
      ExpFollows(body, c.0, c.1, t);
      ScopeFine(w, Check(body, c.0, c.1).work, sc);
  }

  lemma ChunkFine(decs: seq<TypeDec>, sc: Scope, w: Work)
    requires Ok(w, sc) && TypeChunk(decs, sc, w).1.errors == w.errors
    ensures var c := TypeChunk(decs, sc, w); Ok(c.1, c.0) && Grew(w.types, c.1.types) && c.0.vars == sc.vars
  {
    hide TypeChunk;
    ChunkSound(decs, sc, w);
  }

  lemma {:induction false} ArithmeticFollows(l: Exp, op: Oper, r: Exp, sc: Scope, w: Work, t: Table)
    requires op.Arithmetic? && Ok(w, sc) && Check(OpExp(l, op, r), sc, w).work.errors == w.errors
    ensures Follows(t, sc, w, Check(OpExp(l, op, r), sc, w))
    decreases OpExp(l, op, r), 1
  {
    hide WellFormed, ScopeClosed, Actual, Compatible, CheckTypes, Grew;
    var e := OpExp(l, op, r);
    var l2 := Check(l, sc, w);
    var w2 := CheckTypes(l2.work, "left operand", l2.ty, IntTy);
    var r2 := Check(r, sc, w2);
    var w3 := CheckTypes(r2.work, "right operand", r2.ty, IntTy);
    ExpLater(r, sc, w2);
    TypesLater(r2.work, "right operand", r2.ty, IntTy);
    LaterTrans(w2, r2.work, w3);
    ThenCheck(l, sc, w, t, "left operand", IntTy, w3, e);
    ThenCheck(r, sc, w2, t, "right operand", IntTy, w3, e);
    FineTrans(w, l2.work, r2.work, sc, l2.ty, r2.ty);
    if Final(w3.types, t) { FinalEarlier(l2.work.types, w3.types, t); }
  }

  lemma {:induction false} StringCallFollows(fn: StringFn, l: Exp, r: Exp, sc: Scope, w: Work, t: Table)
    requires Ok(w, sc) && Check(StringCall(fn, l, r), sc, w).work.errors == w.errors
    ensures Follows(t, sc, w, Check(StringCall(fn, l, r), sc, w))
    decreases StringCall(fn, l, r), 1
  {
    hide WellFormed, ScopeClosed, Actual, Compatible, CheckTypes, Grew;
    var e := StringCall(fn, l, r);
    var l2 := Check(l, sc, w);
    var w2 := CheckTypes(l2.work, "argument", l2.ty, StringTy);
    var r2 := Check(r, sc, w2);
    var w3 := CheckTypes(r2.work, "argument", r2.ty, StringTy);
    ExpLater(r, sc, w2);
    TypesLater(r2.work, "argument", r2.ty, StringTy);
    LaterTrans(w2, r2.work, w3);
    ThenCheck(l, sc, w, t, "argument", StringTy, w3, e);
    ThenCheck(r, sc, w2, t, "argument", StringTy, w3, e);
    FineTrans(w, l2.work, r2.work, sc, l2.ty, r2.ty);
    if Final(w3.types, t) { FinalEarlier(l2.work.types, w3.types, t); }
  }

  lemma {:induction false} ComparisonFollows(l: Exp, op: Oper, r: Exp, sc: Scope, w: Work, t: Table)
    requires op.Comparison? && Ok(w, sc) && Check(OpExp(l, op, r), sc, w).work.errors == w.errors
    ensures Follows(t, sc, w, Check(OpExp(l, op, r), sc, w))
    decreases OpExp(l, op, r), 1
  {
    hide WellFormed, ScopeClosed, Actual, Compatible, CheckTypes, Grew, Closed;
    var l2 := Check(l, sc, w);
    var r2 := Check(r, sc, l2.work);
    var w3 := CheckTypes(r2.work, "left operand", l2.ty, r2.ty);
    ExpLater(l, sc, w);
    ExpLater(r, sc, l2.work);
    TypesLater(r2.work, "left operand", l2.ty, r2.ty);
    Silent(w, l2.work, r2.work, w3, w3);
    ExpFollows(l, sc, w, t);
    ExpFollows(r, sc, l2.work, t);
    FineTrans(w, l2.work, r2.work, sc, l2.ty, r2.ty);
    TypesFine(r2.work, sc, "left operand", l2.ty, r2.ty, t);
    if Final(w3.types, t) { FinalEarlier(l2.work.types, w3.types, t); }
    assert Closed(w3.types, IntTy) by { BasicClosed(w3.types); }
  }

  lemma BasicClosed(t: Table)
    ensures Closed(t, IntTy) && Closed(t, StringTy) && Closed(t, VoidTy)
  {}

  lemma {:induction false} AssignFollows(v: Var, e1: Exp, sc: Scope, w: Work, t: Table)
    requires Ok(w, sc) && Check(AssignExp(v, e1), sc, w).work.errors == w.errors
    ensures Follows(t, sc, w, Check(AssignExp(v, e1), sc, w))
    decreases AssignExp(v, e1), 1
  {
    hide WellFormed, ScopeClosed, Actual, Compatible, CheckTypes, Grew, Closed;
    BasicClosed(w.types);
    var v2 := CheckVar(v, sc, w);
    var r := Check(e1, sc, v2.work);
    var w3 := CheckTypes(r.work, "variable", v2.ty, r.ty);
    assert w.Err(ReadOnly).errors != w.errors;
    VarLater(v, sc, w);
    ExpLater(e1, sc, v2.work);
    TypesLater(r.work, "variable", v2.ty, r.ty);
    Silent(w, v2.work, r.work, w3, w3);
    VarFollows(v, sc, w, t);
    ExpFollows(e1, sc, v2.work, t);
    FineTrans(w, v2.work, r.work, sc, v2.ty, r.ty);
    TypesFine(r.work, sc, "variable", v2.ty, r.ty, t);
    BasicClosed(w3.types);
    if Final(w3.types, t) { FinalEarlier(v2.work.types, w3.types, t); }
  }

  lemma {:induction false} IfFollows(e: Exp, sc: Scope, w: Work, t: Table)
    requires e.IfExp? && Ok(w, sc) && Check(e, sc, w).work.errors == w.errors
    ensures Follows(t, sc, w, Check(e, sc, w))
    decreases e, 1
  {
    hide WellFormed, ScopeClosed, Actual, Compatible, CheckTypes, Grew, Closed;
    var c, th, f := e.test, e.thenclause, e.elseclause;
    BasicClosed(w.types);
    var c2 := Check(c, sc, w);
    var w2 := CheckTypes(c2.work, "test clause", c2.ty, IntTy);
    var t2 := Check(th, sc, w2);
    var f2 := Check(f, sc, t2.work);
    var w3 := CheckTypes(f2.work, "then clause", t2.ty, f2.ty);
    ExpLater(th, sc, w2);
    ExpLater(f, sc, t2.work);
    TypesLater(f2.work, "then clause", t2.ty, f2.ty);
    LaterTrans(w2, t2.work, f2.work);
    LaterTrans(w2, f2.work, w3);
    ThenCheck(c, sc, w, t, "test clause", IntTy, w3, e);
    Silent(w2, t2.work, f2.work, w3, w3);
    ExpFollows(th, sc, w2, t);
    ExpFollows(f, sc, t2.work, t);
    FineTrans(w2, t2.work, f2.work, sc, t2.ty, f2.ty);
    FineTrans(w, c2.work, f2.work, sc, c2.ty, t2.ty);
    TypesFine(f2.work, sc, "then clause", t2.ty, f2.ty, t);
    if Final(w3.types, t) {
      FinalEarlier(c2.work.types, w3.types, t);
      FinalEarlier(t2.work.types, w3.types, t);
    }
  }

  lemma {:induction false} WhileFollows(c: Exp, body: Exp, sc: Scope, w: Work, t: Table)
    requires Ok(w, sc) && Check(WhileExp(c, body), sc, w).work.errors == w.errors
    ensures Follows(t, sc, w, Check(WhileExp(c, body), sc, w))
    decreases WhileExp(c, body), 1
  {
    hide WellFormed, ScopeClosed, Actual, Compatible, CheckTypes, Grew;
    var e := WhileExp(c, body);
    var c2 := Check(c, sc, w);
    var w2 := CheckTypes(c2.work, "test clause", c2.ty, IntTy);
    var b2 := Check(body, sc, w2);
    var w3 := CheckTypes(b2.work, "body", b2.ty, VoidTy);
    ExpLater(body, sc, w2);
    TypesLater(b2.work, "body", b2.ty, VoidTy);
    LaterTrans(w2, b2.work, w3);
    ThenCheck(c, sc, w, t, "test clause", IntTy, w3, e);
    ThenCheck(body, sc, w2, t, "body", VoidTy, w3, e);
    FineTrans(w, c2.work, b2.work, sc, c2.ty, b2.ty);
    if Final(w3.types, t) { FinalEarlier(c2.work.types, w3.types, t); }
  }

  lemma {:induction false} ForFollows(e: Exp, sc: Scope, w: Work, t: Table)
    requires e.ForExp? && Ok(w, sc) && Check(e, sc, w).work.errors == w.errors
    ensures Follows(t, sc, w, Check(e, sc, w))
    decreases e, 1
  {
    hide WellFormed, ScopeClosed, Actual, Compatible, CheckTypes, Grew, Closed, Scope.Declare;
    var i, lo, hi, body := e.counter, e.lo, e.hi, e.body;
    BasicClosed(w.types);
    var l2 := Check(lo, sc, w);
    var w2 := CheckTypes(l2.work, "counter", l2.ty, IntTy);
    var h2 := Check(hi, sc, w2);
    var w3 := CheckTypes(h2.work, "bound", h2.ty, IntTy);
    var sc2 := sc.Declare(i, l2.ty, true);
    var b2 := Check(body, sc2, w3);
    var w4 := CheckTypes(b2.work, "body", b2.ty, VoidTy);
    ExpLater(hi, sc, w2);
    TypesLater(h2.work, "bound", h2.ty, IntTy);
    ExpLater(body, sc2, w3);
    TypesLater(b2.work, "body", b2.ty, VoidTy);
    LaterTrans(w3, b2.work, w4);
    LaterTrans(w2, h2.work, w3);
    LaterTrans(w2, w3, w4);
    ThenCheck(lo, sc, w, t, "counter", IntTy, w4, e);
    BasicClosed(w2.types);
    ThenCheck(hi, sc, w2, t, "bound", IntTy, w4, e);
    FineTrans(w, l2.work, h2.work, sc, l2.ty, h2.ty);
    DeclareFine(w3, sc, i, l2.ty, true);
    BasicClosed(w3.types);
    ThenCheck(body, sc2, w3, t, "body", VoidTy, w4, e);
    GrewTrans(w.types, w3.types, w4.types);
    ScopeFine(w, w4, sc) by { FineOk(w3, sc2, w4, b2.ty); }
    FineOk(w3, sc2, w4, b2.ty);
    BasicClosed(w4.types);
    if Final(w4.types, t) {
      FinalEarlier(h2.work.types, w4.types, t);
      FinalEarlier(l2.work.types, h2.work.types, t);
      assert sc2.vars == sc.vars[i := VarInfo(l2.ty, true)] by { DeclareIs(sc, i, l2.ty, true); }
    }
  }

  lemma DeclareIs(sc: Scope, x: string, ty: Ty, readOnly: bool)
    ensures sc.Declare(x, ty, readOnly).vars == sc.vars[x := VarInfo(ty, readOnly)]
  {}

  lemma FineOk(w: Work, sc: Scope, r: Work, ty: Ty)
    requires Fine(w, sc, r, ty)
    ensures WellFormed(r.types) && Grew(w.types, r.types)
  {}

  lemma {:induction false} LetVarFollows(e: Exp, sc: Scope, w: Work, t: Table)
    requires e.LetVar? && Ok(w, sc) && Check(e, sc, w).work.errors == w.errors
    ensures Follows(t, sc, w, Check(e, sc, w))
    decreases e, 1
  {
    hide WellFormed, ScopeClosed, Actual, Compatible, CheckTypes, Grew, Closed, Scope.Declare;
    var x, init, body := e.dec, e.init, e.body;
    var i2 := Check(init, sc, w);
    var ty := if e.tyDec.Some? then NamedTy(sc, e.tyDec.value) else i2.ty;
    var w2 := if e.tyDec.Some? then CheckTypes(i2.work, "type", ty, i2.ty) else i2.work;
    var sc2 := sc.Declare(x, ty, false);
    var b2 := Check(body, sc2, w2);
    ExpLater(init, sc, w);
    TypesLater(i2.work, "type", ty, i2.ty);
    ExpLater(body, sc2, w2);
    assert Later(i2.work, i2.work) by { LaterSelf(i2.work); }
    assert Later(b2.work, b2.work) by { LaterSelf(b2.work); }
    Silent(w, i2.work, w2, b2.work, b2.work);
    ExpFollows(init, sc, w, t);
    if e.tyDec.Some? {
      NamedFine(i2.work, sc, e.tyDec.value);
      TypesFine(i2.work, sc, "type", ty, i2.ty, t);
    }
    assert w2 == i2.work;
    DeclareFine(w2, sc, x, ty, false);
    ExpFollows(body, sc2, w2, t);
    FineOk(w2, sc2, b2.work, b2.ty);
    GrewTrans(w.types, w2.types, b2.work.types);
    ScopeFine(w, b2.work, sc);
    if Final(b2.work.types, t) {
      FinalEarlier(i2.work.types, b2.work.types, t);
      DeclareIs(sc, x, ty, false);
      assert Compatible(t, i2.ty, ty) by { if e.tyDec.None? { CompatibleItself(t, ty); } }
    }
  }

  lemma LaterSelf(w: Work)
    ensures Later(w, w)
  {}

  lemma CompatibleItself(t: Table, ty: Ty)
    ensures Compatible(t, ty, ty)
  {}

  lemma NamedFine(w: Work, sc: Scope, n: string)
    requires Ok(w, sc)
    ensures Closed(w.types, NamedTy(sc, n))
  {
    NamedClosed(w.types, sc, n);
  }

  lemma {:induction false} ArrayFollows(e: Exp, sc: Scope, w: Work, t: Table)
    requires e.ArrayExp? && Ok(w, sc) && Check(e, sc, w).work.errors == w.errors
    ensures Follows(t, sc, w, Check(e, sc, w))
    decreases e, 1
  {
    hide WellFormed, ScopeClosed, Actual, Compatible, CheckTypes, Grew, Closed;
    BasicClosed(w.types);
    var s2 := Check(e.size, sc, w);
    var w2 := CheckTypes(s2.work, "size clause", s2.ty, IntTy);
    var named := NamedTy(sc, e.tyName);
    var ty := Actual(w2.types, named);
    assert w2.Err(NotArray).errors != w2.errors && Later(w2, w2.Err(NotArray));
    if ArrayAt(w2.types, ty) {
      var elem := w2.types[ty.id].elem;
      var i2 := Check(e.init, sc, w2);
      var w3 := CheckTypes(i2.work, "array", elem, i2.ty);
      ExpLater(e.init, sc, w2);
      TypesLater(i2.work, "array", elem, i2.ty);
      LaterTrans(w2, i2.work, w3);
      ThenCheck(e.size, sc, w, t, "size clause", IntTy, w3, e);
      NamedFine(w2, sc, e.tyName);
      ActualFine(w2, sc, named, t);
      Silent(w2, i2.work, w3, w3, w3);
      ExpFollows(e.init, sc, w2, t);
      FineOk(w2, sc, i2.work, i2.ty);
      ClosedLater(w2.types, i2.work.types, elem);
      ClosedLater(w2.types, i2.work.types, named);
      TypesFine(i2.work, sc, "array", elem, i2.ty, t);
      FineTrans(w, w2, i2.work, sc, s2.ty, i2.ty);
      if Final(w3.types, t) { FinalEarlier(w2.types, w3.types, t); }
    } else {
      ExpLater(e.size, sc, w);
      TypesLater(s2.work, "size clause", s2.ty, IntTy);
      Silent(w, s2.work, w2, w2.Err(NotArray), w2.Err(NotArray));
      assert false;
    }
  }

  lemma {:induction false} RecordFollows(e: Exp, sc: Scope, w: Work, t: Table)
    requires e.RecordExp? && Ok(w, sc) && Check(e, sc, w).work.errors == w.errors
    ensures Follows(t, sc, w, Check(e, sc, w))
    decreases e, 1
  {
    hide WellFormed, ScopeClosed, Actual, Compatible, CheckTypes, Grew, Closed;
    var named := NamedTy(sc, e.tyName);
    var ty := Actual(w.types, named);
    NamedFine(w, sc, e.tyName);
    ActualFine(w, sc, named, t);
    var tys := w.types[ty.id].fields;
    var w1 := if CountInits(e.fields) != |tys| then w.Err(WrongFieldCount) else w;
    InitsLater(e.fields, tys, sc, w1);
    var f2 := CheckInits(e.fields, tys, sc, w1);
    LaterSelf(w);
    assert Later(w, w1);
    LaterSelf(f2.work);
    Silent(w, w1, f2.work, f2.work, f2.work);
    assert w1 == w;
    InitsFollow(e.fields, tys, sc, w, t);
    ClosedLater(w.types, f2.work.types, ty);
    if Final(f2.work.types, t) { FinalEarlier(w.types, f2.work.types, t); }
  }

  lemma {:induction false} InitsFollow(fs: Inits, tys: seq<FieldTy>, sc: Scope, w: Work, t: Table)
    requires Ok(w, sc) && CountInits(fs) == |tys| && (forall i :: 0 <= i < |tys| ==> Closed(w.types, tys[i].ty))
    requires CheckInits(fs, tys, sc, w).work.errors == w.errors
    ensures var r := CheckInits(fs, tys, sc, w);
      Fine(w, sc, r.work, VoidTy) && (Final(r.work.types, t) ==> InitsOk(t, sc.vars, r.tree, tys))
    decreases fs
  {
    hide WellFormed, ScopeClosed, Actual, Compatible, CheckTypes, Grew, Closed;
    if fs.NoInit? {
      BasicClosed(w.types);
      GrewItself(w.types);
    } else {
      var e2 := Check(fs.exp, sc, w);
      var w2 := CheckTypes(e2.work, "field", e2.ty, tys[0].ty);
      var r := CheckInits(fs.rest, tys[1..], sc, w2);
      InitsLater(fs.rest, tys[1..], sc, w2);
      ExpLater(fs.exp, sc, w);
      TypesLater(e2.work, "field", e2.ty, tys[0].ty);
      LaterSelf(r.work);
      Silent(w, e2.work, w2, r.work, r.work);
      ExpFollows(fs.exp, sc, w, t);
      FineOk(w, sc, e2.work, e2.ty);
      ClosedLater(w.types, e2.work.types, tys[0].ty);
      TypesFine(e2.work, sc, "field", e2.ty, tys[0].ty, t);
      forall i | 0 <= i < |tys[1..]| ensures Closed(w2.types, tys[1..][i].ty) { ClosedLater(w.types, w2.types, tys[i + 1].ty); }
      InitsFollow(fs.rest, tys[1..], sc, w2, t);
      FineTrans(w, w2, r.work, sc, e2.ty, VoidTy);
      FineOk(w2, sc, r.work, VoidTy);
      if Final(r.work.types, t) { FinalEarlier(w2.types, r.work.types, t); }
    }
  }

  lemma GrewItself(t: Table)
    ensures Grew(t, t)
  {}

  lemma {:induction false} AllFollows(es: Exps, sc: Scope, w: Work, last: Ty, t: Table)
    requires Ok(w, sc) && Closed(w.types, last) && CheckAll(es, sc, w, last).work.errors == w.errors
    ensures var r := CheckAll(es, sc, w, last);
      Fine(w, sc, r.work, r.ty) && (Final(r.work.types, t) ==> AllTy(t, sc.vars, r.tree, last) == Some(r.ty))
    decreases es
  {
    hide WellFormed, ScopeClosed, Actual, Compatible, CheckTypes, Grew, Closed;
    if es.NoExp? {
      GrewItself(w.types);
    } else {
      var e2 := Check(es.head, sc, w);
      var r := CheckAll(es.tail, sc, e2.work, e2.ty);
      ExpLater(es.head, sc, w);
      AllLater(es.tail, sc, e2.work, e2.ty);
      LaterSelf(r.work);
      Silent(w, e2.work, r.work, r.work, r.work);
      ExpFollows(es.head, sc, w, t);
      AllFollows(es.tail, sc, e2.work, e2.ty, t);
      FineTrans(w, e2.work, r.work, sc, e2.ty, r.ty);
      FineOk(e2.work, sc, r.work, r.ty);
      if Final(r.work.types, t) { FinalEarlier(e2.work.types, r.work.types, t); }
    }
  }

  // ----- soundness -----

  const NO_SCOPE := Scope(map[], map[])

  const NO_WORK := Work([], [])

  /** A program the checker reports nothing about never applies an operation to a value of the wrong
      kind, for however long it runs, and if it ends its value has the type that was found. */
  lemma CheckedIsSafe(m: Mode, e: Exp, fuel: nat)
    requires Check(e, NO_SCOPE, NO_WORK).work.errors == []
    ensures var r := Check(e, NO_SCOPE, NO_WORK); var o := Eval(m, r.tree, map[], State([], []), fuel);
      !o.Wrong? && (o.Val? ==> exists g: Typing :: StateOk(r.work.types, g, o.st) && ValOk(r.work.types, g.heap, o.v, r.ty))
  {
    hide Check;
    var r := Check(e, NO_SCOPE, NO_WORK);
    var t := r.work.types;
    assert Ok(NO_WORK, NO_SCOPE);
    ExpFollows(e, NO_SCOPE, NO_WORK, t);
    GrewItself(t);
    FineOk(NO_WORK, NO_SCOPE, r.work, r.ty);
    assert Final(t, t);
    var g := Typing([], []);
    assert StateOk(t, g, State([], [])) && EnvOk(map[], map[], g);
    var g2 := Safe(m, r.tree, t, map[], map[], g, State([], []), fuel);
    var o := Eval(m, r.tree, map[], State([], []), fuel);
    if o.Val? { assert StateOk(t, g2, o.st) && ValOk(t, g2.heap, o.v, r.ty); }
  }
}
