/** Which programs the type checker accepts: no more and no fewer than the rules of the language, which
    speak of names and know neither annotations nor error messages. */
module TypeRules {
  import opened Int32
  import opened Options
  import opened TypeTable
  import opened TypeCheck
  import opened TypeChecked

  // ----- what declarations of types mean -----

  /** `ty` is the type that the expression stands for. */
  ghost predicate Denotes(t: Table, sc: Scope, e: TyExp, ty: Ty) {
    match e
    case NameTy(n) => ty == NamedTy(sc, n)
    case RecordTy(fs) =>
      && RecordAt(t, ty) && |t[ty.id].fields| == |fs|
      && forall k :: 0 <= k < |fs| ==> t[ty.id].fields[k].name == fs[k].name && t[ty.id].fields[k].ty == NamedTy(sc, fs[k].tyName)
    case ArrayTy(n) => ArrayAt(t, ty) && t[ty.id].elem == NamedTy(sc, n)
  }

  /** Each declaration of the chunk has a name of its own in the table, which stands for what is
      declared, in the scope that has the whole chunk; where a name is repeated the last counts. */
  ghost predicate Declares(decs: seq<TypeDec>, sc: Scope, t: Table, sc2: Scope, t2: Table) {
    && t <= t2 && |t| + |decs| <= |t2| && sc2.vars == sc.vars
    && (forall i :: 0 <= i < |decs| ==> Declared(decs, i, |t|, sc2, t2))
    && (forall n :: (n in sc2.types <==> n in sc.types || exists i :: 0 <= i < |decs| && decs[i].name == n))
    && (forall i :: 0 <= i < |decs| && Last(decs, i) ==> sc2.types[decs[i].name] == Ref(|t| + i))
    && (forall n :: n in sc.types && (forall i :: 0 <= i < |decs| ==> decs[i].name != n) ==> sc2.types[n] == sc.types[n])
  }

  ghost predicate Declared(decs: seq<TypeDec>, i: nat, base: nat, sc2: Scope, t2: Table)
    requires i < |decs| && base + |decs| <= |t2|
  {
    t2[base + i].Named? && Denotes(t2, sc2, decs[i].ty, t2[base + i].target)
  }

  ghost predicate Last(decs: seq<TypeDec>, i: nat) { i < |decs| && forall j :: i < j < |decs| ==> decs[j].name != decs[i].name }

  lemma {:induction false} HeadersName(decs: seq<TypeDec>, sc: Scope, w: Work)
    ensures var h := Headers(decs, sc, w);
      && h.0.vars == sc.vars && |h.1.types| == |w.types| + |decs| && w.types <= h.1.types
      && (forall n :: (n in h.0.types <==> n in sc.types || exists i :: 0 <= i < |decs| && decs[i].name == n))
      && (forall i :: 0 <= i < |decs| && Last(decs, i) ==> h.0.types[decs[i].name] == Ref(|w.types| + i))
      && (forall n :: n in sc.types && (forall i :: 0 <= i < |decs| ==> decs[i].name != n) ==> h.0.types[n] == sc.types[n])
    decreases |decs|
  {
    if decs != [] {
      var d, rest := decs[0].name, decs[1..];
      var sc1, w1 := sc.(types := sc.types[d := Ref(|w.types|)]), w.Make(Open);
      HeadersName(rest, sc1, w1);
      var h := Headers(decs, sc, w);
      assert forall i :: 0 <= i < |rest| ==> rest[i] == decs[i + 1];
      assert forall i :: 0 < i < |decs| ==> decs[i] == rest[i - 1];
      forall n ensures n in h.0.types <==> n in sc.types || exists i :: 0 <= i < |decs| && decs[i].name == n {
        if i :| 0 <= i < |decs| && decs[i].name == n && i > 0 { assert rest[i - 1].name == n; }
        if i :| 0 <= i < |rest| && rest[i].name == n { assert decs[i + 1].name == n; }
        if n == d { assert decs[0].name == n; }
      }
      forall i | 0 <= i < |decs| && Last(decs, i) ensures h.0.types[decs[i].name] == Ref(|w.types| + i) {
        if i > 0 {
          assert Last(rest, i - 1);
        } else {
          forall j | 0 <= j < |rest| ensures rest[j].name != d { assert decs[j + 1] == rest[j]; }
        }
      }
    }
  }

  lemma BodyMeans(sc: Scope, ty: TyExp, id: nat, w: Work)
    requires id < |w.types| && TyOf(sc, ty, w).1.errors == w.errors
    ensures var r := TyOf(sc, ty, w);
      var w2 := r.1.Set(id, Named(r.0));
      && w2.errors == w.errors && |w.types| <= |w2.types| && w2.types[id] == Named(r.0) && Denotes(w2.types, sc, ty, r.0)
      && (forall i :: 0 <= i < |w.types| && i != id ==> w2.types[i] == w.types[i])
      && (r.0.Ref? && !ty.NameTy? ==> r.0.id >= |w.types|)
  {}

  /** A type made by an earlier declaration is not touched by later ones. */
  lemma DenotesStill(t: Table, t2: Table, sc: Scope, e: TyExp, ty: Ty)
    requires Denotes(t, sc, e, ty) && (!e.NameTy? ==> ty.id < |t2| && t2[ty.id] == t[ty.id])
    ensures Denotes(t2, sc, e, ty)
  {}

  /** The second pass gives each declaration from `id` on its type, and writes nothing below. */
  lemma {:induction false} BodiesMean(decs: seq<TypeDec>, sc: Scope, id: nat, hi: nat, w: Work)
    requires hi == id + |decs| <= |w.types| && Bodies(decs, sc, id, w).errors == w.errors
    ensures var w2 := Bodies(decs, sc, id, w);
      && |w.types| <= |w2.types|
      && (forall i :: 0 <= i < |w.types| && !(id <= i < hi) ==> w2.types[i] == w.types[i])
      && forall i :: 0 <= i < |decs| ==> Declared(decs, i, id, sc, w2.types)
    decreases |decs|
  {
    hide Denotes, TyOf;
    if decs != [] {
      var r := TyOf(sc, decs[0].ty, w);
      var w1 := r.1.Set(id, Named(r.0));
      BodyGrows(sc, decs[0].ty, id, w);
      BodiesLater(decs[1..], sc, id + 1, w1);
      BodyMeans(sc, decs[0].ty, id, w);
      BodiesMean(decs[1..], sc, id + 1, hi, w1);
      var w2 := Bodies(decs, sc, id, w);
      BodyPlace(w1.types, w2.types, sc, decs[0].ty, r.0, |w.types|);
      forall i | 0 <= i < |decs| ensures Declared(decs, i, id, sc, w2.types) {
        if i > 0 { assert Declared(decs[1..], i - 1, id + 1, sc, w2.types); }
      }
    }
  }

  lemma BodyGrows(sc: Scope, ty: TyExp, id: nat, w: Work)
    ensures var r := TyOf(sc, ty, w); Later(w, r.1) && Later(w, r.1.Set(id, Named(r.0))) && r.1.Set(id, Named(r.0)).errors == r.1.errors
  {}

  lemma BodyPlace(t: Table, t2: Table, sc: Scope, e: TyExp, ty: Ty, n: nat)
    requires Denotes(t, sc, e, ty) && (ty.Ref? && !e.NameTy? ==> ty.id >= n) && |t| <= |t2|
    requires forall i :: n <= i < |t| ==> t2[i] == t[i]
    ensures Denotes(t2, sc, e, ty)
  {
    DenotesStill(t, t2, sc, e, ty);
  }

  /** A chunk that nothing is reported about declares its types, by the text. */
  lemma ChunkMeans(decs: seq<TypeDec>, sc: Scope, w: Work)
    requires TypeChunk(decs, sc, w).1.errors == w.errors
    ensures var c := TypeChunk(decs, sc, w); Declares(decs, sc, w.types, c.0, c.1.types)
  {
    hide Denotes, Resolves, Last, Declared;
    var h := Headers(decs, sc, w);
    var n, k := |w.types|, |decs|;
    HeadersLater(decs, sc, w);
    HeadersName(decs, sc, w);
    BodiesLater(decs, h.0, n, h.1);
    var b := Bodies(decs, h.0, n, h.1);
    SoundnessLater(n, k, b);
    AllResolve(n, k, b);
    BodiesMean(decs, h.0, n, n + k, h.1);
    assert w.types <= b.types;
  }

  /** And nothing is reported if no record names a field twice and no name leads round in a circle. */
  ghost predicate ChunkFits(decs: seq<TypeDec>, sc: Scope, t: Table) {
    && (forall i :: 0 <= i < |decs| && decs[i].ty.RecordTy? ==> !Repeats(decs[i].ty.fields))
    && var h := Headers(decs, sc, Work(t, []));
       forall i: nat :: |t| <= i < |t| + |decs| ==> Resolves(Bodies(decs, h.0, |t|, h.1).types, Ref(i))
  }

  lemma {:induction false} HeadersSame(decs: seq<TypeDec>, sc: Scope, w: Work, w2: Work)
    requires w2.types == w.types
    ensures Headers(decs, sc, w2).0 == Headers(decs, sc, w).0 && Headers(decs, sc, w2).1.types == Headers(decs, sc, w).1.types
    decreases |decs|
  {
    if decs != [] { HeadersSame(decs[1..], sc.(types := sc.types[decs[0].name := Ref(|w.types|)]), w.Make(Open), w2.Make(Open)); }
  }

  lemma {:induction false} BodiesSame(decs: seq<TypeDec>, sc: Scope, id: nat, w: Work, w2: Work)
    requires w2.types == w.types
    ensures Bodies(decs, sc, id, w2).types == Bodies(decs, sc, id, w).types
    decreases |decs|
  {
    if decs != [] {
      var r, r2 := TyOf(sc, decs[0].ty, w), TyOf(sc, decs[0].ty, w2);
      BodiesSame(decs[1..], sc, id + 1, r.1.Set(id, Named(r.0)), r2.1.Set(id, Named(r2.0)));
    }
  }

  lemma {:induction false} BodiesReport(decs: seq<TypeDec>, sc: Scope, id: nat, w: Work)
    ensures Bodies(decs, sc, id, w).errors == w.errors
      <==> forall i :: 0 <= i < |decs| && decs[i].ty.RecordTy? ==> !Repeats(decs[i].ty.fields)
    decreases |decs|
  {
    hide Repeats;
    if decs != [] {
      var r := TyOf(sc, decs[0].ty, w);
      var w1 := r.1.Set(id, Named(r.0));
      BodiesReport(decs[1..], sc, id + 1, w1);
      BodiesLater(decs[1..], sc, id + 1, w1);
      assert forall i :: 0 < i < |decs| ==> decs[i] == decs[1..][i - 1];
      assert forall i :: 0 <= i < |decs| - 1 ==> decs[1..][i] == decs[i + 1];
    }
  }

  lemma {:induction false} SoundnessReports(id: nat, count: nat, w: Work)
    ensures Soundness(id, count, w).errors == w.errors <==> forall i: nat :: id <= i < id + count ==> Resolves(w.types, Ref(i))
    decreases count
  {
    hide Resolves, Returns;
    if count > 0 && Resolves(w.types, Ref(id)) { SoundnessReports(id + 1, count - 1, w); }
  }

  lemma ChunkExact(decs: seq<TypeDec>, sc: Scope, w: Work)
    ensures TypeChunk(decs, sc, w).1.errors == w.errors <==> ChunkFits(decs, sc, w.types)
  {
    hide Resolves, Repeats;
    var h, n := Headers(decs, sc, w), |w.types|;
    HeadersLater(decs, sc, w);
    HeadersSame(decs, sc, w, Work(w.types, []));
    BodiesSame(decs, h.0, n, h.1, Headers(decs, sc, Work(w.types, [])).1);
    var b := Bodies(decs, h.0, n, h.1);
    BodiesReport(decs, h.0, n, h.1);
    BodiesLater(decs, h.0, n, h.1);
    SoundnessReports(n, |decs|, b);
    SoundnessLater(n, |decs|, b);
  }

  // ----- the rules -----

  /** A type, and the types made so far. */
  datatype Typing = Typing(ty: Ty, types: Table)

  ghost predicate Has(fs: seq<FieldTy>, f: string) { exists i: nat :: FieldAt(fs, i, f) }

  /** The type of the first field called `f`. */
  ghost function TypeOfField(fs: seq<FieldTy>, f: string): Ty
    requires Has(fs, f)
  {
    var i: nat :| FieldAt(fs, i, f);
    fs[i].ty
  }

  /** The expression has a type compatible with `want`. */
  ghost predicate Fits(r: Option<Typing>, want: Ty) { r.Some? && Compatible(r.value.types, r.value.ty, want) }

  ghost function RuleVar(v: Var, sc: Scope, t: Table): Option<Typing>
    decreases v
  {
    match v
    case SimpleVar(x) => if x in sc.vars then Some(Typing(sc.vars[x].ty, t)) else None
    case FieldVar(r, f, _) =>
      var r2 := RuleVar(r, sc, t);
      if r2.None? then None
      else
        var a := Actual(r2.value.types, r2.value.ty);
        if RecordAt(r2.value.types, a) && Has(r2.value.types[a.id].fields, f)
        then Some(Typing(TypeOfField(r2.value.types[a.id].fields, f), r2.value.types)) else None
    case SubscriptVar(a, at) =>
      var i2 := RuleExp(at, sc, t);
      if !Fits(i2, IntTy) then None
      else
        var a2 := RuleVar(a, sc, i2.value.types);
        if a2.None? then None
        else
          var b := Actual(a2.value.types, a2.value.ty);
          if ArrayAt(a2.value.types, b) then Some(Typing(a2.value.types[b.id].elem, a2.value.types)) else None
  }

  /** A variable that can be assigned to: the index of a loop cannot. */
  predicate Assignable(v: Var, sc: Scope) { v.SimpleVar? && v.name in sc.vars ==> !sc.vars[v.name].readOnly }

  ghost function RuleExp(e: Exp, sc: Scope, t: Table): Option<Typing>
    decreases e
  {
    match e
    case IntExp(_) => Some(Typing(IntTy, t))
    case StringExp(_, _) => Some(Typing(StringTy, t))
    case VarExp(v) => RuleVar(v, sc, t)
    case RecordExp(n, fields, _) =>
      var ty := Actual(t, NamedTy(sc, n));
      if !RecordAt(t, ty) || CountInits(fields) != |t[ty.id].fields| then None
      else
        var f2 := RuleInits(fields, t[ty.id].fields, sc, t);
        if f2.Some? then Some(Typing(ty, f2.value)) else None
    case ArrayExp(n, size, init, _) =>
      var s2 := RuleExp(size, sc, t);
      if !Fits(s2, IntTy) then None
      else
        var named := NamedTy(sc, n);
        var ty := Actual(s2.value.types, named);
        if !ArrayAt(s2.value.types, ty) then None
        else
          var i2 := RuleExp(init, sc, s2.value.types);
          if Fits(i2, s2.value.types[ty.id].elem) then Some(Typing(named, i2.value.types)) else None
    case OpExp(l, op, r) =>
      var l2 := RuleExp(l, sc, t);
      if l2.None? || (op.Arithmetic? && !Fits(l2, IntTy)) then None
      else
        var r2 := RuleExp(r, sc, l2.value.types);
        if Fits(r2, if op.Arithmetic? then IntTy else l2.value.ty) then Some(Typing(IntTy, r2.value.types)) else None
    case StringCall(_, l, r) =>
      var l2 := RuleExp(l, sc, t);
      if !Fits(l2, StringTy) then None
      else
        var r2 := RuleExp(r, sc, l2.value.types);
        if Fits(r2, StringTy) then Some(Typing(IntTy, r2.value.types)) else None
    case AssignExp(v, e1) =>
      var v2 := RuleVar(v, sc, t);
      if v2.None? || !Assignable(v, sc) then None
      else
        var r := RuleExp(e1, sc, v2.value.types);
        if Fits(r, v2.value.ty) then Some(Typing(VoidTy, r.value.types)) else None
    case IfExp(c, th, f) =>
      var c2 := RuleExp(c, sc, t);
      if !Fits(c2, IntTy) then None
      else
        var t2 := RuleExp(th, sc, c2.value.types);
        if t2.None? then None
        else
          var f2 := RuleExp(f, sc, t2.value.types);
          if Fits(f2, t2.value.ty) then Some(Typing(t2.value.ty, f2.value.types)) else None
    case WhileExp(c, body) =>
      var c2 := RuleExp(c, sc, t);
      if !Fits(c2, IntTy) then None
      else
        var b2 := RuleExp(body, sc, c2.value.types);
        if Fits(b2, VoidTy) then Some(Typing(VoidTy, b2.value.types)) else None
    case ForExp(i, lo, hi, body) =>
      var l2 := RuleExp(lo, sc, t);
      if !Fits(l2, IntTy) then None
      else
        var h2 := RuleExp(hi, sc, l2.value.types);
        if !Fits(h2, IntTy) then None
        else
          var b2 := RuleExp(body, sc.Declare(i, l2.value.ty, true), h2.value.types);
          if Fits(b2, VoidTy) then Some(Typing(VoidTy, b2.value.types)) else None
    case BreakExp => Some(Typing(VoidTy, t))
    case SeqExp(es) => RuleAll(es, sc, t, VoidTy)
    case LetVar(x, named, init, body, _) =>
      var i2 := RuleExp(init, sc, t);
      if i2.None? || (named.Some? && !Fits(i2, NamedTy(sc, named.value))) then None
      else RuleExp(body, sc.Declare(x, if named.Some? then NamedTy(sc, named.value) else i2.value.ty, false), i2.value.types)
    case LetTypes(decs, body) =>
      var c := TypeChunk(decs, sc, Work(t, []));
      if ChunkFits(decs, sc, t) then RuleExp(body, c.0, c.1.types) else None
  }

  ghost function RuleAll(es: Exps, sc: Scope, t: Table, last: Ty): Option<Typing>
    decreases es
  {
    match es
    case NoExp => Some(Typing(last, t))
    case Cons(e, rest) =>
      var e2 := RuleExp(e, sc, t);
      if e2.None? then None else RuleAll(rest, sc, e2.value.types, e2.value.ty)
  }

  /** Initial values against the fields of the record, one by one. */
  ghost function RuleInits(fs: Inits, tys: seq<FieldTy>, sc: Scope, t: Table): Option<Table>
    decreases fs
  {
    match fs
    case NoInit => Some(t)
    case Init(_, e, rest) =>
      if tys == [] then Some(t)
      else
        var e2 := RuleExp(e, sc, t);
        if Fits(e2, tys[0].ty) then RuleInits(rest, tys[1..], sc, e2.value.types) else None
  }

  // ----- the checker follows the rules, and asks for no more -----

  /** Nothing is reported exactly where the rules give a type, which is then the one found. */
  ghost predicate Agrees<A>(w: Work, r: Checked<A>, rule: Option<Typing>) {
    && Later(w, r.work) && (r.work.errors == w.errors <==> rule.Some?)
    && (rule.Some? ==> r.ty == rule.value.ty && r.work.types == rule.value.types)
  }

  /** A part, and a check of its type. */
  lemma PartFits<A>(w: Work, r: Checked<A>, rule: Option<Typing>, what: string, want: Ty)
    requires Agrees(w, r, rule)
    ensures Later(w, CheckTypes(r.work, what, r.ty, want)) && Later(w, CheckTypes(r.work, what, want, r.ty))
    ensures CheckTypes(r.work, what, r.ty, want).errors == w.errors <==> Fits(rule, want)
    ensures CheckTypes(r.work, what, want, r.ty).errors == w.errors <==> Fits(rule, want)
    ensures Fits(rule, want) ==> CheckTypes(r.work, what, r.ty, want) == r.work && CheckTypes(r.work, what, want, r.ty) == r.work
  {}

  /** What comes after a step that reported something cannot take it back. */
  lemma NotTakenBack(a: Work, b: Work, c: Work)
    requires Later(a, b) && Later(b, c)
    ensures Later(a, c) && (c.errors == a.errors ==> b.errors == a.errors)
  {}

  lemma FieldRule(fs: seq<FieldTy>, f: string)
    ensures Has(fs, f) <==> FieldIndex(fs, f).Some?
    ensures Has(fs, f) ==> FieldIndex(fs, f).value < |fs| && fs[FieldIndex(fs, f).value].ty == TypeOfField(fs, f)
  {
    if i: nat :| FieldAt(fs, i, f) { FieldIndexExact(fs, f, i); }
    FieldIndexExact(fs, f, 0);
  }

  /** A field is found where the record has one of the name, at the first, and the error is told exactly
      where it has none. */
  lemma FieldFound(r: Var, f: string, k: nat, sc: Scope, w: Work)
    ensures var r2, v2 := CheckVar(r, sc, w), CheckVar(FieldVar(r, f, k), sc, w);
      var a := Actual(r2.work.types, r2.ty);
      RecordAt(r2.work.types, a) ==>
        var fs := r2.work.types[a.id].fields;
        && (v2.work == r2.work.Err(UnknownField) <==> forall j :: 0 <= j < |fs| ==> fs[j].name != f)
        && (v2.work == r2.work <==> exists j :: 0 <= j < |fs| && fs[j].name == f)
        && (v2.work == r2.work ==> v2.tree.FieldVar? && v2.tree.record == r2.tree && FieldAt(fs, v2.tree.index, f) && v2.ty == fs[v2.tree.index].ty)
  {
    var r2 := CheckVar(r, sc, w);
    var a := Actual(r2.work.types, r2.ty);
    if RecordAt(r2.work.types, a) {
      var fs := r2.work.types[a.id].fields;
      FieldIndexExact(fs, f, 0);
      assert r2.work.Err(UnknownField).errors != r2.work.errors;
    }
  }

  lemma {:induction false} VarExact(v: Var, sc: Scope, w: Work)
    ensures Agrees(w, CheckVar(v, sc, w), RuleVar(v, sc, w.types))
    decreases v, 1
  {
    hide Actual, Compatible, Has, CheckTypes;
    match v
    case SimpleVar(_) =>
    case FieldVar(r, f, _) =>
      VarExact(r, sc, w);
      var r2 := CheckVar(r, sc, w);
      var a := Actual(r2.work.types, r2.ty);
      if RecordAt(r2.work.types, a) { FieldRule(r2.work.types[a.id].fields, f); }
    case SubscriptVar(a, at) =>
      var i2 := Check(at, sc, w);
      var w2 := CheckTypes(i2.work, "index", i2.ty, IntTy);
      ExpExact(at, sc, w);
      PartFits(w, i2, RuleExp(at, sc, w.types), "index", IntTy);
      VarExact(a, sc, w2);
      NotTakenBack(w, w2, CheckVar(a, sc, w2).work);
  }

  lemma {:induction false} ExpExact(e: Exp, sc: Scope, w: Work)
    ensures Agrees(w, Check(e, sc, w), RuleExp(e, sc, w.types))
    decreases e, 1
  {
    hide Actual, Compatible, CheckTypes, TypeChunk, ChunkFits, Fits;
    match e
    case IntExp(_) =>
    case StringExp(_, _) =>
    case VarExp(v) => VarExact(v, sc, w);
    case RecordExp(_, _, _) => RecordExact(e, sc, w);
    case ArrayExp(_, _, _, _) => ArrayExact(e, sc, w);
    case OpExp(_, _, _) => OpExact(e, sc, w);
    case StringCall(fn, l, r) =>
      var l2 := Check(l, sc, w);
      var w2 := CheckTypes(l2.work, "argument", l2.ty, StringTy);
      ExpExact(l, sc, w);
      PartFits(w, l2, RuleExp(l, sc, w.types), "argument", StringTy);
      var r2 := Check(r, sc, w2);
      ExpExact(r, sc, w2);
      PartFits(w2, r2, RuleExp(r, sc, w2.types), "argument", StringTy);
      NotTakenBack(w, w2, CheckTypes(r2.work, "argument", r2.ty, StringTy));
    case AssignExp(_, _) => AssignExact(e, sc, w);
    case IfExp(_, _, _) => IfExact(e, sc, w);
    case WhileExp(c, body) =>
      var c2 := Check(c, sc, w);
      var w2 := CheckTypes(c2.work, "test clause", c2.ty, IntTy);
      ExpExact(c, sc, w);
      PartFits(w, c2, RuleExp(c, sc, w.types), "test clause", IntTy);
      var b2 := Check(body, sc, w2);
      ExpExact(body, sc, w2);
      PartFits(w2, b2, RuleExp(body, sc, w2.types), "body", VoidTy);
      NotTakenBack(w, w2, CheckTypes(b2.work, "body", b2.ty, VoidTy));
    case ForExp(_, _, _, _) => ForExact(e, sc, w);
    case BreakExp =>
    case SeqExp(es) => AllExact(es, sc, w, VoidTy);
    case LetVar(_, _, _, _, _) => LetVarExact(e, sc, w);
    case LetTypes(decs, body) =>
      var c := TypeChunk(decs, sc, w);
      ChunkLater(decs, sc, w);
      ChunkExact(decs, sc, w);
      ChunkSame(decs, sc, w);
      ExpExact(body, c.0, c.1);
      NotTakenBack(w, c.1, Check(body, c.0, c.1).work);
  }

  lemma ChunkSame(decs: seq<TypeDec>, sc: Scope, w: Work)
    ensures var c, c2 := TypeChunk(decs, sc, w), TypeChunk(decs, sc, Work(w.types, []));
      c2.0 == c.0 && (ChunkFits(decs, sc, w.types) ==> c2.1.types == c.1.types)
  {
    hide Resolves, Repeats, Bodies;
    var w2 := Work(w.types, []);
    var h, h2, n := Headers(decs, sc, w), Headers(decs, sc, w2), |w.types|;
    HeadersSame(decs, sc, w, w2);
    BodiesSame(decs, h.0, n, h.1, h2.1);
    if ChunkFits(decs, sc, w.types) {
      StillSound(n, |decs|, Bodies(decs, h.0, n, h.1));
      StillSound(n, |decs|, Bodies(decs, h.0, n, h2.1));
    }
  }

  lemma {:induction false} StillSound(id: nat, count: nat, w: Work)
    requires forall i: nat :: id <= i < id + count ==> Resolves(w.types, Ref(i))
    ensures Soundness(id, count, w) == w
    decreases count
  {
    hide Resolves, Returns;
    if count > 0 { StillSound(id + 1, count - 1, w); }
  }

  lemma {:induction false} RecordExact(e: Exp, sc: Scope, w: Work)
    requires e.RecordExp?
    ensures Agrees(w, Check(e, sc, w), RuleExp(e, sc, w.types))
    decreases e, 0
  {
    hide Actual, Compatible, Fits;
    var ty := Actual(w.types, NamedTy(sc, e.tyName));
    if RecordAt(w.types, ty) {
      var tys := w.types[ty.id].fields;
      var w1 := if CountInits(e.fields) != |tys| then w.Err(WrongFieldCount) else w;
      InitsExact(e.fields, tys, sc, w1);
      NotTakenBack(w, w1, CheckInits(e.fields, tys, sc, w1).work);
    }
  }

  lemma {:induction false} InitsExact(fs: Inits, tys: seq<FieldTy>, sc: Scope, w: Work)
    ensures var r, rule := CheckInits(fs, tys, sc, w).work, RuleInits(fs, tys, sc, w.types);
      Later(w, r) && (r.errors == w.errors <==> rule.Some?) && (rule.Some? ==> r.types == rule.value)
    decreases fs, 0
  {
    hide Fits, CheckTypes;
    if fs.Init? && tys != [] {
      var e2 := Check(fs.exp, sc, w);
      var w2 := CheckTypes(e2.work, "field", e2.ty, tys[0].ty);
      ExpExact(fs.exp, sc, w);
      PartFits(w, e2, RuleExp(fs.exp, sc, w.types), "field", tys[0].ty);
      InitsExact(fs.rest, tys[1..], sc, w2);
      NotTakenBack(w, w2, CheckInits(fs.rest, tys[1..], sc, w2).work);
    }
  }

  lemma {:induction false} ArrayExact(e: Exp, sc: Scope, w: Work)
    requires e.ArrayExp?
    ensures Agrees(w, Check(e, sc, w), RuleExp(e, sc, w.types))
    decreases e, 0
  {
    hide Actual, Compatible, CheckTypes, Fits;
    var s2 := Check(e.size, sc, w);
    var w2 := CheckTypes(s2.work, "size clause", s2.ty, IntTy);
    ExpExact(e.size, sc, w);
    PartFits(w, s2, RuleExp(e.size, sc, w.types), "size clause", IntTy);
    var ty := Actual(w2.types, NamedTy(sc, e.tyName));
    if ArrayAt(w2.types, ty) {
      var i2 := Check(e.init, sc, w2);
      ExpExact(e.init, sc, w2);
      PartFits(w2, i2, RuleExp(e.init, sc, w2.types), "array", w2.types[ty.id].elem);
      NotTakenBack(w, w2, CheckTypes(i2.work, "array", w2.types[ty.id].elem, i2.ty));
    }
  }

  lemma {:induction false} OpExact(e: Exp, sc: Scope, w: Work)
    requires e.OpExp?
    ensures Agrees(w, Check(e, sc, w), RuleExp(e, sc, w.types))
    decreases e, 0
  {
    hide Actual, Compatible, CheckTypes, Fits;
    var l2 := Check(e.left, sc, w);
    ExpExact(e.left, sc, w);
    if e.oper.Arithmetic? {
      var w2 := CheckTypes(l2.work, "left operand", l2.ty, IntTy);
      PartFits(w, l2, RuleExp(e.left, sc, w.types), "left operand", IntTy);
      var r2 := Check(e.right, sc, w2);
      ExpExact(e.right, sc, w2);
      PartFits(w2, r2, RuleExp(e.right, sc, w2.types), "right operand", IntTy);
      NotTakenBack(w, w2, CheckTypes(r2.work, "right operand", r2.ty, IntTy));
    } else {
      var r2 := Check(e.right, sc, l2.work);
      ExpExact(e.right, sc, l2.work);
      PartFits(l2.work, r2, RuleExp(e.right, sc, l2.work.types), "left operand", l2.ty);
      NotTakenBack(w, l2.work, CheckTypes(r2.work, "left operand", l2.ty, r2.ty));
    }
  }

  lemma {:induction false} AssignExact(e: Exp, sc: Scope, w: Work)
    requires e.AssignExp?
    ensures Agrees(w, Check(e, sc, w), RuleExp(e, sc, w.types))
    decreases e, 0
  {
    hide Actual, Compatible, CheckTypes, Fits;
    if Assignable(e.lhs, sc) {
      var v2 := CheckVar(e.lhs, sc, w);
      VarExact(e.lhs, sc, w);
      var r := Check(e.exp, sc, v2.work);
      ExpExact(e.exp, sc, v2.work);
      PartFits(v2.work, r, RuleExp(e.exp, sc, v2.work.types), "variable", v2.ty);
      NotTakenBack(w, v2.work, CheckTypes(r.work, "variable", v2.ty, r.ty));
    } else {
      assert w.Err(ReadOnly).errors != w.errors;
    }
  }

  lemma {:induction false} IfExact(e: Exp, sc: Scope, w: Work)
    requires e.IfExp?
    ensures Agrees(w, Check(e, sc, w), RuleExp(e, sc, w.types))
    decreases e, 0
  {
    hide Actual, Compatible, CheckTypes, Fits;
    var c2 := Check(e.test, sc, w);
    var w2 := CheckTypes(c2.work, "test clause", c2.ty, IntTy);
    ExpExact(e.test, sc, w);
    PartFits(w, c2, RuleExp(e.test, sc, w.types), "test clause", IntTy);
    var t2 := Check(e.thenclause, sc, w2);
    ExpExact(e.thenclause, sc, w2);
    var f2 := Check(e.elseclause, sc, t2.work);
    ExpExact(e.elseclause, sc, t2.work);
    PartFits(t2.work, f2, RuleExp(e.elseclause, sc, t2.work.types), "then clause", t2.ty);
    NotTakenBack(w2, t2.work, CheckTypes(f2.work, "then clause", t2.ty, f2.ty));
    NotTakenBack(w, w2, CheckTypes(f2.work, "then clause", t2.ty, f2.ty));
  }

  lemma {:induction false} ForExact(e: Exp, sc: Scope, w: Work)
    requires e.ForExp?
    ensures Agrees(w, Check(e, sc, w), RuleExp(e, sc, w.types))
    decreases e, 0
  {
    hide Actual, Compatible, CheckTypes, Fits;
    var l2 := Check(e.lo, sc, w);
    var w2 := CheckTypes(l2.work, "counter", l2.ty, IntTy);
    ExpExact(e.lo, sc, w);
    PartFits(w, l2, RuleExp(e.lo, sc, w.types), "counter", IntTy);
    var h2 := Check(e.hi, sc, w2);
    var w3 := CheckTypes(h2.work, "bound", h2.ty, IntTy);
    ExpExact(e.hi, sc, w2);
    PartFits(w2, h2, RuleExp(e.hi, sc, w2.types), "bound", IntTy);
    var sc2 := sc.Declare(e.counter, l2.ty, true);
    var b2 := Check(e.body, sc2, w3);
    ExpExact(e.body, sc2, w3);
    PartFits(w3, b2, RuleExp(e.body, sc2, w3.types), "body", VoidTy);
    NotTakenBack(w2, w3, CheckTypes(b2.work, "body", b2.ty, VoidTy));
    NotTakenBack(w, w2, CheckTypes(b2.work, "body", b2.ty, VoidTy));
  }

  lemma {:induction false} AllExact(es: Exps, sc: Scope, w: Work, last: Ty)
    ensures Agrees(w, CheckAll(es, sc, w, last), RuleAll(es, sc, w.types, last))
    decreases es, 0
  {
    if es.Cons? {
      var e2 := Check(es.head, sc, w);
      ExpExact(es.head, sc, w);
      AllExact(es.tail, sc, e2.work, e2.ty);
      NotTakenBack(w, e2.work, CheckAll(es.tail, sc, e2.work, e2.ty).work);
    }
  }

  lemma {:induction false} LetVarExact(e: Exp, sc: Scope, w: Work)
    requires e.LetVar?
    ensures Agrees(w, Check(e, sc, w), RuleExp(e, sc, w.types))
    decreases e, 0
  {
    hide Actual, Compatible, CheckTypes, Fits;
    var i2 := Check(e.init, sc, w);
    ExpExact(e.init, sc, w);
    var ty := if e.tyDec.Some? then NamedTy(sc, e.tyDec.value) else i2.ty;
    var w2 := if e.tyDec.Some? then CheckTypes(i2.work, "type", ty, i2.ty) else i2.work;
    if e.tyDec.Some? { PartFits(w, i2, RuleExp(e.init, sc, w.types), "type", ty); }
    var sc2 := sc.Declare(e.dec, ty, false);
    ExpExact(e.body, sc2, w2);
    NotTakenBack(w, w2, Check(e.body, sc2, w2).work);
  }

  // ----- names that are built in -----

  /** `let var x : <named> := <init> in () end` */
  function Declaring(x: string, named: string, init: Exp): Exp { LetVar(x, Some(named), init, SeqExp(NoExp), VoidTy) }

  /** Unless they are declared, `int` is the type of integers and `string` that of string literals. */
  lemma BuiltInTypes(x: string, n: int32, text: string, at: nat, sc: Scope, w: Work)
    requires "int" !in sc.types && "string" !in sc.types
    ensures Check(Declaring(x, "int", IntExp(n)), sc, w).work.errors == w.errors
    ensures Check(Declaring(x, "string", StringExp(text, at)), sc, w).work.errors == w.errors
    ensures Check(Declaring(x, "int", StringExp(text, at)), sc, w).work.errors != w.errors
    ensures Check(Declaring(x, "string", IntExp(n)), sc, w).work.errors != w.errors
  {
    hide Actual;
    ExpExact(Declaring(x, "int", IntExp(n)), sc, w);
    ExpExact(Declaring(x, "string", StringExp(text, at)), sc, w);
    ExpExact(Declaring(x, "int", StringExp(text, at)), sc, w);
    ExpExact(Declaring(x, "string", IntExp(n)), sc, w);
    hide Check;
    BasicActual(w.types);
    assert "int" != "string" by { assert |"int"| != |"string"|; }
    assert forall sc2: Scope :: RuleExp(SeqExp(NoExp), sc2, w.types) == Some(Typing(VoidTy, w.types));
  }

  lemma BasicActual(t: Table)
    ensures Actual(t, IntTy) == IntTy && Actual(t, StringTy) == StringTy && Actual(t, VoidTy) == VoidTy
  {
    BasicStays(t, IntTy);
    BasicStays(t, StringTy);
    BasicStays(t, VoidTy);
  }

  lemma BasicStays(t: Table, ty: Ty)
    requires !ty.Ref?
    ensures Actual(t, ty) == ty
  {
    assert EndsAt(t, ty, 0);
    var n: nat :| EndsAt(t, ty, n) && Actual(t, ty) == Walk(t, ty, n);
    BasicWalk(t, ty, n);
  }

  lemma {:induction false} BasicWalk(t: Table, ty: Ty, n: nat)
    requires !ty.Ref?
    ensures Walk(t, ty, n) == ty
  {
    if n > 0 { BasicWalk(t, ty, n - 1); }
  }
}
