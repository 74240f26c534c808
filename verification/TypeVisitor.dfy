/** The type checker as a visitor that writes types onto nodes (src/type/type-checker.cc). */
module TypeVisitor {
  import opened Int32
  import opened Options
  import opened TypeTable
  import opened TypeCheck

  class TypeChecker {
    var types: Table
    var errors: seq<TypeError>

    constructor ()
      ensures Done() == Work([], [])
    {
      types, errors := [], [];
    }

    /** What has been made and reported. */
    ghost function Done(): Work reads this { Work(types, errors) }

    method Error(e: TypeError)
      modifies this
      ensures Done() == old(Done()).Err(e)
    {
      errors := errors + [e];
    }

    /** `actual()`.  The original recurses for ever on a name that leads nowhere, which is only there
        after an error; here such a name stands for itself. */
    method ActualOf(ty: Ty) returns (r: Ty)
      ensures r == Actual(types, ty)
    {
      hide Resolves;
      r := ty;
      ghost var n: nat := 0;
      var rest := Upto(|types|);
      while IsNamed(types, r) && r.id in rest
        invariant r == Walk(types, ty, n)
        invariant forall k: nat :: k < n ==> IsNamed(types, Walk(types, ty, k))
        invariant forall i: nat :: i < |types| && i !in rest ==> exists k: nat :: k < n && Walk(types, ty, k) == Ref(i)
        decreases rest
      {
        rest := rest - {r.id};
        r := types[r.id].target;
        n := n + 1;
      }
      if IsNamed(types, r) {
        ghost var k: nat :| k < n && Walk(types, ty, k) == Ref(r.id);
        NeverEnds(types, ty, k, n);
        r := ty;
      } else {
        assert EndsAt(types, ty, n);
        ActualIs(types, ty, n);
      }
    }

    method CheckTypes(what: string, a: Ty, b: Ty)
      modifies this
      ensures Done() == TypeCheck.CheckTypes(old(Done()), what, a, b)
    {
      var a2 := ActualOf(a);
      var b2 := ActualOf(b);
      if a2 != b2 { Error(Mismatch(what, a, b)); }
    }

    // ----- types -----

    method NameTy(sc: Scope, name: string) returns (ty: Ty)
      ensures ty == NamedTy(sc, name)
    {
      if name in sc.types { return sc.types[name]; }
      if name == "int" { return IntTy; }
      if name == "string" { return StringTy; }
      return VoidTy;
    }

    method Make(d: Def) returns (ty: Ty)
      modifies this
      ensures ty == Ref(|old(types)|) && Done() == old(Done()).Make(d)
    {
      ty := Ref(|types|);
      types := types + [d];
    }

    method RecordTy(fields: seq<FieldDec>, sc: Scope) returns (ty: Ty)
      modifies this
      ensures (ty, Done()) == TyOf(sc, TyExp.RecordTy(fields), old(Done()))
    {
      var names: set<string> := {};
      for i := 0 to |fields|
        invariant Done() == old(Done()) && names == set f | f in fields[..i] :: f.name
        invariant !Repeats(fields[..i])
      {
        assert fields[..i + 1] == fields[..i] + [fields[i]];
        if fields[i].name in names {
          var f :| f in fields[..i] && f.name == fields[i].name;
          RepeatsHere(fields, i, f);
          Error(RepeatedField);
          return IntTy;
        }
        NoRepeatYet(fields, i);
        names := names + {fields[i].name};
      }
      assert fields[..|fields|] == fields;
      var tys := [];
      for i := 0 to |fields|
        invariant Done() == old(Done()) && tys == FieldTypes(sc, fields[..i])
      {
        var t := NameTy(sc, fields[i].tyName);
        tys := tys + [FieldTy(fields[i].name, t)];
        assert fields[..i + 1] == fields[..i] + [fields[i]];
      }
      ty := Make(Record(tys));
    }

    method Type(e: TyExp, sc: Scope) returns (ty: Ty)
      modifies this
      ensures (ty, Done()) == TyOf(sc, e, old(Done()))
    {
      match e
      case NameTy(name) => ty := NameTy(sc, name);
      case RecordTy(fields) => ty := RecordTy(fields, sc);
      case ArrayTy(name) =>
        var t := NameTy(sc, name);
        ty := Make(Array(t));
    }

    /** `chunk_visit`: headers, bodies, then the search for recursive names. */
    method TypeChunk(decs: seq<TypeDec>, sc: Scope) returns (sc2: Scope)
      modifies this
      ensures (sc2, Done()) == TypeCheck.TypeChunk(decs, sc, old(Done()))
    {
      hide Resolves, Returns;
      ghost var w := Done();
      var first := |types|;
      sc2 := sc;
      for i := 0 to |decs|
        invariant |types| == first + i
        invariant Headers(decs[i..], sc2, Done()) == Headers(decs, sc, w)
      {
        assert decs[i..][0] == decs[i] && decs[i..][1..] == decs[i + 1..];
        var ty := Make(Open);
        sc2 := sc2.(types := sc2.types[decs[i].name := ty]);
      }
      ghost var h := Done();
      assert (sc2, h) == Headers(decs, sc, w) by { assert decs[|decs|..] == []; }
      for i := 0 to |decs|
        invariant |types| >= first + |decs|
        invariant Bodies(decs[i..], sc2, first + i, Done()) == Bodies(decs, sc2, first, h)
        invariant forall k :: first <= k < first + i ==> types[k].Named?
      {
        assert decs[i..][0] == decs[i] && decs[i..][1..] == decs[i + 1..];
        var ty := Type(decs[i].ty, sc2);
        types := types[first + i := Named(ty)];
      }
      ghost var b := Done();
      assert b == Bodies(decs, sc2, first, h) by { assert decs[|decs|..] == []; }
      for i := 0 to |decs|
        invariant Done() == b && Soundness(first + i, |decs| - i, b) == Soundness(first, |decs|, b)
      {
        var v := NamedSound(types, first + i);
        if v.Recursive? {
          Error(RecursiveType);
          types := types[first + i := Named(IntTy)];
          return;
        }
        if v.Endless? {
          Error(TypeError.Endless);
          return;
        }
      }
    }

    // ----- variables and expressions -----

    method FindField(fs: seq<FieldTy>, f: string) returns (i: Option<nat>)
      ensures i == FieldIndex(fs, f) && (i.Some? ==> i.value < |fs|)
    {
      var k := 0;
      assert fs[0..] == fs;
      while k < |fs| && fs[k].name != f
        invariant k <= |fs|
        invariant FieldIndex(fs, f) == match FieldIndex(fs[k..], f) case None => None case Some(j) => Some(j + k)
      {
        assert fs[k..][1..] == fs[k + 1..];
        k := k + 1;
      }
      i := if k < |fs| then Some(k) else None;
    }

    method VisitVar(v: Var, sc: Scope) returns (tree: Var, ty: Ty)
      modifies this
      ensures Checked(tree, ty, Done()) == CheckVar(v, sc, old(Done()))
      decreases v
    {
      hide Actual, Compatible;
      tree, ty := v, IntTy;
      match v
      case SimpleVar(x) =>
        if x in sc.vars { ty := sc.vars[x].ty; } else { Error(Unbound(x)); }
      case FieldVar(r, f, _) =>
        var r2, rty := VisitVar(r, sc);
        var def := ActualOf(rty);
        if !RecordAt(types, def) { Error(NotRecord); return; }
        var i := FindField(types[def.id].fields, f);
        if i.None? { Error(UnknownField); return; }
        tree, ty := FieldVar(r2, f, i.value), types[def.id].fields[i.value].ty;
      case SubscriptVar(a, at) =>
        var at2, atTy := Visit(at, sc);
        CheckTypes("index", atTy, IntTy);
        var a2, aTy := VisitVar(a, sc);
        var def := ActualOf(aTy);
        if !ArrayAt(types, def) { Error(NotArray); return; }
        tree, ty := SubscriptVar(a2, at2), types[def.id].elem;
    }

    method Visit(e: Exp, sc: Scope) returns (tree: Exp, ty: Ty)
      modifies this
      ensures Checked(tree, ty, Done()) == Check(e, sc, old(Done()))
      decreases e
    {
      hide Actual, Compatible, TypeCheck.CheckTypes, TypeCheck.TypeChunk;
      tree, ty := e, IntTy;
      match e
      case IntExp(_) =>
      case StringExp(_, _) => ty := StringTy;
      case VarExp(v) =>
        var v2;
        v2, ty := VisitVar(v, sc);
        tree := VarExp(v2);
      case RecordExp(_, _, _) => tree, ty := VisitRecord(e, sc);
      case ArrayExp(_, _, _, _) => tree, ty := VisitArray(e, sc);
      case OpExp(l, op, r) =>
        var l2, lty := Visit(l, sc);
        var r2, rty;
        if op.Arithmetic? {
          CheckTypes("left operand", lty, IntTy);
          r2, rty := Visit(r, sc);
          CheckTypes("right operand", rty, IntTy);
        } else {
          r2, rty := Visit(r, sc);
          CheckTypes("left operand", lty, rty);
        }
        tree := OpExp(l2, op, r2);
      case StringCall(fn, l, r) =>
        var l2, lty := Visit(l, sc);
        CheckTypes("argument", lty, StringTy);
        var r2, rty := Visit(r, sc);
        CheckTypes("argument", rty, StringTy);
        tree := StringCall(fn, l2, r2);
      case AssignExp(v, e1) =>
        if v.SimpleVar? && v.name in sc.vars && sc.vars[v.name].readOnly { Error(ReadOnly); return; }
        var v2, vty := VisitVar(v, sc);
        var r, rty := Visit(e1, sc);
        CheckTypes("variable", vty, rty);
        tree, ty := AssignExp(v2, r), VoidTy;
      case IfExp(c, t, f) =>
        var c2, cty := Visit(c, sc);
        CheckTypes("test clause", cty, IntTy);
        var t2, tty := Visit(t, sc);
        var f2, fty := Visit(f, sc);
        CheckTypes("then clause", tty, fty);
        tree, ty := IfExp(c2, t2, f2), tty;
      case WhileExp(c, body) =>
        var c2, cty := Visit(c, sc);
        CheckTypes("test clause", cty, IntTy);
        var b2, bty := Visit(body, sc);
        CheckTypes("body", bty, VoidTy);
        tree, ty := WhileExp(c2, b2), VoidTy;
      case ForExp(_, _, _, _) => tree, ty := VisitFor(e, sc);
      case BreakExp => ty := VoidTy;
      case SeqExp(es) =>
        var r;
        r, ty := VisitAll(es, sc, VoidTy);
        tree := SeqExp(r);
      case LetVar(_, _, _, _, _) => tree, ty := VisitVarDec(e, sc);
      case LetTypes(decs, body) =>
        var sc2 := TypeChunk(decs, sc);
        var b2;
        b2, ty := Visit(body, sc2);
        tree := LetTypes(decs, b2);
    }

    method VisitRecord(e: Exp, sc: Scope) returns (tree: Exp, ty: Ty)
      requires e.RecordExp?
      modifies this
      ensures Checked(tree, ty, Done()) == Check(e, sc, old(Done()))
      decreases e, 0
    {
      hide Actual;
      tree := e;
      var named := NameTy(sc, e.tyName);
      ty := ActualOf(named);
      if !RecordAt(types, ty) {
        Error(NotRecord);
        ty := IntTy;
      } else {
        var tys := types[ty.id].fields;
        if CountInits(e.fields) != |tys| { Error(WrongFieldCount); }
        var f2 := VisitInits(e.fields, tys, sc);
        tree := RecordExp(e.tyName, f2, ty);
      }
    }

    method VisitArray(e: Exp, sc: Scope) returns (tree: Exp, ty: Ty)
      requires e.ArrayExp?
      modifies this
      ensures Checked(tree, ty, Done()) == Check(e, sc, old(Done()))
      decreases e, 0
    {
      hide Actual, TypeCheck.CheckTypes;
      tree, ty := e, IntTy;
      var s2, sty := Visit(e.size, sc);
      CheckTypes("size clause", sty, IntTy);
      var named := NameTy(sc, e.tyName);
      var def := ActualOf(named);
      if !ArrayAt(types, def) { Error(NotArray); return; }
      var elem := types[def.id].elem;
      var i2, ity := Visit(e.init, sc);
      CheckTypes("array", elem, ity);
      tree, ty := ArrayExp(e.tyName, s2, i2, named), named;
    }

    method VisitFor(e: Exp, sc: Scope) returns (tree: Exp, ty: Ty)
      requires e.ForExp?
      modifies this
      ensures Checked(tree, ty, Done()) == Check(e, sc, old(Done()))
      decreases e, 0
    {
      hide Actual, TypeCheck.CheckTypes;
      var l2, lty := Visit(e.lo, sc);
      CheckTypes("counter", lty, IntTy);
      var h2, hty := Visit(e.hi, sc);
      CheckTypes("bound", hty, IntTy);
      var b2, bty := Visit(e.body, sc.Declare(e.counter, lty, true));
      CheckTypes("body", bty, VoidTy);
      tree, ty := ForExp(e.counter, l2, h2, b2), VoidTy;
    }

    method VisitVarDec(e: Exp, sc: Scope) returns (tree: Exp, ty: Ty)
      requires e.LetVar?
      modifies this
      ensures Checked(tree, ty, Done()) == Check(e, sc, old(Done()))
      decreases e, 0
    {
      hide Actual, TypeCheck.CheckTypes;
      var i2, decTy := Visit(e.init, sc);
      if e.tyDec.Some? {
        var named := NameTy(sc, e.tyDec.value);
        CheckTypes("type", named, decTy);
        decTy := named;
      }
      var b2;
      b2, ty := Visit(e.body, sc.Declare(e.dec, decTy, false));
      tree := LetVar(e.dec, e.tyDec, i2, b2, decTy);
    }

    method VisitAll(es: Exps, sc: Scope, last: Ty) returns (tree: Exps, ty: Ty)
      modifies this
      ensures Checked(tree, ty, Done()) == CheckAll(es, sc, old(Done()), last)
      decreases es
    {
      tree, ty := es, last;
      if es.Cons? {
        var e2, ety := Visit(es.head, sc);
        var r;
        r, ty := VisitAll(es.tail, sc, ety);
        tree := Cons(e2, r);
      }
    }

    method VisitInits(fs: Inits, tys: seq<FieldTy>, sc: Scope) returns (tree: Inits)
      modifies this
      ensures Checked(tree, VoidTy, Done()) == CheckInits(fs, tys, sc, old(Done()))
      decreases fs
    {
      hide TypeCheck.CheckTypes;
      tree := fs;
      if fs.Init? && tys != [] {
        var e2, ety := Visit(fs.exp, sc);
        CheckTypes("field", ety, tys[0].ty);
        var r := VisitInits(fs.rest, tys[1..], sc);
        tree := Init(fs.name, e2, r);
      }
    }
  }

  lemma RepeatsHere(fields: seq<FieldDec>, i: nat, f: FieldDec)
    requires i < |fields| && f in fields[..i] && f.name == fields[i].name
    ensures Repeats(fields)
  {
    var j :| 0 <= j < i && fields[..i][j] == f;
    assert fields[j].name == fields[i].name;
  }

  lemma NoRepeatYet(fields: seq<FieldDec>, i: nat)
    requires i < |fields| && !Repeats(fields[..i]) && fields[i].name !in set f | f in fields[..i] :: f.name
    ensures !Repeats(fields[..i + 1])
  {
    var fs, more := fields[..i], fields[..i + 1];
    forall j, k | 0 <= j < k < |more| ensures more[j].name != more[k].name {
      assert more[j] == fs[j];
      if k < i { assert more[k] == fs[k]; } else { assert fs[j] in fs; }
    }
  }
}
