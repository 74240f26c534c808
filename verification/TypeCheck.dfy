/** The type checker on strings, records, arrays and type names (src/type/type-checker.cc). */
module TypeCheck {
  import opened Int32
  import opened Options
  import opened TypeTable

  // ----- trees -----

  /** The primitives that compare strings: the only calls of this fragment. */
  datatype StringFn = Streq | Strcmp

  /** The annotations are what the checker writes onto the nodes: types of record and array
      expressions and of variables, and the position of a field in its record type.  Each string literal is
      given a place of its own by the translator, `at`. */
  datatype Var =
    | SimpleVar(name: string)
    | FieldVar(record: Var, field: string, index: nat)
    | SubscriptVar(arr: Var, at: Exp)

  datatype Exp =
    | IntExp(value: int32)
    | StringExp(text: string, at: nat)
    | VarExp(lvalue: Var)
    | RecordExp(tyName: string, fields: Inits, ty: Ty)
    | ArrayExp(tyName: string, size: Exp, init: Exp, ty: Ty)
    | OpExp(left: Exp, oper: Oper, right: Exp)
    | StringCall(fn: StringFn, left: Exp, right: Exp)
    | AssignExp(lhs: Var, exp: Exp)
    | IfExp(test: Exp, thenclause: Exp, elseclause: Exp)
    | WhileExp(test: Exp, body: Exp)
    | ForExp(counter: string, lo: Exp, hi: Exp, body: Exp)
    | BreakExp
    | SeqExp(exps: Exps)
    | LetVar(dec: string, tyDec: Option<string>, init: Exp, body: Exp, ty: Ty)
    | LetTypes(decs: seq<TypeDec>, body: Exp)

  datatype Exps = NoExp | Cons(head: Exp, tail: Exps)

  datatype Inits = NoInit | Init(name: string, exp: Exp, rest: Inits)

  datatype TyExp = NameTy(name: string) | RecordTy(fields: seq<FieldDec>) | ArrayTy(name: string)

  datatype FieldDec = FieldDec(name: string, tyName: string)

  datatype TypeDec = TypeDec(name: string, ty: TyExp)

  // ----- the state of the checker -----

  datatype TypeError =
    | Mismatch(what: string, expected: Ty, found: Ty)
    | NotRecord | UnknownField | NotArray | WrongFieldCount | ReadOnly | RepeatedField | RecursiveType
    | Unbound(name: string)
    | Endless

  datatype Work = Work(types: Table, errors: seq<TypeError>)
  {
    function Err(e: TypeError): Work { this.(errors := errors + [e]) }

    function Make(d: Def): Work { this.(types := types + [d]) }

    function Set(id: nat, d: Def): Work { if id < |types| then this.(types := types[id := d]) else this }
  }

  datatype VarInfo = VarInfo(ty: Ty, readOnly: bool)

  /** What names are bound to. */
  datatype Scope = Scope(vars: map<string, VarInfo>, types: map<string, Ty>)
  {
    function Declare(x: string, ty: Ty, readOnly: bool): Scope { this.(vars := vars[x := VarInfo(ty, readOnly)]) }
  }

  /** The two types must be the same once names are followed. */
  ghost function CheckTypes(w: Work, what: string, a: Ty, b: Ty): Work {
    if Compatible(w.types, a, b) then w else w.Err(Mismatch(what, a, b))
  }

  /** A name of a type: declared, built in, or taken for void. */
  function NamedTy(sc: Scope, name: string): Ty {
    if name in sc.types then sc.types[name]
    else if name == "int" then IntTy
    else if name == "string" then StringTy
    else VoidTy
  }

  /** Where a field is in its record type: the first of that name. */
  function FieldIndex(fs: seq<FieldTy>, f: string): Option<nat> {
    if fs == [] then None
    else if fs[0].name == f then Some(0)
    else match FieldIndex(fs[1..], f) case None => None case Some(i) => Some(i + 1)
  }

  /** The first field called `f`. */
  predicate FieldAt(fs: seq<FieldTy>, i: nat, f: string) { i < |fs| && fs[i].name == f && forall j :: 0 <= j < i ==> fs[j].name != f }

  lemma {:induction false} FieldIndexExact(fs: seq<FieldTy>, f: string, i: nat)
    ensures FieldIndex(fs, f) == Some(i) <==> FieldAt(fs, i, f)
    ensures FieldIndex(fs, f).None? <==> forall j :: 0 <= j < |fs| ==> fs[j].name != f
    ensures FieldIndex(fs, f).Some? ==> FieldAt(fs, FieldIndex(fs, f).value, f)
    decreases |fs|
  {
    if fs != [] && fs[0].name != f {
      var rest := fs[1..];
      FieldIndexExact(rest, f, if i > 0 then i - 1 else 0);
      assert forall j :: 0 <= j < |rest| ==> rest[j] == fs[j + 1];
      assert forall j :: 0 < j < |fs| ==> fs[j] == rest[j - 1];
    }
  }

  // ----- type chunks -----

  function FieldTypes(sc: Scope, fs: seq<FieldDec>): seq<FieldTy> {
    seq(|fs|, i requires 0 <= i < |fs| => FieldTy(fs[i].name, NamedTy(sc, fs[i].tyName)))
  }

  predicate Repeats(fs: seq<FieldDec>) { exists i, j :: 0 <= i < j < |fs| && fs[i].name == fs[j].name }

  /** The type an expression of a type stands for: new for a record or an array. */
  function TyOf(sc: Scope, ty: TyExp, w: Work): (Ty, Work) {
    match ty
    case NameTy(name) => (NamedTy(sc, name), w)
    case RecordTy(fields) =>
      if Repeats(fields) then (IntTy, w.Err(RepeatedField)) else (Ref(|w.types|), w.Make(Record(FieldTypes(sc, fields))))
    case ArrayTy(name) => (Ref(|w.types|), w.Make(Array(NamedTy(sc, name))))
  }

  /** First pass: a named type for each declaration. */
  function Headers(decs: seq<TypeDec>, sc: Scope, w: Work): (Scope, Work)
    decreases |decs|
  {
    if decs == [] then (sc, w)
    else Headers(decs[1..], sc.(types := sc.types[decs[0].name := Ref(|w.types|)]), w.Make(Open))
  }

  /** Second pass: each gets its type; the names made are numbered from `id`. */
  function Bodies(decs: seq<TypeDec>, sc: Scope, id: nat, w: Work): Work
    decreases |decs|
  {
    if decs == [] then w
    else
      var r := TyOf(sc, decs[0].ty, w);
      Bodies(decs[1..], sc, id + 1, r.1.Set(id, Named(r.0)))
  }

  /** Third pass: the first name that leads back to itself is an error, and taken for an integer. */
  ghost function Soundness(id: nat, count: nat, w: Work): Work
    decreases count
  {
    if count == 0 || Resolves(w.types, Ref(id)) then (if count == 0 then w else Soundness(id + 1, count - 1, w))
    else if exists n: nat :: Returns(w.types, Ref(id), n) then w.Err(RecursiveType).Set(id, Named(IntTy))
    else w.Err(TypeError.Endless)
  }

  ghost function TypeChunk(decs: seq<TypeDec>, sc: Scope, w: Work): (Scope, Work) {
    var h := Headers(decs, sc, w);
    (h.0, Soundness(|w.types|, |decs|, Bodies(decs, h.0, |w.types|, h.1)))
  }

  // ----- expressions -----

  datatype Checked<A> = Checked(tree: A, ty: Ty, work: Work)

  ghost function CheckVar(v: Var, sc: Scope, w: Work): Checked<Var>
    decreases v
  {
    match v
    case SimpleVar(x) => if x in sc.vars then Checked(v, sc.vars[x].ty, w) else Checked(v, IntTy, w.Err(Unbound(x)))
    case FieldVar(r, f, _) =>
      var r2 := CheckVar(r, sc, w);
      var def := Actual(r2.work.types, r2.ty);
      if !RecordAt(r2.work.types, def) then Checked(v, IntTy, r2.work.Err(NotRecord))
      else
        var fields := r2.work.types[def.id].fields;
        var i := FieldIndex(fields, f);
        if i.None? || i.value >= |fields| then Checked(v, IntTy, r2.work.Err(UnknownField))
        else Checked(FieldVar(r2.tree, f, i.value), fields[i.value].ty, r2.work)
    case SubscriptVar(a, at) =>
      var i2 := Check(at, sc, w);
      var a2 := CheckVar(a, sc, CheckTypes(i2.work, "index", i2.ty, IntTy));
      var def := Actual(a2.work.types, a2.ty);
      if !ArrayAt(a2.work.types, def) then Checked(v, IntTy, a2.work.Err(NotArray))
      else Checked(SubscriptVar(a2.tree, i2.tree), a2.work.types[def.id].elem, a2.work)
  }

  predicate RecordAt(t: Table, ty: Ty) { ty.Ref? && ty.id < |t| && t[ty.id].Record? }

  predicate ArrayAt(t: Table, ty: Ty) { ty.Ref? && ty.id < |t| && t[ty.id].Array? }

  ghost function Check(e: Exp, sc: Scope, w: Work): Checked<Exp>
    decreases e
  {
    match e
    case IntExp(_) => Checked(e, IntTy, w)
    case StringExp(_, _) => Checked(e, StringTy, w)
    case VarExp(v) => var v2 := CheckVar(v, sc, w); Checked(VarExp(v2.tree), v2.ty, v2.work)
    case RecordExp(n, fields, _) =>
      var ty := Actual(w.types, NamedTy(sc, n));
      if !RecordAt(w.types, ty) then Checked(e, IntTy, w.Err(NotRecord))
      else
        var tys := w.types[ty.id].fields;
        var f2 := CheckInits(fields, tys, sc, if CountInits(fields) != |tys| then w.Err(WrongFieldCount) else w);
        Checked(RecordExp(n, f2.tree, ty), ty, f2.work)
    case ArrayExp(n, size, init, _) =>
      var s2 := Check(size, sc, w);
      var w2 := CheckTypes(s2.work, "size clause", s2.ty, IntTy);
      var named := NamedTy(sc, n);
      var ty := Actual(w2.types, named);
      if !ArrayAt(w2.types, ty) then Checked(e, IntTy, w2.Err(NotArray))
      else
        var i2 := Check(init, sc, w2);
        Checked(ArrayExp(n, s2.tree, i2.tree, named), named, CheckTypes(i2.work, "array", w2.types[ty.id].elem, i2.ty))
    case OpExp(l, op, r) =>
      var l2 := Check(l, sc, w);
      if op.Arithmetic? then
        var r2 := Check(r, sc, CheckTypes(l2.work, "left operand", l2.ty, IntTy));
        Checked(OpExp(l2.tree, op, r2.tree), IntTy, CheckTypes(r2.work, "right operand", r2.ty, IntTy))
      else
        var r2 := Check(r, sc, l2.work);
        Checked(OpExp(l2.tree, op, r2.tree), IntTy, CheckTypes(r2.work, "left operand", l2.ty, r2.ty))
    case StringCall(fn, l, r) =>
      var l2 := Check(l, sc, w);
      var r2 := Check(r, sc, CheckTypes(l2.work, "argument", l2.ty, StringTy));
      Checked(StringCall(fn, l2.tree, r2.tree), IntTy, CheckTypes(r2.work, "argument", r2.ty, StringTy))
    case AssignExp(v, e1) =>
      if v.SimpleVar? && v.name in sc.vars && sc.vars[v.name].readOnly then Checked(e, IntTy, w.Err(ReadOnly))
      else
        var v2 := CheckVar(v, sc, w);
        var r := Check(e1, sc, v2.work);
        Checked(AssignExp(v2.tree, r.tree), VoidTy, CheckTypes(r.work, "variable", v2.ty, r.ty))
    case IfExp(c, t, f) =>
      var c2 := Check(c, sc, w);
      var t2 := Check(t, sc, CheckTypes(c2.work, "test clause", c2.ty, IntTy));
      var f2 := Check(f, sc, t2.work);
      Checked(IfExp(c2.tree, t2.tree, f2.tree), t2.ty, CheckTypes(f2.work, "then clause", t2.ty, f2.ty))
    case WhileExp(c, body) =>
      var c2 := Check(c, sc, w);
      var b2 := Check(body, sc, CheckTypes(c2.work, "test clause", c2.ty, IntTy));
      Checked(WhileExp(c2.tree, b2.tree), VoidTy, CheckTypes(b2.work, "body", b2.ty, VoidTy))
    case ForExp(i, lo, hi, body) =>
      var l2 := Check(lo, sc, w);
      var h2 := Check(hi, sc, CheckTypes(l2.work, "counter", l2.ty, IntTy));
      var b2 := Check(body, sc.Declare(i, l2.ty, true), CheckTypes(h2.work, "bound", h2.ty, IntTy));
      Checked(ForExp(i, l2.tree, h2.tree, b2.tree), VoidTy, CheckTypes(b2.work, "body", b2.ty, VoidTy))
    case BreakExp => Checked(e, VoidTy, w)
    case SeqExp(es) => var r := CheckAll(es, sc, w, VoidTy); Checked(SeqExp(r.tree), r.ty, r.work)
    case LetVar(x, named, init, body, _) =>
      var i2 := Check(init, sc, w);
      var ty := if named.Some? then NamedTy(sc, named.value) else i2.ty;
      var b2 := Check(body, sc.Declare(x, ty, false), if named.Some? then CheckTypes(i2.work, "type", ty, i2.ty) else i2.work);
      Checked(LetVar(x, named, i2.tree, b2.tree, ty), b2.ty, b2.work)
    case LetTypes(decs, body) =>
      var c := TypeChunk(decs, sc, w);
      var b2 := Check(body, c.0, c.1);
      Checked(LetTypes(decs, b2.tree), b2.ty, b2.work)
  }

  /** A sequence has the type of its last expression; `last` is that of the one before `es`. */
  ghost function CheckAll(es: Exps, sc: Scope, w: Work, last: Ty): Checked<Exps>
    decreases es
  {
    match es
    case NoExp => Checked(es, last, w)
    case Cons(e, rest) =>
      var e2 := Check(e, sc, w);
      var r := CheckAll(rest, sc, e2.work, e2.ty);
      Checked(Cons(e2.tree, r.tree), r.ty, r.work)
  }

  function CountInits(fs: Inits): nat { if fs.NoInit? then 0 else 1 + CountInits(fs.rest) }

  /** Fields are matched with those of the type by position; their names are not looked at. */
  ghost function CheckInits(fs: Inits, tys: seq<FieldTy>, sc: Scope, w: Work): Checked<Inits>
    decreases fs
  {
    match fs
    case NoInit => Checked(fs, VoidTy, w)
    case Init(f, e, rest) =>
      if tys == [] then Checked(fs, VoidTy, w)
      else
        var e2 := Check(e, sc, w);
        var r := CheckInits(rest, tys[1..], sc, CheckTypes(e2.work, "field", e2.ty, tys[0].ty));
        Checked(Init(f, e2.tree, r.tree), VoidTy, r.work)
  }
}
