/** Programs that pass the type checker never apply an operation to a value of the wrong kind. */
module TypeSoundness {
  import opened Int32
  import opened Options
  import opened TypeTable
  import opened TypeCheck

  // ----- evaluation -----

  datatype Value = IntV(n: int32) | StringV(at: nat, text: string) | RefV(addr: nat) | UnitV

  /** Records and arrays live in a heap; the fields of a record are found by position. */
  datatype Object = RecordObj(cells: seq<Value>) | ArrayObj(cells: seq<Value>)

  datatype State = State(mem: seq<Value>, heap: seq<Object>)

  /** `Fault` is an undefined operation on values of the right kind: a division, an index or the size
      of an array out of range.  `Wrong` is an operation on a value of the wrong kind. */
  datatype Outcome<V> = Val(v: V, st: State) | Brk(st: State) | Fault(st: State) | Wrong | Timeout

  datatype Place = Cell(i: nat) | Slot(addr: nat, i: nat)

  function Load(p: Place, st: State): Option<Value> {
    match p
    case Cell(i) => if i < |st.mem| then Some(st.mem[i]) else None
    case Slot(a, i) => if a < |st.heap| && i < |st.heap[a].cells| then Some(st.heap[a].cells[i]) else None
  }

  function StoreAt(p: Place, v: Value, st: State): Option<State> {
    match p
    case Cell(i) => if i < |st.mem| then Some(st.(mem := st.mem[i := v])) else None
    case Slot(a, i) =>
      if a < |st.heap| && i < |st.heap[a].cells|
      then Some(st.(heap := st.heap[a := st.heap[a].(cells := st.heap[a].cells[i := v])])) else None
  }

  function Retyped<A, B>(o: Outcome<A>): Outcome<B> {
    match o
    case Val(_, _) => Wrong
    case Brk(st) => Brk(st)
    case Fault(st) => Fault(st)
    case Wrong => Wrong
    case Timeout => Timeout
  }

  /** `strcmp`, up to its sign. */
  function StringOrder(a: string, b: string): int32
    decreases |a|
  {
    if a == [] then (if b == [] then 0 else -1)
    else if b == [] then 1
    else if a[0] < b[0] then -1
    else if a[0] > b[0] then 1
    else StringOrder(a[1..], b[1..])
  }

  /** Strings are compared by what they spell, as the language says, or by where they are, as code
      generated for a comparison does. */
  datatype Mode = ByText | ByAddress

  /** Two values of one kind can be compared. */
  function CompareValues(m: Mode, op: CmpOp, l: Value, r: Value): Option<bool> {
    match (l, r)
    case (IntV(a), IntV(b)) => Some(Compare(op, a, b))
    case (StringV(a, s), StringV(b, t)) =>
      if m.ByText? then Some(Compare(op, StringOrder(s, t), 0)) else Some(Compare(op, if a < b then -1 else if a == b then 0 else 1, 0))
    case (RefV(a), RefV(b)) => Some(Compare(op, if a < b then -1 else if a == b then 0 else 1, 0))
    case (UnitV, UnitV) => Some(Compare(op, 0, 0))
    case _ => None
  }

  function Operate(m: Mode, op: Oper, l: Value, r: Value, st: State): Outcome<Value> {
    match op
    case Arithmetic(a) =>
      if l.IntV? && r.IntV? then (match Arith(a, l.n, r.n) case Computed(n) => Val(IntV(n), st) case Undefined => Fault(st)) else Wrong
    case Comparison(c) =>
      var b := CompareValues(m, c, l, r);
      if b.None? then Wrong else Val(IntV(if b.value then 1 else 0), st)
  }

  type Env = map<string, nat>

  function LoadFrom(p: Outcome<Place>): Outcome<Value> {
    match p
    case Val(at, st) => (match Load(at, st) case None => Wrong case Some(v) => Val(v, st))
    case _ => Retyped(p)
  }

  /** Where a variable is. */
  function EvalVar(m: Mode, v: Var, env: Env, st: State, fuel: nat): Outcome<Place>
    decreases fuel, v
  {
    match v
    case SimpleVar(x) => if x in env then Val(Cell(env[x]), st) else Wrong
    case FieldVar(r, _, i) => FieldOf(LoadFrom(EvalVar(m, r, env, st, fuel)), i)
    case SubscriptVar(a, at) =>
      var a2 := LoadFrom(EvalVar(m, a, env, st, fuel));
      if !a2.Val? then Retyped(a2) else ElementOf(a2.v, Eval(m, at, env, a2.st, fuel))
  }

  function FieldOf(r: Outcome<Value>, i: nat): Outcome<Place> {
    if !r.Val? then Retyped(r)
    else if r.v.RefV? && r.v.addr < |r.st.heap| && r.st.heap[r.v.addr].RecordObj? && i < |r.st.heap[r.v.addr].cells|
    then Val(Slot(r.v.addr, i), r.st) else Wrong
  }

  function ElementOf(a: Value, at: Outcome<Value>): Outcome<Place> {
    if !at.Val? then Retyped(at)
    else if a.RefV? && a.addr < |at.st.heap| && at.st.heap[a.addr].ArrayObj? && at.v.IntV? then
      if 0 <= at.v.n < |at.st.heap[a.addr].cells| then Val(Slot(a.addr, at.v.n), at.st) else Fault(at.st)
    else Wrong
  }

  function Eval(m: Mode, e: Exp, env: Env, st: State, fuel: nat): Outcome<Value>
    decreases fuel, e
  {
    match e
    case IntExp(n) => Val(IntV(n), st)
    case StringExp(s, at) => Val(StringV(at, s), st)
    case VarExp(v) => LoadFrom(EvalVar(m, v, env, st, fuel))
    case RecordExp(_, fields, _) =>
      var f := EvalInits(m, fields, env, st, fuel);
      if f.Val? then Val(RefV(|f.st.heap|), f.st.(heap := f.st.heap + [RecordObj(f.v)])) else Retyped(f)
    case ArrayExp(_, size, init, _) =>
      var s := Eval(m, size, env, st, fuel);
      if !s.Val? then s
      else
        var i := Eval(m, init, env, s.st, fuel);
        if !i.Val? then i else NewArray(s.v, i.v, i.st)
    case OpExp(l, op, r) =>
      var a := Eval(m, l, env, st, fuel);
      if !a.Val? then a
      else
        var b := Eval(m, r, env, a.st, fuel);
        if !b.Val? then b else Operate(m, op, a.v, b.v, b.st)
    case StringCall(fn, l, r) =>
      var a := Eval(m, l, env, st, fuel);
      if !a.Val? then a
      else
        var b := Eval(m, r, env, a.st, fuel);
        if !b.Val? then b else CallString(fn, a.v, b.v, b.st)
    case AssignExp(v, e1) =>
      var r := Eval(m, e1, env, st, fuel);
      if !r.Val? then r else Assign(EvalVar(m, v, env, r.st, fuel), r.v)
    case IfExp(c, t, f) =>
      var r := Eval(m, c, env, st, fuel);
      if !r.Val? then r
      else if !r.v.IntV? then Wrong
      else if r.v.n != 0 then Eval(m, t, env, r.st, fuel) else Eval(m, f, env, r.st, fuel)
    case WhileExp(c, body) => if fuel == 0 then Timeout else EvalWhile(m, c, body, env, st, fuel - 1)
    case ForExp(i, lo, hi, body) =>
      var l := Eval(m, lo, env, st, fuel);
      if !l.Val? then l
      else
        var h := Eval(m, hi, env, l.st, fuel);
        if !h.Val? then h
        else if !l.v.IntV? || !h.v.IntV? then Wrong
        else if fuel == 0 then Timeout
        else EvalFor(m, l.v.n, h.v.n, |h.st.mem|, body, env[i := |h.st.mem|], h.st.(mem := h.st.mem + [l.v]), fuel - 1)
    case BreakExp => Brk(st)
    case SeqExp(es) => EvalAll(m, es, UnitV, env, st, fuel)
    case LetVar(x, _, init, body, _) =>
      var i := Eval(m, init, env, st, fuel);
      if i.Val? then Eval(m, body, env[x := |i.st.mem|], i.st.(mem := i.st.mem + [i.v]), fuel) else i
    case LetTypes(_, body) => Eval(m, body, env, st, fuel)
  }

  /** The runtime's `streq` and `strcmp`. */
  function CallString(fn: StringFn, l: Value, r: Value, st: State): Outcome<Value> {
    if !l.StringV? || !r.StringV? then Wrong
    else
      var order := StringOrder(l.text, r.text);
      Val(IntV(if fn.Strcmp? then order else if order == 0 then 1 else 0), st)
  }

  function Assign(p: Outcome<Place>, v: Value): Outcome<Value> {
    if !p.Val? then Retyped(p)
    else match StoreAt(p.v, v, p.st) case None => Wrong case Some(st) => Val(UnitV, st)
  }

  function NewArray(size: Value, init: Value, st: State): Outcome<Value> {
    if !size.IntV? then Wrong
    else if size.n < 0 then Fault(st)
    else Val(RefV(|st.heap|), st.(heap := st.heap + [ArrayObj(seq(size.n, _ => init))]))
  }

  function EvalWhile(m: Mode, c: Exp, body: Exp, env: Env, st: State, fuel: nat): Outcome<Value>
    decreases fuel, WhileExp(c, body)
  {
    var r := Eval(m, c, env, st, fuel);
    if !r.Val? then r
    else if !r.v.IntV? then Wrong
    else if r.v.n == 0 then Val(UnitV, r.st)
    else
      var b := Eval(m, body, env, r.st, fuel);
      if b.Brk? then Val(UnitV, b.st)
      else if !b.Val? then b
      else if fuel == 0 then Timeout
      else EvalWhile(m, c, body, env, b.st, fuel - 1)
  }

  function EvalFor(m: Mode, i: int32, hi: int32, cell: nat, body: Exp, env: Env, st: State, fuel: nat): Outcome<Value>
    decreases fuel, SeqExp(Cons(body, NoExp))
  {
    if i > hi then Val(UnitV, st)
    else
      var b := Eval(m, body, env, st, fuel);
      if b.Brk? then Val(UnitV, b.st)
      else if !b.Val? then b
      else if i == hi then Val(UnitV, b.st)
      else if fuel == 0 then Timeout
      else if cell < |b.st.mem| then EvalFor(m, i + 1, hi, cell, body, env, b.st.(mem := b.st.mem[cell := IntV(i + 1)]), fuel - 1)
      else Wrong
  }

  function EvalAll(m: Mode, es: Exps, last: Value, env: Env, st: State, fuel: nat): Outcome<Value>
    decreases fuel, es
  {
    match es
    case NoExp => Val(last, st)
    case Cons(e, rest) =>
      var r := Eval(m, e, env, st, fuel);
      if r.Val? then EvalAll(m, rest, r.v, env, r.st, fuel) else r
  }

  function EvalInits(m: Mode, fs: Inits, env: Env, st: State, fuel: nat): Outcome<seq<Value>>
    decreases fuel, fs
  {
    match fs
    case NoInit => Val([], st)
    case Init(_, e, rest) =>
      var r := Eval(m, e, env, st, fuel);
      if !r.Val? then Retyped(r)
      else
        var f := EvalInits(m, rest, env, r.st, fuel);
        if f.Val? then Val([r.v] + f.v, f.st) else f
  }

  // ----- typing rules -----

  type Vars = map<string, VarInfo>

  ghost predicate IsA(t: Table, ty: Option<Ty>, want: Ty) { ty.Some? && Compatible(t, ty.value, want) }

  /** The type of an annotated variable, by the rules alone. */
  ghost function VarTy(t: Table, vars: Vars, v: Var): Option<Ty>
    decreases v
  {
    match v
    case SimpleVar(x) => if x in vars then Some(vars[x].ty) else None
    case FieldVar(r, f, i) =>
      var ty := VarTy(t, vars, r);
      if ty.None? then None
      else
        var a := Actual(t, ty.value);
        if RecordAt(t, a) && FieldAt(t[a.id].fields, i, f) then Some(t[a.id].fields[i].ty) else None
    case SubscriptVar(a, at) =>
      var ty := VarTy(t, vars, a);
      if ty.None? || !IsA(t, ExpTy(t, vars, at), IntTy) then None
      else
        var b := Actual(t, ty.value);
        if ArrayAt(t, b) then Some(t[b.id].elem) else None
  }

  ghost function ExpTy(t: Table, vars: Vars, e: Exp): Option<Ty>
    decreases e
  {
    match e
    case IntExp(_) => Some(IntTy)
    case StringExp(_, _) => Some(StringTy)
    case VarExp(v) => VarTy(t, vars, v)
    case RecordExp(_, fields, ty) => if Actual(t, ty) == ty && RecordAt(t, ty) && InitsOk(t, vars, fields, t[ty.id].fields) then Some(ty) else None
    case ArrayExp(_, size, init, ty) =>
      var a := Actual(t, ty);
      if ArrayAt(t, a) && IsA(t, ExpTy(t, vars, size), IntTy) && IsA(t, ExpTy(t, vars, init), t[a.id].elem) then Some(ty) else None
    case OpExp(l, op, r) =>
      var a, b := ExpTy(t, vars, l), ExpTy(t, vars, r);
      if a.Some? && b.Some? && (if op.Arithmetic? then IsA(t, a, IntTy) && IsA(t, b, IntTy) else IsA(t, a, b.value))
      then Some(IntTy) else None
    case StringCall(_, l, r) =>
      if IsA(t, ExpTy(t, vars, l), StringTy) && IsA(t, ExpTy(t, vars, r), StringTy) then Some(IntTy) else None
    case AssignExp(v, e1) =>
      var a := VarTy(t, vars, v);
      if a.Some? && IsA(t, ExpTy(t, vars, e1), a.value) && !(v.SimpleVar? && vars[v.name].readOnly) then Some(VoidTy) else None
    case IfExp(c, th, f) =>
      var a := ExpTy(t, vars, th);
      if a.Some? && IsA(t, ExpTy(t, vars, c), IntTy) && IsA(t, ExpTy(t, vars, f), a.value) then a else None
    case WhileExp(c, body) =>
      if IsA(t, ExpTy(t, vars, c), IntTy) && IsA(t, ExpTy(t, vars, body), VoidTy) then Some(VoidTy) else None
    case ForExp(i, lo, hi, body) =>
      var a := ExpTy(t, vars, lo);
      if IsA(t, a, IntTy) && IsA(t, ExpTy(t, vars, hi), IntTy) && IsA(t, ExpTy(t, vars[i := VarInfo(a.value, true)], body), VoidTy)
      then Some(VoidTy) else None
    case BreakExp => Some(VoidTy)
    case SeqExp(es) => AllTy(t, vars, es, VoidTy)
    case LetVar(x, _, init, body, ty) =>
      if IsA(t, ExpTy(t, vars, init), ty) then ExpTy(t, vars[x := VarInfo(ty, false)], body) else None
    case LetTypes(_, body) => ExpTy(t, vars, body)
  }

  ghost function AllTy(t: Table, vars: Vars, es: Exps, last: Ty): Option<Ty>
    decreases es
  {
    match es
    case NoExp => Some(last)
    case Cons(e, rest) =>
      var a := ExpTy(t, vars, e);
      if a.Some? then AllTy(t, vars, rest, a.value) else None
  }

  ghost predicate InitsOk(t: Table, vars: Vars, fs: Inits, tys: seq<FieldTy>)
    decreases fs
  {
    match fs
    case NoInit => tys == []
    case Init(_, e, rest) => tys != [] && IsA(t, ExpTy(t, vars, e), tys[0].ty) && InitsOk(t, vars, rest, tys[1..])
  }

  // ----- well-typed states -----

  /** A value of the type: `ht` has the type of each object. */
  ghost predicate ValOk(t: Table, ht: seq<Ty>, v: Value, ty: Ty) {
    match Actual(t, ty)
    case IntTy => v.IntV?
    case StringTy => v.StringV?
    case VoidTy => v.UnitV?
    case Ref(id) => v.RefV? && v.addr < |ht| && ht[v.addr] == Ref(id)
  }

  ghost predicate ObjOk(t: Table, ht: seq<Ty>, o: Object, ty: Ty) {
    && (RecordAt(t, ty) || ArrayAt(t, ty))
    && (RecordAt(t, ty) ==> o.RecordObj? && |o.cells| == |t[ty.id].fields|
                            && forall i :: 0 <= i < |o.cells| ==> ValOk(t, ht, o.cells[i], t[ty.id].fields[i].ty))
    && (ArrayAt(t, ty) ==> o.ArrayObj? && forall i :: 0 <= i < |o.cells| ==> ValOk(t, ht, o.cells[i], t[ty.id].elem))
  }

  /** The types of the cells, and of the objects. */
  datatype Typing = Typing(cells: seq<Ty>, heap: seq<Ty>)
  {
    ghost predicate Grows(to: Typing) { cells <= to.cells && heap <= to.heap }
  }

  ghost predicate StateOk(t: Table, g: Typing, st: State) {
    && |st.mem| == |g.cells| && |st.heap| == |g.heap|
    && (forall i :: 0 <= i < |st.mem| ==> ValOk(t, g.heap, st.mem[i], g.cells[i]))
    && forall a :: 0 <= a < |st.heap| ==> ObjOk(t, g.heap, st.heap[a], g.heap[a])
  }

  ghost predicate EnvOk(vars: Vars, env: Env, g: Typing) {
    forall x :: x in vars ==> x in env && env[x] < |g.cells| && g.cells[env[x]] == vars[x].ty
  }

  ghost predicate OutOk(t: Table, g: Typing, o: Outcome<Value>, ty: Ty) {
    match o
    case Val(v, st) => StateOk(t, g, st) && ValOk(t, g.heap, v, ty)
    case Brk(st) => StateOk(t, g, st)
    case Fault(st) => StateOk(t, g, st)
    case Wrong => false
    case Timeout => true
  }

  ghost predicate PlaceOk(t: Table, g: Typing, p: Place, ty: Ty) {
    match p
    case Cell(i) => i < |g.cells| && g.cells[i] == ty
    case Slot(a, i) =>
      a < |g.heap|
      && ((RecordAt(t, g.heap[a]) && i < |t[g.heap[a].id].fields| && t[g.heap[a].id].fields[i].ty == ty)
          || (ArrayAt(t, g.heap[a]) && t[g.heap[a].id].elem == ty))
  }

  /** A place in a state of the typing; in an array it is within bounds. */
  ghost predicate PlaceOutOk(t: Table, g: Typing, o: Outcome<Place>, ty: Ty) {
    match o
    case Val(p, st) => StateOk(t, g, st) && PlaceOk(t, g, p, ty) && Load(p, st).Some?
    case Brk(st) => StateOk(t, g, st)
    case Fault(st) => StateOk(t, g, st)
    case Wrong => false
    case Timeout => true
  }

  // ----- what growing keeps -----

  lemma ValKept(t: Table, ht: seq<Ty>, ht2: seq<Ty>, v: Value, ty: Ty)
    requires ValOk(t, ht, v, ty) && ht <= ht2
    ensures ValOk(t, ht2, v, ty)
  {
    if v.RefV? { assert ht2[v.addr] == ht[v.addr]; }
  }

  lemma ObjKept(t: Table, ht: seq<Ty>, ht2: seq<Ty>, o: Object, ty: Ty)
    requires ObjOk(t, ht, o, ty) && ht <= ht2
    ensures ObjOk(t, ht2, o, ty)
  {
    hide ValOk;
    forall i | 0 <= i < |o.cells| ensures RecordAt(t, ty) ==> ValOk(t, ht2, o.cells[i], t[ty.id].fields[i].ty) {
      if RecordAt(t, ty) { ValKept(t, ht, ht2, o.cells[i], t[ty.id].fields[i].ty); }
    }
    forall i | 0 <= i < |o.cells| ensures ArrayAt(t, ty) ==> ValOk(t, ht2, o.cells[i], t[ty.id].elem) {
      if ArrayAt(t, ty) { ValKept(t, ht, ht2, o.cells[i], t[ty.id].elem); }
    }
  }

  /** A new cell. */
  lemma CellAdded(t: Table, g: Typing, st: State, v: Value, ty: Ty)
    requires StateOk(t, g, st) && ValOk(t, g.heap, v, ty)
    ensures var g2 := g.(cells := g.cells + [ty]); g.Grows(g2) && StateOk(t, g2, st.(mem := st.mem + [v]))
  {
    hide ValOk, ObjOk;
  }

  /** A new object. */
  lemma ObjAdded(t: Table, g: Typing, st: State, o: Object, ty: Ty)
    requires StateOk(t, g, st) && ObjOk(t, g.heap, o, ty)
    ensures var g2 := g.(heap := g.heap + [ty]); g.Grows(g2) && StateOk(t, g2, st.(heap := st.heap + [o]))
  {
    hide ValOk, ObjOk;
    var ht2 := g.heap + [ty];
    forall i | 0 <= i < |st.mem| ensures ValOk(t, ht2, st.mem[i], g.cells[i]) { ValKept(t, g.heap, ht2, st.mem[i], g.cells[i]); }
    forall a | 0 <= a < |st.heap| + 1 ensures ObjOk(t, ht2, (st.heap + [o])[a], ht2[a]) {
      ObjKept(t, g.heap, ht2, (st.heap + [o])[a], ht2[a]);
    }
  }

  lemma EnvKept(vars: Vars, env: Env, g: Typing, g2: Typing)
    requires EnvOk(vars, env, g) && g.Grows(g2)
    ensures EnvOk(vars, env, g2)
  {}

  lemma EnvAdded(vars: Vars, env: Env, g: Typing, x: string, ty: Ty, readOnly: bool)
    requires EnvOk(vars, env, g)
    ensures EnvOk(vars[x := VarInfo(ty, readOnly)], env[x := |g.cells|], g.(cells := g.cells + [ty]))
  {}

  lemma Grown(a: Typing, b: Typing, c: Typing)
    requires a.Grows(b) && b.Grows(c)
    ensures a.Grows(c)
  {}

  /** What a typed place holds is of its type. */
  lemma LoadOk(t: Table, g: Typing, p: Place, st: State, ty: Ty)
    requires StateOk(t, g, st) && PlaceOk(t, g, p, ty) && Load(p, st).Some?
    ensures ValOk(t, g.heap, Load(p, st).value, ty)
  {
    hide ValOk;
    if p.Slot? { assert ObjOk(t, g.heap, st.heap[p.addr], g.heap[p.addr]); }
  }

  lemma LoadFromOk(t: Table, g: Typing, o: Outcome<Place>, ty: Ty)
    requires PlaceOutOk(t, g, o, ty)
    ensures OutOk(t, g, LoadFrom(o), ty)
  {
    hide StateOk, ValOk, PlaceOk;
    if o.Val? { LoadOk(t, g, o.v, o.st, ty); }
  }

  lemma StoreOk(t: Table, g: Typing, p: Place, v: Value, st: State, ty: Ty)
    requires StateOk(t, g, st) && PlaceOk(t, g, p, ty) && Load(p, st).Some? && ValOk(t, g.heap, v, ty)
    ensures StoreAt(p, v, st).Some? && StateOk(t, g, StoreAt(p, v, st).value)
  {
    hide ValOk;
    match p
    case Cell(i) =>
    case Slot(a, i) =>
      var o := st.heap[a];
      assert ObjOk(t, g.heap, o, g.heap[a]);
      SlotStored(t, g.heap, o, g.heap[a], i, v);
      hide ObjOk;
  }

  lemma SlotStored(t: Table, ht: seq<Ty>, o: Object, ty: Ty, i: nat, v: Value)
    requires ObjOk(t, ht, o, ty) && i < |o.cells|
    requires RecordAt(t, ty) ==> ValOk(t, ht, v, t[ty.id].fields[i].ty)
    requires ArrayAt(t, ty) ==> ValOk(t, ht, v, t[ty.id].elem)
    ensures ObjOk(t, ht, o.(cells := o.cells[i := v]), ty)
  {
    hide ValOk;
  }

  lemma Same(t: Table, ht: seq<Ty>, v: Value, a: Ty, b: Ty)
    requires ValOk(t, ht, v, a) && Compatible(t, a, b)
    ensures ValOk(t, ht, v, b)
  {}

  lemma OutSame(t: Table, g: Typing, o: Outcome<Value>, a: Ty, b: Ty)
    requires OutOk(t, g, o, a) && Compatible(t, a, b)
    ensures OutOk(t, g, o, b)
  {
    hide StateOk, ValOk, Compatible;
    if o.Val? { Same(t, g.heap, o.v, a, b); }
  }

  /** Basic types are what they are. */
  lemma Basic(t: Table)
    ensures Actual(t, IntTy) == IntTy && Actual(t, StringTy) == StringTy && Actual(t, VoidTy) == VoidTy
  {
    assert EndsAt(t, IntTy, 0) && EndsAt(t, StringTy, 0) && EndsAt(t, VoidTy, 0);
    ActualIs(t, IntTy, 0);
    ActualIs(t, StringTy, 0);
    ActualIs(t, VoidTy, 0);
  }

  lemma FieldOfOk(t: Table, g: Typing, r: Outcome<Value>, ty: Ty, i: nat)
    requires OutOk(t, g, r, ty)
    requires var a := Actual(t, ty); RecordAt(t, a) && i < |t[a.id].fields|
    ensures PlaceOutOk(t, g, FieldOf(r, i), t[Actual(t, ty).id].fields[i].ty)
  {
    if r.Val? { assert ObjOk(t, g.heap, r.st.heap[r.v.addr], g.heap[r.v.addr]); }
  }

  lemma ElementOfOk(t: Table, g: Typing, a: Value, ty: Ty, at: Outcome<Value>)
    requires OutOk(t, g, at, IntTy) && ValOk(t, g.heap, a, ty) && ArrayAt(t, Actual(t, ty))
    ensures PlaceOutOk(t, g, ElementOf(a, at), t[Actual(t, ty).id].elem)
  {
    Basic(t);
    if at.Val? { assert ObjOk(t, g.heap, at.st.heap[a.addr], g.heap[a.addr]); }
  }

  lemma OperateOk(m: Mode, t: Table, g: Typing, op: Oper, l: Value, r: Value, st: State, a: Ty, b: Ty)
    requires StateOk(t, g, st) && ValOk(t, g.heap, l, a) && ValOk(t, g.heap, r, b)
    requires if op.Arithmetic? then Compatible(t, a, IntTy) && Compatible(t, b, IntTy) else Compatible(t, a, b)
    ensures OutOk(t, g, Operate(m, op, l, r, st), IntTy)
  {
    hide StateOk;
    Basic(t);
  }

  lemma CallStringOk(t: Table, g: Typing, fn: StringFn, l: Value, r: Value, st: State, a: Ty, b: Ty)
    requires StateOk(t, g, st) && ValOk(t, g.heap, l, a) && ValOk(t, g.heap, r, b)
    requires Compatible(t, a, StringTy) && Compatible(t, b, StringTy)
    ensures OutOk(t, g, CallString(fn, l, r, st), IntTy)
  {
    hide StateOk;
    Basic(t);
  }

  lemma NewArrayOk(t: Table, g: Typing, size: Value, init: Value, st: State, ty: Ty) returns (g2: Typing)
    requires StateOk(t, g, st) && ValOk(t, g.heap, size, IntTy) && ArrayAt(t, Actual(t, ty)) && Actual(t, Actual(t, ty)) == Actual(t, ty)
    requires ValOk(t, g.heap, init, t[Actual(t, ty).id].elem)
    ensures g.Grows(g2) && OutOk(t, g2, NewArray(size, init, st), ty)
  {
    Basic(t);
    g2 := g;
    if size.n >= 0 {
      var o, a := ArrayObj(seq(size.n, _ => init)), Actual(t, ty);
      g2 := g.(heap := g.heap + [a]);
      ObjAdded(t, g, st, o, a);
    }
  }

  // ----- soundness -----

  lemma {:induction false} SafeVar(m: Mode, v: Var, t: Table, vars: Vars, env: Env, g: Typing, st: State, fuel: nat) returns (g2: Typing)
    requires WellFormed(t) && VarTy(t, vars, v).Some? && EnvOk(vars, env, g) && StateOk(t, g, st)
    ensures g.Grows(g2) && PlaceOutOk(t, g2, EvalVar(m, v, env, st, fuel), VarTy(t, vars, v).value)
    decreases fuel, v
  {
    hide WellFormed, ValOk, ObjOk, Compatible, Actual;
    match v
    case SimpleVar(x) => g2 := g;
    case FieldVar(r, _, i) =>
      hide StateOk, EnvOk;
      g2 := SafeVar(m, r, t, vars, env, g, st, fuel);
      var o, ty := EvalVar(m, r, env, st, fuel), VarTy(t, vars, r).value;
      LoadFromOk(t, g2, o, ty);
      FieldOfOk(t, g2, LoadFrom(o), ty, i);
    case SubscriptVar(a, at) =>
      hide StateOk, EnvOk;
      var g1 := SafeVar(m, a, t, vars, env, g, st, fuel);
      var o, ty := EvalVar(m, a, env, st, fuel), VarTy(t, vars, a).value;
      LoadFromOk(t, g1, o, ty);
      var a2 := LoadFrom(o);
      if a2.Val? {
        EnvKept(vars, env, g, g1);
        g2 := Safe(m, at, t, vars, env, g1, a2.st, fuel);
        Grown(g, g1, g2);
        var i := Eval(m, at, env, a2.st, fuel);
        OutSame(t, g2, i, ExpTy(t, vars, at).value, IntTy);
        ValKept(t, g1.heap, g2.heap, a2.v, ty);
        ElementOfOk(t, g2, a2.v, ty, i);
      } else {
        g2 := g1;
      }
  }

  /** Two expressions one after the other: the first value is still good after the second. */
  lemma {:induction false} SafeTwo(m: Mode, a: Exp, b: Exp, t: Table, vars: Vars, env: Env, g: Typing, st: State, fuel: nat, whole: Exp)
    returns (g1: Typing, g2: Typing)
    requires WellFormed(t) && a < whole && b < whole && EnvOk(vars, env, g) && StateOk(t, g, st)
    requires ExpTy(t, vars, a).Some? && ExpTy(t, vars, b).Some?
    ensures g.Grows(g1) && OutOk(t, g1, Eval(m, a, env, st, fuel), ExpTy(t, vars, a).value)
    ensures var o := Eval(m, a, env, st, fuel);
      o.Val? ==> g.Grows(g2) && OutOk(t, g2, Eval(m, b, env, o.st, fuel), ExpTy(t, vars, b).value) && ValOk(t, g2.heap, o.v, ExpTy(t, vars, a).value)
    decreases fuel, whole, 0
  {
    hide WellFormed, ValOk, StateOk, EnvOk;
    g1 := Safe(m, a, t, vars, env, g, st, fuel);
    g2 := g1;
    var o := Eval(m, a, env, st, fuel);
    if o.Val? {
      EnvKept(vars, env, g, g1);
      g2 := Safe(m, b, t, vars, env, g1, o.st, fuel);
      Grown(g, g1, g2);
      ValKept(t, g1.heap, g2.heap, o.v, ExpTy(t, vars, a).value);
    }
  }

  /** A well-typed expression evaluated in a well-typed state does not go wrong, and leaves a
      well-typed state and a value of its type; types of cells and objects are only added. */
  lemma {:induction false} Safe(m: Mode, e: Exp, t: Table, vars: Vars, env: Env, g: Typing, st: State, fuel: nat) returns (g2: Typing)
    requires WellFormed(t) && ExpTy(t, vars, e).Some? && EnvOk(vars, env, g) && StateOk(t, g, st)
    ensures g.Grows(g2) && OutOk(t, g2, Eval(m, e, env, st, fuel), ExpTy(t, vars, e).value)
    decreases fuel, e
  {
    hide WellFormed, ValOk, StateOk, EnvOk, Compatible, Actual;
    match e
    case IntExp(_) => g2 := g; Literal(t, g, st);
    case StringExp(_, _) => g2 := g; Literal(t, g, st);
    case VarExp(v) =>
      g2 := SafeVar(m, v, t, vars, env, g, st, fuel);
      LoadFromOk(t, g2, EvalVar(m, v, env, st, fuel), VarTy(t, vars, v).value);
    case RecordExp(_, fields, ty) =>
      g2 := SafeInits(m, fields, t, vars, env, g, st, fuel, t[ty.id].fields);
      var f := EvalInits(m, fields, env, st, fuel);
      if f.Val? { g2 := RecordMade(t, g, g2, f.v, f.st, ty); }
    case ArrayExp(_, size, init, ty) => g2 := SafeArray(m, e, t, vars, env, g, st, fuel);
    case OpExp(l, op, r) =>
      var g1;
      g1, g2 := SafeTwo(m, l, r, t, vars, env, g, st, fuel, e);
      var a := Eval(m, l, env, st, fuel);
      if a.Val? {
        var b := Eval(m, r, env, a.st, fuel);
        if b.Val? { OperateOk(m, t, g2, op, a.v, b.v, b.st, ExpTy(t, vars, l).value, ExpTy(t, vars, r).value); }
      } else {
        g2 := g1;
      }
    case StringCall(fn, l, r) =>
      var g1;
      g1, g2 := SafeTwo(m, l, r, t, vars, env, g, st, fuel, e);
      var a := Eval(m, l, env, st, fuel);
      if a.Val? {
        var b := Eval(m, r, env, a.st, fuel);
        if b.Val? { CallStringOk(t, g2, fn, a.v, b.v, b.st, ExpTy(t, vars, l).value, ExpTy(t, vars, r).value); }
      } else {
        g2 := g1;
      }
    case AssignExp(v, e1) => g2 := SafeAssign(m, v, e1, t, vars, env, g, st, fuel);
    case IfExp(c, th, f) => g2 := SafeIf(m, e, t, vars, env, g, st, fuel);
    case WhileExp(c, body) =>
      if fuel == 0 { g2 := g; } else { g2 := SafeWhile(m, c, body, t, vars, env, g, st, fuel - 1); }
    case ForExp(i, lo, hi, body) => g2 := SafeFor(m, e, t, vars, env, g, st, fuel);
    case BreakExp => g2 := g;
    case SeqExp(es) => Literal(t, g, st); g2 := SafeAll(m, es, UnitV, VoidTy, t, vars, env, g, st, fuel);
    case LetVar(x, _, init, body, ty) =>
      g2 := Safe(m, init, t, vars, env, g, st, fuel);
      var i := Eval(m, init, env, st, fuel);
      OutSame(t, g2, i, ExpTy(t, vars, init).value, ty);
      if i.Val? {
        EnvKept(vars, env, g, g2);
        var g3 := g2.(cells := g2.cells + [ty]);
        CellAdded(t, g2, i.st, i.v, ty);
        CellsCounted(t, g2, i.st);
        EnvAdded(vars, env, g2, x, ty, false);
        var g4 := Safe(m, body, t, vars[x := VarInfo(ty, false)], env[x := |i.st.mem|], g3, i.st.(mem := i.st.mem + [i.v]), fuel);
        Grown(g2, g3, g4);
        Grown(g, g2, g4);
        g2 := g4;
      }
    case LetTypes(_, body) => g2 := Safe(m, body, t, vars, env, g, st, fuel);
  }

  lemma Literal(t: Table, g: Typing, st: State)
    ensures forall n: int32 :: ValOk(t, g.heap, IntV(n), IntTy)
    ensures forall at: nat, s: string :: ValOk(t, g.heap, StringV(at, s), StringTy)
    ensures ValOk(t, g.heap, UnitV, VoidTy)
  {
    Basic(t);
  }

  lemma CellsCounted(t: Table, g: Typing, st: State)
    requires StateOk(t, g, st)
    ensures |st.mem| == |g.cells|
  {}

  lemma RecordMade(t: Table, g: Typing, g1: Typing, cells: seq<Value>, st: State, ty: Ty) returns (g2: Typing)
    requires g.Grows(g1) && StateOk(t, g1, st) && Actual(t, ty) == ty && RecordAt(t, ty) && FieldsOk(t, g1, cells, t[ty.id].fields)
    ensures g.Grows(g2) && OutOk(t, g2, Val(RefV(|st.heap|), st.(heap := st.heap + [RecordObj(cells)])), ty)
  {
    hide ValOk;
    g2 := g1.(heap := g1.heap + [ty]);
    var o := RecordObj(cells);
    assert ObjOk(t, g1.heap, o, ty);
    ObjAdded(t, g1, st, o, ty);
    Grown(g, g1, g2);
    assert ValOk(t, g2.heap, RefV(|st.heap|), ty) by { RefOk(t, g2.heap, |st.heap|, ty); }
  }

  lemma RefOk(t: Table, ht: seq<Ty>, a: nat, ty: Ty)
    requires a < |ht| && ht[a] == Actual(t, ty) && Actual(t, ty).Ref?
    ensures ValOk(t, ht, RefV(a), ty)
  {}

  ghost predicate FieldsOk(t: Table, g: Typing, vs: seq<Value>, tys: seq<FieldTy>) {
    |vs| == |tys| && forall i :: 0 <= i < |vs| ==> ValOk(t, g.heap, vs[i], tys[i].ty)
  }

  ghost predicate FieldsOutOk(t: Table, g: Typing, o: Outcome<seq<Value>>, tys: seq<FieldTy>) {
    match o
    case Val(vs, st) => StateOk(t, g, st) && FieldsOk(t, g, vs, tys)
    case Brk(st) => StateOk(t, g, st)
    case Fault(st) => StateOk(t, g, st)
    case Wrong => false
    case Timeout => true
  }

  lemma FieldsMore(t: Table, g1: Typing, g2: Typing, v: Value, vs: seq<Value>, tys: seq<FieldTy>)
    requires g1.Grows(g2) && tys != [] && ValOk(t, g1.heap, v, tys[0].ty) && FieldsOk(t, g2, vs, tys[1..])
    ensures FieldsOk(t, g2, [v] + vs, tys)
  {
    hide ValOk;
    ValKept(t, g1.heap, g2.heap, v, tys[0].ty);
    forall i | 0 <= i < |vs| + 1 ensures ValOk(t, g2.heap, ([v] + vs)[i], tys[i].ty) {
      if i > 0 { assert tys[1..][i - 1] == tys[i]; }
    }
  }

  lemma {:induction false} SafeInits(m: Mode, fs: Inits, t: Table, vars: Vars, env: Env, g: Typing, st: State, fuel: nat, tys: seq<FieldTy>)
    returns (g2: Typing)
    requires WellFormed(t) && InitsOk(t, vars, fs, tys) && EnvOk(vars, env, g) && StateOk(t, g, st)
    ensures g.Grows(g2) && FieldsOutOk(t, g2, EvalInits(m, fs, env, st, fuel), tys)
    decreases fuel, fs
  {
    hide WellFormed, ValOk, StateOk, EnvOk, Compatible, FieldsOk;
    g2 := g;
    if fs.NoInit? {
      NoFields(t, g);
    } else {
      var e, rest := fs.exp, fs.rest;
      g2 := Safe(m, e, t, vars, env, g, st, fuel);
      var r := Eval(m, e, env, st, fuel);
      OutSame(t, g2, r, ExpTy(t, vars, e).value, tys[0].ty);
      if r.Val? {
        EnvKept(vars, env, g, g2);
        var g3 := SafeInits(m, rest, t, vars, env, g2, r.st, fuel, tys[1..]);
        Grown(g, g2, g3);
        var f := EvalInits(m, rest, env, r.st, fuel);
        if f.Val? { FieldsMore(t, g2, g3, r.v, f.v, tys); }
        g2 := g3;
      }
    }
  }

  lemma NoFields(t: Table, g: Typing)
    ensures FieldsOk(t, g, [], [])
  {}

  lemma {:induction false} SafeArray(m: Mode, e: Exp, t: Table, vars: Vars, env: Env, g: Typing, st: State, fuel: nat) returns (g2: Typing)
    requires e.ArrayExp? && WellFormed(t) && ExpTy(t, vars, e).Some? && EnvOk(vars, env, g) && StateOk(t, g, st)
    ensures g.Grows(g2) && OutOk(t, g2, Eval(m, e, env, st, fuel), ExpTy(t, vars, e).value)
    decreases fuel, e, 1
  {
    hide WellFormed, ValOk, StateOk, EnvOk, Compatible, Actual;
    var size, init, ty := e.size, e.init, e.ty;
    var g1;
    g1, g2 := SafeTwo(m, size, init, t, vars, env, g, st, fuel, e);
    var s := Eval(m, size, env, st, fuel);
    if s.Val? {
      var i := Eval(m, init, env, s.st, fuel);
      var elem := t[Actual(t, ty).id].elem;
      Same(t, g2.heap, s.v, ExpTy(t, vars, size).value, IntTy);
      if i.Val? {
        Same(t, g2.heap, i.v, ExpTy(t, vars, init).value, elem);
        ActualTwice(t, ty);
        var g3 := NewArrayOk(t, g2, s.v, i.v, i.st, ty);
        Grown(g, g2, g3);
        g2 := g3;
      }
    } else {
      g2 := g1;
    }
  }

  lemma ActualTwice(t: Table, ty: Ty)
    requires ArrayAt(t, Actual(t, ty))
    ensures Actual(t, Actual(t, ty)) == Actual(t, ty)
  {
    var a := Actual(t, ty);
    assert EndsAt(t, a, 0);
    ActualIs(t, a, 0);
  }

  lemma {:induction false} SafeAssign(m: Mode, v: Var, e1: Exp, t: Table, vars: Vars, env: Env, g: Typing, st: State, fuel: nat) returns (g2: Typing)
    requires WellFormed(t) && ExpTy(t, vars, AssignExp(v, e1)).Some? && EnvOk(vars, env, g) && StateOk(t, g, st)
    ensures g.Grows(g2) && OutOk(t, g2, Eval(m, AssignExp(v, e1), env, st, fuel), VoidTy)
    decreases fuel, AssignExp(v, e1), 0
  {
    hide WellFormed, ValOk, StateOk, EnvOk, Compatible, PlaceOk;
    var a := VarTy(t, vars, v).value;
    Literal(t, g, st);
    g2 := Safe(m, e1, t, vars, env, g, st, fuel);
    var r := Eval(m, e1, env, st, fuel);
    OutSame(t, g2, r, ExpTy(t, vars, e1).value, a);
    if r.Val? {
      EnvKept(vars, env, g, g2);
      var g3 := SafeVar(m, v, t, vars, env, g2, r.st, fuel);
      Grown(g, g2, g3);
      ValKept(t, g2.heap, g3.heap, r.v, a);
      var p := EvalVar(m, v, env, r.st, fuel);
      if p.Val? { StoreOk(t, g3, p.v, r.v, p.st, a); }
      Literal(t, g3, st);
      g2 := g3;
    }
  }

  lemma IntIs(t: Table, ht: seq<Ty>, v: Value)
    requires ValOk(t, ht, v, IntTy)
    ensures v.IntV?
  {
    Basic(t);
  }

  lemma {:induction false} SafeIf(m: Mode, e: Exp, t: Table, vars: Vars, env: Env, g: Typing, st: State, fuel: nat) returns (g2: Typing)
    requires e.IfExp? && WellFormed(t) && ExpTy(t, vars, e).Some? && EnvOk(vars, env, g) && StateOk(t, g, st)
    ensures g.Grows(g2) && OutOk(t, g2, Eval(m, e, env, st, fuel), ExpTy(t, vars, e).value)
    decreases fuel, e, 1
  {
    hide WellFormed, ValOk, StateOk, EnvOk, Compatible;
    var c, th, f := e.test, e.thenclause, e.elseclause;
    g2 := Safe(m, c, t, vars, env, g, st, fuel);
    var r := Eval(m, c, env, st, fuel);
    OutSame(t, g2, r, ExpTy(t, vars, c).value, IntTy);
    if r.Val? {
      IntIs(t, g2.heap, r.v);
      EnvKept(vars, env, g, g2);
      var next := if r.v.n != 0 then th else f;
      var g3 := Safe(m, next, t, vars, env, g2, r.st, fuel);
      if r.v.n == 0 { OutSame(t, g3, Eval(m, f, env, r.st, fuel), ExpTy(t, vars, f).value, ExpTy(t, vars, th).value); }
      Grown(g, g2, g3);
      g2 := g3;
    }
  }

  lemma {:induction false} SafeWhile(m: Mode, c: Exp, body: Exp, t: Table, vars: Vars, env: Env, g: Typing, st: State, fuel: nat) returns (g2: Typing)
    requires WellFormed(t) && ExpTy(t, vars, WhileExp(c, body)).Some? && EnvOk(vars, env, g) && StateOk(t, g, st)
    ensures g.Grows(g2) && OutOk(t, g2, EvalWhile(m, c, body, env, st, fuel), VoidTy)
    decreases fuel, WhileExp(c, body)
  {
    hide WellFormed, ValOk, StateOk, EnvOk, Compatible;
    Literal(t, g, st);
    g2 := Safe(m, c, t, vars, env, g, st, fuel);
    var r := Eval(m, c, env, st, fuel);
    OutSame(t, g2, r, ExpTy(t, vars, c).value, IntTy);
    Literal(t, g2, st);
    if r.Val? {
      IntIs(t, g2.heap, r.v);
      if r.v.n != 0 {
        EnvKept(vars, env, g, g2);
        var g3 := Safe(m, body, t, vars, env, g2, r.st, fuel);
        var b := Eval(m, body, env, r.st, fuel);
        Grown(g, g2, g3);
        Literal(t, g3, st);
        g2 := g3;
        OutSame(t, g3, b, ExpTy(t, vars, body).value, VoidTy);
        if b.Val? && fuel > 0 {
          EnvKept(vars, env, g, g3);
          g2 := SafeWhile(m, c, body, t, vars, env, g3, b.st, fuel - 1);
          Grown(g, g3, g2);
        }
      }
    }
  }

  lemma {:induction false} SafeFor(m: Mode, e: Exp, t: Table, vars: Vars, env: Env, g: Typing, st: State, fuel: nat) returns (g2: Typing)
    requires e.ForExp? && WellFormed(t) && ExpTy(t, vars, e).Some? && EnvOk(vars, env, g) && StateOk(t, g, st)
    ensures g.Grows(g2) && OutOk(t, g2, Eval(m, e, env, st, fuel), VoidTy)
    decreases fuel, e, 1
  {
    hide WellFormed, ValOk, StateOk, EnvOk, Compatible;
    var i, lo, hi, body := e.counter, e.lo, e.hi, e.body;
    var ty := ExpTy(t, vars, lo).value;
    var g1;
    g1, g2 := SafeTwo(m, lo, hi, t, vars, env, g, st, fuel, e);
    var l := Eval(m, lo, env, st, fuel);
    if l.Val? {
      var h := Eval(m, hi, env, l.st, fuel);
      OutSame(t, g2, h, ExpTy(t, vars, hi).value, IntTy);
      Same(t, g2.heap, l.v, ty, IntTy);
      IntIs(t, g2.heap, l.v);
      if h.Val? {
        IntIs(t, g2.heap, h.v);
        if fuel > 0 {
          var g3 := g2.(cells := g2.cells + [ty]);
          CellAdded(t, g2, h.st, l.v, ty);
          CellsCounted(t, g2, h.st);
          EnvKept(vars, env, g, g2);
          EnvAdded(vars, env, g2, i, ty, true);
          var g4 := SafeTurns(m, l.v.n, h.v.n, |h.st.mem|, body, t, vars[i := VarInfo(ty, true)], env[i := |h.st.mem|], g3,
                              h.st.(mem := h.st.mem + [l.v]), fuel - 1);
          Grown(g2, g3, g4);
          Grown(g, g2, g4);
          g2 := g4;
        }
      }
    } else {
      g2 := g1;
    }
  }

  lemma {:induction false} SafeTurns(m: Mode, i: int32, hi: int32, cell: nat, body: Exp, t: Table, vars: Vars, env: Env, g: Typing, st: State, fuel: nat)
    returns (g2: Typing)
    requires WellFormed(t) && IsA(t, ExpTy(t, vars, body), VoidTy) && EnvOk(vars, env, g) && StateOk(t, g, st)
    requires cell < |g.cells| && Compatible(t, g.cells[cell], IntTy)
    ensures g.Grows(g2) && OutOk(t, g2, EvalFor(m, i, hi, cell, body, env, st, fuel), VoidTy)
    decreases fuel, SeqExp(Cons(body, NoExp))
  {
    hide WellFormed, ValOk, StateOk, EnvOk, Compatible, Eval;
    g2 := g;
    Literal(t, g, st);
    if i <= hi {
      g2 := Safe(m, body, t, vars, env, g, st, fuel);
      var b := Eval(m, body, env, st, fuel);
      Literal(t, g2, st);
      OutSame(t, g2, b, ExpTy(t, vars, body).value, VoidTy);
      if b.Val? && i < hi && fuel > 0 {
        assert g2.cells[cell] == g.cells[cell];
        CounterSet(t, g2, b.st, cell, i + 1);
        EnvKept(vars, env, g, g2);
        var g3 := SafeTurns(m, i + 1, hi, cell, body, t, vars, env, g2, b.st.(mem := b.st.mem[cell := IntV(i + 1)]), fuel - 1);
        Grown(g, g2, g3);
        g2 := g3;
      }
    }
  }

  lemma CounterSet(t: Table, g: Typing, st: State, cell: nat, n: int32)
    requires StateOk(t, g, st) && cell < |g.cells| && Compatible(t, g.cells[cell], IntTy)
    ensures cell < |st.mem| && StateOk(t, g, st.(mem := st.mem[cell := IntV(n)]))
  {
    Literal(t, g, st);
    Same(t, g.heap, IntV(n), IntTy, g.cells[cell]);
    hide ValOk, ObjOk;
  }

  lemma {:induction false} SafeAll(m: Mode, es: Exps, last: Value, ty: Ty, t: Table, vars: Vars, env: Env, g: Typing, st: State, fuel: nat)
    returns (g2: Typing)
    requires WellFormed(t) && AllTy(t, vars, es, ty).Some? && EnvOk(vars, env, g) && StateOk(t, g, st) && ValOk(t, g.heap, last, ty)
    ensures g.Grows(g2) && OutOk(t, g2, EvalAll(m, es, last, env, st, fuel), AllTy(t, vars, es, ty).value)
    decreases fuel, es
  {
    hide WellFormed, ValOk, StateOk, EnvOk;
    g2 := g;
    if es.Cons? {
      g2 := Safe(m, es.head, t, vars, env, g, st, fuel);
      var r := Eval(m, es.head, env, st, fuel);
      if r.Val? {
        EnvKept(vars, env, g, g2);
        var g3 := SafeAll(m, es.tail, r.v, ExpTy(t, vars, es.head).value, t, vars, env, g2, r.st, fuel);
        Grown(g, g2, g3);
        g2 := g3;
      }
    }
  }
}
