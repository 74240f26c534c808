/** Types with identity: records, arrays and the names given to types (src/type). */
module TypeTable {

  /** Types are compared by identity.  The number of a record, array or named type is that of the
      object made for it. */
  datatype Ty = IntTy | StringTy | VoidTy | Ref(id: nat)

  datatype FieldTy = FieldTy(name: string, ty: Ty)

  /** A named type is made first (`Open`) and given its type when the chunk's bodies are visited. */
  datatype Def = Record(fields: seq<FieldTy>) | Array(elem: Ty) | Named(target: Ty) | Open

  type Table = seq<Def>

  predicate IsNamed(t: Table, ty: Ty) { ty.Ref? && ty.id < |t| && t[ty.id].Named? }

  function Next(t: Table, ty: Ty): Ty { if IsNamed(t, ty) then t[ty.id].target else ty }

  /** The type `n` names further. */
  function Walk(t: Table, ty: Ty, n: nat): Ty { if n == 0 then ty else Next(t, Walk(t, ty, n - 1)) }

  ghost predicate EndsAt(t: Table, ty: Ty, n: nat) { !IsNamed(t, Walk(t, ty, n)) }

  ghost predicate Resolves(t: Table, ty: Ty) { exists n: nat :: EndsAt(t, ty, n) }

  /** `actual()`: the type pointed to ultimately. */
  ghost function Actual(t: Table, ty: Ty): Ty {
    if Resolves(t, ty) then
      var n: nat :| EndsAt(t, ty, n);
      Walk(t, ty, n)
    else ty
  }

  ghost predicate Compatible(t: Table, a: Ty, b: Ty) { Actual(t, a) == Actual(t, b) }

  lemma {:induction false} WalkSettles(t: Table, ty: Ty, n: nat, m: nat)
    requires EndsAt(t, ty, n) && n <= m
    ensures Walk(t, ty, m) == Walk(t, ty, n)
    decreases m
  {
    if n < m { WalkSettles(t, ty, n, m - 1); }
  }

  lemma ActualIs(t: Table, ty: Ty, n: nat)
    requires EndsAt(t, ty, n)
    ensures Actual(t, ty) == Walk(t, ty, n) && !IsNamed(t, Actual(t, ty))
  {
    var m: nat :| EndsAt(t, ty, m) && Actual(t, ty) == Walk(t, ty, m);
    if n <= m { WalkSettles(t, ty, n, m); } else { WalkSettles(t, ty, m, n); }
  }

  lemma {:induction false} WalkFrom(t: Table, ty: Ty, n: nat)
    ensures Walk(t, ty, n + 1) == Walk(t, Next(t, ty), n)
  {
    if n > 0 { WalkFrom(t, ty, n - 1); }
  }

  // ----- sound tables -----

  predicate Closed(t: Table, ty: Ty) { ty.Ref? ==> ty.id < |t| }

  predicate DefClosed(t: Table, d: Def) {
    match d
    case Record(fields) => forall i :: 0 <= i < |fields| ==> Closed(t, fields[i].ty)
    case Array(elem) => Closed(t, elem)
    case Named(target) => Closed(t, target)
    case Open => false
  }

  ghost predicate WellFormed(t: Table) { forall i :: 0 <= i < |t| ==> DefClosed(t, t[i]) && Resolves(t, Ref(i)) }

  lemma ClosedResolves(t: Table, ty: Ty)
    requires WellFormed(t) && Closed(t, ty)
    ensures Resolves(t, ty)
  {
    if !ty.Ref? { assert EndsAt(t, ty, 0); }
  }

  lemma {:induction false} WalkClosed(t: Table, ty: Ty, n: nat)
    requires WellFormed(t) && Closed(t, ty)
    ensures Closed(t, Walk(t, ty, n))
  {
    if n > 0 {
      WalkClosed(t, ty, n - 1);
      var w := Walk(t, ty, n - 1);
      if IsNamed(t, w) { assert DefClosed(t, t[w.id]); }
    }
  }

  /** What a type resolves to in a sound table. */
  lemma ActualClosed(t: Table, ty: Ty)
    requires WellFormed(t) && Closed(t, ty)
    ensures var a := Actual(t, ty); Closed(t, a) && !IsNamed(t, a) && (a.Ref? ==> t[a.id].Record? || t[a.id].Array?) && Actual(t, a) == a
  {
    ClosedResolves(t, ty);
    var n: nat :| EndsAt(t, ty, n);
    ActualIs(t, ty, n);
    WalkClosed(t, ty, n);
    var a := Actual(t, ty);
    if a.Ref? { assert DefClosed(t, t[a.id]); }
    assert EndsAt(t, a, 0);
    ActualIs(t, a, 0);
  }

  lemma {:induction false} WalkStable(t: Table, t2: Table, ty: Ty, n: nat)
    requires WellFormed(t) && t <= t2 && Closed(t, ty)
    ensures Walk(t2, ty, n) == Walk(t, ty, n)
  {
    if n > 0 {
      WalkStable(t, t2, ty, n - 1);
      WalkClosed(t, ty, n - 1);
    }
  }

  /** New types change nothing for the old ones. */
  lemma ActualStable(t: Table, t2: Table, ty: Ty)
    requires WellFormed(t) && t <= t2 && Closed(t, ty)
    ensures Actual(t2, ty) == Actual(t, ty)
  {
    ClosedResolves(t, ty);
    var n: nat :| EndsAt(t, ty, n);
    WalkStable(t, t2, ty, n);
    WalkClosed(t, ty, n);
    ActualIs(t, ty, n);
    assert EndsAt(t2, ty, n);
    ActualIs(t2, ty, n);
  }

  // ----- recursive names -----

  /** What following a name ends in: a type; the name itself; or nothing, ever. */
  datatype Verdict = Sound | Recursive | Endless

  ghost predicate Returns(t: Table, ty: Ty, n: nat) { n > 0 && Walk(t, ty, n) == ty }

  /** Once the walk is where it was before it goes round for ever. */
  lemma {:induction false} Periodic(t: Table, ty: Ty, i: nat, j: nat, n: nat) returns (k: nat)
    requires i < j <= n && Walk(t, ty, i) == Walk(t, ty, j)
    ensures i <= k < j && Walk(t, ty, n) == Walk(t, ty, k)
    decreases n
  {
    if n == j {
      k := i;
    } else {
      k := Periodic(t, ty, i, j, n - 1);
      k := if k + 1 == j then i else k + 1;
    }
  }

  lemma EndsSound(t: Table, start: Ty, n: nat)
    requires IsNamed(t, start) && EndsAt(t, start, n) && forall k: nat :: 0 < k < n ==> Walk(t, start, k) != start
    ensures Resolves(t, start) && forall m: nat :: !Returns(t, start, m)
  {
    forall m: nat ensures !Returns(t, start, m) {
      if m >= n { WalkSettles(t, start, n, m); }
    }
  }

  lemma EndsNever(t: Table, start: Ty, i: nat, n: nat)
    requires IsNamed(t, start) && i < n && Walk(t, start, i) == Walk(t, start, n) && forall k: nat :: 0 < k < n ==> IsNamed(t, Walk(t, start, k))
    ensures !Resolves(t, start)
    ensures i > 0 && (forall k: nat :: 0 < k < n ==> Walk(t, start, k) != start) ==> forall m: nat :: !Returns(t, start, m)
  {
    forall m: nat ensures !EndsAt(t, start, m) {
      if m >= n { var k := Periodic(t, start, i, n, m); }
    }
    if i > 0 && (forall k: nat :: 0 < k < n ==> Walk(t, start, k) != start) {
      forall m: nat ensures !Returns(t, start, m) {
        if m >= n { var k := Periodic(t, start, i, n, m); }
      }
    }
  }

  lemma NeverEnds(t: Table, ty: Ty, i: nat, n: nat)
    requires i < n && Walk(t, ty, i) == Walk(t, ty, n) && forall k: nat :: k < n ==> IsNamed(t, Walk(t, ty, k))
    ensures Actual(t, ty) == ty
  {
    forall m: nat ensures !EndsAt(t, ty, m) {
      if m >= n { var k := Periodic(t, ty, i, n, m); }
    }
  }

  function Upto(n: nat): (r: set<nat>)
    ensures forall i: nat :: i in r <==> i < n
  {
    if n == 0 then {} else Upto(n - 1) + {n - 1}
  }

  /** `Named::sound`: the loop leaves when the walk leaves the names or returns to where it began.  A
      walk that enters a cycle beside its beginning makes the original run for ever; here that is
      told from `rest`, the types not met yet. */
  method NamedSound(t: Table, id: nat) returns (v: Verdict)
    requires id < |t| && t[id].Named?
    ensures v.Sound? <==> Resolves(t, Ref(id))
    ensures v.Recursive? <==> exists n: nat :: Returns(t, Ref(id), n)
    ensures v.Endless? <==> !Resolves(t, Ref(id)) && forall n: nat :: !Returns(t, Ref(id), n)
  {
    hide Resolves, Returns;
    var start := Ref(id);
    var elt := t[id].target;
    ghost var n: nat := 1;
    var rest := Upto(|t|);
    assert Walk(t, start, 0) == start && Walk(t, start, 1) == elt;
    while IsNamed(t, elt) && elt != start && elt.id in rest
      invariant n >= 1 && elt == Walk(t, start, n)
      invariant forall k: nat :: 0 < k < n ==> IsNamed(t, Walk(t, start, k)) && Walk(t, start, k) != start
      invariant forall i: nat :: i < |t| && i !in rest ==> exists k: nat :: 0 < k < n && Walk(t, start, k) == Ref(i)
      decreases rest
    {
      rest := rest - {elt.id};
      elt := t[elt.id].target;
      n := n + 1;
    }
    if !IsNamed(t, elt) {
      EndsSound(t, start, n);
      v := Sound;
    } else if elt == start {
      EndsNever(t, start, 0, n);
      assert Returns(t, start, n) by { ReturnsAt(t, start, n); }
      v := Recursive;
    } else {
      ghost var k: nat :| 0 < k < n && Walk(t, start, k) == Ref(elt.id);
      EndsNever(t, start, k, n);
      v := Endless;
    }
  }

  lemma ReturnsAt(t: Table, ty: Ty, n: nat)
    requires n > 0 && Walk(t, ty, n) == ty
    ensures Returns(t, ty, n)
  {}

  /** The last case is real: `type a = b type b = b`. */
  lemma EndlessNames()
    ensures var t := [Named(Ref(1)), Named(Ref(1))];
      !Resolves(t, Ref(0)) && (forall n: nat :: !Returns(t, Ref(0), n)) && !Resolves(t, Ref(1)) && Returns(t, Ref(1), 1)
  {
    var t := [Named(Ref(1)), Named(Ref(1))];
    forall n: nat ensures Walk(t, Ref(1), n) == Ref(1) { StaysPut(t, Ref(1), n); }
    forall n: nat ensures n > 0 ==> Walk(t, Ref(0), n) == Ref(1) {
      if n > 0 {
        WalkFrom(t, Ref(0), n - 1);
      }
    }
    forall n: nat ensures !EndsAt(t, Ref(0), n) {
      if n == 0 { assert Walk(t, Ref(0), 0) == Ref(0); }
    }
  }

  lemma {:induction false} StaysPut(t: Table, ty: Ty, n: nat)
    requires Next(t, ty) == ty
    ensures Walk(t, ty, n) == ty
  {
    if n > 0 { StaysPut(t, ty, n - 1); }
  }
}
