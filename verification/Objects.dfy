/** Classes as variants: slots, casts (src/object/desugar-visitor.cc). */
module Objects {
  import opened Options
  import opened Tiger

  /** A class type.  No class inherits from itself, so the chain of super classes is finite. */
  datatype Class = Class(id: nat, hasData: bool, methods: seq<Sym>, super: Option<Class>)

  /** The class and its super classes, from the class on. */
  function Chain(c: Class): (r: seq<Class>)
    ensures r != [] && r[0] == c
  {
    [c] + if c.super.Some? then Chain(c.super.value) else []
  }

  /** The subclasses known of each class, at any distance. */
  type Subclasses = map<Class, seq<Class>>

  predicate IsSub(d: Class, c: Class) { c in Chain(d) && d != c }

  ghost predicate NoRepeat<T>(s: seq<T>) { forall i, j :: 0 <= i < j < |s| ==> s[i] != s[j] }

  /** The lists are complete and hold nothing else; class ids are unique. */
  ghost predicate Hierarchy(w: Subclasses) {
    && (forall c, d :: c in w && d in w[c] ==> d in w && IsSub(d, c))
    && (forall c, d :: c in w && d in w && IsSub(d, c) ==> d in w[c])
    && (forall c, d :: c in w && d in Chain(c) ==> d in w)
    && (forall c, d :: c in w && d in w && c.id == d.id ==> c == d)
    && (forall c :: c in w ==> NoRepeat(w[c]))
  }

  lemma {:induction false} ChainInner(c: Class, d: Class, e: Class)
    requires d in Chain(c) && e in Chain(d)
    ensures e in Chain(c)
    decreases c
  {
    if d != c { ChainInner(c.super.value, d, e); }
  }

  /** Two classes over a common one: one is over the other. */
  lemma {:induction false} ChainLinear(c: Class, d: Class, e: Class)
    requires d in Chain(c) && e in Chain(c)
    ensures d in Chain(e) || e in Chain(d)
    decreases c
  {
    if d != c && e != c { ChainLinear(c.super.value, d, e); }
  }

  lemma {:induction false} ChainShorter(c: Class, d: Class)
    requires d in Chain(c)
    ensures |Chain(d)| <= |Chain(c)| && (d != c ==> |Chain(d)| < |Chain(c)|)
    decreases c
  {
    if d != c { ChainShorter(c.super.value, d); }
  }

  lemma ChainItself(c: Class)
    ensures c in Chain(c)
  {}

  /** Being over one another is being the same. */
  lemma ChainAntisymmetric(c: Class, d: Class)
    requires d in Chain(c) && c in Chain(d)
    ensures c == d
  {
    ChainShorter(c, d);
    ChainShorter(d, c);
  }

  /** Who is a subclass of whom. */
  lemma Known(w: Subclasses, c: Class, d: Class)
    requires Hierarchy(w) && c in w
    ensures d in w[c] <==> d in w && IsSub(d, c)
    ensures d in Chain(c) ==> d in w
  {}

  // ----- slots -----

  /** Classes without attributes have no slot. */
  function WithData(cs: seq<Class>): seq<Class> {
    if cs == [] then [] else (if cs[0].hasData then [cs[0]] else []) + WithData(cs[1..])
  }

  lemma {:induction false} WithDataHas(cs: seq<Class>, c: Class)
    ensures c in WithData(cs) <==> c in cs && c.hasData
  {
    if cs != [] { WithDataHas(cs[1..], c); }
  }

  lemma {:induction false} WithDataAppend(a: seq<Class>, b: seq<Class>)
    ensures WithData(a + b) == WithData(a) + WithData(b)
  {
    if a == [] {
      assert a + b == b;
    } else {
      WithDataAppend(a[1..], b);
      var one, rest := if a[0].hasData then [a[0]] else [], WithData(a[1..]);
      assert (a + b)[1..] == a[1..] + b;
      assert one + (rest + WithData(b)) == (one + rest) + WithData(b);
    }
  }

  /** The slots of a variant: those of its static type and the super classes, always filled, and
      those of the subclasses, which may be nil. */
  function Slots(w: Subclasses, c: Class): seq<Class>
    requires c in w
  {
    WithData(Chain(c)) + WithData(w[c])
  }

  function Mandatory(c: Class): nat { |WithData(Chain(c))| }

  lemma SlotsHas(w: Subclasses, c: Class, d: Class)
    requires c in w
    ensures d in Slots(w, c) <==> (d in Chain(c) || d in w[c]) && d.hasData
  {
    WithDataHas(Chain(c), d);
    WithDataHas(w[c], d);
  }

  lemma MandatoryFirst(w: Subclasses, c: Class)
    requires c in w
    ensures Mandatory(c) <= |Slots(w, c)| && forall i :: 0 <= i < Mandatory(c) ==> Slots(w, c)[i] == WithData(Chain(c))[i]
  {}

  // ----- values and record expressions -----

  /** A slot holds nil or a reference to the attributes a class contributes. */
  datatype Slot = Slot(owner: Class, contents: Option<nat>)

  datatype Variant = Variant(exact: nat, slots: seq<Slot>)

  /** Slots are in the order of the type, and the mandatory ones are filled. */
  ghost predicate HasType(w: Subclasses, v: Variant, c: Class)
    requires c in w
  {
    && |v.slots| == |Slots(w, c)| && (forall i :: 0 <= i < |v.slots| ==> v.slots[i].owner == Slots(w, c)[i])
    && forall i :: 0 <= i < Mandatory(c) ==> v.slots[i].contents.Some?
  }

  /** `v.field_C` */
  function Read(slots: seq<Slot>, c: Class): Option<nat> {
    if slots == [] then None else if slots[0].owner == c then slots[0].contents else Read(slots[1..], c)
  }

  lemma {:induction false} ReadAt(slots: seq<Slot>, c: Class)
    ensures (exists i :: 0 <= i < |slots| && slots[i].owner == c && slots[i].contents == Read(slots, c))
      || ((forall i :: 0 <= i < |slots| ==> slots[i].owner != c) && Read(slots, c) == None)
  {
    if slots != [] && slots[0].owner != c {
      ReadAt(slots[1..], c);
      if i :| 0 <= i < |slots[1..]| && slots[1..][i].owner == c && slots[1..][i].contents == Read(slots, c) {
        assert slots[i + 1].owner == c;
      }
    }
  }

  /** The initial value of a slot. */
  datatype Init = FromSource(owner: Class) | Nil

  datatype Field = Field(owner: Class, init: Init)

  /** What `variant_exp` builds; or the class for which a mandatory value is missing. */
  datatype VariantExp = Record(exact: nat, fields: seq<Field>) | Missing(owner: Class)

  /** A function with one parameter, `source`, whose body is a record expression. */
  datatype CastFunction = CastFunction(from: Class, to: Class, body: VariantExp)

  function EvalField(f: Field, source: Variant): Slot {
    Slot(f.owner, match f.init case FromSource(c) => Read(source.slots, c) case Nil => None)
  }

  function EvalCast(f: CastFunction, source: Variant): Variant
    requires f.body.Record?
  {
    Variant(f.body.exact, seq(|f.body.fields|, i requires 0 <= i < |f.body.fields| => EvalField(f.body.fields[i], source)))
  }

  // ----- what the visitor builds -----

  /** The fields for the slots `cs`, in order. */
  function FieldsFor(cs: seq<Class>, inits: map<Class, Init>): seq<Field> {
    seq(|cs|, i requires 0 <= i < |cs| => Field(cs[i], if cs[i] in inits then inits[cs[i]] else Nil))
  }

  /** A slot of the static type or a super class must have a value. */
  function VariantOf(w: Subclasses, c: Class, exact: nat, inits: map<Class, Init>): VariantExp
    requires c in w
  {
    var lacking := FirstNotIn(WithData(Chain(c)), inits.Keys);
    if lacking.Some? then Missing(lacking.value) else Record(exact, FieldsFor(Slots(w, c), inits))
  }

  function FirstNotIn(cs: seq<Class>, known: set<Class>): (r: Option<Class>)
    ensures r.None? <==> forall c :: c in cs ==> c in known
  {
    if cs == [] then None else if cs[0] !in known then Some(cs[0]) else FirstNotIn(cs[1..], known)
  }

  /** The class reported is the lowest one that lacks a value: the others that do are over it. */
  lemma MissingIsLowest(w: Subclasses, c: Class, exact: nat, inits: map<Class, Init>, d: Class)
    requires c in w
    ensures VariantOf(w, c, exact, inits) == Missing(d)
      <==> d in Chain(c) && d.hasData && d !in inits && forall e :: e in Chain(c) && e.hasData && e !in inits ==> e in Chain(d)
  {
    FirstLacking(c, inits.Keys, d);
  }

  lemma {:induction false} FirstLacking(c: Class, known: set<Class>, d: Class)
    ensures FirstNotIn(WithData(Chain(c)), known) == Some(d)
      <==> d in Chain(c) && d.hasData && d !in known && forall e :: e in Chain(c) && e.hasData && e !in known ==> e in Chain(d)
    decreases c
  {
    UpUnfolds(c);
    var lower := if c.hasData then [c] else [];
    assert WithData(Chain(c)) == lower + Up(c.super);
    if c.hasData && c !in known {
      if d in Chain(c) && c in Chain(d) { ChainAntisymmetric(c, d); }
    } else {
      assert FirstNotIn(lower + Up(c.super), known) == FirstNotIn(Up(c.super), known) by {
        if c.hasData { assert (lower + Up(c.super))[1..] == Up(c.super); } else { assert lower + Up(c.super) == Up(c.super); }
      }
      if c.super.Some? {
        FirstLacking(c.super.value, known, d);
        assert forall e :: e in Chain(c) <==> e == c || e in Chain(c.super.value);
      }
    }
  }

  function CastOf(w: Subclasses, source: Class, target: Class, exact: Class): (f: CastFunction)
    requires source in w && target in w
    ensures f.from == source && f.to == target
  {
    CastFunction(source, target, VariantOf(w, target, exact.id, Inits(Slots(w, source))))
  }

  lemma {:induction false} FirstNotInAppend(a: seq<Class>, c: Class, b: seq<Class>, known: set<Class>)
    requires (forall d :: d in a ==> d in known) && c !in known
    ensures FirstNotIn(a + [c] + b, known) == Some(c)
  {
    if a != [] { assert (a + [c] + b)[1..] == a[1..] + [c] + b; FirstNotInAppend(a[1..], c, b, known); }
  }

  function Inits(cs: seq<Class>): map<Class, Init> { map c | c in cs :: FromSource(c) }

  // ----- the visitor -----

  /** The slots from `s` up. */
  function Up(s: Option<Class>): seq<Class> { if s.Some? then WithData(Chain(s.value)) else [] }

  lemma UpUnfolds(c: Class)
    ensures Up(Some(c)) == (if c.hasData then [c] else []) + Up(c.super)
  {
    var rest := if c.super.Some? then Chain(c.super.value) else [];
    assert Chain(c) == [c] + rest;
    assert Chain(c)[1..] == rest && WithData(rest) == Up(c.super);
  }

  lemma UpStep(c: Class, done: seq<Class>)
    ensures Up(Some(c)) == (if c.hasData then [c] else []) + Up(c.super)
    ensures done + Up(Some(c)) == (if c.hasData then done + [c] else done) + Up(c.super)
  {
    UpUnfolds(c);
    hide Up;
    var up := Up(c.super);
    if c.hasData { assert done + ([c] + up) == (done + [c]) + up; } else { assert [] + up == up; }
  }

  lemma DownStep(subs: seq<Class>, i: nat, done: seq<Class>)
    requires i < |subs|
    ensures done + WithData(subs[..i + 1]) == (if subs[i].hasData then (done + WithData(subs[..i])) + [subs[i]] else done + WithData(subs[..i]))
  {
    assert subs[..i + 1] == subs[..i] + [subs[i]];
    WithDataAppend(subs[..i], [subs[i]]);
    assert WithData([subs[i]]) == if subs[i].hasData then [subs[i]] else [];
    assert done + (WithData(subs[..i]) + [subs[i]]) == (done + WithData(subs[..i])) + [subs[i]];
    assert WithData(subs[..i]) + [] == WithData(subs[..i]);
  }

  lemma DownAll(subs: seq<Class>)
    ensures WithData(subs[..0]) == [] && subs[..|subs|] == subs
  {}

  lemma FieldsMore(cs: seq<Class>, c: Class, inits: map<Class, Init>)
    ensures FieldsFor([], inits) == []
    ensures FieldsFor(cs + [c], inits) == FieldsFor(cs, inits) + [Field(c, if c in inits then inits[c] else Nil)]
  {}

  lemma InitsMore(cs: seq<Class>, c: Class)
    ensures Inits([]) == map[] && Inits(cs + [c]) == Inits(cs)[c := FromSource(c)]
  {
    var a, b := Inits(cs + [c]), Inits(cs)[c := FromSource(c)];
    assert (cs + [c])[|cs|] == c;
    forall d ensures d in a <==> d in b {
      if d in cs { var i :| 0 <= i < |cs| && cs[i] == d; assert (cs + [c])[i] == d; }
    }
    assert a == b;
  }

  class DesugarVisitor {
    const subclasses: Subclasses

    constructor (w: Subclasses)
      requires Hierarchy(w)
      ensures subclasses == w
    {
      subclasses := w;
    }

    method FillVariantFields(c: Class, input: seq<Class>) returns (r: seq<Class>)
      ensures r == if c.hasData then input + [c] else input
    {
      r := input;
      if c.hasData { r := r + [c]; }
    }

    method VariantTy(c: Class) returns (slots: seq<Class>)
      requires c in subclasses
      ensures slots == Slots(subclasses, c)
    {
      hide WithData, Chain;
      slots := [];
      var s := Some(c);
      while s.Some?
        invariant slots + Up(s) == Up(Some(c))
        decreases s
      {
        UpStep(s.value, slots);
        slots := FillVariantFields(s.value, slots);
        s := s.value.super;
      }
      var subs := subclasses[c];
      DownAll(subs);
      for i := 0 to |subs|
        invariant slots == Up(Some(c)) + WithData(subs[..i])
      {
        DownStep(subs, i, Up(Some(c)));
        slots := FillVariantFields(subs[i], slots);
      }
    }

    /** The record has a field for each slot of the type, in the type's order. */
    method VariantExp(c: Class, exact: nat, inits: map<Class, Init>) returns (r: VariantExp)
      requires c in subclasses
      ensures r == VariantOf(subclasses, c, exact, inits)
    {
      hide WithData, Chain, FieldsFor, FirstNotIn;
      var fields: seq<Field>, s := [], Some(c);
      ghost var done := [];
      FieldsMore(done, c, inits);
      while s.Some?
        invariant done + Up(s) == Up(Some(c))
        invariant (forall d :: d in done ==> d in inits) && fields == FieldsFor(done, inits)
        decreases s
      {
        var d := s.value;
        UpStep(d, done);
        FieldsMore(done, d, inits);
        if d.hasData {
          if d !in inits {
            FirstNotInAppend(done, d, Up(d.super), inits.Keys);
            return Missing(d);
          }
          fields := fields + [Field(d, inits[d])];
          done := done + [d];
        }
        s := d.super;
      }
      var subs := subclasses[c];
      DownAll(subs);
      for i := 0 to |subs|
        invariant done == Up(Some(c)) + WithData(subs[..i]) && fields == FieldsFor(done, inits)
      {
        DownStep(subs, i, Up(Some(c)));
        FieldsMore(done, subs[i], inits);
        if subs[i].hasData {
          fields := fields + [Field(subs[i], if subs[i] in inits then inits[subs[i]] else Nil)];
          done := done + [subs[i]];
        }
      }
      r := Record(exact, fields);
    }

    method FillInitList(c: Class, inits: map<Class, Init>) returns (r: map<Class, Init>)
      ensures r == if c.hasData then inits[c := FromSource(c)] else inits
    {
      r := inits;
      if c.hasData { r := r[c := FromSource(c)]; }
    }

    /** Every slot of the target is copied from the source if the source has it. */
    method Cast(source: Class, target: Class, exact: Class) returns (f: CastFunction)
      requires source in subclasses && target in subclasses
      ensures f == CastOf(subclasses, source, target, exact)
    {
      hide WithData, Chain, Inits, VariantOf;
      var inits: map<Class, Init>, s := map[], Some(source);
      ghost var done := [];
      InitsMore(done, source);
      while s.Some?
        invariant done + Up(s) == Up(Some(source)) && inits == Inits(done)
        decreases s
      {
        UpStep(s.value, done);
        InitsMore(done, s.value);
        inits := FillInitList(s.value, inits);
        if s.value.hasData { done := done + [s.value]; }
        s := s.value.super;
      }
      var subs := subclasses[source];
      DownAll(subs);
      for i := 0 to |subs|
        invariant done == Up(Some(source)) + WithData(subs[..i]) && inits == Inits(done)
      {
        DownStep(subs, i, Up(Some(source)));
        InitsMore(done, subs[i]);
        inits := FillInitList(subs[i], inits);
        if subs[i].hasData { done := done + [subs[i]]; }
      }
      var body := VariantExp(target, exact.id, inits);
      f := CastFunction(source, target, body);
    }

    method UpcastFunction(source: Class, target: Class) returns (f: CastFunction)
      requires source in subclasses && target in subclasses
      ensures f == Upcast(subclasses, source, target)
    {
      f := Cast(source, target, source);
    }

    method DowncastFunction(source: Class, target: Class) returns (f: CastFunction)
      requires source in subclasses && target in subclasses
      ensures f == Downcast(subclasses, source, target)
    {
      f := Cast(source, target, target);
    }
  }

  /** The new variant says it is exactly of the type it was cast from. */
  function Upcast(w: Subclasses, source: Class, target: Class): CastFunction
    requires source in w && target in w
  {
    CastOf(w, source, target, source)
  }

  function Downcast(w: Subclasses, source: Class, target: Class): CastFunction
    requires source in w && target in w
  {
    CastOf(w, source, target, target)
  }

  // ----- what casts keep -----

  /** One of the classes inherits from the other. */
  predicate Related(c: Class, d: Class) { c in Chain(d) || d in Chain(c) }

  /** A cast can be built if and only if the source has a slot for each mandatory slot of the target;
      along inheritance it always has. */
  lemma CastBuilt(w: Subclasses, source: Class, target: Class, exact: Class)
    requires Hierarchy(w) && source in w && target in w
    ensures CastOf(w, source, target, exact).body.Record?
      <==> forall c :: c in Chain(target) && c.hasData ==> c in Chain(source) || c in w[source]
    ensures Related(source, target) ==> CastOf(w, source, target, exact).body.Record?
  {
    hide Hierarchy, WithData, Chain, Slots, FirstNotIn;
    forall c ensures (c in WithData(Chain(target)) <==> c in Chain(target) && c.hasData)
      && (c in Inits(Slots(w, source)) <==> (c in Chain(source) || c in w[source]) && c.hasData) {
      WithDataHas(Chain(target), c);
      SlotsHas(w, source, c);
    }
    if Related(source, target) {
      forall c | c in Chain(target) && c.hasData ensures c in Chain(source) || c in w[source] {
        if target in Chain(source) {
          ChainInner(source, target, c);
        } else {
          ChainLinear(target, source, c);
          Known(w, target, c);
          Known(w, source, c);
          ChainItself(c);
        }
      }
    }
  }

  lemma SubIsNot(c: Class, d: Class)
    requires d in Chain(c)
    ensures !IsSub(d, c)
  {
    if d != c && c in Chain(d) { ChainAntisymmetric(c, d); }
  }

  lemma {:induction false} NoRepeatChain(c: Class)
    ensures NoRepeat(Chain(c))
    decreases c
  {
    var s := Chain(c);
    if c.super.Some? {
      NoRepeatChain(c.super.value);
      assert s[1..] == Chain(c.super.value);
      forall i, j | 0 <= i < j < |s| ensures s[i] != s[j] {
        if i == 0 {
          assert s[j] == s[1..][j - 1];
          if s[j] == c { ChainShorter(c.super.value, c); }
        } else {
          assert s[i] == s[1..][i - 1] && s[j] == s[1..][j - 1];
        }
      }
    }
  }

  lemma {:induction false} NoRepeatData(cs: seq<Class>)
    requires NoRepeat(cs)
    ensures NoRepeat(WithData(cs))
  {
    if cs != [] {
      var rest := cs[1..];
      forall i, j | 0 <= i < j < |rest| ensures rest[i] != rest[j] { assert rest[i] == cs[i + 1] && rest[j] == cs[j + 1]; }
      NoRepeatData(rest);
      WithDataHas(rest, cs[0]);
      forall k | 0 <= k < |rest| ensures rest[k] != cs[0] { assert rest[k] == cs[k + 1]; }
    }
  }

  /** A variant has one slot for each class. */
  lemma NoRepeatSlots(w: Subclasses, c: Class)
    requires Hierarchy(w) && c in w
    ensures NoRepeat(Slots(w, c))
  {
    hide WithData, Chain, IsSub;
    var a, b := WithData(Chain(c)), WithData(w[c]);
    NoRepeatChain(c);
    NoRepeatData(Chain(c));
    NoRepeatData(w[c]);
    hide Hierarchy;
    forall i, j | 0 <= i < |a| && 0 <= j < |b| ensures a[i] != b[j] {
      WithDataHas(Chain(c), a[i]);
      WithDataHas(w[c], b[j]);
      Known(w, c, b[j]);
      if a[i] == b[j] { SubIsNot(c, a[i]); }
    }
  }

  /** In a variant of a type, each slot is the one read for its class. */
  lemma SlotsAreRead(w: Subclasses, v: Variant, c: Class, i: nat)
    requires Hierarchy(w) && c in w && |v.slots| == |Slots(w, c)| && i < |v.slots|
    requires forall k :: 0 <= k < |v.slots| ==> v.slots[k].owner == Slots(w, c)[k]
    ensures Read(v.slots, Slots(w, c)[i]) == v.slots[i].contents
  {
    NoRepeatSlots(w, c);
    ReadAt(v.slots, Slots(w, c)[i]);
  }

  /** What a cast leaves in each slot of the target. */
  lemma CastSlots(w: Subclasses, source: Class, target: Class, exact: Class, v: Variant)
    requires Hierarchy(w) && source in w && target in w && Related(source, target)
    ensures var f := CastOf(w, source, target, exact);
      && f.body.Record? && var r := EvalCast(f, v);
      && r.exact == exact.id && |r.slots| == |Slots(w, target)|
      && (forall i :: 0 <= i < |r.slots| ==> r.slots[i].owner == Slots(w, target)[i])
      && forall c :: c in Slots(w, target) ==> Read(r.slots, c) == if c in Slots(w, source) then Read(v.slots, c) else None
  {
    CastBuilt(w, source, target, exact);
    var r := EvalCast(CastOf(w, source, target, exact), v);
    forall c | c in Slots(w, target) ensures Read(r.slots, c) == if c in Slots(w, source) then Read(v.slots, c) else None {
      var i :| 0 <= i < |r.slots| && Slots(w, target)[i] == c;
      SlotsAreRead(w, r, target, i);
    }
  }

  /** Applied to a proper value of its parameter's type, a cast gives a proper value of its result type if
      and only if the slots the target must have filled are filled in the source. */
  lemma CastTyped(w: Subclasses, source: Class, target: Class, exact: Class, v: Variant)
    requires Hierarchy(w) && source in w && target in w && Related(source, target) && HasType(w, v, CastOf(w, source, target, exact).from)
    ensures var f := CastOf(w, source, target, exact);
      && f.body.Record?
      && (HasType(w, EvalCast(f, v), f.to) <==> forall c :: c in WithData(Chain(target)) ==> Read(v.slots, c).Some?)
  {
    hide Hierarchy, CastOf, EvalCast, Read, Chain;
    CastSlots(w, source, target, exact, v);
    CastBuilt(w, source, target, exact);
    var r := EvalCast(CastOf(w, source, target, exact), v);
    var data := WithData(Chain(target));
    hide WithData;
    forall i | 0 <= i < |data| ensures r.slots[i].contents == Read(v.slots, data[i]) && data[i] in data {
      assert Slots(w, target)[i] == data[i];
      SlotsAreRead(w, r, target, i);
      SlotsHas(w, source, data[i]);
      WithDataHas(Chain(target), data[i]);
      assert data[i] in Slots(w, target);
    }
    if HasType(w, r, target) {
      forall c | c in data ensures Read(v.slots, c).Some? {
        var i :| 0 <= i < |data| && data[i] == c;
        assert r.slots[i].contents.Some?;
      }
    }
  }

  /** An upcast always gives a proper value of the super class. */
  lemma UpcastTyped(w: Subclasses, source: Class, target: Class, v: Variant)
    requires Hierarchy(w) && source in w && target in w && target in Chain(source) && HasType(w, v, Upcast(w, source, target).from)
    ensures var f := Upcast(w, source, target); f.body.Record? && f.to == target && HasType(w, EvalCast(f, v), f.to)
  {
    hide Hierarchy, CastOf, EvalCast, Read, Chain, WithData;
    CastTyped(w, source, target, source, v);
    forall c | c in WithData(Chain(target)) ensures Read(v.slots, c).Some? {
      WithDataHas(Chain(target), c);
      ChainInner(source, target, c);
      WithDataHas(Chain(source), c);
      var i :| 0 <= i < Mandatory(source) && WithData(Chain(source))[i] == c;
      MandatoryFirst(w, source);
      SlotsAreRead(w, v, source, i);
    }
  }

  lemma HasSlots(w: Subclasses, v: Variant, c: Class)
    requires c in w && HasType(w, v, c)
    ensures |v.slots| == |Slots(w, c)| && forall k :: 0 <= k < |v.slots| ==> v.slots[k].owner == Slots(w, c)[k]
  {}

  /** A class over another one has all its slots. */
  lemma LowerHas(w: Subclasses, a: Class, b: Class, c: Class)
    requires Hierarchy(w) && a in w && b in w && a in Chain(b) && c in Slots(w, b)
    ensures c in Slots(w, a)
  {
    hide Hierarchy, WithData, Chain, Slots;
    SlotsHas(w, a, c);
    SlotsHas(w, b, c);
    Known(w, a, c);
    Known(w, b, c);
    if c in Chain(b) { ChainLinear(b, a, c); ChainItself(c); } else { ChainInner(c, b, a); SubIsNot(b, a); }
  }

  /** Up and down again: every data slot is restored, the subclasses' included; the exact type is
      set to the class cast to. */
  lemma RoundTrip(w: Subclasses, a: Class, b: Class, v: Variant)
    requires Hierarchy(w) && a in w && b in w && a in Chain(b) && HasType(w, v, b)
    ensures Upcast(w, b, a).body.Record? && Downcast(w, a, b).body.Record?
    ensures EvalCast(Downcast(w, a, b), EvalCast(Upcast(w, b, a), v)) == Variant(b.id, v.slots)
  {
    hide Hierarchy, WithData, Chain, Slots, CastOf, EvalCast, Read;
    HasSlots(w, v, b);
    CastSlots(w, b, a, b, v);
    var u := EvalCast(Upcast(w, b, a), v);
    CastSlots(w, a, b, b, u);
    var r := EvalCast(Downcast(w, a, b), u);
    forall i | 0 <= i < |v.slots| ensures r.slots[i] == v.slots[i] {
      var c := Slots(w, b)[i];
      SlotsAreRead(w, v, b, i);
      SlotsAreRead(w, r, b, i);
      LowerHas(w, a, b, c);
    }
    assert r.slots == v.slots;
  }

  /** Upcasts compose on the data slots; on the exact type they do not: only the last cast counts. */
  lemma UpcastsCompose(w: Subclasses, a: Class, b: Class, c: Class, v: Variant)
    requires Hierarchy(w) && a in w && b in w && c in w && a in Chain(b) && b in Chain(c) && HasType(w, v, c)
    ensures a in Chain(c) && Upcast(w, c, b).body.Record? && Upcast(w, b, a).body.Record? && Upcast(w, c, a).body.Record?
    ensures var two, one := EvalCast(Upcast(w, b, a), EvalCast(Upcast(w, c, b), v)), EvalCast(Upcast(w, c, a), v);
      two.slots == one.slots && two.exact == b.id && one.exact == c.id
  {
    hide Hierarchy, WithData, Chain, Slots, CastOf, EvalCast, Read;
    ChainInner(c, b, a);
    CastSlots(w, c, b, c, v);
    CastSlots(w, c, a, c, v);
    var u, one := EvalCast(Upcast(w, c, b), v), EvalCast(Upcast(w, c, a), v);
    CastSlots(w, b, a, b, u);
    var two := EvalCast(Upcast(w, b, a), u);
    forall i | 0 <= i < |one.slots| ensures two.slots[i] == one.slots[i] {
      var d := Slots(w, a)[i];
      SlotsAreRead(w, one, a, i);
      SlotsAreRead(w, two, a, i);
      if d in Slots(w, c) { BetweenHas(w, a, b, c, d); }
    }
  }

  /** What is a slot both high and low is one in between. */
  lemma BetweenHas(w: Subclasses, a: Class, b: Class, c: Class, d: Class)
    requires Hierarchy(w) && a in w && b in w && c in w && a in Chain(b) && b in Chain(c) && d in Slots(w, a) && d in Slots(w, c)
    ensures d in Slots(w, b)
  {
    hide Hierarchy, WithData, Chain, Slots;
    SlotsHas(w, a, d);
    SlotsHas(w, b, d);
    SlotsHas(w, c, d);
    Known(w, a, d);
    Known(w, b, d);
    Known(w, c, d);
    if d in Chain(c) {
      ChainLinear(c, b, d);
      ChainItself(d);
    } else {
      ChainInner(d, c, b);
      SubIsNot(c, b);
    }
  }
}
