/** Method dispatch as chains of tests on the exact type (src/object/desugar-visitor.cc). */
module Dispatch {
  import opened Options
  import opened Tiger
  import opened Objects

  /** A method, by the class that owns it. */
  datatype Key = Key(owner: Class, meth: Sym)

  /** `if self.exact_type = <exact> then _method_<callee>_...(self or its downcast)` */
  datatype Branch = Branch(exact: nat, callee: Class, downcast: bool)

  /** The last `else`: the method of the class itself, or the dispatch function built before. */
  datatype Otherwise = Own | Earlier(version: nat)

  datatype Switch = Switch(branches: seq<Branch>, otherwise: Otherwise)

  // ----- method lookup -----

  /** The first class on the chain that owns the method. */
  function Nearest(c: Class, m: Sym): Option<Class> {
    if m in c.methods then Some(c) else if c.super.Some? then Nearest(c.super.value, m) else None
  }

  /** Lookup, said without searching: `n` owns the method, and what `c` inherits it from besides is
      over `n`. */
  ghost predicate Inherits(c: Class, m: Sym, n: Class) {
    n in Chain(c) && m in n.methods && forall d :: d in Chain(c) && m in d.methods ==> d in Chain(n)
  }

  lemma {:induction false} NearestIsLookup(c: Class, m: Sym, n: Class)
    ensures Nearest(c, m) == Some(n) <==> Inherits(c, m, n)
    decreases c
  {
    if m in c.methods {
      if Inherits(c, m, n) { ChainAntisymmetric(c, n); }
    } else if c.super.Some? {
      NearestIsLookup(c.super.value, m, n);
      assert forall d :: d in Chain(c) ==> d == c || d in Chain(c.super.value);
    }
  }

  /** The search stops at or below any super class that owns the method. */
  lemma {:induction false} NearestStops(c: Class, m: Sym, top: Class)
    requires top in Chain(c) && m in top.methods
    ensures Nearest(c, m).Some? && Nearest(c, m).value in Chain(c) && top in Chain(Nearest(c, m).value)
    decreases c
  {
    if m !in c.methods { NearestStops(c.super.value, m, top); }
  }

  // ----- what is built -----

  function OfChunk(cs: seq<Class>, chunk: seq<Class>): seq<Class> {
    if cs == [] then [] else OfChunk(cs[..|cs| - 1], chunk) + (if cs[|cs| - 1] in chunk then [cs[|cs| - 1]] else [])
  }

  lemma {:induction false} OfChunkHas(cs: seq<Class>, chunk: seq<Class>, c: Class)
    ensures c in OfChunk(cs, chunk) <==> c in cs && c in chunk
  {
    if cs != [] { OfChunkHas(cs[..|cs| - 1], chunk, c); }
  }

  function BranchFor(k: Key, c: Class): Branch {
    var n := Nearest(c, k.meth);
    if n.Some? then Branch(c.id, n.value, n.value != k.owner) else Branch(c.id, k.owner, false)
  }

  function Branches(k: Key, tests: seq<Class>): seq<Branch> {
    seq(|tests|, i requires 0 <= i < |tests| => BranchFor(k, tests[i]))
  }

  function SwitchOf(w: Subclasses, k: Key, chunk: seq<Class>, version: nat): Switch
    requires k.owner in w
  {
    var tests := OfChunk(w[k.owner], chunk);
    Switch(Branches(k, tests), if tests == [] || version <= 1 then Own else Earlier(version - 1))
  }

  // ----- running a dispatch function -----

  function FirstOf(bs: seq<Branch>, exact: nat): Option<Branch> {
    if bs == [] then None else if bs[0].exact == exact then Some(bs[0]) else FirstOf(bs[1..], exact)
  }

  /** The branch that version `n` of a dispatch function comes to; none if it calls the method of the
      class itself. */
  function Taken(versions: seq<Switch>, n: nat, exact: nat): Option<Branch>
    requires n <= |versions|
    decreases n
  {
    if n == 0 then None else
    var s := versions[n - 1];
    var hit := FirstOf(s.branches, exact);
    if hit.Some? then hit
    else match s.otherwise
      case Own => None
      case Earlier(v) => if v < n then Taken(versions, v, exact) else None
  }

  /** The class whose method version `n` of the dispatch function calls. */
  function Run(versions: seq<Switch>, n: nat, k: Key, exact: nat): Class
    requires n <= |versions|
  {
    var b := Taken(versions, n, exact);
    if b.Some? then b.value.callee else k.owner
  }

  /** The object it hands to that method: the one it got, or the downcast of it, which exists only to
      proper subclasses. */
  function Handed(w: Subclasses, versions: seq<Switch>, n: nat, k: Key, v: Variant): Option<Variant>
    requires n <= |versions|
  {
    var b := Taken(versions, n, v.exact);
    if b.None? || !b.value.downcast then Some(v) else
    var n := b.value.callee;
    if k.owner in w && n in w && IsSub(n, k.owner) && Downcast(w, k.owner, n).body.Record? then
      Some(EvalCast(Downcast(w, k.owner, n), v))
    else None
  }

  /** The versions of one dispatch function: each falls back on the one before. */
  ghost predicate Proper(w: Subclasses, k: Key, versions: seq<Switch>) {
    && k.owner in w && k.meth in k.owner.methods && versions != []
    && forall i :: 0 <= i < |versions| ==> OneProper(w, k, versions[i], i)
  }

  ghost predicate OneProper(w: Subclasses, k: Key, s: Switch, i: nat) {
    && s.otherwise == (if i == 0 then Own else Earlier(i))
    && exists chunk :: k.owner in w && s.branches == Branches(k, OfChunk(w[k.owner], chunk))
  }

  ghost predicate Tests(s: Switch, exact: nat) { FirstOf(s.branches, exact).Some? }

  /** Some version up to the `n`th tests the exact type. */
  ghost predicate Tested(versions: seq<Switch>, n: nat, exact: nat)
    requires n <= |versions|
  {
    n > 0 && (Tests(versions[n - 1], exact) || Tested(versions, n - 1, exact))
  }

  lemma {:induction false} FirstOfBranches(k: Key, tests: seq<Class>, exact: nat)
    ensures var r := FirstOf(Branches(k, tests), exact);
      && (r.Some? <==> exists i :: 0 <= i < |tests| && tests[i].id == exact)
      && (r.Some? ==> exists i :: 0 <= i < |tests| && tests[i].id == exact && r == Some(BranchFor(k, tests[i])))
    decreases |tests|
  {
    var bs := Branches(k, tests);
    if tests != [] {
      assert bs[1..] == Branches(k, tests[1..]);
      FirstOfBranches(k, tests[1..], exact);
      var r := FirstOf(bs[1..], exact);
      if r.Some? && tests[0].id != exact {
        var i :| 0 <= i < |tests[1..]| && tests[1..][i].id == exact && r == Some(BranchFor(k, tests[1..][i]));
        assert tests[i + 1] == tests[1..][i];
      }
      if i :| 0 <= i < |tests| && tests[i].id == exact {
        if i > 0 { assert tests[1..][i - 1].id == exact; }
      }
    }
  }

  lemma SameId(w: Subclasses, c: Class, d: Class)
    requires Hierarchy(w) && c in w && d in w && c.id == d.id
    ensures c == d
  {}

  /** A version that tests an exact type calls the method that type inherits, with a downcast if another
      class owns it. */
  lemma HitIsLookup(w: Subclasses, k: Key, s: Switch, i: nat, d: Class)
    requires Hierarchy(w) && k.meth in k.owner.methods && OneProper(w, k, s, i) && d in w && Tests(s, d.id)
    ensures IsSub(d, k.owner) && Nearest(d, k.meth).Some?
    ensures FirstOf(s.branches, d.id) == Some(BranchFor(k, d))
  {
    hide Hierarchy, Chain, Branches, OfChunk, FirstOf, Nearest;
    var chunk :| k.owner in w && s.branches == Branches(k, OfChunk(w[k.owner], chunk));
    var tests := OfChunk(w[k.owner], chunk);
    FirstOfBranches(k, tests, d.id);
    var j :| 0 <= j < |tests| && tests[j].id == d.id && FirstOf(s.branches, d.id) == Some(BranchFor(k, tests[j]));
    OfChunkHas(w[k.owner], chunk, tests[j]);
    Known(w, k.owner, tests[j]);
    SameId(w, tests[j], d);
    NearestStops(d, k.meth, k.owner);
  }

  lemma ProperAt(w: Subclasses, k: Key, versions: seq<Switch>, i: nat)
    requires Proper(w, k, versions) && i < |versions|
    ensures OneProper(w, k, versions[i], i) && versions[i].otherwise == (if i == 0 then Own else Earlier(i))
  {}

  /** A dispatch function comes to the branch of every exact type that some version tests, and to none
      for any other. */
  lemma {:induction false} TakenIs(w: Subclasses, k: Key, versions: seq<Switch>, n: nat, d: Class)
    requires Hierarchy(w) && Proper(w, k, versions) && n <= |versions| && d in w && k.owner in Chain(d) && k.meth in k.owner.methods
    ensures Nearest(d, k.meth).Some?
    ensures Taken(versions, n, d.id) == if Tested(versions, n, d.id) then Some(BranchFor(k, d)) else None
    decreases n
  {
    hide Hierarchy, Proper, OneProper, Chain, Nearest, FirstOf, BranchFor;
    NearestStops(d, k.meth, k.owner);
    if n > 0 {
      var s := versions[n - 1];
      ProperAt(w, k, versions, n - 1);
      TakenIs(w, k, versions, n - 1, d);
      if Tests(s, d.id) { HitIsLookup(w, k, s, n - 1, d); }
    }
  }

  /** It calls the inherited method for the former and its own class's method for the latter. */
  lemma RunCalls(w: Subclasses, k: Key, versions: seq<Switch>, n: nat, d: Class)
    requires Hierarchy(w) && Proper(w, k, versions) && n <= |versions| && d in w && k.owner in Chain(d) && k.meth in k.owner.methods
    ensures Nearest(d, k.meth).Some?
    ensures Run(versions, n, k, d.id) == if Tested(versions, n, d.id) then Nearest(d, k.meth).value else k.owner
  {
    TakenIs(w, k, versions, n, d);
  }

  /** Dispatch is method lookup exactly for the exact types tested somewhere and those that inherit
      from no class below the static type. */
  lemma DispatchExact(w: Subclasses, k: Key, versions: seq<Switch>, d: Class)
    requires Hierarchy(w) && Proper(w, k, versions) && d in w && k.owner in Chain(d)
    ensures Inherits(d, k.meth, Run(versions, |versions|, k, d.id))
      <==> Tested(versions, |versions|, d.id) || forall c :: c in Chain(d) && c != k.owner && k.owner in Chain(c) ==> k.meth !in c.methods
  {
    RunCalls(w, k, versions, |versions|, d);
    var n := Nearest(d, k.meth).value;
    NearestStops(d, k.meth, k.owner);
    NearestIsLookup(d, k.meth, Run(versions, |versions|, k, d.id));
    NearestIsLookup(d, k.meth, n);
    if n == k.owner {
      forall c | c in Chain(d) && c != k.owner && k.owner in Chain(c) ensures k.meth !in c.methods {
        if k.meth in c.methods { ChainAntisymmetric(c, k.owner); }
      }
    }
  }

  // ----- the visitor's tables -----

  /** The dispatch functions in scope, by version: `_dispatch_A_m`, `_dispatch_2_A_m`, ... */
  type Functions = map<Key, seq<Switch>>

  ghost predicate AllProper(w: Subclasses, t: Functions) { forall k :: k in t ==> Proper(w, k, t[k]) }

  /** The counters name the latest version of each function that has more than one. */
  ghost predicate Synced(t: Functions, counts: map<Key, nat>) {
    forall k :: (k in counts <==> k in t && |t[k]| >= 2) && (k in counts ==> counts[k] == |t[k]|)
  }

  /** The versions that entering the scope found. */
  ghost function Base(outer: Functions, k: Key): nat { if k in outer then |outer[k]| else 1 }

  /** The additions since the scope was entered. */
  ghost predicate Counted(t: Functions, outer: Functions, added: seq<Key>) {
    && (forall k :: k in outer ==> k in t && outer[k] <= t[k])
    && (forall k :: k in added ==> k in t)
    && (forall k :: k in t ==> |t[k]| == Base(outer, k) + multiset(added)[k])
  }

  /** The chunk declares the method. */
  ghost predicate Declares(chunk: seq<Class>, k: Key) { k.owner in chunk && k.meth in k.owner.methods }

  /** The methods `mains` redefine a method of an earlier chunk. */
  ghost predicate Redefines(chunk: seq<Class>, mains: set<Key>, k: Key) {
    k.owner !in chunk && k.meth in k.owner.methods && exists c :: Key(c, k.meth) in mains && IsSub(c, k.owner)
  }

  /** From `t0`, functions for `mains` have been added, and one more version of those in `seen`. */
  ghost predicate Built(w: Subclasses, chunk: seq<Class>, t0: Functions, t: Functions, seen: set<Key>, mains: set<Key>) {
    && (forall k :: k in mains ==> Declares(chunk, k) && k.owner in w && k in t && t[k] == [SwitchOf(w, k, chunk, 1)])
    && (forall k :: k in seen ==> k.owner !in chunk && k.owner in w && k in t0 && k in t
                                  && t[k] == t0[k] + [SwitchOf(w, k, chunk, |t0[k]| + 1)])
    && (forall k :: k !in mains && k !in seen ==> (k in t <==> k in t0) && (k in t ==> t[k] == t0[k]))
  }

  /** The super classes that own the method have their dispatch functions already. */
  ghost predicate Ready(chunk: seq<Class>, t0: Functions, c: Class, m: Sym) {
    forall d :: IsSub(c, d) && d !in chunk && m in d.methods ==> Key(d, m) in t0
  }

  lemma BuiltMain(w: Subclasses, chunk: seq<Class>, t0: Functions, t: Functions, seen: set<Key>, mains: set<Key>, k: Key)
    requires Built(w, chunk, t0, t, seen, mains) && Declares(chunk, k) && k.owner in w && k !in t0
    ensures Built(w, chunk, t0, t[k := [SwitchOf(w, k, chunk, 1)]], seen, mains + {k})
  {
    hide SwitchOf;
  }

  lemma BuiltSub(w: Subclasses, chunk: seq<Class>, t0: Functions, t: Functions, seen: set<Key>, mains: set<Key>, k: Key)
    requires Built(w, chunk, t0, t, seen, mains) && k.owner !in chunk && k.owner in w && k in t0 && k !in seen
    ensures k in t && t[k] == t0[k]
    ensures Built(w, chunk, t0, t[k := t[k] + [SwitchOf(w, k, chunk, |t[k]| + 1)]], seen + {k}, mains)
  {
    hide SwitchOf;
  }

  /** A new version is proper as long as it tests something. */
  lemma ProperMore(w: Subclasses, k: Key, versions: seq<Switch>, chunk: seq<Class>, c: Class)
    requires Hierarchy(w) && Proper(w, k, versions) && c in chunk && c in w && IsSub(c, k.owner)
    ensures Proper(w, k, versions + [SwitchOf(w, k, chunk, |versions| + 1)])
  {
    hide Hierarchy, Branches, OfChunk, Chain;
    var s := SwitchOf(w, k, chunk, |versions| + 1);
    var more := versions + [s];
    Known(w, k.owner, c);
    OfChunkHas(w[k.owner], chunk, c);
    assert OneProper(w, k, s, |versions|);
    forall i | 0 <= i < |more| ensures OneProper(w, k, more[i], i) {
      if i < |versions| { assert OneProper(w, k, versions[i], i); }
    }
  }

  lemma ProperOne(w: Subclasses, k: Key, chunk: seq<Class>)
    requires k.owner in w && k.meth in k.owner.methods
    ensures Proper(w, k, [SwitchOf(w, k, chunk, 1)])
  {
    hide Branches, OfChunk;
    assert OneProper(w, k, SwitchOf(w, k, chunk, 1), 0);
  }

  lemma CountedMore(t: Functions, outer: Functions, added: seq<Key>, k: Key, s: Switch)
    requires Counted(t, outer, added) && k in t
    ensures Counted(t[k := t[k] + [s]], outer, added + [k])
  {
    assert multiset(added + [k]) == multiset(added) + multiset{k};
  }

  lemma CountedMain(t: Functions, outer: Functions, added: seq<Key>, k: Key, s: Switch)
    requires Counted(t, outer, added) && k !in t
    ensures Counted(t[k := [s]], outer, added)
  {
    assert k !in multiset(added);
  }

  /** The super classes of a class. */
  function Supers(c: Class): seq<Class> { if c.super.Some? then Chain(c.super.value) else [] }

  lemma SupersAre(c: Class, d: Class)
    ensures d in Supers(c) <==> IsSub(c, d)
  {
    if c.super.Some? && c in Chain(c.super.value) { ChainShorter(c.super.value, c); }
  }

  lemma ChainStep(c: Class, done: seq<Class>)
    ensures done + Chain(c) == (done + [c]) + Supers(c)
  {
    assert Chain(c) == [c] + Supers(c);
  }

  lemma ChainHead(c: Class, done: seq<Class>)
    ensures c in done + Chain(c)
  {
    assert (done + Chain(c))[|done|] == c;
  }

  lemma KnownSuper(w: Subclasses, c: Class, d: Class)
    requires Hierarchy(w) && c in w && IsSub(c, d)
    ensures d in w
  {}

  lemma NoneWalked(seen: set<Key>, chunk: seq<Class>, m: Sym)
    ensures Walked(seen, seen, [], chunk, m)
  {}

  lemma ReadyAt(chunk: seq<Class>, t0: Functions, c: Class, m: Sym, d: Class)
    requires Ready(chunk, t0, c, m) && IsSub(c, d) && d !in chunk && m in d.methods
    ensures Key(d, m) in t0
  {}

  lemma MainNew(w: Subclasses, chunk: seq<Class>, t0: Functions, t: Functions, seen: set<Key>, mains: set<Key>, k: Key)
    requires Built(w, chunk, t0, t, seen, mains) && k !in mains && k !in t0
    ensures k !in t
  {
    hide SwitchOf;
  }

  lemma SyncedMain(t: Functions, counts: map<Key, nat>, k: Key, s: Switch)
    requires Synced(t, counts) && k !in t
    ensures k !in counts && Synced(t[k := [s]], counts)
  {}

  lemma SyncedMore(t: Functions, counts: map<Key, nat>, k: Key, s: Switch)
    requires Synced(t, counts) && k in t && t[k] != []
    ensures (if k in counts then counts[k] + 1 else 2) == |t[k]| + 1
    ensures Synced(t[k := t[k] + [s]], counts[k := |t[k]| + 1])
  {}

  lemma AllProperWith(w: Subclasses, t: Functions, k: Key, versions: seq<Switch>)
    requires AllProper(w, t) && Proper(w, k, versions)
    ensures AllProper(w, t[k := versions])
  {
    hide Proper;
  }

  lemma ProperKey(w: Subclasses, t: Functions, k: Key)
    requires AllProper(w, t) && k in t
    ensures Proper(w, k, t[k]) && k.owner in w && k.meth in k.owner.methods && t[k] != []
  {}

  /** What one more method redefines. */
  lemma RedefinesMore(chunk: seq<Class>, mains: set<Key>, cls: Class, m: Sym, k: Key)
    ensures Redefines(chunk, mains + {Key(cls, m)}, k)
      <==> Redefines(chunk, mains, k) || (k.meth == m && k.owner in Supers(cls) && k.owner !in chunk && m in k.owner.methods)
  {
    hide IsSub, Supers;
    SupersAre(cls, k.owner);
    var more := mains + {Key(cls, m)};
    if k.meth == m && IsSub(cls, k.owner) { assert Key(cls, k.meth) in more; }
    if Redefines(chunk, mains, k) {
      var c :| Key(c, k.meth) in mains && IsSub(c, k.owner);
      assert Key(c, k.meth) in more;
    }
  }

  /** The keys seen after walking up the classes `done`. */
  ghost predicate Walked(seen: set<Key>, before: set<Key>, done: seq<Class>, chunk: seq<Class>, m: Sym) {
    forall k :: k in seen <==> k in before || (k.meth == m && k.owner in done && k.owner !in chunk && m in k.owner.methods)
  }

  lemma WalkedStep(seen: set<Key>, before: set<Key>, done: seq<Class>, chunk: seq<Class>, m: Sym, c: Class)
    requires Walked(seen, before, done, chunk, m)
    ensures Walked(if c !in chunk && m in c.methods then seen + {Key(c, m)} else seen, before, done + [c], chunk, m)
  {
    assert forall d :: d in done + [c] <==> d in done || d == c;
  }

  ghost predicate SeenAre(seen: set<Key>, chunk: seq<Class>, mains: set<Key>) { forall k :: k in seen <==> Redefines(chunk, mains, k) }

  lemma SeenMore(seen: set<Key>, before: set<Key>, chunk: seq<Class>, mains: set<Key>, cls: Class, m: Sym)
    requires SeenAre(before, chunk, mains) && Walked(seen, before, Supers(cls), chunk, m)
    ensures SeenAre(seen, chunk, mains + {Key(cls, m)})
  {
    hide Redefines, Supers;
    forall k ensures k in seen <==> Redefines(chunk, mains + {Key(cls, m)}, k) { RedefinesMore(chunk, mains, cls, m, k); }
  }

  // ----- a chunk of classes -----

  /** The classes are new, and each class found so far has its dispatch functions. */
  ghost predicate NewChunk(w: Subclasses, chunk: seq<Class>, t: Functions) {
    && NoRepeat(chunk) && (forall k :: k in t ==> k.owner !in chunk)
    && forall c :: c in chunk ==> c in w && NoRepeat(c.methods) && forall m :: m in c.methods ==> Ready(chunk, t, c, m)
  }

  /** Some class of the chunk redefines a method of an earlier chunk. */
  ghost predicate Overrides(chunk: seq<Class>, k: Key) {
    k.owner !in chunk && k.meth in k.owner.methods && exists c :: c in chunk && k.meth in c.methods && IsSub(c, k.owner)
  }

  /** What a chunk does to the functions in scope. */
  ghost predicate Extended(w: Subclasses, chunk: seq<Class>, t0: Functions, t: Functions) {
    && (forall k :: Declares(chunk, k) ==> k.owner in w && k in t && t[k] == [SwitchOf(w, k, chunk, 1)])
    && (forall k :: Overrides(chunk, k) ==> k.owner in w && k in t0 && k in t && t[k] == t0[k] + [SwitchOf(w, k, chunk, |t0[k]| + 1)])
    && (forall k :: !Declares(chunk, k) && !Overrides(chunk, k) ==> (k in t <==> k in t0) && (k in t ==> t[k] == t0[k]))
  }

  ghost predicate Declared(mains: set<Key>, cs: seq<Class>) { forall k :: k in mains <==> Declares(cs, k) }

  ghost function KeysOf(c: Class, ms: seq<Sym>): set<Key> { set m | m in ms :: Key(c, m) }

  lemma NothingBuilt(w: Subclasses, chunk: seq<Class>, t: Functions)
    ensures Built(w, chunk, t, t, {}, {}) && SeenAre({}, chunk, {}) && Declared({}, chunk[..0])
  {}

  lemma NoKeys(c: Class)
    ensures forall mains: set<Key> :: mains + KeysOf(c, c.methods[..0]) == mains
  {}

  lemma NewMethod(w: Subclasses, chunk: seq<Class>, t0: Functions, before: set<Key>, i: nat, j: nat)
    requires NewChunk(w, chunk, t0) && i < |chunk| && j < |chunk[i].methods| && Declared(before, chunk[..i])
    ensures var c := chunk[i];
      var k, mains := Key(c, c.methods[j]), before + KeysOf(c, c.methods[..j]);
      && c in w && c.methods[j] in c.methods && k !in t0 && Ready(chunk, t0, c, c.methods[j]) && k !in mains
      && before + KeysOf(c, c.methods[..j + 1]) == mains + {k}
  {
    hide Ready;
    var c := chunk[i];
    var ms := c.methods;
    var k := Key(c, ms[j]);
    assert c in chunk && NoRepeat(ms);
    assert c !in chunk[..i];
    assert ms[..j + 1] == ms[..j] + [ms[j]];
    assert ms[j] !in ms[..j];
    assert KeysOf(c, ms[..j + 1]) == KeysOf(c, ms[..j]) + {k};
  }

  lemma DeclaredMore(before: set<Key>, chunk: seq<Class>, i: nat)
    requires i < |chunk| && Declared(before, chunk[..i])
    ensures Declared(before + KeysOf(chunk[i], chunk[i].methods[..|chunk[i].methods|]), chunk[..i + 1])
  {
    var c := chunk[i];
    assert c.methods[..|c.methods|] == c.methods;
    assert chunk[..i + 1] == chunk[..i] + [c];
  }

  lemma BuiltAll(w: Subclasses, chunk: seq<Class>, t0: Functions, t: Functions, seen: set<Key>, mains: set<Key>)
    requires Built(w, chunk, t0, t, seen, mains) && SeenAre(seen, chunk, mains) && Declared(mains, chunk)
    ensures Extended(w, chunk, t0, t)
  {
    hide IsSub, SwitchOf;
    forall k ensures k in seen <==> Overrides(chunk, k) {
      if k in seen {
        var c :| Key(c, k.meth) in mains && IsSub(c, k.owner);
        assert Declares(chunk, Key(c, k.meth));
      }
      if Overrides(chunk, k) {
        var c :| c in chunk && k.meth in c.methods && IsSub(c, k.owner);
        assert Declares(chunk, Key(c, k.meth));
      }
    }
  }

  // ----- scopes -----

  lemma NothingAdded(t: Functions)
    ensures Counted(t, t, [])
  {}

  /** The counters with the additions `dropped` taken back. */
  ghost predicate Sinking(t: Functions, dropped: multiset<Key>, counts: map<Key, nat>) {
    forall k :: (k in counts <==> k in t && |t[k]| - dropped[k] >= 2) && (k in counts ==> counts[k] == |t[k]| - dropped[k])
  }

  lemma NothingDropped(t: Functions, counts: map<Key, nat>)
    requires Synced(t, counts)
    ensures Sinking(t, multiset([]), counts)
  {}

  lemma PrefixHas(added: seq<Key>, i: nat)
    requires i < |added|
    ensures multiset(added[..i + 1]) == multiset(added[..i]) + multiset{added[i]}
    ensures multiset(added)[added[i]] > multiset(added[..i])[added[i]]
  {
    assert added[..i + 1] == added[..i] + [added[i]];
    assert added == added[..i + 1] + added[i + 1..];
    assert multiset(added) == multiset(added[..i + 1]) + multiset(added[i + 1..]);
  }

  lemma DropOne(w: Subclasses, t: Functions, outer: Functions, added: seq<Key>, i: nat, counts: map<Key, nat>)
    requires AllProper(w, outer) && Counted(t, outer, added) && i < |added| && Sinking(t, multiset(added[..i]), counts)
    ensures var k := added[i];
      k in counts && counts[k] >= 2
      && Sinking(t, multiset(added[..i + 1]), if counts[k] == 2 then counts - {k} else counts[k := counts[k] - 1])
  {
    var k := added[i];
    PrefixHas(added, i);
    assert k in added;
    if k in outer { ProperKey(w, outer, k); }
    hide AllProper, Proper;
    SinkOne(t, multiset(added[..i]), counts, k);
  }

  lemma SinkOne(t: Functions, dropped: multiset<Key>, counts: map<Key, nat>, k: Key)
    requires Sinking(t, dropped, counts) && k in t && |t[k]| - dropped[k] >= 2
    ensures k in counts && counts[k] >= 2
    ensures Sinking(t, dropped + multiset{k}, if counts[k] == 2 then counts - {k} else counts[k := counts[k] - 1])
  {}

  lemma AllDropped(t: Functions, outer: Functions, added: seq<Key>, counts: map<Key, nat>)
    requires Counted(t, outer, added) && Sinking(t, multiset(added), counts)
    ensures Synced(outer, counts)
  {}

  class DesugarVisitor {
    const subclasses: Subclasses
    var dispatchMap: map<Key, nat>
    var dispatchAdded: seq<Key>
    var functions: Functions
    /** The functions that were in scope where the innermost `let` was entered. */
    var outer: Functions

    constructor (w: Subclasses)
      requires Hierarchy(w)
      ensures subclasses == w && Valid() && functions == map[] && outer == map[]
    {
      subclasses := w;
      dispatchMap, dispatchAdded, functions, outer := map[], [], map[], map[];
    }

    ghost predicate Valid()
      reads this
    {
      Hierarchy(subclasses) && AllProper(subclasses, functions) && Synced(functions, dispatchMap) && Counted(functions, outer, dispatchAdded)
    }

    method DispatchSwitch(k: Key, chunk: seq<Class>, sub: bool) returns (s: Switch)
      requires Hierarchy(subclasses) && k.owner in subclasses && k.meth in k.owner.methods
      requires sub ==> k in dispatchMap && dispatchMap[k] >= 2
      ensures s == SwitchOf(subclasses, k, chunk, if sub then dispatchMap[k] else 1)
    {
      hide Hierarchy, Chain, Nearest;
      var overridings, subs := [], subclasses[k.owner];
      assert subs[..0] == [];
      for i := 0 to |subs|
        invariant overridings == OfChunk(subs[..i], chunk)
      {
        assert subs[..i + 1][..i] == subs[..i];
        if subs[i] in chunk { overridings := overridings + [subs[i]]; }
      }
      assert subs[..|subs|] == subs;
      var branches := [];
      for i := 0 to |overridings|
        invariant branches == Branches(k, overridings[..i])
      {
        var c := overridings[i];
        OfChunkHas(subs, chunk, c);
        Known(subclasses, k.owner, c);
        NearestStops(c, k.meth, k.owner);
        var n := FindNearest(c, k.meth);
        branches := branches + [Branch(c.id, n, n != k.owner)];
        assert overridings[..i + 1] == overridings[..i] + [c];
      }
      assert overridings[..|overridings|] == overridings;
      if overridings == [] {
        s := Switch([], Own);
      } else {
        s := Switch(branches, if sub then Earlier(dispatchMap[k] - 1) else Own);
      }
    }

    method FindNearest(c: Class, m: Sym) returns (n: Class)
      requires Nearest(c, m).Some?
      ensures Nearest(c, m) == Some(n)
    {
      n := c;
      while m !in n.methods
        invariant Nearest(n, m) == Nearest(c, m)
        decreases n
      {
        n := n.super.value;
      }
    }

    /** One more version of a dispatch function of an earlier chunk. */
    method SubDispatch(chunk: seq<Class>, cls: Class, k: Key, seen: set<Key>, ghost t0: Functions, ghost mains: set<Key>)
      returns (seen2: set<Key>)
      requires Valid() && cls in chunk && cls in subclasses && IsSub(cls, k.owner)
      requires k.owner !in chunk && k in t0 && k !in seen && Built(subclasses, chunk, t0, functions, seen, mains)
      requires k.owner in subclasses
      modifies this
      ensures Valid() && outer == old(outer) && seen2 == seen + {k}
      ensures Built(subclasses, chunk, t0, functions, seen2, mains)
    {
      hide Hierarchy, Built, AllProper, Counted, Synced, SwitchOf, Proper, IsSub;
      BuiltSub(subclasses, chunk, t0, functions, seen, mains, k);
      ProperKey(subclasses, functions, k);
      ProperMore(subclasses, k, functions[k], chunk, cls);
      ghost var s := SwitchOf(subclasses, k, chunk, |functions[k]| + 1);
      SyncedMore(functions, dispatchMap, k, s);
      AllProperWith(subclasses, functions, k, functions[k] + [s]);
      CountedMore(functions, outer, dispatchAdded, k, s);
      seen2 := seen + {k};
      dispatchMap := dispatchMap[k := if k in dispatchMap then dispatchMap[k] + 1 else 2];
      dispatchAdded := dispatchAdded + [k];
      var sw := DispatchSwitch(k, chunk, true);
      functions := functions[k := functions[k] + [sw]];
    }

    method MainDispatch(chunk: seq<Class>, k: Key, ghost seen: set<Key>, ghost t0: Functions, ghost mains: set<Key>)
      requires Valid() && Declares(chunk, k) && k.owner in subclasses && k !in t0 && k !in mains
      requires Built(subclasses, chunk, t0, functions, seen, mains)
      modifies this`functions
      ensures Valid() && Built(subclasses, chunk, t0, functions, seen, mains + {k})
    {
      hide Hierarchy, Built, AllProper, Counted, Synced, SwitchOf, Proper;
      var sw := DispatchSwitch(k, chunk, false);
      MainNew(subclasses, chunk, t0, functions, seen, mains, k);
      BuiltMain(subclasses, chunk, t0, functions, seen, mains, k);
      ProperOne(subclasses, k, chunk);
      AllProperWith(subclasses, functions, k, [sw]);
      CountedMain(functions, outer, dispatchAdded, k, sw);
      SyncedMain(functions, dispatchMap, k, sw);
      functions := functions[k := [sw]];
    }

    /** A version for the classes of this chunk is added to the dispatch function of each method of an
        earlier chunk that `m` redefines, once in the chunk; then the function of `m` itself. */
    method DispatchFunction(chunk: seq<Class>, cls: Class, m: Sym, seen: set<Key>, ghost t0: Functions, ghost mains: set<Key>)
      returns (seen2: set<Key>)
      requires Valid() && cls in chunk && cls in subclasses && m in cls.methods && Key(cls, m) !in t0 && Ready(chunk, t0, cls, m)
      requires Key(cls, m) !in mains && Built(subclasses, chunk, t0, functions, seen, mains) && SeenAre(seen, chunk, mains)
      modifies this
      ensures Valid() && outer == old(outer)
      ensures Built(subclasses, chunk, t0, functions, seen2, mains + {Key(cls, m)}) && SeenAre(seen2, chunk, mains + {Key(cls, m)})
    {
      hide Hierarchy, Built, AllProper, Counted, Synced, Ready, Chain, IsSub, Walked, SeenAre;
      seen2 := seen;
      var s := cls.super;
      ghost var done := [];
      NoneWalked(seen, chunk, m);
      while s.Some?
        invariant done + (if s.Some? then Chain(s.value) else []) == Supers(cls)
        invariant Valid() && outer == old(outer) && Built(subclasses, chunk, t0, functions, seen2, mains)
        invariant Walked(seen2, seen, done, chunk, m)
        decreases s
      {
        var c := s.value;
        ChainStep(c, done);
        WalkedStep(seen2, seen, done, chunk, m, c);
        assert c in Supers(cls) by { ChainHead(c, done); }
        SupersAre(cls, c);
        KnownSuper(subclasses, cls, c);
        s := c.super;
        done := done + [c];
        if c !in chunk && m in c.methods {
          if Key(c, m) !in seen2 {
            ReadyAt(chunk, t0, cls, m, c);
            seen2 := SubDispatch(chunk, cls, Key(c, m), seen2, t0, mains);
          } else {
            assert seen2 + {Key(c, m)} == seen2;
          }
        }
      }
      assert done + [] == done;
      SeenMore(seen2, seen, chunk, mains, cls, m);
      MainDispatch(chunk, Key(cls, m), seen2, t0, mains);
    }

    /** A chunk of classes.  Afterwards its methods have dispatch functions that test the subclasses in
        the chunk, and methods of earlier chunks have got one more version if and only if the chunk
        redefines them. */
    method TypeChunk(chunk: seq<Class>)
      requires Valid() && NewChunk(subclasses, chunk, functions)
      modifies this
      ensures Valid() && outer == old(outer)
      ensures Extended(subclasses, chunk, old(functions), functions)
    {
      hide Hierarchy, Built, AllProper, Counted, Synced, Ready, SeenAre, Declared, NewChunk, Extended, KeysOf;
      ghost var t0 := functions;
      var seen := {};
      ghost var mains := {};
      NothingBuilt(subclasses, chunk, t0);
      for i := 0 to |chunk|
        invariant Valid() && outer == old(outer) && Built(subclasses, chunk, t0, functions, seen, mains) && SeenAre(seen, chunk, mains)
        invariant Declared(mains, chunk[..i])
      {
        var c := chunk[i];
        ghost var before := mains;
        NoKeys(c);
        for j := 0 to |c.methods|
          invariant Valid() && outer == old(outer) && Built(subclasses, chunk, t0, functions, seen, mains) && SeenAre(seen, chunk, mains)
          invariant mains == before + KeysOf(c, c.methods[..j])
        {
          NewMethod(subclasses, chunk, t0, before, i, j);
          seen := DispatchFunction(chunk, c, c.methods[j], seen, t0, mains);
          mains := mains + {Key(c, c.methods[j])};
        }
        DeclaredMore(before, chunk, i);
      }
      assert chunk[..|chunk|] == chunk;
      BuiltAll(subclasses, chunk, t0, functions, seen, mains);
    }

    /** The chunks of a scope, in turn. */
    method TypeChunks(chunks: seq<seq<Class>>) returns (ghost ts: seq<Functions>)
      requires Valid() && functions == map[] && Orderly(subclasses, chunks)
      modifies this
      ensures Valid() && outer == old(outer) && Visited(subclasses, chunks, ts) && functions == ts[|chunks|]
    {
      hide Orderly, Extended, NewChunk, Hierarchy, AllProper, Counted, Synced;
      ts := [functions];
      for n := 0 to |chunks|
        invariant Valid() && outer == old(outer) && Visited(subclasses, chunks[..n], ts) && functions == ts[n]
      {
        NextIsNew(subclasses, chunks, ts, n);
        TypeChunk(chunks[n]);
        VisitedMore(subclasses, chunks, ts, n, functions);
        ts := ts + [functions];
      }
      assert chunks[..|chunks|] == chunks;
    }

    /** Entering a `let`: the additions of the scope around it are set aside. */
    method EnterLet() returns (saved: seq<Key>, around: Functions)
      requires Valid()
      modifies this
      ensures Valid() && saved == old(dispatchAdded) && around == old(outer) && outer == functions == old(functions)
      ensures Counted(outer, around, saved) && dispatchMap == old(dispatchMap)
    {
      hide Hierarchy, AllProper, Synced;
      saved, around := dispatchAdded, outer;
      dispatchAdded, outer := [], functions;
      NothingAdded(functions);
    }

    /** Leaving it: the functions of the scope are gone, and the counters are those from before, so that
        every name means the version in scope again. */
    method LeaveLet(saved: seq<Key>, around: Functions)
      requires Valid() && AllProper(subclasses, outer) && Counted(outer, around, saved)
      modifies this
      ensures Valid() && outer == around && dispatchAdded == saved && functions == old(outer)
    {
      hide Hierarchy, AllProper, Synced, Counted, Sinking;
      var added := dispatchAdded;
      assert added[..0] == [];
      NothingDropped(functions, dispatchMap);
      for i := 0 to |added|
        invariant Sinking(functions, multiset(added[..i]), dispatchMap)
        invariant functions == old(functions) && outer == old(outer)
      {
        var k := added[i];
        DropOne(subclasses, functions, outer, added, i, dispatchMap);
        if dispatchMap[k] == 2 {
          dispatchMap := dispatchMap - {k};
        } else {
          dispatchMap := dispatchMap[k := dispatchMap[k] - 1];
        }
      }
      assert added[..|added|] == added;
      AllDropped(functions, outer, added, dispatchMap);
      dispatchAdded, functions, outer := saved, outer, around;
    }
  }

  // ----- what dispatch calls -----

  /** The class whose method the latest dispatch function calls. */
  function Calls(versions: seq<Switch>, k: Key, exact: nat): Class { Run(versions, |versions|, k, exact) }

  lemma TestsSwitch(w: Subclasses, k: Key, chunk: seq<Class>, version: nat, d: Class)
    requires Hierarchy(w) && k.owner in w && d in w
    ensures Tests(SwitchOf(w, k, chunk, version), d.id) <==> d in chunk && IsSub(d, k.owner)
  {
    hide Chain, Branches, OfChunk, FirstOf, Hierarchy;
    var tests := OfChunk(w[k.owner], chunk);
    FirstOfBranches(k, tests, d.id);
    OfChunkHas(w[k.owner], chunk, d);
    Known(w, k.owner, d);
    if i :| 0 <= i < |tests| && tests[i].id == d.id {
      OfChunkHas(w[k.owner], chunk, tests[i]);
      Known(w, k.owner, tests[i]);
      SameId(w, tests[i], d);
    }
  }

  /** Within its chunk, dispatch is method lookup: for the class itself and for every subclass the
      chunk declares, the method called is the inherited one. */
  lemma ChunkDispatch(w: Subclasses, chunk: seq<Class>, t0: Functions, t: Functions, k: Key, d: Class)
    requires Hierarchy(w) && AllProper(w, t) && Extended(w, chunk, t0, t) && Declares(chunk, k)
    requires d in w && (d in chunk || d == k.owner) && k.owner in Chain(d)
    ensures Inherits(d, k.meth, Calls(t[k], k, d.id))
  {
    hide Hierarchy, Proper, Run, Tests;
    DispatchExact(w, k, t[k], d);
    TestsSwitch(w, k, chunk, 1, d);
    if d == k.owner {
      forall c | c in Chain(d) && c != k.owner && k.owner in Chain(c) ensures false { ChainAntisymmetric(d, c); }
    } else {
      assert Tested(t[k], 1, d.id);
    }
  }

  lemma {:induction false} TestedPrefix(a: seq<Switch>, s: Switch, n: nat, exact: nat)
    requires n <= |a|
    ensures Tested(a + [s], n, exact) == Tested(a, n, exact)
  {
    hide Tests;
    if n > 0 { TestedPrefix(a, s, n - 1, exact); }
  }

  // ----- one chunk after another -----

  /** Chunks of known classes, none declared twice, each after or together with its super classes. */
  ghost predicate Orderly(w: Subclasses, chunks: seq<seq<Class>>) {
    && (forall i :: 0 <= i < |chunks| ==> NoRepeat(chunks[i]))
    && (forall i, c :: 0 <= i < |chunks| && c in chunks[i] ==> c in w && NoRepeat(c.methods))
    && (forall i, c, d :: 0 <= i < |chunks| && c in chunks[i] && IsSub(c, d) ==> exists j :: 0 <= j <= i && d in chunks[j])
    && (forall i, j, c :: 0 <= i < |chunks| && 0 <= j < |chunks| && c in chunks[i] && c in chunks[j] ==> i == j)
  }

  /** `ts[i]` are the functions in scope after the first `i` chunks. */
  ghost predicate Visited(w: Subclasses, chunks: seq<seq<Class>>, ts: seq<Functions>) {
    |ts| == |chunks| + 1 && ts[0] == map[] && forall i :: 0 <= i < |chunks| ==> Extended(w, chunks[i], ts[i], ts[i + 1])
  }

  ghost predicate DeclaredBefore(chunks: seq<seq<Class>>, n: nat, k: Key)
    requires n <= |chunks|
  {
    exists i :: 0 <= i < n && Declares(chunks[i], k)
  }

  lemma {:induction false} KeysVisited(w: Subclasses, chunks: seq<seq<Class>>, ts: seq<Functions>, n: nat, k: Key)
    requires Visited(w, chunks, ts) && n <= |chunks|
    ensures k in ts[n] <==> DeclaredBefore(chunks, n, k)
  {
    if n > 0 {
      hide Declares, Overrides, SwitchOf;
      KeysVisited(w, chunks, ts, n - 1, k);
      assert Extended(w, chunks[n - 1], ts[n - 1], ts[n]);
    }
  }

  /** The next chunk is new, and the super classes of its classes have their functions. */
  lemma NextIsNew(w: Subclasses, chunks: seq<seq<Class>>, ts: seq<Functions>, n: nat)
    requires Orderly(w, chunks) && n < |chunks| && Visited(w, chunks[..n], ts)
    ensures NewChunk(w, chunks[n], ts[n])
  {
    forall k | k in ts[n] ensures k.owner !in chunks[n] {
      KeysVisited(w, chunks[..n], ts, n, k);
      var i :| 0 <= i < n && Declares(chunks[..n][i], k);
      assert k.owner in chunks[i];
    }
    forall c, m | c in chunks[n] && m in c.methods ensures Ready(chunks[n], ts[n], c, m) {
      forall d | IsSub(c, d) && d !in chunks[n] && m in d.methods ensures Key(d, m) in ts[n] {
        var j :| 0 <= j <= n && d in chunks[j];
        assert Declares(chunks[..n][j], Key(d, m));
        KeysVisited(w, chunks[..n], ts, n, Key(d, m));
      }
    }
  }

  lemma VisitedMore(w: Subclasses, chunks: seq<seq<Class>>, ts: seq<Functions>, n: nat, t: Functions)
    requires n < |chunks| && Visited(w, chunks[..n], ts) && Extended(w, chunks[n], ts[n], t)
    ensures Visited(w, chunks[..n + 1], ts + [t])
  {
    hide Extended;
    var more, us := chunks[..n + 1], ts + [t];
    forall i | 0 <= i < |more| ensures Extended(w, more[i], us[i], us[i + 1]) {
      if i < n { assert Extended(w, chunks[..n][i], ts[i], ts[i + 1]); }
    }
  }

  lemma {:induction false} VisitedProper(w: Subclasses, chunks: seq<seq<Class>>, ts: seq<Functions>, n: nat, k: Key)
    requires Hierarchy(w) && Orderly(w, chunks) && Visited(w, chunks, ts) && n <= |chunks| && k in ts[n]
    ensures Proper(w, k, ts[n][k])
  {
    hide Hierarchy, Proper, SwitchOf;
    if n > 0 {
      var chunk := chunks[n - 1];
      assert Extended(w, chunk, ts[n - 1], ts[n]);
      if Declares(chunk, k) {
        ProperOne(w, k, chunk);
      } else {
        VisitedProper(w, chunks, ts, n - 1, k);
        if Overrides(chunk, k) {
          var c :| c in chunk && k.meth in c.methods && IsSub(c, k.owner);
          ProperMore(w, k, ts[n - 1][k], chunk, c);
        }
      }
    }
  }

  /** One of the first `n` chunks has the class and makes a version for it. */
  ghost predicate Covered(chunks: seq<seq<Class>>, n: nat, k: Key, d: Class)
    requires n <= |chunks|
  {
    exists i :: 0 <= i < n && d in chunks[i] && (Declares(chunks[i], k) || Overrides(chunks[i], k))
  }

  /** Versions test classes of the chunks visited so far, and of those exactly the subclasses in
      chunks that declare or redefine the method. */
  lemma {:induction false} VisitedTests(w: Subclasses, chunks: seq<seq<Class>>, ts: seq<Functions>, n: nat, k: Key, d: Class)
    requires Hierarchy(w) && Orderly(w, chunks) && Visited(w, chunks, ts) && n <= |chunks| && k in ts[n] && d in w
    ensures Tested(ts[n][k], |ts[n][k]|, d.id) <==> IsSub(d, k.owner) && Covered(chunks, n, k, d)
  {
    hide Hierarchy, Orderly, SwitchOf, Tests, IsSub;
    if n > 0 {
      var chunk, t0, t := chunks[n - 1], ts[n - 1], ts[n];
      assert Extended(w, chunk, t0, t);
      CoveredStep(chunks, n, k, d);
      if Declares(chunk, k) {
        DeclaredOnce(w, chunks, ts, n, k, d);
        TestsSwitch(w, k, chunk, 1, d);
        OneTested(t[k], d.id);
      } else {
        VisitedTests(w, chunks, ts, n - 1, k, d);
        if Overrides(chunk, k) {
          var s := SwitchOf(w, k, chunk, |t0[k]| + 1);
          TestsSwitch(w, k, chunk, |t0[k]| + 1, d);
          TestedPrefix(t0[k], s, |t0[k]|, d.id);
        }
      }
    }
  }

  lemma OneTested(versions: seq<Switch>, exact: nat)
    requires |versions| == 1
    ensures Tested(versions, 1, exact) == Tests(versions[0], exact)
  {
    hide Tests;
  }

  lemma CoveredStep(chunks: seq<seq<Class>>, n: nat, k: Key, d: Class)
    requires 0 < n <= |chunks|
    ensures Covered(chunks, n, k, d)
      <==> Covered(chunks, n - 1, k, d) || (d in chunks[n - 1] && (Declares(chunks[n - 1], k) || Overrides(chunks[n - 1], k)))
  {
    hide Declares, Overrides;
  }

  /** Before the chunk that declares a method none has to do with it. */
  lemma DeclaredOnce(w: Subclasses, chunks: seq<seq<Class>>, ts: seq<Functions>, n: nat, k: Key, d: Class)
    requires Orderly(w, chunks) && Visited(w, chunks, ts) && 0 < n <= |chunks| && Declares(chunks[n - 1], k)
    ensures !Covered(chunks, n - 1, k, d)
  {
    hide SwitchOf;
    forall i | 0 <= i < n - 1 ensures !Declares(chunks[i], k) && !Overrides(chunks[i], k) {
      assert Extended(w, chunks[i], ts[i], ts[i + 1]);
      KeysVisited(w, chunks, ts, i, k);
      NotBefore(w, chunks, n - 1, i, k);
    }
  }

  lemma NotBefore(w: Subclasses, chunks: seq<seq<Class>>, n: nat, i: nat, k: Key)
    requires Orderly(w, chunks) && i <= n < |chunks| && Declares(chunks[n], k)
    ensures !DeclaredBefore(chunks, i, k) && (i < n ==> k.owner !in chunks[i])
  {}

  /** Over any chunks visited in turn: a class is dispatched right if and only if its chunk declares the
      method looked for or redefines it somewhere below the static type, or nothing below the static
      type on its chain owns the method. */
  lemma DispatchOverChunks(w: Subclasses, chunks: seq<seq<Class>>, ts: seq<Functions>, k: Key, i: nat, d: Class, j: nat)
    requires Hierarchy(w) && Orderly(w, chunks) && Visited(w, chunks, ts)
    requires i < |chunks| && Declares(chunks[i], k) && j < |chunks| && d in chunks[j] && k.owner in Chain(d)
    ensures k in ts[|chunks|]
    ensures Inherits(d, k.meth, Calls(ts[|chunks|][k], k, d.id))
      <==> i == j || Overrides(chunks[j], k) || forall c :: c in Chain(d) && c != k.owner && k.owner in Chain(c) ==> k.meth !in c.methods
  {
    hide Hierarchy, Proper, Run, Tests, Chain, Inherits, Tested, Extended;
    var n := |chunks|;
    KeysVisited(w, chunks, ts, n, k);
    VisitedProper(w, chunks, ts, n, k);
    VisitedTests(w, chunks, ts, n, k, d);
    DispatchExact(w, k, ts[n][k], d);
    CoveredExactly(w, chunks, k, i, d, j);
    if d == k.owner {
      forall c | c in Chain(d) && c != k.owner && k.owner in Chain(c) ensures false { ChainAntisymmetric(d, c); }
    }
  }

  lemma CoveredExactly(w: Subclasses, chunks: seq<seq<Class>>, k: Key, i: nat, d: Class, j: nat)
    requires Orderly(w, chunks) && i < |chunks| && Declares(chunks[i], k) && j < |chunks| && d in chunks[j]
    ensures Covered(chunks, |chunks|, k, d) <==> i == j || Overrides(chunks[j], k)
  {
    hide Overrides;
    assert Declares(chunks[j], k) ==> k.owner in chunks[j] && k.owner in chunks[i];
  }

  function A(m: Sym): Class { Class(0, false, [m], None) }

  function B(m: Sym): Class { Class(1, false, [m], Some(A(m))) }

  function D(m: Sym): Class { Class(2, false, [], Some(B(m))) }

  function Three(m: Sym): Subclasses { map[A(m) := [B(m), D(m)], B(m) := [D(m)], D(m) := []] }

  /** It is not always: `B` redefines `m` of `A` in the first chunk, and `D`, in a chunk of its own,
      only inherits from `B`; seen as an `A`, a `D` calls the `m` of `A`. */
  lemma MissedRedefinition(m: Sym) returns (t0: Functions, t: Functions)
    ensures Hierarchy(Three(m)) && AllProper(Three(m), t)
    ensures Extended(Three(m), [A(m), B(m)], map[], t0) && Extended(Three(m), [D(m)], t0, t)
    ensures var k := Key(A(m), m); k in t && Inherits(D(m), m, B(m)) && Calls(t[k], k, D(m).id) == A(m)
  {
    hide Inherits, SwitchOf, Tests, Proper, Calls, Hierarchy;
    var a, b, d, w := A(m), B(m), D(m), Three(m);
    var k, l := Key(a, m), Key(b, m);
    ThreeClasses(m);
    NearestIsLookup(d, m, b);
    assert Nearest(d, m) == Some(b);
    t0 := map[k := [SwitchOf(w, k, [a, b], 1)], l := [SwitchOf(w, l, [a, b], 1)]];
    t := t0;
    ProperOne(w, k, [a, b]);
    ProperOne(w, l, [a, b]);
    assert forall j :: Declares([a, b], j) <==> j == k || j == l;
    assert forall j :: !Overrides([a, b], j) && !Declares([d], j) && !Overrides([d], j);
    TestsSwitch(w, k, [a, b], 1, d);
    NotTested(w, k, t[k], d);
  }

  lemma ThreeClasses(m: Sym)
    ensures Chain(A(m)) == [A(m)] && Chain(B(m)) == [B(m), A(m)] && Chain(D(m)) == [D(m), B(m), A(m)] && Hierarchy(Three(m))
  {
    assert Chain(A(m)) == [A(m)];
    assert Chain(B(m)) == [B(m), A(m)];
    assert Chain(D(m)) == [D(m), B(m), A(m)];
    ThreeHierarchy(m);
  }

  lemma ThreeHierarchy(m: Sym)
    requires Chain(A(m)) == [A(m)] && Chain(B(m)) == [B(m), A(m)] && Chain(D(m)) == [D(m), B(m), A(m)]
    ensures Hierarchy(Three(m))
  {
    hide Chain;
    var a, b, d, w := A(m), B(m), D(m), Three(m);
    assert w.Keys == {a, b, d} && w[a] == [b, d] && w[b] == [d] && w[d] == [];
  }

  lemma NotTested(w: Subclasses, k: Key, versions: seq<Switch>, d: Class)
    requires Hierarchy(w) && Proper(w, k, versions) && d in w && k.owner in Chain(d) && |versions| == 1 && !Tests(versions[0], d.id)
    ensures Calls(versions, k, d.id) == k.owner
  {
    hide Hierarchy, Tests, Chain, Run;
    assert k.meth in k.owner.methods;
    hide Proper;
    RunCalls(w, k, versions, 1, d);
  }

  /** A later chunk changes nothing for the exact types of earlier ones. */
  lemma EarlierKept(w: Subclasses, chunk: seq<Class>, t0: Functions, t: Functions, k: Key, d: Class)
    requires Hierarchy(w) && AllProper(w, t0) && AllProper(w, t) && Extended(w, chunk, t0, t) && k in t0 && k in t && k.owner !in chunk
    requires d !in chunk && d in w && k.owner in Chain(d)
    ensures Calls(t[k], k, d.id) == Calls(t0[k], k, d.id)
  {
    hide Hierarchy, Run, Tests, SwitchOf, Chain, Nearest;
    assert Proper(w, k, t0[k]) && Proper(w, k, t[k]);
    hide Proper;
    ProperKey(w, t0, k);
    RunCalls(w, k, t[k], |t[k]|, d);
    RunCalls(w, k, t0[k], |t0[k]|, d);
    assert !Declares(chunk, k);
    if Overrides(chunk, k) {
      var s := SwitchOf(w, k, chunk, |t0[k]| + 1);
      TestsSwitch(w, k, chunk, |t0[k]| + 1, d);
      assert t[k] == t0[k] + [s];
      TestedPrefix(t0[k], s, |t0[k]|, d.id);
    }
  }

  /** Each cast sets the exact type anew: an object of class `c` seen as a `b` and then as a static
      type over it calls what `b` inherits.  That is its own method if and only if no class of its
      chain below `b` owns the method. */
  lemma CastTwice(w: Subclasses, k: Key, versions: seq<Switch>, b: Class, c: Class, v: Variant)
    requires Hierarchy(w) && Proper(w, k, versions) && b in w && c in w && k.owner in Chain(b) && b in Chain(c) && HasType(w, v, c)
    requires b == k.owner || Tested(versions, |versions|, b.id)
    ensures Upcast(w, c, b).body.Record? && Upcast(w, b, k.owner).body.Record?
    ensures var two := EvalCast(Upcast(w, b, k.owner), EvalCast(Upcast(w, c, b), v));
      && Inherits(b, k.meth, Calls(versions, k, two.exact))
      && (Inherits(c, k.meth, Calls(versions, k, two.exact))
          <==> forall x :: x in Chain(c) && x != b && b in Chain(x) ==> k.meth !in x.methods)
  {
    hide Hierarchy, Run, Tests, EvalCast, CastOf, Chain, Nearest;
    assert k.owner in w && k.meth in k.owner.methods;
    hide Proper;
    UpcastsCompose(w, k.owner, b, c, v);
    DispatchExact(w, k, versions, b);
    if b == k.owner {
      forall x | x in Chain(b) && x != k.owner && k.owner in Chain(x) ensures false { ChainAntisymmetric(b, x); }
    }
    SameLookup(c, b, k.meth, Calls(versions, k, b.id));
  }

  lemma SameLookup(c: Class, b: Class, m: Sym, n: Class)
    requires b in Chain(c) && Inherits(b, m, n)
    ensures Inherits(c, m, n) <==> forall x :: x in Chain(c) && x != b && b in Chain(x) ==> m !in x.methods
  {
    hide Chain;
    ChainInner(c, b, n);
    if forall x :: x in Chain(c) && x != b && b in Chain(x) ==> m !in x.methods {
      forall d | d in Chain(c) && m in d.methods ensures d in Chain(n) {
        ChainLinear(c, b, d);
        ChainItself(b);
        assert d in Chain(b);
      }
    }
    if Inherits(c, m, n) {
      forall x | x in Chain(c) && x != b && b in Chain(x) ensures m !in x.methods {
        if m in x.methods {
          ChainInner(b, n, x);
          ChainAntisymmetric(b, x);
        }
      }
    }
  }

  // ----- what the method called is handed -----

  /** The slots an object of class `d` must have filled are filled in `v`. */
  ghost predicate Filled(d: Class, v: Variant) { forall c :: c in WithData(Chain(d)) ==> Read(v.slots, c).Some? }

  lemma FilledUp(c: Class, d: Class, v: Variant)
    requires d in Chain(c) && Filled(c, v)
    ensures Filled(d, v)
  {
    hide Read;
    forall x | x in WithData(Chain(d)) ensures x in WithData(Chain(c)) {
      WithDataHas(Chain(d), x);
      WithDataHas(Chain(c), x);
      ChainInner(c, d, x);
    }
  }

  /** A proper object, seen as one of a class over its own: it is of that class, keeps the exact type,
      and is filled as before. */
  lemma UpcastFilled(w: Subclasses, d: Class, c: Class, o: Variant)
    requires Hierarchy(w) && d in w && c in w && c in Chain(d) && HasType(w, o, d)
    ensures Upcast(w, d, c).body.Record?
    ensures var v := EvalCast(Upcast(w, d, c), o); v.exact == d.id && HasType(w, v, c) && Filled(d, v)
  {
    hide Hierarchy, CastOf, EvalCast, Read, Chain, WithData;
    UpcastTyped(w, d, c, o);
    CastSlots(w, d, c, d, o);
    forall x | x in WithData(Chain(d)) ensures Read(EvalCast(Upcast(w, d, c), o).slots, x).Some? {
      WithDataHas(Chain(d), x);
      SlotsHas(w, d, x);
      LowerHas(w, c, d, x);
      FilledOwn(w, o, d, x);
    }
  }

  lemma FilledOwn(w: Subclasses, o: Variant, d: Class, x: Class)
    requires Hierarchy(w) && d in w && HasType(w, o, d) && x in WithData(Chain(d))
    ensures Read(o.slots, x).Some?
  {
    hide Hierarchy, Read, Chain, WithData;
    var i :| 0 <= i < Mandatory(d) && WithData(Chain(d))[i] == x;
    MandatoryFirst(w, d);
    SlotsAreRead(w, o, d, i);
  }

  /** Whatever the exact type, the method called is handed an object of the class that owns it, with the
      data of the object dispatched on; that very object if the class is the static type, and otherwise
      one that says it is exactly of the class. */
  lemma HandedTyped(w: Subclasses, k: Key, versions: seq<Switch>, d: Class, v: Variant)
    requires Hierarchy(w) && Proper(w, k, versions) && d in w && d.id == v.exact && k.owner in Chain(d)
    requires k.owner in w && HasType(w, v, k.owner) && Filled(d, v)
    ensures var n, a := Calls(versions, k, v.exact), Handed(w, versions, |versions|, k, v);
      && n in w && a.Some? && HasType(w, a.value, n)
      && (forall c :: c in Slots(w, n) ==> Read(a.value.slots, c) == Read(v.slots, c))
      && (n == k.owner ==> a.value == v) && (n != k.owner ==> a.value.exact == n.id)
  {
    hide Hierarchy, CastOf, EvalCast, Read, Chain, WithData, Taken, Nearest, Slots, Tested, Filled;
    assert k.meth in k.owner.methods;
    hide Proper;
    TakenIs(w, k, versions, |versions|, d);
    NearestStops(d, k.meth, k.owner);
    if Tested(versions, |versions|, d.id) && Nearest(d, k.meth).value != k.owner {
      var n := Nearest(d, k.meth).value;
      Known(w, d, n);
      CastSlots(w, k.owner, n, n, v);
      CastTyped(w, k.owner, n, n, v);
      FilledUp(d, n, v);
      assert forall c :: c in WithData(Chain(n)) ==> Read(v.slots, c).Some? by { FilledMeans(n, v); }
      forall c | c in Slots(w, n) ensures c in Slots(w, k.owner) { LowerHas(w, k.owner, n, c); }
    }
  }

  lemma FilledMeans(d: Class, v: Variant)
    requires Filled(d, v)
    ensures forall c :: c in WithData(Chain(d)) ==> Read(v.slots, c).Some?
  {}

  /** Over any chunks visited in turn, an object of class `d` used as one of the class that declares a
      method: the method called is handed an object of the class that owns it, whose slots are those of
      the object as far as it has them. */
  lemma HandedOverChunks(w: Subclasses, chunks: seq<seq<Class>>, ts: seq<Functions>, k: Key, i: nat, d: Class, o: Variant)
    requires Hierarchy(w) && Orderly(w, chunks) && Visited(w, chunks, ts)
    requires i < |chunks| && Declares(chunks[i], k) && d in w && k.owner in Chain(d) && HasType(w, o, d)
    ensures k in ts[|chunks|] && k.owner in w && Upcast(w, d, k.owner).body.Record?
    ensures var versions, v := ts[|chunks|][k], EvalCast(Upcast(w, d, k.owner), o);
      var n, a := Calls(versions, k, v.exact), Handed(w, versions, |versions|, k, v);
      && n in w && a.Some? && HasType(w, a.value, n) && a.value.exact == (if n == k.owner then d.id else n.id)
      && forall c :: c in Slots(w, n) ==> Read(a.value.slots, c) == if c in Slots(w, d) then Read(o.slots, c) else None
  {
    hide Hierarchy, Proper, Taken, Chain, Extended, WithData, Slots, CastOf, EvalCast, Read, Filled, Handed, Run, HasType;
    assert k.owner in w;
    hide Orderly;
    KeysVisited(w, chunks, ts, |chunks|, k);
    VisitedProper(w, chunks, ts, |chunks|, k);
    UpcastFilled(w, d, k.owner, o);
    var versions, v := ts[|chunks|][k], EvalCast(Upcast(w, d, k.owner), o);
    HandedTyped(w, k, versions, d, v);
    CastSlots(w, d, k.owner, d, o);
    var n := Calls(versions, k, v.exact);
    forall c | c in Slots(w, n) ensures c in Slots(w, k.owner) {
      CalledBelow(w, k, versions, d);
      LowerHas(w, k.owner, n, c);
    }
  }

  /** The method called is owned by the static type or a class below it. */
  lemma CalledBelow(w: Subclasses, k: Key, versions: seq<Switch>, d: Class)
    requires Hierarchy(w) && Proper(w, k, versions) && d in w && k.owner in Chain(d)
    ensures k.owner in Chain(Calls(versions, k, d.id))
  {
    hide Hierarchy, Chain, Taken, Nearest, Tested;
    assert k.meth in k.owner.methods;
    hide Proper;
    RunCalls(w, k, versions, |versions|, d);
    NearestStops(d, k.meth, k.owner);
    ChainItself(k.owner);
  }
}
