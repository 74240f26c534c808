/** Scheduling tasks by their dependencies (src/task/task-register.cc, src/task/disjunctive-task.cc). */
module Tasks {
  /** A task and the names it depends on; a disjunctive task needs one of them only. */
  datatype Task = Task(name: string, deps: seq<string>, disjunctive: bool)
  {
    /** Which dependencies should be activated, when `active` are. */
    function ResolveDependencies(active: seq<string>): seq<string> {
      if !disjunctive then deps
      else if active != [] || deps == [] then []
      else [deps[0]]
    }
  }

  type Register = map<string, Task>

  datatype TaskError = AlreadyRegistered(name: string) | NotRegistered(name: string) | UnknownDependency(task: string, name: string)

  /** No task depends on itself, however indirectly. */
  ghost predicate Acyclic(tasks: Register, rank: map<string, nat>) {
    && (forall n :: n in tasks ==> n in rank && tasks[n].name == n)
    && forall n, d :: n in tasks && d in tasks && d in tasks[n].deps ==> rank[d] < rank[n]
  }

  // ----- the order, as a function -----

  /** The registered dependencies that are scheduled already. */
  function Active(tasks: Register, order: seq<string>, deps: seq<string>): seq<string> {
    if deps == [] then []
    else (if deps[0] in tasks && deps[0] in order then [deps[0]] else []) + Active(tasks, order, deps[1..])
  }

  function Wanted(tasks: Register, order: seq<string>, t: Task): seq<string> { t.ResolveDependencies(Active(tasks, order, t.deps)) }

  /** Names that are registered, and come before rank `r`. */
  ghost predicate Under(tasks: Register, rank: map<string, nat>, names: seq<string>, r: nat) {
    forall s :: s in names && s in tasks ==> s in rank && rank[s] < r
  }

  /** The order after a request for `name`. */
  ghost function Enabled(tasks: Register, rank: map<string, nat>, order: seq<string>, name: string): seq<string>
    requires Acyclic(tasks, rank) && name in tasks
    decreases rank[name], 1, 0
  {
    WantedUnder(tasks, rank, order, name);
    Added(tasks, rank, order, Wanted(tasks, order, tasks[name]), rank[name]) + [name]
  }

  /** The order after activating those of `names` that are registered and not scheduled yet. */
  ghost function Added(tasks: Register, rank: map<string, nat>, order: seq<string>, names: seq<string>, r: nat): seq<string>
    requires Acyclic(tasks, rank) && Under(tasks, rank, names, r)
    decreases r, 0, |names|
  {
    if names == [] then order
    else Added(tasks, rank, if names[0] in tasks && names[0] !in order then Enabled(tasks, rank, order, names[0]) else order, names[1..], r)
  }

  /** What is reported of a task's dependencies: each one that is not registered. */
  function Unknown(tasks: Register, name: string, deps: seq<string>): seq<TaskError> {
    if deps == [] then []
    else (if deps[0] in tasks then [] else [UnknownDependency(name, deps[0])]) + Unknown(tasks, name, deps[1..])
  }

  /** What is reported during a request for `name`. */
  ghost function EnabledErrors(tasks: Register, rank: map<string, nat>, order: seq<string>, name: string): seq<TaskError>
    requires Acyclic(tasks, rank) && name in tasks
    decreases rank[name], 1, 0
  {
    WantedUnder(tasks, rank, order, name);
    Unknown(tasks, name, tasks[name].deps) + AddedErrors(tasks, rank, order, Wanted(tasks, order, tasks[name]), rank[name])
  }

  ghost function AddedErrors(tasks: Register, rank: map<string, nat>, order: seq<string>, names: seq<string>, r: nat): seq<TaskError>
    requires Acyclic(tasks, rank) && Under(tasks, rank, names, r)
    decreases r, 0, |names|
  {
    if names == [] then []
    else if names[0] in tasks && names[0] !in order then
      EnabledErrors(tasks, rank, order, names[0]) + AddedErrors(tasks, rank, Enabled(tasks, rank, order, names[0]), names[1..], r)
    else AddedErrors(tasks, rank, order, names[1..], r)
  }

  lemma {:induction false} UnknownAre(tasks: Register, name: string, deps: seq<string>)
    ensures forall e :: e in Unknown(tasks, name, deps) <==> e.UnknownDependency? && e.task == name && e.name in deps && e.name !in tasks
    decreases |deps|
  {
    if deps != [] { UnknownAre(tasks, name, deps[1..]); }
  }

  /** A dependency of a task that is being scheduled, and not registered. */
  ghost predicate Missing(tasks: Register, added: seq<string>, e: TaskError) {
    e.UnknownDependency? && e.task in added && e.task in tasks && e.name in tasks[e.task].deps && e.name !in tasks
  }

  /** Reported is every missing dependency of every task a request adds to the order, and nothing else. */
  lemma {:induction false} ErrorsExact(tasks: Register, rank: map<string, nat>, order: seq<string>, name: string)
    requires Acyclic(tasks, rank) && name in tasks
    ensures order <= Enabled(tasks, rank, order, name)
    ensures forall e :: e in EnabledErrors(tasks, rank, order, name) <==> Missing(tasks, Enabled(tasks, rank, order, name)[|order|..], e)
    decreases rank[name], 1, 0
  {
    var wanted := Wanted(tasks, order, tasks[name]);
    WantedUnder(tasks, rank, order, name);
    AddedErrorsExact(tasks, rank, order, wanted, rank[name]);
    UnknownAre(tasks, name, tasks[name].deps);
    var more := Added(tasks, rank, order, wanted, rank[name]);
    assert (more + [name])[|order|..] == more[|order|..] + [name];
  }

  lemma {:induction false} AddedErrorsExact(tasks: Register, rank: map<string, nat>, order: seq<string>, names: seq<string>, r: nat)
    requires Acyclic(tasks, rank) && Under(tasks, rank, names, r)
    ensures order <= Added(tasks, rank, order, names, r)
    ensures forall e :: e in AddedErrors(tasks, rank, order, names, r) <==> Missing(tasks, Added(tasks, rank, order, names, r)[|order|..], e)
    decreases r, 0, |names|
  {
    hide Acyclic;
    if names != [] {
      var s := names[0];
      if s in tasks && s !in order {
        var next := Enabled(tasks, rank, order, s);
        ErrorsExact(tasks, rank, order, s);
        AddedErrorsExact(tasks, rank, next, names[1..], r);
        var more := Added(tasks, rank, next, names[1..], r);
        assert more[|order|..] == next[|order|..] + more[|next|..];
      } else {
        AddedErrorsExact(tasks, rank, order, names[1..], r);
      }
    }
  }

  lemma WantedUnder(tasks: Register, rank: map<string, nat>, order: seq<string>, name: string)
    requires Acyclic(tasks, rank) && name in tasks
    ensures Under(tasks, rank, Wanted(tasks, order, tasks[name]), rank[name])
  {}

  lemma {:induction false} ActiveAre(tasks: Register, order: seq<string>, deps: seq<string>)
    ensures Active(tasks, order, deps) == [] <==> forall d :: d in deps ==> d !in tasks || d !in order
  {
    if deps != [] { ActiveAre(tasks, order, deps[1..]); }
  }

  // ----- what is right about an order -----

  /** What the task needs comes in `before`: all the registered dependencies of an ordinary task, one
      of those of a disjunctive task, unless its first one is unknown. */
  ghost predicate Satisfied(tasks: Register, before: seq<string>, name: string)
    requires name in tasks
  {
    var t := tasks[name];
    if t.disjunctive then t.deps == [] || t.deps[0] !in tasks || exists d :: d in t.deps && d in tasks && d in before
    else forall d :: d in t.deps && d in tasks ==> d in before
  }

  ghost predicate Ordered(tasks: Register, order: seq<string>) {
    forall i :: 0 <= i < |order| ==> order[i] in tasks && Satisfied(tasks, order[..i], order[i])
  }

  /** `b` is `a` or what it depends on, however indirectly. */
  ghost predicate Needs(tasks: Register, rank: map<string, nat>, a: string, b: string)
    requires Acyclic(tasks, rank) && a in tasks
    decreases rank[a]
  {
    a == b || exists d :: d in tasks[a].deps && d in tasks && Needs(tasks, rank, d, b)
  }

  ghost predicate NeededBy(tasks: Register, rank: map<string, nat>, names: seq<string>, b: string)
    requires Acyclic(tasks, rank)
  {
    exists s :: s in names && s in tasks && Needs(tasks, rank, s, b)
  }

  lemma {:induction false} NeedsLower(tasks: Register, rank: map<string, nat>, a: string, b: string)
    requires Acyclic(tasks, rank) && a in tasks && Needs(tasks, rank, a, b)
    ensures b in tasks && rank[b] <= rank[a]
    decreases rank[a]
  {
    if a != b {
      var d :| d in tasks[a].deps && d in tasks && Needs(tasks, rank, d, b);
      NeedsLower(tasks, rank, d, b);
    }
  }

  // ----- growth: what is added, and that it is needed -----

  ghost predicate NoRepeat(s: seq<string>) { forall i, j :: 0 <= i < j < |s| ==> s[i] != s[j] }

  /** `order` has grown to `more` by names that are new, each once, all of them needed by `names`. */
  ghost predicate GrownBy(tasks: Register, rank: map<string, nat>, names: seq<string>, order: seq<string>, more: seq<string>)
    requires Acyclic(tasks, rank)
  {
    && order <= more && NoRepeat(more[|order|..])
    && forall x :: x in more[|order|..] ==> x !in order && NeededBy(tasks, rank, names, x)
  }

  lemma GrownNone(tasks: Register, rank: map<string, nat>, order: seq<string>)
    requires Acyclic(tasks, rank)
    ensures GrownBy(tasks, rank, [], order, order)
  {}

  /** First for the first name, then for the rest. */
  lemma GrownTwice(tasks: Register, rank: map<string, nat>, names: seq<string>, a: seq<string>, b: seq<string>, c: seq<string>)
    requires Acyclic(tasks, rank) && names != [] && GrownBy(tasks, rank, names[..1], a, b) && GrownBy(tasks, rank, names[1..], b, c)
    ensures GrownBy(tasks, rank, names, a, c)
  {
    var n, m := b[|a|..], c[|b|..];
    assert b == a + n && c == b + m;
    assert c[|a|..] == n + m;
    forall x | x in n + m ensures x !in a && NeededBy(tasks, rank, names, x) {
      if x in n { assert NeededBy(tasks, rank, names[..1], x); } else { assert NeededBy(tasks, rank, names[1..], x); }
    }
    forall i, j | 0 <= i < j < |n + m| ensures (n + m)[i] != (n + m)[j] {
      if i < |n| && |n| <= j { assert n[i] in b && m[j - |n|] !in b; }
    }
  }

  /** A new task after its dependencies. */
  lemma GrownByTask(tasks: Register, rank: map<string, nat>, wanted: seq<string>, name: string, order: seq<string>, more: seq<string>)
    requires Acyclic(tasks, rank) && name in tasks && name !in order && GrownBy(tasks, rank, wanted, order, more)
    requires forall d :: d in wanted ==> d in tasks[name].deps
    ensures GrownBy(tasks, rank, [name], order, more + [name]) && name !in more
  {
    var n := more[|order|..];
    assert (more + [name])[|order|..] == n + [name];
    assert more == order + n;
    forall x | x in n ensures x != name && NeededBy(tasks, rank, [name], x) {
      var s :| s in wanted && s in tasks && Needs(tasks, rank, s, x);
      NeedsLower(tasks, rank, s, x);
      assert name in [name] && Needs(tasks, rank, name, x);
    }
    assert NeededBy(tasks, rank, [name], name) by { assert name in [name] && Needs(tasks, rank, name, name); }
  }

  /** A request adds missing dependencies only, each of them once, and then the task itself: only a
      task that is requested again is scheduled again. */
  lemma {:induction false} EnabledGrows(tasks: Register, rank: map<string, nat>, order: seq<string>, name: string)
    requires Acyclic(tasks, rank) && name in tasks
    ensures var more := Enabled(tasks, rank, order, name); var wanted := Wanted(tasks, order, tasks[name]);
      more != [] && more[|more| - 1] == name && GrownBy(tasks, rank, wanted, order, more[..|more| - 1])
    ensures name !in order ==> GrownBy(tasks, rank, [name], order, Enabled(tasks, rank, order, name))
    decreases rank[name], 1, 0
  {
    hide GrownBy, Added;
    var wanted := Wanted(tasks, order, tasks[name]);
    WantedUnder(tasks, rank, order, name);
    AddedGrows(tasks, rank, order, wanted, rank[name]);
    var before := Added(tasks, rank, order, wanted, rank[name]);
    assert (before + [name])[..|before|] == before;
    if name !in order { GrownByTask(tasks, rank, wanted, name, order, before); }
  }

  lemma {:induction false} AddedGrows(tasks: Register, rank: map<string, nat>, order: seq<string>, names: seq<string>, r: nat)
    requires Acyclic(tasks, rank) && Under(tasks, rank, names, r)
    ensures GrownBy(tasks, rank, names, order, Added(tasks, rank, order, names, r))
    decreases r, 0, |names|
  {
    hide GrownBy, Acyclic;
    if names == [] {
      GrownNone(tasks, rank, order);
    } else {
      var s := names[0];
      var next := if s in tasks && s !in order then Enabled(tasks, rank, order, s) else order;
      if s in tasks && s !in order {
        EnabledGrows(tasks, rank, order, s);
        assert names[..1] == [s];
      } else {
        GrownStill(tasks, rank, order, names[..1]);
      }
      AddedGrows(tasks, rank, next, names[1..], r);
      GrownTwice(tasks, rank, names, order, next, Added(tasks, rank, next, names[1..], r));
    }
  }

  lemma GrownStill(tasks: Register, rank: map<string, nat>, order: seq<string>, names: seq<string>)
    requires Acyclic(tasks, rank)
    ensures GrownBy(tasks, rank, names, order, order)
  {}

  // ----- validity -----

  lemma PrefixGrows(tasks: Register, rank: map<string, nat>, names: seq<string>, order: seq<string>, more: seq<string>)
    requires Acyclic(tasks, rank) && GrownBy(tasks, rank, names, order, more)
    ensures order <= more && forall x :: x in order ==> x in more
  {
    forall x | x in order ensures x in more {
      var i :| 0 <= i < |order| && order[i] == x;
      assert more[i] == x;
    }
  }

  lemma OrderedMore(tasks: Register, order: seq<string>, name: string)
    requires Ordered(tasks, order) && name in tasks && Satisfied(tasks, order, name)
    ensures Ordered(tasks, order + [name])
  {
    hide Satisfied;
    var more := order + [name];
    forall i | 0 <= i < |more| ensures more[i] in tasks && Satisfied(tasks, more[..i], more[i]) {
      if i < |order| { assert more[..i] == order[..i] && more[i] == order[i]; } else { assert more[..i] == order; }
    }
  }

  /** The task's needs are met when its resolved dependencies are scheduled. */
  lemma WantedSatisfies(tasks: Register, order: seq<string>, before: seq<string>, name: string)
    requires name in tasks && (forall x :: x in order ==> x in before)
    requires forall d :: d in Wanted(tasks, order, tasks[name]) && d in tasks ==> d in before
    ensures Satisfied(tasks, before, name)
  {
    var t := tasks[name];
    ActiveAre(tasks, order, t.deps);
    if t.disjunctive && t.deps != [] {
      if Active(tasks, order, t.deps) == [] {
        assert Wanted(tasks, order, t) == [t.deps[0]];
        assert t.deps[0] in Wanted(tasks, order, t);
      }
    }
  }

  /** Requests keep the order valid. */
  lemma {:induction false} EnabledOrdered(tasks: Register, rank: map<string, nat>, order: seq<string>, name: string)
    requires Acyclic(tasks, rank) && name in tasks && Ordered(tasks, order)
    ensures Ordered(tasks, Enabled(tasks, rank, order, name))
    decreases rank[name], 1, 0
  {
    hide GrownBy, Added, Ordered, Satisfied, Wanted;
    var wanted := Wanted(tasks, order, tasks[name]);
    WantedUnder(tasks, rank, order, name);
    var before := Added(tasks, rank, order, wanted, rank[name]);
    AddedOrdered(tasks, rank, order, wanted, rank[name]);
    AddedGrows(tasks, rank, order, wanted, rank[name]);
    PrefixGrows(tasks, rank, wanted, order, before);
    WantedSatisfies(tasks, order, before, name);
    OrderedMore(tasks, before, name);
  }

  lemma {:induction false} AddedOrdered(tasks: Register, rank: map<string, nat>, order: seq<string>, names: seq<string>, r: nat)
    requires Acyclic(tasks, rank) && Under(tasks, rank, names, r) && Ordered(tasks, order)
    ensures var more := Added(tasks, rank, order, names, r);
      Ordered(tasks, more) && forall s :: s in names && s in tasks ==> s in more
    decreases r, 0, |names|
  {
    hide GrownBy, Ordered, Enabled;
    if names != [] {
      var s, rest := names[0], names[1..];
      var next := if s in tasks && s !in order then Enabled(tasks, rank, order, s) else order;
      if s in tasks && s !in order {
        EnabledOrdered(tasks, rank, order, s);
        EnabledGrows(tasks, rank, order, s);
      }
      AddedOrdered(tasks, rank, next, rest, r);
      AddedGrows(tasks, rank, next, rest, r);
      PrefixGrows(tasks, rank, rest, next, Added(tasks, rank, next, rest, r));
      forall x | x in names && x in tasks ensures x in Added(tasks, rank, order, names, r) {
        if x != s { assert x in rest; }
      }
    }
  }

  // ----- dependencies in turn -----

  lemma {:induction false} AddedSplit(tasks: Register, rank: map<string, nat>, order: seq<string>, names: seq<string>, j: nat, r: nat)
    requires Acyclic(tasks, rank) && Under(tasks, rank, names, r) && j <= |names|
    ensures Added(tasks, rank, order, names, r) == Added(tasks, rank, Added(tasks, rank, order, names[..j], r), names[j..], r)
    decreases j
  {
    hide Acyclic, Enabled;
    if j > 0 {
      var s, rest := names[0], names[1..];
      var next := if s in tasks && s !in order then Enabled(tasks, rank, order, s) else order;
      assert names[..j][0] == s && names[..j][1..] == rest[..j - 1] && names[j..] == rest[j - 1..];
      AddedSplit(tasks, rank, next, rest, j - 1, r);
    } else {
      assert names[0..] == names;
    }
  }

  lemma {:induction false} AddedHas(tasks: Register, rank: map<string, nat>, order: seq<string>, names: seq<string>, r: nat, d: string)
    requires Acyclic(tasks, rank) && Under(tasks, rank, names, r) && d in tasks && (d in names || d in order)
    ensures d in Added(tasks, rank, order, names, r)
    decreases |names|
  {
    hide GrownBy, Acyclic, Enabled;
    if names != [] {
      var s := names[0];
      var next := if s in tasks && s !in order then Enabled(tasks, rank, order, s) else order;
      if s in tasks && s !in order {
        EnabledGrows(tasks, rank, order, s);
        PrefixGrows(tasks, rank, [s], order, next);
      }
      AddedHas(tasks, rank, next, names[1..], r, d);
    }
  }

  /** The dependencies of an ordinary task are scheduled in the order they are declared: at some moment
      the first `j` are, with nothing but what these need, and what comes after it the others need. */
  lemma DependenciesInTurn(tasks: Register, rank: map<string, nat>, order: seq<string>, name: string, j: nat) returns (k: nat)
    requires Acyclic(tasks, rank) && name in tasks && !tasks[name].disjunctive && j <= |tasks[name].deps|
    ensures var more, deps := Enabled(tasks, rank, order, name), tasks[name].deps;
      && |order| <= k < |more| && (forall d :: d in deps[..j] && d in tasks ==> d in more[..k])
      && (forall x :: x in more[|order|..k] ==> NeededBy(tasks, rank, deps[..j], x))
      && forall x :: x in more[k..|more| - 1] ==> NeededBy(tasks, rank, deps[j..], x)
  {
    hide Acyclic, NeededBy, Added;
    RankOf(tasks, rank, name);
    var deps, r := tasks[name].deps, rank[name];
    WantedUnder(tasks, rank, order, name);
    assert Wanted(tasks, order, tasks[name]) == deps;
    assert forall s :: s in deps[..j] || s in deps[j..] ==> s in deps;
    var first := Added(tasks, rank, order, deps[..j], r);
    var both := Added(tasks, rank, first, deps[j..], r);
    AddedSplit(tasks, rank, order, deps, j, r);
    AddedGrows(tasks, rank, order, deps[..j], r);
    AddedGrows(tasks, rank, first, deps[j..], r);
    k := |first|;
    var more := Enabled(tasks, rank, order, name);
    assert more == both + [name] && more[..k] == first && more[k..|more| - 1] == both[k..];
    assert more[|order|..k] == first[|order|..];
    forall d | d in deps[..j] && d in tasks ensures d in first { AddedHas(tasks, rank, order, deps[..j], r, d); }
  }

  // ----- whole command lines -----

  /** The order after the requests, from the first on; names that are not registered are skipped. */
  ghost function Requested(tasks: Register, rank: map<string, nat>, names: seq<string>): seq<string>
    requires Acyclic(tasks, rank)
    decreases |names|
  {
    if names == [] then []
    else
      var order := Requested(tasks, rank, names[..|names| - 1]);
      var name := names[|names| - 1];
      if name in tasks then Enabled(tasks, rank, order, name) else order
  }

  /** After any requests: the order is valid, everything in it is needed by a request, every request is
      in it, and a task occurs once more than it was requested at most. */
  lemma {:induction false} RequestsScheduled(tasks: Register, rank: map<string, nat>, names: seq<string>)
    requires Acyclic(tasks, rank)
    ensures var order := Requested(tasks, rank, names);
      && Ordered(tasks, order)
      && (forall x :: x in order ==> NeededBy(tasks, rank, names, x))
      && (forall x :: x in names && x in tasks ==> x in order)
      && forall x :: multiset(order)[x] <= multiset(names)[x] + 1
    decreases |names|
  {
    hide Ordered, NeededBy, Enabled;
    if names != [] {
      var front, name := names[..|names| - 1], names[|names| - 1];
      var order := Requested(tasks, rank, front);
      RequestsScheduled(tasks, rank, front);
      if name in tasks {
        EnabledOrdered(tasks, rank, order, name);
        OneRequest(tasks, rank, order, front, name);
      }
      assert names == front + [name];
      forall x | NeededBy(tasks, rank, front, x) ensures NeededBy(tasks, rank, names, x) { StillNeeded(tasks, rank, front, names, x); }
      forall x | NeededBy(tasks, rank, [name], x) ensures NeededBy(tasks, rank, names, x) { StillNeeded(tasks, rank, [name], names, x); }
      assert multiset(names) == multiset(front) + multiset{name};
    } else {
      NothingOrdered(tasks);
    }
  }

  lemma NothingOrdered(tasks: Register)
    ensures Ordered(tasks, [])
  {}

  lemma StillNeeded(tasks: Register, rank: map<string, nat>, names: seq<string>, more: seq<string>, x: string)
    requires Acyclic(tasks, rank) && NeededBy(tasks, rank, names, x) && forall s :: s in names ==> s in more
    ensures NeededBy(tasks, rank, more, x)
  {
    var s :| s in names && s in tasks && Needs(tasks, rank, s, x);
    assert s in more;
  }

  lemma {:induction false} OnceEach(s: seq<string>, x: string)
    requires NoRepeat(s)
    ensures multiset(s)[x] <= 1
    decreases |s|
  {
    if s != [] {
      var front, last := s[..|s| - 1], s[|s| - 1];
      assert s == front + [last];
      OnceEach(front, x);
      assert last !in front;
    }
  }

  lemma OneRequest(tasks: Register, rank: map<string, nat>, order: seq<string>, names: seq<string>, name: string)
    requires Acyclic(tasks, rank) && name in tasks
    requires forall x :: x in order ==> NeededBy(tasks, rank, names, x)
    requires forall x :: multiset(order)[x] <= multiset(names)[x] + 1
    ensures var more := Enabled(tasks, rank, order, name);
      && (forall x :: x in more ==> NeededBy(tasks, rank, names, x) || NeededBy(tasks, rank, [name], x))
      && name in more && (forall x :: x in order ==> x in more)
      && forall x :: multiset(more)[x] <= multiset(names)[x] + (if x == name then 1 else 0) + 1
  {
    hide Enabled, NeededBy;
    var more, wanted := Enabled(tasks, rank, order, name), Wanted(tasks, order, tasks[name]);
    EnabledGrows(tasks, rank, order, name);
    var before := more[..|more| - 1];
    var n := before[|order|..];
    assert before == order + n && more == before + [name];
    forall x | x in n ensures NeededBy(tasks, rank, [name], x) { NeededThrough(tasks, rank, wanted, name, x); }
    NeededItself(tasks, rank, name);
    forall x ensures multiset(more)[x] <= multiset(names)[x] + (if x == name then 1 else 0) + 1 {
      OnceEach(n, x);
      assert multiset(before)[x] == multiset(order)[x] + multiset(n)[x];
      if x in n { assert x !in order; }
    }
  }

  lemma NeededItself(tasks: Register, rank: map<string, nat>, name: string)
    requires Acyclic(tasks, rank) && name in tasks
    ensures NeededBy(tasks, rank, [name], name)
  {
    assert name in [name] && Needs(tasks, rank, name, name);
  }

  lemma NeededThrough(tasks: Register, rank: map<string, nat>, wanted: seq<string>, name: string, x: string)
    requires Acyclic(tasks, rank) && name in tasks && NeededBy(tasks, rank, wanted, x)
    requires forall d :: d in wanted ==> d in tasks[name].deps
    ensures NeededBy(tasks, rank, [name], x)
  {
    var s :| s in wanted && s in tasks && Needs(tasks, rank, s, x);
    assert name in [name] && Needs(tasks, rank, name, x);
  }

  /** When everything named is registered, the order is what the dependencies ask for. */
  lemma Complete(tasks: Register, order: seq<string>, i: nat)
    requires Ordered(tasks, order) && i < |order| && forall n, d :: n in tasks && d in tasks[n].deps ==> d in tasks
    ensures order[i] in tasks
    ensures var t := tasks[order[i]];
      if t.disjunctive then t.deps != [] ==> exists d :: d in t.deps && d in order[..i]
      else forall d :: d in t.deps ==> d in order[..i]
  {
    assert Satisfied(tasks, order[..i], order[i]);
    var t := tasks[order[i]];
    if t.disjunctive && t.deps != [] { assert t.deps[0] in t.deps; }
  }

  /** The exception is real.  Some alternative is scheduled before a disjunctive task if and only if
      its first one is registered or another was scheduled already: with the first unknown, the
      registered ones that are not scheduled are passed over. */
  lemma AlternativeScheduled(tasks: Register, rank: map<string, nat>, order: seq<string>, name: string)
    requires Acyclic(tasks, rank) && name in tasks && tasks[name].disjunctive && tasks[name].deps != []
    ensures var more, deps := Enabled(tasks, rank, order, name), tasks[name].deps;
      && more != []
      && ((exists d :: d in deps && d in tasks && d in more[..|more| - 1])
          <==> deps[0] in tasks || exists d :: d in deps && d in tasks && d in order)
  {
    var deps := tasks[name].deps;
    var before := BeforeTask(tasks, rank, order, name);
    ActiveAre(tasks, order, deps);
    if Active(tasks, order, deps) == [] {
      FirstAlternative(tasks, rank, order, name);
      hide Enabled;
      if deps[0] in tasks { EnabledGrows(tasks, rank, order, deps[0]); }
      assert deps[0] in deps;
    } else {
      assert Wanted(tasks, order, tasks[name]) == [];
    }
  }

  lemma BeforeTask(tasks: Register, rank: map<string, nat>, order: seq<string>, name: string) returns (before: seq<string>)
    requires Acyclic(tasks, rank) && name in tasks
    ensures Under(tasks, rank, Wanted(tasks, order, tasks[name]), rank[name])
    ensures before == Added(tasks, rank, order, Wanted(tasks, order, tasks[name]), rank[name])
    ensures var more := Enabled(tasks, rank, order, name); more != [] && more[..|more| - 1] == before
  {
    WantedUnder(tasks, rank, order, name);
    before := Added(tasks, rank, order, Wanted(tasks, order, tasks[name]), rank[name]);
    assert (before + [name])[..|before|] == before;
  }

  lemma FirstAlternative(tasks: Register, rank: map<string, nat>, order: seq<string>, name: string)
    requires Acyclic(tasks, rank) && name in tasks && tasks[name].disjunctive && tasks[name].deps != []
    requires Active(tasks, order, tasks[name].deps) == []
    ensures var s, wanted := tasks[name].deps[0], Wanted(tasks, order, tasks[name]);
      && Under(tasks, rank, wanted, rank[name])
      && Added(tasks, rank, order, wanted, rank[name]) == if s in tasks then Enabled(tasks, rank, order, s) else order
  {
    var s := tasks[name].deps[0];
    var wanted := Wanted(tasks, order, tasks[name]);
    WantedUnder(tasks, rank, order, name);
    assert wanted == [s] && wanted[1..] == [];
    assert s in tasks ==> s !in order;
    var next := if s in tasks then Enabled(tasks, rank, order, s) else order;
    assert Added(tasks, rank, next, [], rank[name]) == next;
  }

  /** Requesting a scheduled task again schedules nothing else, but runs it twice. */
  lemma RequestedAgain(tasks: Register, rank: map<string, nat>, order: seq<string>, name: string)
    requires Acyclic(tasks, rank) && name in order && Ordered(tasks, order)
    ensures name in tasks && Enabled(tasks, rank, order, name) == order + [name]
  {
    var i :| 0 <= i < |order| && order[i] == name;
    assert Satisfied(tasks, order[..i], name);
    var wanted := Wanted(tasks, order, tasks[name]);
    WantedUnder(tasks, rank, order, name);
    ActiveAre(tasks, order, tasks[name].deps);
    forall d | d in order[..i] ensures d in order {}
    NothingMissing(tasks, rank, order, wanted, rank[name]);
  }

  lemma {:induction false} NothingMissing(tasks: Register, rank: map<string, nat>, order: seq<string>, names: seq<string>, r: nat)
    requires Acyclic(tasks, rank) && Under(tasks, rank, names, r) && forall s :: s in names && s in tasks ==> s in order
    ensures Added(tasks, rank, order, names, r) == order
    decreases |names|
  {
    if names != [] { NothingMissing(tasks, rank, order, names[1..], r); }
  }

  // ----- the register -----

  class TaskRegister {
    var taskList: Register
    var taskOrder: seq<string>
    var errors: seq<TaskError>

    constructor ()
      ensures taskList == map[] && taskOrder == [] && errors == []
    {
      taskList, taskOrder, errors := map[], [], [];
    }

    /** A name is registered once. */
    method RegisterTask(task: Task) returns (ok: bool)
      modifies this`taskList, this`errors
      ensures ok <==> task.name !in old(taskList)
      ensures taskList == if ok then old(taskList)[task.name := task] else old(taskList)
      ensures errors == old(errors) + if ok then [] else [AlreadyRegistered(task.name)]
    {
      ok := task.name !in taskList;
      if ok {
        taskList := taskList[task.name := task];
      } else {
        errors := errors + [AlreadyRegistered(task.name)];
      }
    }

    method EnableTask(name: string, ghost rank: map<string, nat>)
      requires Acyclic(taskList, rank)
      modifies this`taskOrder, this`errors
      ensures name !in taskList ==> taskOrder == old(taskOrder) && errors == old(errors) + [NotRegistered(name)]
      ensures name in taskList ==>
        && taskOrder == Enabled(taskList, rank, old(taskOrder), name)
        && errors == old(errors) + EnabledErrors(taskList, rank, old(taskOrder), name)
      decreases if name in taskList then rank[name] else 0, 1, 0
    {
      if name !in taskList {
        errors := errors + [NotRegistered(name)];
      } else {
        ResolveDependencies(taskList[name], rank);
        taskOrder := taskOrder + [name];
      }
    }

    method ResolveDependencies(task: Task, ghost rank: map<string, nat>)
      requires Acyclic(taskList, rank) && task.name in taskList && taskList[task.name] == task
      modifies this`taskOrder, this`errors
      ensures Under(taskList, rank, Wanted(taskList, old(taskOrder), task), rank[task.name])
      ensures taskOrder == Added(taskList, rank, old(taskOrder), Wanted(taskList, old(taskOrder), task), rank[task.name])
      ensures errors == old(errors) + Unknown(taskList, task.name, task.deps)
        + AddedErrors(taskList, rank, old(taskOrder), Wanted(taskList, old(taskOrder), task), rank[task.name])
      decreases rank[task.name], 0
    {
      hide Acyclic;
      var enabled, deps := [], task.deps;
      assert deps[0..] == deps;
      for i := 0 to |deps|
        invariant taskOrder == old(taskOrder)
        invariant enabled + Active(taskList, taskOrder, deps[i..]) == Active(taskList, taskOrder, deps)
        invariant errors + Unknown(taskList, task.name, deps[i..]) == old(errors) + Unknown(taskList, task.name, deps)
      {
        var s := deps[i];
        ActiveStep(taskList, taskOrder, deps, i, enabled);
        UnknownStep(taskList, task.name, deps, i, errors);
        if s !in taskList {
          errors := errors + [UnknownDependency(task.name, s)];
        } else if s in taskOrder {
          enabled := enabled + [s];
        }
      }
      assert errors == old(errors) + Unknown(taskList, task.name, deps);
      var depTasks := task.ResolveDependencies(enabled);
      ghost var order := taskOrder;
      ghost var reported := errors;
      assert depTasks == Wanted(taskList, order, task);
      WantedUnder(taskList, rank, order, task.name);
      RankOf(taskList, rank, task.name);
      for i := 0 to |depTasks|
        invariant Under(taskList, rank, depTasks[i..], rank[task.name])
        invariant errors + AddedErrors(taskList, rank, taskOrder, depTasks[i..], rank[task.name])
               == reported + AddedErrors(taskList, rank, order, depTasks, rank[task.name])
        invariant Added(taskList, rank, taskOrder, depTasks[i..], rank[task.name]) == Added(taskList, rank, order, depTasks, rank[task.name])
      {
        var s := depTasks[i];
        assert depTasks[i..][0] == s && depTasks[i..][1..] == depTasks[i + 1..];
        if s in taskList && s !in taskOrder {
          ghost var now, said := taskOrder, errors;
          EnableTask(s, rank);
          ErrorsJoined(said, EnabledErrors(taskList, rank, now, s), AddedErrors(taskList, rank, taskOrder, depTasks[i + 1..], rank[task.name]));
        }
      }
    }
  }

  lemma RankOf(tasks: Register, rank: map<string, nat>, name: string)
    requires Acyclic(tasks, rank) && name in tasks
    ensures name in rank
  {}

  lemma ErrorsJoined(a: seq<TaskError>, b: seq<TaskError>, c: seq<TaskError>)
    ensures a + b + c == a + (b + c)
  {}

  lemma UnknownStep(tasks: Register, name: string, deps: seq<string>, i: nat, errors: seq<TaskError>)
    requires i < |deps|
    ensures errors + Unknown(tasks, name, deps[i..])
         == (if deps[i] in tasks then errors else errors + [UnknownDependency(name, deps[i])]) + Unknown(tasks, name, deps[i + 1..])
  {
    assert deps[i..][1..] == deps[i + 1..];
    if deps[i] !in tasks {
      ErrorsJoined(errors, [UnknownDependency(name, deps[i])], Unknown(tasks, name, deps[i + 1..]));
    } else {
      assert [] + Unknown(tasks, name, deps[i + 1..]) == Unknown(tasks, name, deps[i + 1..]);
    }
  }

  lemma ActiveStep(tasks: Register, order: seq<string>, deps: seq<string>, i: nat, enabled: seq<string>)
    requires i < |deps|
    ensures enabled + Active(tasks, order, deps[i..])
         == (if deps[i] in tasks && deps[i] in order then enabled + [deps[i]] else enabled) + Active(tasks, order, deps[i + 1..])
  {
    var rest := Active(tasks, order, deps[i + 1..]);
    assert deps[i..][1..] == deps[i + 1..];
    assert enabled + ([deps[i]] + rest) == (enabled + [deps[i]]) + rest;
    assert enabled + ([] + rest) == enabled + rest;
  }
}
