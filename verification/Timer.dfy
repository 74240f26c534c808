/** Timing nested tasks (lib/misc/timer.cc). */
module Timer {

  // ----- one clock -----

  /** The reading of one clock by a `time_var`. */
  datatype VarState = VarState(begin: int, elapsed: int, first: int, last: int, initial: bool)

  const NEW := VarState(0, 0, 0, 0, true)

  function Started(v: VarState, now: int): VarState {
    v.(begin := now, first := if v.initial then now else v.first, initial := false)
  }

  function Stopped(v: VarState, now: int): VarState { v.(last := now, elapsed := v.elapsed + (now - v.begin)) }

  /** What is known of each task name, and the names on the stack. */
  datatype State = State(vars: map<string, VarState>, stack: seq<string>)
  {
    ghost predicate Sound() { forall n :: n in stack ==> n in vars }

    function Top(): string
      requires stack != []
    {
      stack[|stack| - 1]
    }
  }

  const EMPTY := State(map[], [])

  function StopTop(s: State, now: int): (r: State)
    requires s.Sound()
    ensures r.Sound() && r.stack == s.stack
  {
    if s.stack == [] then s else s.(vars := s.vars[s.Top() := Stopped(s.vars[s.Top()], now)])
  }

  function StartTop(s: State, now: int): (r: State)
    requires s.Sound()
    ensures r.Sound() && r.stack == s.stack
  {
    if s.stack == [] then s else s.(vars := s.vars[s.Top() := Started(s.vars[s.Top()], now)])
  }

  function Entered(s: State, name: string): (r: State)
    requires s.Sound()
    ensures r.Sound() && r.stack == s.stack + [name]
  {
    State(if name in s.vars then s.vars else s.vars[name := NEW], s.stack + [name])
  }

  function Left(s: State): (r: State)
    requires s.Sound() && s.stack != []
    ensures r.Sound() && r.stack == s.stack[..|s.stack| - 1]
  {
    s.(stack := s.stack[..|s.stack| - 1])
  }

  /** The task on top is stopped, with one reading of the clock; the new one starts with another. */
  function Pushed(s: State, name: string, stop: int, start: int): (r: State)
    requires s.Sound()
    ensures r.Sound() && r.stack == s.stack + [name]
  {
    StartTop(Entered(StopTop(s, stop), name), start)
  }

  function Popped(s: State, stop: int, start: int): (r: State)
    requires s.Sound() && s.stack != []
    ensures r.Sound() && r.stack == s.stack[..|s.stack| - 1]
  {
    StartTop(Left(StopTop(s, stop)), start)
  }

  // ----- runs -----

  /** What was called, and what the clock said when the task on top was stopped and the next started. */
  datatype Event = Push(name: string, stop: int, start: int) | Pop(stop: int, start: int)

  function Depth(es: seq<Event>): int {
    if es == [] then 0 else Depth(es[..|es| - 1]) + if es[|es| - 1].Push? then 1 else -1
  }

  /** `pop` is called on a non-empty stack only. */
  ghost predicate Bracketed(es: seq<Event>) { es != [] ==> Depth(es) >= 0 && Bracketed(es[..|es| - 1]) }

  function Run(es: seq<Event>): (s: State)
    requires Bracketed(es)
    ensures s.Sound() && |s.stack| == Depth(es)
    decreases |es|
  {
    if es == [] then EMPTY
    else
      var s := Run(es[..|es| - 1]);
      match es[|es| - 1]
      case Push(name, stop, start) => Pushed(s, name, stop, start)
      case Pop(stop, start) => Popped(s, stop, start)
  }

  /** The clock is read in this order. */
  ghost predicate Monotone(es: seq<Event>) {
    && (forall i :: 0 <= i < |es| ==> es[i].stop <= es[i].start)
    && forall i :: 0 <= i < |es| - 1 ==> es[i].start <= es[i + 1].stop
  }

  /** The time a task was on top of the stack: from the start read by one event to the stop read by
      the next. */
  function OnTop(es: seq<Event>, n: string): int
    requires Bracketed(es)
    decreases |es|
  {
    if |es| <= 1 then 0
    else
      var front := es[..|es| - 1];
      var s := Run(front);
      OnTop(front, n) + if s.stack != [] && s.Top() == n then es[|es| - 1].stop - front[|front| - 1].start else 0
  }

  /** The time the stack was not empty. */
  function Busy(es: seq<Event>): int
    requires Bracketed(es)
    decreases |es|
  {
    if |es| <= 1 then 0
    else
      var front, e := es[..|es| - 1], es[|es| - 1];
      var began := front[|front| - 1].start;
      Busy(front) + if Depth(front) == 0 then 0 else if Depth(es) == 0 then e.stop - began else e.start - began
  }

  /** The time between the two readings of the clock by events within a busy period. */
  function Gaps(es: seq<Event>): int
    requires Bracketed(es)
    decreases |es|
  {
    if |es| <= 1 then 0
    else
      var front, e := es[..|es| - 1], es[|es| - 1];
      Gaps(front) + if Depth(front) == 0 || Depth(es) == 0 then 0 else e.start - e.stop
  }

  /** The task on top began when the last event said so. */
  lemma {:induction false} TopBegan(es: seq<Event>)
    requires Bracketed(es) && es != [] && Run(es).stack != []
    ensures var s := Run(es); s.vars[s.Top()].begin == es[|es| - 1].start && !s.vars[s.Top()].initial
  {}

  function Elapsed(s: State, n: string): int { if n in s.vars then s.vars[n].elapsed else 0 }

  /** What an event adds to the elapsed time of `n`. */
  function Adds(s: State, n: string, stop: int): int
    requires s.Sound()
  {
    if s.stack != [] && s.Top() == n then stop - s.vars[n].begin else 0
  }

  lemma PushElapsed(s: State, name: string, stop: int, start: int, n: string)
    requires s.Sound()
    ensures Elapsed(Pushed(s, name, stop, start), n) == Elapsed(s, n) + Adds(s, n, stop)
  {
    var a := StopTop(s, stop);
    assert Elapsed(a, n) == Elapsed(s, n) + Adds(s, n, stop);
    var b := Entered(a, name);
    assert Elapsed(b, n) == Elapsed(a, n);
    assert Elapsed(StartTop(b, start), n) == Elapsed(b, n);
  }

  lemma PopElapsed(s: State, stop: int, start: int, n: string)
    requires s.Sound() && s.stack != []
    ensures Elapsed(Popped(s, stop, start), n) == Elapsed(s, n) + Adds(s, n, stop)
  {
    var a := StopTop(s, stop);
    assert Elapsed(a, n) == Elapsed(s, n) + Adds(s, n, stop);
    assert Elapsed(StartTop(Left(a), start), n) == Elapsed(a, n);
  }

  /** Each task's elapsed time is the time it was on top, however often its name is on the stack. */
  lemma {:induction false} ElapsedIsOnTop(es: seq<Event>, n: string)
    requires Bracketed(es)
    ensures Elapsed(Run(es), n) == OnTop(es, n)
    decreases |es|
  {
    hide Pushed, Popped, Elapsed;
    if es == [] {
      assert Elapsed(EMPTY, n) == 0 by { NothingElapsedBy(n); }
    } else {
      var front, e := es[..|es| - 1], es[|es| - 1];
      var s := Run(front);
      ElapsedIsOnTop(front, n);
      if front != [] && s.stack != [] { TopBegan(front); }
      match e
      case Push(name, stop, start) => PushElapsed(s, name, stop, start, n);
      case Pop(stop, start) => PopElapsed(s, stop, start, n);
    }
  }

  lemma NothingElapsedBy(n: string)
    ensures Elapsed(EMPTY, n) == 0
  {}

  // ----- sums -----

  ghost function SumOver(keys: set<string>, vars: map<string, VarState>): int
    requires keys <= vars.Keys
  {
    if keys == {} then 0 else
    var k :| k in keys;
    vars[k].elapsed + SumOver(keys - {k}, vars)
  }

  lemma {:induction false} SumPick(keys: set<string>, vars: map<string, VarState>, k: string)
    requires keys <= vars.Keys && k in keys
    ensures SumOver(keys, vars) == vars[k].elapsed + SumOver(keys - {k}, vars)
    decreases keys
  {
    var j :| j in keys && SumOver(keys, vars) == vars[j].elapsed + SumOver(keys - {j}, vars);
    if j != k {
      SumPick(keys - {j}, vars, k);
      SumPick(keys - {k}, vars, j);
      assert keys - {j} - {k} == keys - {k} - {j};
    }
  }

  lemma {:induction false} SumSame(keys: set<string>, a: map<string, VarState>, b: map<string, VarState>)
    requires keys <= a.Keys && keys <= b.Keys && forall k :: k in keys ==> a[k].elapsed == b[k].elapsed
    ensures SumOver(keys, a) == SumOver(keys, b)
    decreases keys
  {
    if keys != {} {
      var k :| k in keys;
      SumPick(keys, a, k);
      SumPick(keys, b, k);
      SumSame(keys - {k}, a, b);
    }
  }

  /** The elapsed times of all tasks. */
  ghost function Total(s: State): int { SumOver(s.vars.Keys, s.vars) }

  lemma SumChanged(a: map<string, VarState>, k: string, v: VarState)
    ensures SumOver(a[k := v].Keys, a[k := v]) == SumOver(a.Keys, a) + v.elapsed - if k in a then a[k].elapsed else 0
  {
    var b := a[k := v];
    SumPick(b.Keys, b, k);
    SumSame(a.Keys - {k}, a, b);
    assert b.Keys - {k} == a.Keys - {k};
    if k in a { SumPick(a.Keys, a, k); } else { assert a.Keys - {k} == a.Keys; }
  }

  lemma StopAdds(s: State, now: int)
    requires s.Sound()
    ensures Total(StopTop(s, now)) == Total(s) + if s.stack == [] then 0 else now - s.vars[s.Top()].begin
  {
    if s.stack != [] { SumChanged(s.vars, s.Top(), Stopped(s.vars[s.Top()], now)); }
  }

  lemma StartKeeps(s: State, now: int)
    requires s.Sound()
    ensures Total(StartTop(s, now)) == Total(s)
  {
    if s.stack != [] { SumChanged(s.vars, s.Top(), Started(s.vars[s.Top()], now)); }
  }

  lemma PushAdds(s: State, name: string, stop: int, start: int)
    requires s.Sound()
    ensures Total(Pushed(s, name, stop, start)) == Total(s) + if s.stack == [] then 0 else stop - s.vars[s.Top()].begin
  {
    hide Total;
    var a := StopTop(s, stop);
    StopAdds(s, stop);
    var b := Entered(a, name);
    assert Total(b) == Total(a) by { TotalNew(a.vars, name, a.stack, b.stack); }
    StartKeeps(b, start);
  }

  lemma TotalNew(vars: map<string, VarState>, name: string, stack: seq<string>, stack2: seq<string>)
    ensures Total(State(if name in vars then vars else vars[name := NEW], stack2)) == Total(State(vars, stack))
  {
    SumChanged(vars, name, NEW);
  }

  lemma PopAdds(s: State, stop: int, start: int)
    requires s.Sound() && s.stack != []
    ensures Total(Popped(s, stop, start)) == Total(s) + stop - s.vars[s.Top()].begin
  {
    var a := StopTop(s, stop);
    StopAdds(s, stop);
    StartKeeps(Left(a), start);
  }

  /** Time is conserved: over every run, the elapsed times of all tasks and the time lost between two
      readings of the clock add up to the time the stack was not empty. */
  lemma {:induction false} Conserved(es: seq<Event>)
    requires Bracketed(es)
    ensures Total(Run(es)) + Gaps(es) == Busy(es)
    decreases |es|
  {
    hide Total;
    if es == [] {
      NothingElapsed();
    } else {
      var front, e := es[..|es| - 1], es[|es| - 1];
      var s := Run(front);
      Conserved(front);
      if front != [] && s.stack != [] { TopBegan(front); }
      match e
      case Push(name, stop, start) => PushAdds(s, name, stop, start);
      case Pop(stop, start) => PopAdds(s, stop, start);
    }
  }

  lemma NothingElapsed()
    ensures Total(EMPTY) == 0
  {}

  /** With one reading of the clock an event nothing is lost. */
  lemma {:induction false} NoGaps(es: seq<Event>)
    requires Bracketed(es) && forall i :: 0 <= i < |es| ==> es[i].stop == es[i].start
    ensures Gaps(es) == 0
    decreases |es|
  {
    if |es| > 1 { NoGaps(es[..|es| - 1]); }
  }

  /** One busy period lasts from the first start to the last stop. */
  lemma {:induction false} BusyPeriod(es: seq<Event>)
    requires Bracketed(es) && |es| > 1 && forall i :: 0 < i < |es| ==> Depth(es[..i]) > 0
    ensures Busy(es) == (if Depth(es) == 0 then es[|es| - 1].stop else es[|es| - 1].start) - es[0].start
    decreases |es|
  {
    var front := es[..|es| - 1];
    assert Depth(front) > 0;
    if |front| > 1 {
      forall i | 0 < i < |front| ensures Depth(front[..i]) > 0 { assert front[..i] == es[..i]; }
      BusyPeriod(front);
    }
  }

  // ----- bounds -----

  /** What a monotone clock, read up to `now`, keeps of a task. */
  ghost predicate Sane(v: VarState, now: int, onTop: bool) {
    && !v.initial && 0 <= v.elapsed && v.begin <= now
    && if onTop then v.elapsed <= v.begin - v.first else v.elapsed <= v.last - v.first && v.last <= now
  }

  predicate IsTop(s: State, n: string) { s.stack != [] && s.Top() == n }

  ghost predicate AllSane(s: State, now: int) { forall n :: n in s.vars ==> Sane(s.vars[n], now, IsTop(s, n)) }

  /** No task is on top, or is about to be. */
  ghost predicate AllStopped(s: State, now: int, but: set<string>) {
    forall n :: n in s.vars && n !in but ==> Sane(s.vars[n], now, false)
  }

  lemma StopSane(s: State, now: int, stop: int)
    requires s.Sound() && AllSane(s, now) && now <= stop
    ensures AllStopped(StopTop(s, stop), stop, {})
  {}

  lemma StartSane(s: State, now: int, start: int)
    requires s.Sound() && now <= start
    requires AllStopped(s, now, if s.stack == [] then {} else {s.Top()})
    requires s.stack != [] ==> s.vars[s.Top()] == NEW || Sane(s.vars[s.Top()], now, false)
    ensures AllSane(StartTop(s, start), start)
  {}

  /** The elapsed time of a task is never negative, and never more than the time between its first
      start and its last stop; for the one running, its current start. */
  lemma {:induction false} Bounded(es: seq<Event>)
    requires Bracketed(es) && es != [] && Monotone(es)
    ensures AllSane(Run(es), es[|es| - 1].start)
    decreases |es|
  {
    hide AllSane;
    var front, e := es[..|es| - 1], es[|es| - 1];
    var s := Run(front);
    assert AllSane(s, if front == [] then e.stop else front[|front| - 1].start) by {
      if front == [] { NothingSane(e.stop); } else { Bounded(front); }
    }
    StopSane(s, if front == [] then e.stop else front[|front| - 1].start, e.stop);
    var a := StopTop(s, e.stop);
    match e
    case Push(name, stop, start) =>
      var b := Entered(a, name);
      StartSane(b, stop, start);
    case Pop(stop, start) =>
      StartSane(Left(a), stop, start);
  }

  lemma NothingSane(now: int)
    ensures AllSane(EMPTY, now)
  {}

  // ----- first and last -----

  lemma {:induction false} BracketedFront(es: seq<Event>, i: nat)
    requires Bracketed(es) && i <= |es|
    ensures Bracketed(es[..i])
    decreases |es|
  {
    if i == |es| {
      assert es[..i] == es;
    } else {
      BracketedFront(es[..|es| - 1], i);
      assert es[..|es| - 1][..i] == es[..i];
    }
  }

  /** After the first `i` events the task is on top. */
  ghost predicate OnTopAfter(es: seq<Event>, i: nat, n: string)
    requires Bracketed(es) && i <= |es|
  {
    BracketedFront(es, i);
    IsTop(Run(es[..i]), n)
  }

  lemma OnTopFront(es: seq<Event>, i: nat, n: string)
    requires Bracketed(es) && i < |es|
    ensures OnTopAfter(es[..|es| - 1], i, n) == OnTopAfter(es, i, n)
  {
    hide Run;
    assert es[..|es| - 1][..i] == es[..i];
  }

  /** What one event does to the readings of a task: `stopped` if it was on top before, `started` if it
      is on top afterwards. */
  lemma EventReadings(s: State, t: State, e: Event, n: string)
    requires s.Sound() && (e.Pop? ==> s.stack != [])
    requires t == match e case Push(name, stop, start) => Pushed(s, name, stop, start) case Pop(stop, start) => Popped(s, stop, start)
    ensures n in s.vars || IsTop(t, n) ==> n in t.vars
    ensures n in t.vars ==> n in s.vars || e == Push(n, e.stop, e.start)
    ensures n in t.vars ==> t.vars[n].initial == ((n in s.vars ==> s.vars[n].initial) && !IsTop(t, n))
    ensures n in t.vars && IsTop(t, n) && (n in s.vars ==> s.vars[n].initial) ==> t.vars[n].first == e.start
    ensures n in s.vars && n in t.vars && !s.vars[n].initial ==> t.vars[n].first == s.vars[n].first
    ensures n in t.vars && IsTop(s, n) ==> t.vars[n].last == e.stop
    ensures n in s.vars && n in t.vars && !IsTop(s, n) ==> t.vars[n].last == s.vars[n].last
  {}

  /** A task's first reading is the start read by the event that first put it on top. */
  lemma {:induction false} FirstStart(es: seq<Event>, i: nat, n: string)
    requires Bracketed(es) && i < |es| && OnTopAfter(es, i + 1, n) && forall k :: 0 <= k <= i ==> !OnTopAfter(es, k, n)
    ensures n in Run(es).vars && !Run(es).vars[n].initial && Run(es).vars[n].first == es[i].start
    decreases |es|
  {
    hide Pushed, Popped;
    var front, e := es[..|es| - 1], es[|es| - 1];
    assert es[..|es|] == es;
    EventReadings(Run(front), Run(es), e, n);
    if i < |front| {
      forall k | 0 <= k <= i + 1 ensures OnTopAfter(front, k, n) == OnTopAfter(es, k, n) { OnTopFront(es, k, n); }
      FirstStart(front, i, n);
    } else {
      forall k | 0 <= k <= |front| ensures !OnTopAfter(front, k, n) { OnTopFront(es, k, n); }
      NotStarted(front, n);
    }
  }

  lemma {:induction false} NotStarted(es: seq<Event>, n: string)
    requires Bracketed(es) && forall k :: 0 <= k <= |es| ==> !OnTopAfter(es, k, n)
    ensures n in Run(es).vars ==> Run(es).vars[n].initial
    decreases |es|
  {
    hide Pushed, Popped;
    if es != [] {
      var front := es[..|es| - 1];
      assert es[..|es|] == es && !OnTopAfter(es, |es|, n);
      forall k | 0 <= k <= |front| ensures !OnTopAfter(front, k, n) { OnTopFront(es, k, n); }
      NotStarted(front, n);
      EventReadings(Run(front), Run(es), es[|es| - 1], n);
    }
  }

  /** Its last reading is the stop read by the latest event that found it on top. */
  lemma {:induction false} LastStop(es: seq<Event>, j: nat, n: string)
    requires Bracketed(es) && j < |es| && OnTopAfter(es, j, n) && forall k :: j < k < |es| ==> !OnTopAfter(es, k, n)
    ensures n in Run(es).vars && Run(es).vars[n].last == es[j].stop
    decreases |es|
  {
    hide Pushed, Popped;
    var front, e := es[..|es| - 1], es[|es| - 1];
    assert front[..|front|] == front;
    EventReadings(Run(front), Run(es), e, n);
    OnTopFront(es, |front|, n);
    if j < |front| {
      forall k | j <= k < |front| ensures OnTopAfter(front, k, n) == OnTopAfter(es, k, n) { OnTopFront(es, k, n); }
      LastStop(front, j, n);
    }
  }

  // ----- the timer -----

  datatype Component = User | Sys | Wall

  /** What `times` reports. */
  datatype Time = Time(user: int, sys: int, wall: int)
  {
    function In(c: Component): int { match c case User => user case Sys => sys case Wall => wall }
  }

  const ZERO := Time(0, 0, 0)

  class TimeVar {
    var begin: Time
    var elapsed: Time
    var first: Time
    var last: Time
    var initial: bool

    constructor ()
      ensures forall c :: At(c) == NEW
    {
      begin, elapsed, first, last, initial := ZERO, ZERO, ZERO, ZERO, true;
    }

    /** As seen by one clock. */
    ghost function At(c: Component): VarState
      reads this
    {
      VarState(begin.In(c), elapsed.In(c), first.In(c), last.In(c), initial)
    }

    method Start(now: Time)
      modifies this
      ensures forall c :: At(c) == Started(old(At(c)), now.In(c))
    {
      begin := now;
      if initial {
        initial := false;
        first := begin;
      }
    }

    method Stop(now: Time)
      modifies this
      ensures forall c :: At(c) == Stopped(old(At(c)), now.In(c))
    {
      last := now;
      elapsed := Time(elapsed.user + last.user - begin.user, elapsed.sys + last.sys - begin.sys, elapsed.wall + last.wall - begin.wall);
    }
  }

  class Timer {
    var tasksMap: map<string, TimeVar>
    var tasks: seq<TimeVar>
    /** Whose variables are on the stack: one variable may be there several times. */
    ghost var names: seq<string>

    constructor ()
      ensures Valid() && forall c :: At(c) == EMPTY
    {
      tasksMap, tasks, names := map[], [], [];
    }

    /** Each name has a variable of its own, and the stack holds those. */
    ghost predicate Valid()
      reads this
    {
      && |names| == |tasks| && (forall i :: 0 <= i < |tasks| ==> names[i] in tasksMap && tasksMap[names[i]] == tasks[i])
      && forall a, b :: a in tasksMap && b in tasksMap && tasksMap[a] == tasksMap[b] ==> a == b
    }

    ghost function At(c: Component): State
      reads this, tasksMap.Values
    {
      State(map n | n in tasksMap :: tasksMap[n].At(c), names)
    }

    method StopCurrent(now: Time)
      requires Valid()
      modifies tasksMap.Values
      ensures Valid() && forall c :: At(c) == StopTop(old(At(c)), now.In(c))
    {
      if |tasks| != 0 {
        tasks[|tasks| - 1].Stop(now);
      }
    }

    method StartCurrent(now: Time)
      requires Valid()
      modifies tasksMap.Values
      ensures Valid() && forall c :: At(c) == StartTop(old(At(c)), now.In(c))
    {
      if |tasks| != 0 {
        tasks[|tasks| - 1].Start(now);
      }
    }

    /** The variable of a name, made if there is none, goes on the stack. */
    method Enter(name: string)
      requires Valid()
      modifies this
      ensures Valid() && fresh(tasksMap.Values - old(tasksMap.Values))
      ensures forall c :: At(c) == Entered(old(At(c)), name)
    {
      if name !in tasksMap {
        var v := new TimeVar();
        tasksMap := tasksMap[name := v];
      }
      var current := tasksMap[name];
      tasks, names := tasks + [current], names + [name];
    }

    method Leave()
      requires Valid() && tasks != []
      modifies this
      ensures Valid() && tasksMap == old(tasksMap)
      ensures forall c :: old(At(c)).stack != [] && At(c) == Left(old(At(c)))
    {
      tasks, names := tasks[..|tasks| - 1], names[..|names| - 1];
    }

    /** The clock is read twice, `stop` only if some task is running. */
    method Push(name: string, stop: Time, start: Time)
      requires Valid()
      modifies this, tasksMap.Values
      ensures Valid() && fresh(tasksMap.Values - old(tasksMap.Values))
      ensures forall c :: At(c) == Pushed(old(At(c)), name, stop.In(c), start.In(c))
    {
      hide StopTop, StartTop, Entered, Valid, At;
      StopCurrent(stop);
      Enter(name);
      StartCurrent(start);
    }

    method Pop(stop: Time, start: Time)
      requires Valid() && tasks != []
      modifies this, tasksMap.Values
      ensures Valid() && tasksMap == old(tasksMap)
      ensures forall c :: old(At(c)).stack != [] && At(c) == Popped(old(At(c)), stop.In(c), start.In(c))
    {
      hide StopTop, StartTop, Left, Valid, At;
      StopCurrent(stop);
      Leave();
      StartCurrent(start);
    }
  }
}
