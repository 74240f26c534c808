/** The storage of two runs of a program, before and after a rewrite that allocates other cells. */
module Storage {
  import opened Int32
  import opened Tiger

  /** Cell `k` of the original run is cell `j[k]` of the rewritten one. */
  type Cells = seq<nat>

  ghost predicate StRel(st: State, st2: State, j: Cells) {
    && |j| == |st.mem| && st2.input == st.input && st2.trace == st.trace
    && (forall k :: 0 <= k < |j| ==> j[k] < |st2.mem| && st2.mem[j[k]] == st.mem[k])
    && (forall k, l :: 0 <= k < l < |j| ==> j[k] != j[l])
  }

  /** `j2` has the cells of `j` and some allocated after the first `n`. */
  ghost predicate Grown(j: Cells, j2: Cells, n: nat) {
    |j| <= |j2| && j2[..|j|] == j && forall k :: |j| <= k < |j2| ==> j2[k] >= n
  }

  /** Cells the original run knows nothing of, the rewritten program's own, are not written. */
  ghost predicate Untouched(st: State, st2: State, j: Cells) {
    |st2.mem| >= |st.mem| && forall c :: 0 <= c < |st.mem| && c !in j ==> st2.mem[c] == st.mem[c]
  }

  /** Outcomes that agree: same kind, same value, same trace and input, matching cells. */
  ghost predicate OutRel<T>(o: Outcome<T>, o2: Outcome<T>, j: Cells) {
    match o
    case Val(v, st) => o2.Val? && o2.value == v && StRel(st, o2.st, j)
    case Brk(st) => o2.Brk? && StRel(st, o2.st, j)
    case Fault(st) => o2.Fault? && st.trace == o2.st.trace && st.input == o2.st.input
    case Stuck(st) => o2.Stuck? && st.trace == o2.st.trace && st.input == o2.st.input
    case Timeout(st) => o2.Timeout? && st.trace == o2.st.trace && st.input == o2.st.input
  }

  /** What one evaluation does to the correspondence. */
  ghost predicate Kept<T>(o: Outcome<T>, o2: Outcome<T>, st2: State, j: Cells, j2: Cells) {
    OutRel(o, o2, j2) && Grown(j, j2, |st2.mem|) && Untouched(st2, o2.st, j)
  }

  lemma GrownTransitive(j1: Cells, j2: Cells, j3: Cells, n: nat, n2: nat)
    requires Grown(j1, j2, n) && Grown(j2, j3, n2) && n <= n2
    ensures Grown(j1, j3, n)
  {
    forall k | |j1| <= k < |j3| ensures j3[k] >= n {
      if k < |j2| { assert j3[k] == j3[..|j2|][k]; }
    }
    assert j3[..|j1|] == j3[..|j2|][..|j1|];
  }

  lemma UntouchedTransitive(st1: State, st2: State, st3: State, j1: Cells, j2: Cells)
    requires Untouched(st1, st2, j1) && Untouched(st2, st3, j2) && Grown(j1, j2, |st1.mem|)
    ensures Untouched(st1, st3, j1)
  {
    forall c | 0 <= c < |st1.mem| && c !in j1 ensures st3.mem[c] == st1.mem[c] {
      forall k | 0 <= k < |j2| ensures j2[k] != c {
        if k < |j1| { assert j1[k] == j2[..|j1|][k]; }
      }
    }
  }

  /** Evaluating one thing after another. */
  lemma KeptLater<T, U>(o1: Outcome<T>, p1: Outcome<T>, o2: Outcome<U>, p2: Outcome<U>, st2: State,
                                j: Cells, j1: Cells, j2: Cells)
    requires Kept(o1, p1, st2, j, j1) && Kept(o2, p2, p1.st, j1, j2)
    ensures Kept(o2, p2, st2, j, j2)
  {
    GrownTransitive(j, j1, j2, |st2.mem|, |p1.st.mem|);
    UntouchedTransitive(st2, p1.st, p2.st, j, j1);
  }

  /** A cell allocated on both sides. */
  lemma AllocRel(st: State, st2: State, j: Cells, v: int32)
    requires StRel(st, st2, j)
    ensures StRel(st.Alloc(v), st2.Alloc(v), j + [|st2.mem|])
    ensures Grown(j, j + [|st2.mem|], |st2.mem|)
  {}

  /** A cell only the rewritten run has. */
  lemma HiddenRel(st: State, st2: State, j: Cells, v: int32)
    requires StRel(st, st2, j)
    ensures StRel(st, st2.Alloc(v), j) && |st2.mem| !in j
  {}

  lemma WriteRel(st: State, st2: State, j: Cells, k: nat, v: int32)
    requires StRel(st, st2, j) && k < |j|
    ensures StRel(st.Write(k, v), st2.Write(j[k], v), j) && Untouched(st2, st2.Write(j[k], v), j)
  {}

  /** Cell `h` belongs to the rewritten run alone. */
  ghost predicate Hidden(h: nat, st2: State, j: Cells) { h < |st2.mem| && h !in j }

  lemma StillHidden(h: nat, st2: State, st3: State, j: Cells, j2: Cells)
    requires Hidden(h, st2, j) && Grown(j, j2, |st2.mem|) && Untouched(st2, st3, j)
    ensures Hidden(h, st3, j2) && st3.mem[h] == st2.mem[h]
  {
    forall k | 0 <= k < |j2| ensures j2[k] != h {
      if k < |j| { assert j[k] == j2[..|j|][k]; }
    }
  }
}
