/** The configuration reducers of the slice (simulationSlice.ts:83-138) as
    functions on values, and what each does to the invariant and to the
    conservation identity. A setter whose index names no source makes the
    reducer throw (`state.sources[i]` is undefined), so the store keeps
    its old state: the function then returns None. */
module Reducers {
  import opened SimTypes
  import opened ArrayOps
  import opened DayStep
  import opened Invariants
  import opened Generation

  /** The source addSource appends: rate 1, one work day, nothing generated. */
  const NewSource := SourceState(1.0, 0, 1)

  /** `r` is `st` with source `j` replaced by `s` and nothing else changed. */
  predicate SourceReplaced(st: SimulationState, r: SimulationState, j: nat, s: SourceState)
  {
    j < |st.sources| && |r.sources| == |st.sources|
    && r.sources[j] == s
    && (forall i :: 0 <= i < |st.sources| && i != j ==> r.sources[i] == st.sources[i])
    && r.(sources := st.sources) == st
  }

  /** `setTaskGenerationRate` (simulationSlice.ts:83-85). */
  function SetTaskGenerationRate(st: SimulationState, source: int, rate: real): (r: Option<SimulationState>)
    ensures r.None? <==> !(0 <= source < |st.sources|)
    ensures r.Some? ==> SourceReplaced(st, r.value, source, st.sources[source].(taskGenerationRate := rate))
  {
    if 0 <= source < |st.sources|
    then Some(st.(sources := st.sources[source := st.sources[source].(taskGenerationRate := rate)]))
    else None
  }

  /** `setWorkDays` (simulationSlice.ts:86-88). */
  function SetWorkDays(st: SimulationState, source: int, workDays: int): (r: Option<SimulationState>)
    ensures r.None? <==> !(0 <= source < |st.sources|)
    ensures r.Some? ==> SourceReplaced(st, r.value, source, st.sources[source].(workDays := workDays))
  {
    if 0 <= source < |st.sources|
    then Some(st.(sources := st.sources[source := st.sources[source].(workDays := workDays)]))
    else None
  }

  /** `addSource` (simulationSlice.ts:89-95). */
  function AddSource(st: SimulationState): (r: SimulationState)
    ensures |r.sources| == |st.sources| + 1 && r.sources[..|st.sources|] == st.sources
    ensures r.sources[|st.sources|] == NewSource
    ensures r.(sources := st.sources) == st
  {
    st.(sources := st.sources + [NewSource])
  }

  /** `removeSource` (simulationSlice.ts:96-101): `splice(index, 1)` unless
      only one source is left. */
  function RemoveSource(st: SimulationState, index: int): (r: SimulationState)
    ensures r.(sources := st.sources) == st
    ensures |st.sources| >= 1 ==> |r.sources| >= 1
    ensures |st.sources| <= 1 ==> r == st
    ensures |st.sources| > 1 && 0 <= index < |st.sources| ==> r.sources == st.sources[..index] + st.sources[index + 1..]
  {
    st.(sources := RemoveGuarded(st.sources, index))
  }

  /** `addExecutor` (simulationSlice.ts:102-108). */
  function AddExecutor(st: SimulationState): (r: SimulationState)
    ensures |r.executors| == |st.executors| + 1 && r.executors[..|st.executors|] == st.executors
    ensures r.executors[|st.executors|] == IdleExecutor
    ensures r.(executors := st.executors) == st
  {
    st.(executors := st.executors + [IdleExecutor])
  }

  /** `removeExecutor` (simulationSlice.ts:109-114): `splice(index, 1)`
      unless only one executor is left; a task the removed executor held
      leaves the simulation with it. */
  function RemoveExecutor(st: SimulationState, index: int): (r: SimulationState)
    ensures r.(executors := st.executors) == st
    ensures |st.executors| >= 1 ==> |r.executors| >= 1
    ensures |st.executors| <= 1 ==> r == st
    ensures |st.executors| > 1 && 0 <= index < |st.executors| ==> r.executors == st.executors[..index] + st.executors[index + 1..]
  {
    st.(executors := RemoveGuarded(st.executors, index))
  }

  /** Sources 0 .. j-1 as reset keeps them: rate and work days, counter zeroed. */
  function ResetSourcesPrefix(sources: seq<SourceState>, j: nat): (r: seq<SourceState>)
    requires j <= |sources|
    ensures |r| == j
    ensures forall i {:trigger r[i]} :: 0 <= i < j ==> r[i] == sources[i].(tasksGenerated := 0)
  {
    if j == 0 then [] else ResetSourcesPrefix(sources, j - 1) + [sources[j - 1].(tasksGenerated := 0)]
  }

  /** `n` fresh idle executors. */
  function IdleExecutors(n: nat): (r: seq<ExecutorState>)
    ensures |r| == n
    ensures forall k {:trigger r[k]} :: 0 <= k < n ==> r[k] == IdleExecutor
  {
    if n == 0 then [] else IdleExecutors(n - 1) + [IdleExecutor]
  }

  /** `resetSimulation` (simulationSlice.ts:115-138): the initial state,
      except that the sources keep their rates and work days and the
      executor count is kept, all idle. */
  function Reset(st: SimulationState): (r: SimulationState)
    ensures r.day == 0 && r.nextTaskId == 1
    ensures r.buffer == EmptyBuffer && r.done == EmptyLedger
    ensures |r.sources| == |st.sources|
    ensures forall j :: 0 <= j < |st.sources| ==>
              r.sources[j].taskGenerationRate == st.sources[j].taskGenerationRate
              && r.sources[j].workDays == st.sources[j].workDays
              && r.sources[j].tasksGenerated == 0
    ensures |r.executors| == |st.executors|
    ensures forall k :: 0 <= k < |st.executors| ==> r.executors[k] == IdleExecutor
  {
    InitialState().(sources := ResetSourcesPrefix(st.sources, |st.sources|),
                    executors := IdleExecutors(|st.executors|))
  }

  // ---------------------------------------------------------------- sums over lists

  lemma {:induction false} GeneratedPrefixOfConcat(a: seq<SourceState>, b: seq<SourceState>, j: nat)
    requires j <= |b|
    ensures GeneratedPrefix(a + b, |a| + j) == Generated(a) + GeneratedPrefix(b, j)
  {
    if j == 0 {
      GeneratedPrefixOfPrefix(a, b, |a|);
    } else {
      GeneratedPrefixOfConcat(a, b, j - 1);
      assert (a + b)[|a| + j - 1] == b[j - 1];
    }
  }

  lemma {:induction false} GeneratedPrefixOfPrefix(a: seq<SourceState>, b: seq<SourceState>, i: nat)
    requires i <= |a|
    ensures GeneratedPrefix(a + b, i) == GeneratedPrefix(a, i)
  {
    if i > 0 {
      GeneratedPrefixOfPrefix(a, b, i - 1);
      assert (a + b)[i - 1] == a[i - 1];
    }
  }

  /** The generated count of a concatenation is the sum of the two. */
  lemma GeneratedConcat(a: seq<SourceState>, b: seq<SourceState>)
    ensures Generated(a + b) == Generated(a) + Generated(b)
  {
    GeneratedPrefixOfConcat(a, b, |b|);
  }

  /** Deleting source k takes exactly its counter out of the total. */
  lemma GeneratedWithout(xs: seq<SourceState>, k: nat)
    requires k < |xs|
    ensures Generated(xs[..k] + xs[k + 1..]) == Generated(xs) - xs[k].tasksGenerated
  {
    assert xs == xs[..k] + ([xs[k]] + xs[k + 1..]);
    GeneratedConcat(xs[..k], [xs[k]] + xs[k + 1..]);
    GeneratedConcat([xs[k]], xs[k + 1..]);
    GeneratedConcat(xs[..k], xs[k + 1..]);
    assert Generated([xs[k]]) == GeneratedPrefix([xs[k]], 0) + xs[k].tasksGenerated;
  }

  lemma {:induction false} IdleBeforeOfPrefix(a: seq<ExecutorState>, b: seq<ExecutorState>, i: nat)
    requires i <= |a|
    ensures IdleBefore(a + b, i) == IdleBefore(a, i)
  {
    if i > 0 {
      IdleBeforeOfPrefix(a, b, i - 1);
      assert (a + b)[i - 1] == a[i - 1];
    }
  }

  lemma {:induction false} IdleBeforeOfConcat(a: seq<ExecutorState>, b: seq<ExecutorState>, j: nat)
    requires j <= |b|
    ensures IdleBefore(a + b, |a| + j) == IdleCount(a) + IdleBefore(b, j)
  {
    if j == 0 {
      IdleBeforeOfPrefix(a, b, |a|);
    } else {
      IdleBeforeOfConcat(a, b, j - 1);
      assert (a + b)[|a| + j - 1] == b[j - 1];
    }
  }

  /** The busy count of a concatenation is the sum of the two. */
  lemma BusyConcat(a: seq<ExecutorState>, b: seq<ExecutorState>)
    ensures BusyCount(a + b) == BusyCount(a) + BusyCount(b)
  {
    IdleBeforeOfConcat(a, b, |b|);
    IdleBeforeBound(a, |a|);
    IdleBeforeBound(b, |b|);
  }

  /** Deleting executor k lowers the busy count by one exactly when it was busy. */
  lemma BusyWithout(ex: seq<ExecutorState>, k: nat)
    requires k < |ex|
    ensures BusyCount(ex[..k] + ex[k + 1..]) == BusyCount(ex) - (if Busy(ex[k]) then 1 else 0)
  {
    assert ex == ex[..k] + ([ex[k]] + ex[k + 1..]);
    BusyConcat(ex[..k], [ex[k]] + ex[k + 1..]);
    BusyConcat([ex[k]], ex[k + 1..]);
    BusyConcat(ex[..k], ex[k + 1..]);
    assert IdleCount([ex[k]]) == IdleBefore([ex[k]], 0) + (if ex[k].currentTask.None? then 1 else 0);
  }

  // ---------------------------------------------------------------- reducer properties

  /** The initial state satisfies the invariant and the conservation identity. */
  lemma InitialValid()
    ensures Inv(InitialState()) && Conserved(InitialState())
  {
    var st := InitialState();
    assert Generated(st.sources) == GeneratedPrefix(st.sources, 1) + 0;
    assert IdleCount(st.executors) == IdleBefore(st.executors, 0) + 1;
  }

  /** The setters keep the invariant and the conservation identity: they
      touch only the configuration of one source. */
  lemma SettersKeep(st: SimulationState, source: int, rate: real, workDays: int)
    requires 0 <= source < |st.sources|
    ensures var r := SetTaskGenerationRate(st, source, rate).value;
      Generated(r.sources) == Generated(st.sources) && (Inv(st) ==> Inv(r))
    ensures var r := SetWorkDays(st, source, workDays).value;
      Generated(r.sources) == Generated(st.sources) && (Inv(st) ==> Inv(r))
  {
    var r1 := SetTaskGenerationRate(st, source, rate).value;
    var r2 := SetWorkDays(st, source, workDays).value;
    SameCounters(st.sources, r1.sources, |st.sources|);
    SameCounters(st.sources, r2.sources, |st.sources|);
  }

  lemma {:induction false} SameCounters(a: seq<SourceState>, b: seq<SourceState>, j: nat)
    requires |a| == |b| && j <= |a|
    requires forall i :: 0 <= i < |a| ==> a[i].tasksGenerated == b[i].tasksGenerated
    ensures GeneratedPrefix(a, j) == GeneratedPrefix(b, j)
  {
    if j > 0 {
      SameCounters(a, b, j - 1);
    }
  }

  /** A work-days change applies to the tasks the source produces from then
      on; the tasks already queued keep the work days they were made with. */
  lemma WorkDaysApplyToNewTasks(st: SimulationState, source: int, workDays: int, counts: seq<nat>, k: nat)
    requires 0 <= source < |st.sources| && |counts| == |st.sources| && k < counts[source]
    ensures var s := SetWorkDays(st, source, workDays).value;
      var g := Generate(s, counts);
      var p := |st.buffer.tasks| + SumPrefix(counts, source) + k;
      s.buffer == st.buffer
      && p < |g.buffer.tasks| && g.buffer.tasks[p].workDays == workDays
  {
    var s := SetWorkDays(st, source, workDays).value;
    GenerateSourceOrder(s, counts, source, k);
  }

  /** Adding a source keeps the invariant and the conservation identity
      (the new source has generated nothing). */
  lemma AddSourceKeeps(st: SimulationState)
    ensures Generated(AddSource(st).sources) == Generated(st.sources)
    ensures Inv(st) ==> Inv(AddSource(st))
    ensures Conserved(st) ==> Conserved(AddSource(st))
  {
    GeneratedConcat(st.sources, [NewSource]);
    assert Generated([NewSource]) == GeneratedPrefix([NewSource], 0) + 0;
  }

  /** Adding an executor keeps the invariant and the conservation identity
      (the new executor is idle). */
  lemma AddExecutorKeeps(st: SimulationState)
    ensures BusyCount(AddExecutor(st).executors) == BusyCount(st.executors)
    ensures Inv(st) ==> Inv(AddExecutor(st))
    ensures Conserved(st) ==> Conserved(AddExecutor(st))
  {
    var r := AddExecutor(st);
    BusyConcat(st.executors, [IdleExecutor]);
    assert IdleCount([IdleExecutor]) == IdleBefore([IdleExecutor], 0) + 1;
    if Inv(st) {
      var ex := r.executors;
      forall k | 0 <= k < |ex| ensures ExecutorClock(ex[k], r.day) {
        if k < |st.executors| {
          assert ex[k] == st.executors[k];
        }
      }
      assert HeldDistinct(ex) by {
        forall k1, k2 | 0 <= k1 < |ex| && 0 <= k2 < |ex| && k1 != k2 && Busy(ex[k1]) && Busy(ex[k2])
          ensures HeldId(ex[k1]) != HeldId(ex[k2])
        {
          assert ex[k1] == st.executors[k1] && ex[k2] == st.executors[k2];
        }
      }
      assert HeldPrecede(ex, r.buffer.tasks, r.nextTaskId) by {
        forall k | 0 <= k < |ex| && Busy(ex[k]) ensures Precedes(HeldId(ex[k]), r.buffer.tasks, r.nextTaskId) {
          assert ex[k] == st.executors[k];
        }
      }
      assert LedgerApart(r.done.tasks, ex) by {
        forall i, k | 0 <= i < |r.done.tasks| && 0 <= k < |ex| && Busy(ex[k]) ensures r.done.tasks[i].id != HeldId(ex[k]) {
          assert ex[k] == st.executors[k];
        }
      }
    }
  }

  /** The position `RemoveGuarded(xs, index)` deletes at, if it deletes. */
  lemma RemoveGuardedShape<T>(xs: seq<T>, index: int)
    ensures var r := RemoveGuarded(xs, index); var k := SpliceStart(|xs|, index);
      (|xs| > 1 && k < |xs| && r == xs[..k] + xs[k + 1..])
      || ((|xs| <= 1 || k == |xs|) && r == xs)
  {
  }

  /** Removing a source keeps the invariant. The generated total drops by
      the removed source's counter, so the conservation identity survives
      exactly when that source had generated nothing. */
  lemma RemoveSourceKeeps(st: SimulationState, index: int)
    ensures Inv(st) ==> Inv(RemoveSource(st, index))
    ensures var k := SpliceStart(|st.sources|, index);
      if |st.sources| > 1 && k < |st.sources|
      then Generated(RemoveSource(st, index).sources) == Generated(st.sources) - st.sources[k].tasksGenerated
           && (Conserved(st) ==> (Conserved(RemoveSource(st, index)) <==> st.sources[k].tasksGenerated == 0))
      else RemoveSource(st, index) == st
  {
    RemoveGuardedShape(st.sources, index);
    var k := SpliceStart(|st.sources|, index);
    if |st.sources| > 1 && k < |st.sources| {
      GeneratedWithout(st.sources, k);
    }
  }

  /** Deleting executor k keeps every per-executor fact of the invariant. */
  lemma DropExecutorKeeps(st: SimulationState, k: nat)
    requires Inv(st) && |st.executors| > 1 && k < |st.executors|
    ensures Inv(st.(executors := st.executors[..k] + st.executors[k + 1..]))
  {
    var ex := st.executors;
    var ys := ex[..k] + ex[k + 1..];
    var r := st.(executors := ys);
    assert forall i :: 0 <= i < |ys| ==> ys[i] == ex[if i < k then i else i + 1];
    assert Clocks(ys, r.day) by {
      forall i | 0 <= i < |ys| ensures ExecutorClock(ys[i], r.day) {
        assert ys[i] == ex[if i < k then i else i + 1];
      }
    }
    assert HeldDistinct(ys) by {
      forall k1, k2 | 0 <= k1 < |ys| && 0 <= k2 < |ys| && k1 != k2 && Busy(ys[k1]) && Busy(ys[k2])
        ensures HeldId(ys[k1]) != HeldId(ys[k2])
      {
        var j1 := if k1 < k then k1 else k1 + 1;
        var j2 := if k2 < k then k2 else k2 + 1;
        assert ys[k1] == ex[j1] && ys[k2] == ex[j2];
      }
    }
    assert HeldPrecede(ys, r.buffer.tasks, r.nextTaskId) by {
      forall i | 0 <= i < |ys| && Busy(ys[i]) ensures Precedes(HeldId(ys[i]), r.buffer.tasks, r.nextTaskId) {
        assert ys[i] == ex[if i < k then i else i + 1];
      }
    }
    assert LedgerApart(r.done.tasks, ys) by {
      forall i, j | 0 <= i < |r.done.tasks| && 0 <= j < |ys| && Busy(ys[j]) ensures r.done.tasks[i].id != HeldId(ys[j]) {
        assert ys[j] == ex[if j < k then j else j + 1];
      }
    }
  }

  /** Removing an executor keeps the invariant. The busy count drops by one
      exactly when the removed executor held a task, so the conservation
      identity survives exactly when it was idle. */
  lemma RemoveExecutorKeeps(st: SimulationState, index: int)
    ensures Inv(st) ==> Inv(RemoveExecutor(st, index))
    ensures var k := SpliceStart(|st.executors|, index);
      if |st.executors| > 1 && k < |st.executors|
      then BusyCount(RemoveExecutor(st, index).executors)
             == BusyCount(st.executors) - (if Busy(st.executors[k]) then 1 else 0)
           && (Conserved(st) ==> (Conserved(RemoveExecutor(st, index)) <==> !Busy(st.executors[k])))
      else RemoveExecutor(st, index) == st
  {
    RemoveGuardedShape(st.executors, index);
    var k := SpliceStart(|st.executors|, index);
    if |st.executors| > 1 && k < |st.executors| {
      BusyWithout(st.executors, k);
      if Inv(st) {
        DropExecutorKeeps(st, k);
      }
    }
  }

  /** Removing what was just added gives back the old state, as long as
      there was something to keep. */
  lemma RemoveUndoesAdd(st: SimulationState)
    requires |st.sources| >= 1 && |st.executors| >= 1
    ensures RemoveSource(AddSource(st), |st.sources|) == st
    ensures RemoveExecutor(AddExecutor(st), |st.executors|) == st
  {
    assert (st.sources + [NewSource])[..|st.sources|] == st.sources;
    assert (st.executors + [IdleExecutor])[..|st.executors|] == st.executors;
  }

  /** After a reset the state satisfies the invariant and the conservation
      identity; resetting twice is resetting once; and resetting the initial
      state gives the initial state. */
  lemma ResetFacts(st: SimulationState)
    ensures |st.sources| >= 1 && |st.executors| >= 1 ==> Inv(Reset(st))
    ensures Conserved(Reset(st))
    ensures Reset(Reset(st)) == Reset(st)
    ensures Reset(InitialState()) == InitialState()
  {
    var r := Reset(st);
    ZeroCounters(r.sources, |r.sources|);
    AllIdle(r.executors, |r.executors|);
    IdleBeforeBound(r.executors, |r.executors|);
    assert Reset(r).sources == r.sources;
    assert Reset(r).executors == r.executors;
    var i := InitialState();
    assert Reset(i).sources == i.sources;
    assert Reset(i).executors == i.executors;
  }

  lemma {:induction false} ZeroCounters(xs: seq<SourceState>, j: nat)
    requires j <= |xs| && forall i :: 0 <= i < |xs| ==> xs[i].tasksGenerated == 0
    ensures GeneratedPrefix(xs, j) == 0
  {
    if j > 0 {
      ZeroCounters(xs, j - 1);
    }
  }

  lemma {:induction false} AllIdle(ex: seq<ExecutorState>, k: nat)
    requires k <= |ex| && forall i :: 0 <= i < |ex| ==> ex[i].currentTask.None?
    ensures IdleBefore(ex, k) == k
  {
    if k > 0 {
      AllIdle(ex, k - 1);
    }
  }
}
