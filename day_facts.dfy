/** Properties of a whole simulated day and of runs of days
    (simulationSlice.ts:139-210): the invariant and the conservation
    identity are kept, the counters only grow, the ledger records exactly
    the day's completions, and a task handed to an executor completes on
    the day its work days run out. */
module DayFacts {
  import opened SimTypes
  import opened ArrayOps
  import opened DayStep
  import opened Invariants
  import opened Generation
  import opened Completion
  import opened Assignment

  /** A day keeps the invariant of reachable states. */
  lemma DayInv(st: SimulationState, counts: seq<nat>)
    requires |counts| == |st.sources| && Inv(st)
    ensures Inv(Day(st, counts))
  {
    var s1 := Tick(st);
    var s2 := Generate(s1, counts);
    var s3 := Complete(s2);
    var s4 := Dispatch(s3);
    assert IdsOrdered(s1);
    GenerateIds(s1, counts);
    CompleteIds(s2);
    CompleteClocks(s2);
    DispatchIds(s3);
    DispatchClocks(s3);
    var fs := Finished(s2.executors, s2.day);
    assert |s3.done.tasks| <= Window by {
      if fs != [] {
        assert |Last(s2.done.tasks + fs, Window)| <= Window;
      }
    }
  }

  /** A day keeps the conservation identity: every generated task is in
      the buffer, with an executor, or counted as done. */
  lemma DayConserves(st: SimulationState, counts: seq<nat>)
    requires |counts| == |st.sources| && Conserved(st)
    ensures Conserved(Day(st, counts))
  {
    var s1 := Tick(st);
    var s2 := Generate(s1, counts);
    var s3 := Complete(s2);
    GenerateConserves(s1, counts);
    CompleteConserves(s2);
    DispatchConserves(s3);
  }

  /** The ledger after a day: the total grows by the number of that day's
      completions, the latency sum by their latencies, and the task list
      is the window over the old list followed by them, in executor order. */
  lemma DayLedger(st: SimulationState, counts: seq<nat>)
    requires |counts| == |st.sources|
    ensures AllStamped(CompletedOn(st))
    ensures var r := Day(st, counts); var c := CompletedOn(st);
      r.done.total == st.done.total + |c|
      && r.done.daysSum == st.done.daysSum + LatencySum(c)
      && r.done.tasks == Recent(st.done.tasks, c)
  {
    FinishedStamped(st.executors, st.day + 1, |st.executors|);
    var s2 := Generate(Tick(st), counts);
    assert s2.executors == st.executors && s2.day == st.day + 1;
  }

  /** Each day's completions are stamped with that day and carry the task
      as it was held; each latency is the task's age on that day. */
  lemma CompletedStamps(st: SimulationState, i: nat)
    requires i < |CompletedOn(st)|
    ensures CompletedOn(st)[i].executedAt == Some(st.day + 1)
    ensures Latency(CompletedOn(st)[i]) == st.day + 1 - CompletedOn(st)[i].createdAt
  {
    FinishedStamped(st.executors, st.day + 1, |st.executors|);
  }

  /** A day charges one day of utilization to exactly the executors that
      were busy when it began. */
  lemma DayUtilization(st: SimulationState, counts: seq<nat>, k: nat)
    requires |counts| == |st.sources| && k < |st.executors|
    ensures Day(st, counts).executors[k].daysUtilized
            == st.executors[k].daysUtilized + (if Busy(st.executors[k]) then 1 else 0)
  {
    var s3 := Complete(Generate(Tick(st), counts));
    DispatchShape(s3);
    assert Dispatch(s3).executors[k] == Assign(s3.executors[k], IdleBefore(s3.executors, k), s3.buffer.tasks, s3.day);
  }

  /** The counters only grow: the day, the id counter, every source's
      generated count, every executor's utilization, the ledger's total and
      the buffer statistics. */
  lemma DayMonotone(st: SimulationState, counts: seq<nat>)
    requires |counts| == |st.sources|
    ensures var r := Day(st, counts);
      r.day == st.day + 1
      && r.nextTaskId == st.nextTaskId + Total(counts)
      && (forall j :: 0 <= j < |st.sources| ==>
            r.sources[j].tasksGenerated == st.sources[j].tasksGenerated + counts[j])
      && (forall k :: 0 <= k < |st.executors| ==>
            r.executors[k].daysUtilized >= st.executors[k].daysUtilized)
      && r.done.total >= st.done.total
      && r.buffer.historySum >= st.buffer.historySum
      && r.buffer.max >= st.buffer.max
  {
    GenerateAppends(Tick(st), counts);
    DayLedger(st, counts);
    forall k | 0 <= k < |st.executors|
      ensures Day(st, counts).executors[k].daysUtilized >= st.executors[k].daysUtilized
    {
      DayUtilization(st, counts, k);
    }
  }

  /** The executor's start is recorded as a positive day, as dispatch
      records it. */
  predicate StartedOnDay(x: ExecutorState)
  {
    x.startedExecutionAt.Some? && x.startedExecutionAt.value >= 1
  }

  /** A busy executor whose task is not yet due keeps its task and its
      start through the day. */
  lemma DayKeepsRunning(st: SimulationState, counts: seq<nat>, k: nat)
    requires |counts| == |st.sources|
    requires k < |st.executors| && Busy(st.executors[k]) && StartedOnDay(st.executors[k])
    requires st.day + 1 < st.executors[k].startedExecutionAt.value + st.executors[k].currentTask.value.workDays
    ensures Day(st, counts).executors[k].currentTask == st.executors[k].currentTask
    ensures Day(st, counts).executors[k].startedExecutionAt == st.executors[k].startedExecutionAt
  {
    var s2 := Generate(Tick(st), counts);
    var s3 := Complete(s2);
    assert s3.executors[k] == AfterCheck(st.executors[k], st.day + 1);
    DispatchShape(s3);
    assert Dispatch(s3).executors[k] == Assign(s3.executors[k], IdleBefore(s3.executors, k), s3.buffer.tasks, s3.day);
  }

  // ---------------------------------------------------------------- runs

  /** processDay advances the clock by exactly the payload's number of days;
      a missing, zero or negative payload leaves the state as it was. */
  lemma PayloadDays(st: SimulationState, payload: Option<int>, arrivals: seq<seq<nat>>)
    requires Oracle(arrivals, DaysOf(payload), |st.sources|)
    ensures payload.Some? && payload.value > 0 ==> DaysOf(payload) == payload.value
    ensures Run(st, DaysOf(payload), arrivals).day == st.day + DaysOf(payload)
    ensures (payload.None? || payload.value <= 0) ==> Run(st, DaysOf(payload), arrivals) == st
  {
    assert Steps(Day);
  }

  /** The day as a step of `Iterate`, known only through its contract: it
      agrees with `Day` wherever `Day` is applied, and iterating it is `Run`. */
  lemma DayAsStep() returns (step: (SimulationState, seq<nat>) --> SimulationState)
    ensures Steps(step)
    ensures forall s: SimulationState, c: seq<nat> {:trigger Day(s, c)} :: |c| == |s.sources| ==> step(s, c) == Day(s, c)
    ensures forall st: SimulationState, n: nat, a: seq<seq<nat>> {:trigger Run(st, n, a)} ::
              Oracle(a, n, |st.sources|) ==> Run(st, n, a) == Iterate(step, st, n, a)
  {
    step := Day;
    assert Steps(Day);
  }

  lemma RunZero(st: SimulationState, arrivals: seq<seq<nat>>)
    ensures Run(st, 0, arrivals) == st
  {
    assert Steps(Day);
  }

  /** One more day of a run is one more application of the day. */
  lemma RunStep(st: SimulationState, n: nat, arrivals: seq<seq<nat>>)
    requires Oracle(arrivals, n + 1, |st.sources|)
    ensures |arrivals[n]| == |Run(st, n, arrivals).sources|
    ensures Run(st, n + 1, arrivals) == Day(Run(st, n, arrivals), arrivals[n])
  {
    assert Steps(Day);
    assert Iterate(Day, st, n + 1, arrivals) == Day(Iterate(Day, st, n, arrivals), arrivals[n]);
  }

  /** A property that every step keeps holds after any number of steps. */
  lemma {:induction false} IterateKeeps(step: (SimulationState, seq<nat>) --> SimulationState, P: SimulationState -> bool,
                                        st: SimulationState, n: nat, arrivals: seq<seq<nat>>)
    requires Steps(step) && Oracle(arrivals, n, |st.sources|) && P(st)
    requires forall s: SimulationState, c: seq<nat> :: |c| == |s.sources| && P(s) ==> P(step(s, c))
    ensures P(Iterate(step, st, n, arrivals))
  {
    if n > 0 {
      IterateKeeps(step, P, st, n - 1, arrivals);
    }
  }

  lemma RunInv(st: SimulationState, n: nat, arrivals: seq<seq<nat>>)
    requires Oracle(arrivals, n, |st.sources|) && Inv(st)
    ensures Inv(Run(st, n, arrivals))
  {
    forall s: SimulationState, c: seq<nat> | |c| == |s.sources| && Inv(s) ensures Inv(Day(s, c)) {
      DayInv(s, c);
    }
    IterateKeeps(Day, s => Inv(s), st, n, arrivals);
  }

  lemma RunConserves(st: SimulationState, n: nat, arrivals: seq<seq<nat>>)
    requires Oracle(arrivals, n, |st.sources|) && Conserved(st)
    ensures Conserved(Run(st, n, arrivals))
  {
    forall s: SimulationState, c: seq<nat> | |c| == |s.sources| && Conserved(s) ensures Conserved(Day(s, c)) {
      DayConserves(s, c);
    }
    IterateKeeps(Day, s => Conserved(s), st, n, arrivals);
  }

  /** Both facts a run keeps. */
  lemma RunKeeps(st: SimulationState, n: nat, arrivals: seq<seq<nat>>)
    requires Oracle(arrivals, n, |st.sources|)
    ensures Inv(st) ==> Inv(Run(st, n, arrivals))
    ensures Conserved(st) ==> Conserved(Run(st, n, arrivals))
  {
    if Inv(st) {
      RunInv(st, n, arrivals);
    }
    if Conserved(st) {
      RunConserves(st, n, arrivals);
    }
  }

  /** A running task stays with its executor, with the same start, on
      every day before it is due. */
  lemma HoldsUntilDue(st: SimulationState, n: nat, arrivals: seq<seq<nat>>, k: nat)
    requires Oracle(arrivals, n, |st.sources|)
    requires k < |st.executors| && Busy(st.executors[k]) && StartedOnDay(st.executors[k])
    requires n == 0 || st.day + n < st.executors[k].startedExecutionAt.value + st.executors[k].currentTask.value.workDays
    ensures Run(st, n, arrivals).executors[k].currentTask == st.executors[k].currentTask
    ensures Run(st, n, arrivals).executors[k].startedExecutionAt == st.executors[k].startedExecutionAt
  {
    var x := st.executors[k];
    var due := x.startedExecutionAt.value + x.currentTask.value.workDays;
    var P := (s: SimulationState) => k < |s.executors| && (s.day < due ==>
               s.executors[k].currentTask == x.currentTask && s.executors[k].startedExecutionAt == x.startedExecutionAt);
    forall s: SimulationState, c: seq<nat> | |c| == |s.sources| && P(s) ensures P(Day(s, c)) {
      if Day(s, c).day < due {
        DayKeepsRunning(s, c, k);
      }
    }
    IterateKeeps(Day, P, st, n, arrivals);
  }

  /** The day a held task completes: once its work days have passed since
      its start, and never on the day it was handed out. */
  function DueDay(x: ExecutorState, day: int): int
    requires Busy(x) && x.startedExecutionAt.Some?
  {
    Max(x.startedExecutionAt.value + x.currentTask.value.workDays, day + 1)
  }

  /** An executor whose task has run its work days hands it in on the
      coming day, stamped with that day. */
  lemma CompletesWhenDue(st: SimulationState, k: nat)
    requires k < |st.executors| && Busy(st.executors[k]) && StartedOnDay(st.executors[k])
    requires st.day + 1 - st.executors[k].startedExecutionAt.value >= st.executors[k].currentTask.value.workDays
    ensures Stamp(st.executors[k].currentTask.value, st.day + 1) in CompletedOn(st)
  {
    FinishedHas(st.executors, st.day + 1, |st.executors|, k);
  }

  /** A task held at the end of a day is completed on its due day, stamped
      with that day, and appears among that day's completions. */
  lemma CompletesOnDueDay(st: SimulationState, arrivals: seq<seq<nat>>, k: nat)
    requires k < |st.executors| && Busy(st.executors[k]) && StartedOnDay(st.executors[k])
    requires Oracle(arrivals, DueDay(st.executors[k], st.day) - st.day - 1, |st.sources|)
    ensures var x := st.executors[k]; var n := DueDay(x, st.day) - st.day - 1;
      Stamp(x.currentTask.value, DueDay(x, st.day)) in CompletedOn(Run(st, n, arrivals))
  {
    var x := st.executors[k];
    var n := DueDay(x, st.day) - st.day - 1;
    HoldsUntilDue(st, n, arrivals, k);
    CompletesWhenDue(Run(st, n, arrivals), k);
  }

  /** A task with at least one work day handed out on day s completes on
      exactly day s + workDays: it is still held at the end of every
      earlier day, and it is among the completions of day s + workDays. */
  lemma CompletesExactlyOnTime(st: SimulationState, arrivals: seq<seq<nat>>, k: nat, n: nat)
    requires k < |st.executors| && Busy(st.executors[k]) && st.day >= 1
    requires st.executors[k].startedExecutionAt == Some(st.day)
    requires st.executors[k].currentTask.value.workDays >= 1
    requires Oracle(arrivals, st.executors[k].currentTask.value.workDays - 1, |st.sources|)
    ensures var t := st.executors[k].currentTask.value;
      Stamp(t, st.day + t.workDays) in CompletedOn(Run(st, t.workDays - 1, arrivals))
    ensures var t := st.executors[k].currentTask.value;
      n < t.workDays ==> Run(st, n, arrivals).executors[k].currentTask == Some(t)
  {
    var t := st.executors[k].currentTask.value;
    assert DueDay(st.executors[k], st.day) == st.day + t.workDays;
    CompletesOnDueDay(st, arrivals, k);
    if n < t.workDays {
      HoldsUntilDue(st, n, arrivals, k);
    }
  }
}
