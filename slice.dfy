/** The slice as the store runs it (src/store/simulationSlice.ts): an
    object whose fields are the state, one method per reducer, and the
    phases of `processDay` as methods with the source's loops. Each method
    is proved to produce the state its closed-form function describes, so
    the lemmas about those functions carry over to the object. */
module SimulationSlice {
  import opened SimTypes
  import opened ArrayOps
  import opened DayStep
  import opened Invariants
  import opened Completion
  import opened Assignment
  import opened DayFacts
  import R = Reducers

  /** The queue `q0` with its first `taken` tasks handed out, or empty once
      every task has been. */
  predicate QueueAfter(q0: seq<Task>, taken: nat, tasks: seq<Task>)
  {
    (taken <= |q0| ==> tasks == q0[taken..]) && (taken >= |q0| ==> tasks == [])
  }

  /** Dispatch is fixed by the executors it produces and the queue it leaves. */
  lemma DispatchOf(st: SimulationState, ys: seq<ExecutorState>, tasks: seq<Task>)
    requires ys == AssignPrefix(st.executors, st.buffer.tasks, st.day, |st.executors|)
    requires QueueAfter(st.buffer.tasks, IdleCount(st.executors), tasks)
    ensures Dispatch(st) == st.(executors := ys, buffer := st.buffer.(tasks := tasks))
  {
    DispatchShape(st);
  }

  class Simulation {
    var day: nat
    var nextTaskId: int
    var sources: seq<SourceState>
    var buffer: BufferState
    var executors: seq<ExecutorState>
    var done: DoneState

    /** The store's state as a value. */
    function State(): SimulationState
      reads this
    {
      SimulationState(day, nextTaskId, sources, buffer, executors, done)
    }

    ghost predicate Valid()
      reads this
    {
      Inv(State())
    }

    /** The store created with `initialState` (simulationSlice.ts:45-77). */
    constructor()
      ensures State() == InitialState()
      ensures Valid() && Conserved(State())
    {
      var init := InitialState();
      day := init.day;
      nextTaskId := init.nextTaskId;
      sources := init.sources;
      buffer := init.buffer;
      executors := init.executors;
      done := init.done;
      R.InitialValid();
    }

    /** `generateTasks` (simulationSlice.ts:22-42) for a source that draws
        `taskCount` arrivals: consecutive ids from the counter, all created
        today with the source's work days, none executed. */
    method GenerateTasks(source: SourceState, taskCount: nat) returns (newTasks: seq<Task>)
      ensures |newTasks| == taskCount
      ensures forall i :: 0 <= i < taskCount ==>
                newTasks[i] == Task(nextTaskId + i, day, source.workDays, None)
      ensures newTasks == Batch(nextTaskId, day, source.workDays, taskCount)
    {
      newTasks := [];
      var i := 0;
      while i < taskCount
        invariant 0 <= i <= taskCount
        invariant |newTasks| == i
        invariant forall k :: 0 <= k < i ==> newTasks[k] == Task(nextTaskId + k, day, source.workDays, None)
      {
        var newTask := Task(nextTaskId + i, day, source.workDays, None);
        newTasks := newTasks + [newTask];
        i := i + 1;
      }
    }

    /** One pass of the generation loop for source `j` (simulationSlice.ts:147-158):
        its new tasks join the buffer tail, and the id counter and the
        source's counter advance once per task. */
    method GenerateForSource(j: nat, taskCount: nat)
      requires j < |sources|
      modifies this
      ensures sources == old(sources)[j := Credit(old(sources[j]), taskCount)]
      ensures nextTaskId == old(nextTaskId) + taskCount
      ensures buffer == old(buffer).(tasks := old(buffer.tasks) + Batch(old(nextTaskId), day, old(sources[j]).workDays, taskCount))
      ensures day == old(day) && executors == old(executors) && done == old(done)
    {
      var s := sources[j];
      var newTasks := GenerateTasks(s, taskCount);
      var i := 0;
      while i < |newTasks|
        invariant 0 <= i <= |newTasks| == taskCount
        invariant sources == old(sources)[j := Credit(old(sources[j]), i)]
        invariant nextTaskId == old(nextTaskId) + i
        invariant buffer == old(buffer) && day == old(day) && executors == old(executors) && done == old(done)
      {
        nextTaskId := nextTaskId + 1;
        sources := sources[j := sources[j].(tasksGenerated := sources[j].tasksGenerated + 1)];
        i := i + 1;
      }
      if |newTasks| > 0 {
        buffer := buffer.(tasks := buffer.tasks + newTasks);
      } else {
        assert buffer.tasks == buffer.tasks + newTasks;
      }
    }

    /** The generation loop of a day (simulationSlice.ts:147-158), source j
        producing `counts[j]` tasks. */
    method GenerateNewTasks(counts: seq<nat>)
      requires |counts| == |sources|
      modifies this
      ensures State() == Generate(old(State()), counts)
    {
      ghost var s0 := sources;
      ghost var n0 := nextTaskId;
      ghost var q0 := buffer.tasks;
      var j := 0;
      while j < |sources|
        invariant 0 <= j <= |s0| == |sources|
        invariant day == old(day) && executors == old(executors) && done == old(done)
        invariant buffer.historySum == old(buffer.historySum) && buffer.max == old(buffer.max)
        invariant forall i :: 0 <= i < j ==> sources[i] == Credit(s0[i], counts[i])
        invariant forall i :: j <= i < |s0| ==> sources[i] == s0[i]
        invariant nextTaskId == n0 + SumPrefix(counts, j)
        invariant buffer.tasks == q0 + ArrivalsPrefix(n0, day, s0, counts, j)
      {
        GenerateForSource(j, counts[j]);
        assert buffer.tasks == q0 + ArrivalsPrefix(n0, day, s0, counts, j + 1);
        j := j + 1;
      }
      assert sources == CreditAll(s0, counts);
    }

    /** The completion check of a day (simulationSlice.ts:163-190), in
        executor-index order: a busy executor is charged a day, and if its
        task has run its work days the task is stamped, pushed onto the
        ledger (trimmed to the last 20 once it holds more than 10) and the
        executor goes idle. */
    method CheckCompletions()
      modifies this
      ensures State() == Complete(old(State()))
    {
      ghost var ex0 := executors;
      ghost var d0 := done;
      var e := 0;
      while e < |executors|
        invariant 0 <= e <= |ex0| == |executors|
        invariant day == old(day) && nextTaskId == old(nextTaskId) && sources == old(sources) && buffer == old(buffer)
        invariant forall k :: 0 <= k < e ==> executors[k] == AfterCheck(ex0[k], day)
        invariant forall k :: e <= k < |ex0| ==> executors[k] == ex0[k]
        invariant AllStamped(FinishedPrefix(ex0, day, e))
        invariant done == Ledger(d0, FinishedPrefix(ex0, day, e))
      {
        CheckExecutor(e, ex0, d0);
        e := e + 1;
      }
      assert executors == CheckAll(ex0, day);
    }

    /** The completion check for executor `e`: one iteration of the loop in
        simulationSlice.ts:163-190, extending the ledger by what executors
        0 .. e of `ex0` complete. */
    method CheckExecutor(e: nat, ghost ex0: seq<ExecutorState>, ghost d0: DoneState)
      requires e < |executors| == |ex0| && executors[e] == ex0[e]
      requires AllStamped(FinishedPrefix(ex0, day, e)) && done == Ledger(d0, FinishedPrefix(ex0, day, e))
      modifies this
      ensures executors == old(executors)[e := AfterCheck(ex0[e], day)]
      ensures AllStamped(FinishedPrefix(ex0, day, e + 1)) && done == Ledger(d0, FinishedPrefix(ex0, day, e + 1))
      ensures day == old(day) && nextTaskId == old(nextTaskId) && sources == old(sources) && buffer == old(buffer)
    {
      PushCompleted(d0, ex0, day, e);
      var executor := executors[e];
      if executor.currentTask.Some? {
        executor := executor.(daysUtilized := executor.daysUtilized + 1);
        var taskStartDay := StartDay(executor, day);
        var daysInExecution := day - taskStartDay;
        if daysInExecution >= executor.currentTask.value.workDays {
          var completedTask := executor.currentTask.value.(executedAt := Some(day));
          done := done.(tasks := done.tasks + [completedTask]);
          done := done.(total := done.total + 1);
          done := done.(daysSum := done.daysSum + (completedTask.executedAt.value - completedTask.createdAt));
          if |done.tasks| > 10 {
            done := done.(tasks := Last(done.tasks, Window));
          }
          executor := executor.(currentTask := None, startedExecutionAt := None);
        }
        executors := executors[e := executor];
      }
    }

    /** The dispatch loop of a day (simulationSlice.ts:192-203): each idle
        executor, in index order, takes the task at the buffer head while
        the buffer is not empty. */
    method AssignTasks()
      modifies this
      ensures State() == Dispatch(old(State()))
    {
      ghost var ex0 := executors;
      ghost var q0 := buffer.tasks;
      var e := 0;
      while e < |executors|
        invariant 0 <= e <= |ex0| == |executors|
        invariant day == old(day) && nextTaskId == old(nextTaskId) && sources == old(sources) && done == old(done)
        invariant buffer.historySum == old(buffer.historySum) && buffer.max == old(buffer.max)
        invariant executors == AssignPrefix(ex0, q0, day, e) + ex0[e..]
        invariant QueueAfter(q0, IdleBefore(ex0, e), buffer.tasks)
      {
        AssignExecutor(e, ex0, q0);
        UpdateAtSplit(AssignPrefix(ex0, q0, day, e), ex0[e..], Assign(ex0[e], IdleBefore(ex0, e), q0, day));
        assert ex0[e..][1..] == ex0[e + 1..];
        e := e + 1;
      }
      assert ex0[|ex0|..] == [];
      DispatchOf(old(State()), executors, buffer.tasks);
    }

    /** Dispatch for executor `e`: one iteration of the loop in
        simulationSlice.ts:192-203, with `IdleBefore(ex0, e)` tasks of `q0`
        already handed out. */
    method AssignExecutor(e: nat, ghost ex0: seq<ExecutorState>, ghost q0: seq<Task>)
      requires e < |executors| == |ex0| && executors[e] == ex0[e]
      requires QueueAfter(q0, IdleBefore(ex0, e), buffer.tasks)
      modifies this
      ensures executors == old(executors)[e := Assign(ex0[e], IdleBefore(ex0, e), q0, day)]
      ensures QueueAfter(q0, IdleBefore(ex0, e + 1), buffer.tasks)
      ensures buffer.historySum == old(buffer.historySum) && buffer.max == old(buffer.max)
      ensures day == old(day) && nextTaskId == old(nextTaskId) && sources == old(sources) && done == old(done)
    {
      var executor := executors[e];
      if executor.currentTask.None? && |buffer.tasks| > 0 {
        var nextTask := buffer.tasks[0];
        buffer := buffer.(tasks := buffer.tasks[1..]);
        executor := executor.(currentTask := Some(nextTask), startedExecutionAt := Some(day));
        executors := executors[e := executor];
      }
    }

    /** The end-of-day buffer statistics (simulationSlice.ts:206-208). */
    method SnapshotBuffer()
      modifies this
      ensures State() == Snapshot(old(State()))
    {
      buffer := buffer.(historySum := buffer.historySum + |buffer.tasks|);
      buffer := buffer.(max := Max(buffer.max, |buffer.tasks|));
    }

    /** One iteration of the day loop (simulationSlice.ts:141-209), source j
        producing `counts[j]` tasks. */
    method SimulateDay(counts: seq<nat>)
      requires |counts| == |sources|
      modifies this
      ensures State() == Day(old(State()), counts)
    {
      day := day + 1;
      GenerateNewTasks(counts);
      CheckCompletions();
      AssignTasks();
      SnapshotBuffer();
    }

    /** Day i + 1 of a run from `s0`, seen as one more repetition of `step`. */
    method NextDay(ghost step: (SimulationState, seq<nat>) --> SimulationState, ghost s0: SimulationState,
                   i: nat, arrivals: seq<seq<nat>>)
      requires Steps(step)
      requires forall s: SimulationState, c: seq<nat> {:trigger Day(s, c)} :: |c| == |s.sources| ==> step(s, c) == Day(s, c)
      requires Oracle(arrivals, i + 1, |s0.sources|) && State() == Iterate(step, s0, i, arrivals)
      modifies this
      ensures State() == Iterate(step, s0, i + 1, arrivals)
    {
      SimulateDay(arrivals[i]);
    }

    /** The day loop of `processDay` (simulationSlice.ts:141-209), run `days` times. */
    method RunDays(ghost step: (SimulationState, seq<nat>) --> SimulationState, days: nat, arrivals: seq<seq<nat>>)
      requires Steps(step)
      requires forall s: SimulationState, c: seq<nat> {:trigger Day(s, c)} :: |c| == |s.sources| ==> step(s, c) == Day(s, c)
      requires Oracle(arrivals, days, |sources|)
      modifies this
      ensures State() == Iterate(step, old(State()), days, arrivals)
    {
      ghost var s0 := State();
      for i := 0 to days
        invariant State() == Iterate(step, s0, i, arrivals)
      {
        NextDay(step, s0, i, arrivals);
      }
    }

    /** `processDay` (simulationSlice.ts:139-210): the day loop runs as many
        times as the payload asks for, day d drawing `arrivals[d]`. The
        state afterwards is the run of that many days; the invariant and
        the conservation identity survive it. */
    method ProcessDay(payload: Option<int>, arrivals: seq<seq<nat>>)
      requires Oracle(arrivals, DaysOf(payload), |sources|)
      modifies this
      ensures State() == Run(old(State()), DaysOf(payload), arrivals)
      ensures old(Valid()) ==> Valid()
      ensures old(Conserved(State())) ==> Conserved(State())
    {
      ghost var s0 := State();
      ghost var step := DayAsStep();
      var days := DaysOf(payload);
      RunDays(step, days, arrivals);
      RunKeeps(s0, days, arrivals);
    }

    /** `setTaskGenerationRate` (simulationSlice.ts:83-85); `ok` is false
        when the index names no source, in which case the reducer throws
        and the state stays as it was. */
    method SetTaskGenerationRate(source: int, rate: real) returns (ok: bool)
      modifies this
      ensures R.SetTaskGenerationRate(old(State()), source, rate) == (if ok then Some(State()) else None)
      ensures !ok ==> State() == old(State())
      ensures old(Valid()) ==> Valid()
      ensures old(Conserved(State())) ==> Conserved(State())
    {
      if 0 <= source < |sources| {
        R.SettersKeep(State(), source, rate, 0);
        sources := sources[source := sources[source].(taskGenerationRate := rate)];
        ok := true;
      } else {
        ok := false;
      }
    }

    /** `setWorkDays` (simulationSlice.ts:86-88), with the same error case. */
    method SetWorkDays(source: int, workDays: int) returns (ok: bool)
      modifies this
      ensures R.SetWorkDays(old(State()), source, workDays) == (if ok then Some(State()) else None)
      ensures !ok ==> State() == old(State())
      ensures old(Valid()) ==> Valid()
      ensures old(Conserved(State())) ==> Conserved(State())
    {
      if 0 <= source < |sources| {
        R.SettersKeep(State(), source, 0.0, workDays);
        sources := sources[source := sources[source].(workDays := workDays)];
        ok := true;
      } else {
        ok := false;
      }
    }

    /** `addSource` (simulationSlice.ts:89-95). */
    method AddSource()
      modifies this
      ensures State() == R.AddSource(old(State()))
      ensures old(Valid()) ==> Valid()
      ensures old(Conserved(State())) ==> Conserved(State())
    {
      R.AddSourceKeeps(State());
      sources := sources + [R.NewSource];
    }

    /** `removeSource` (simulationSlice.ts:96-101). */
    method RemoveSource(index: int)
      modifies this
      ensures State() == R.RemoveSource(old(State()), index)
      ensures old(Valid()) ==> Valid()
    {
      R.RemoveSourceKeeps(State(), index);
      if |sources| > 1 {
        sources := SpliceOne(sources, index);
      }
    }

    /** `addExecutor` (simulationSlice.ts:102-108). */
    method AddExecutor()
      modifies this
      ensures State() == R.AddExecutor(old(State()))
      ensures old(Valid()) ==> Valid()
      ensures old(Conserved(State())) ==> Conserved(State())
    {
      R.AddExecutorKeeps(State());
      executors := executors + [IdleExecutor];
    }

    /** `removeExecutor` (simulationSlice.ts:109-114). */
    method RemoveExecutor(index: int)
      modifies this
      ensures State() == R.RemoveExecutor(old(State()), index)
      ensures old(Valid()) ==> Valid()
    {
      R.RemoveExecutorKeeps(State(), index);
      if |executors| > 1 {
        executors := SpliceOne(executors, index);
      }
    }

    /** `resetSimulation` (simulationSlice.ts:115-138). */
    method ResetSimulation()
      modifies this
      ensures State() == R.Reset(old(State()))
      ensures old(Valid()) ==> Valid()
      ensures Conserved(State())
    {
      R.ResetFacts(State());
      var currentSources := R.ResetSourcesPrefix(sources, |sources|);
      var executorCount := |executors|;
      var init := InitialState();
      day := init.day;
      nextTaskId := init.nextTaskId;
      buffer := init.buffer;
      done := init.done;
      sources := currentSources;
      executors := R.IdleExecutors(executorCount);
    }
  }
}
