/** The `processDay` reducer as a function on values: one closed-form
    function per phase of a simulated day (generation, completion check,
    dispatch, buffer snapshot), the day that composes them, and the run of
    n days. The arrival count that the source draws from a Poisson
    generator is an input here: `counts[j]` is what source j produces that
    day. */
module DayStep {
  import opened SimTypes
  import opened ArrayOps

  /** How many days `processDay` runs for its payload: a null or zero
      payload is falsy and gives 0, and a negative count never enters the
      loop. */
  function DaysOf(payload: Option<int>): nat
  {
    match payload
    case None => 0
    case Some(n) => if n > 0 then n else 0
  }

  /** The arrival oracle covers `n` days of `m` sources. */
  predicate Oracle(arrivals: seq<seq<nat>>, n: nat, m: nat)
  {
    n <= |arrivals| && forall d :: 0 <= d < n ==> |arrivals[d]| == m
  }

  // ---------------------------------------------------------------- generation

  /** The tasks `generateTasks` produces for one source: `k` tasks with the
      ids `nextId .. nextId + k - 1`, created today, needing the source's
      work days. */
  function Batch(nextId: int, day: int, workDays: int, k: nat): seq<Task>
  {
    seq(k, i => Task(nextId + i, day, workDays, None))
  }

  /** The number of tasks sources 0 .. j-1 produce. */
  function SumPrefix(counts: seq<nat>, j: nat): nat
    requires j <= |counts|
  {
    if j == 0 then 0 else SumPrefix(counts, j - 1) + counts[j - 1]
  }

  function Total(counts: seq<nat>): nat
  {
    SumPrefix(counts, |counts|)
  }

  /** The tasks sources 0 .. j-1 produce on one day, batch after batch in
      source-list order, each batch starting at the id the previous one
      left. */
  function ArrivalsPrefix(nextId: int, day: int, sources: seq<SourceState>, counts: seq<nat>, j: nat): seq<Task>
    requires j <= |sources| && j <= |counts|
  {
    if j == 0 then []
    else ArrivalsPrefix(nextId, day, sources, counts, j - 1)
         + Batch(nextId + SumPrefix(counts, j - 1), day, sources[j - 1].workDays, counts[j - 1])
  }

  function Arrivals(st: SimulationState, counts: seq<nat>): seq<Task>
    requires |counts| == |st.sources|
  {
    ArrivalsPrefix(st.nextTaskId, st.day, st.sources, counts, |counts|)
  }

  function Credit(s: SourceState, k: nat): SourceState
  {
    s.(tasksGenerated := s.tasksGenerated + k)
  }

  /** Sources 0 .. j-1 credited with what they produced today. */
  function CreditPrefix(sources: seq<SourceState>, counts: seq<nat>, j: nat): (r: seq<SourceState>)
    requires j <= |sources| && j <= |counts|
    ensures |r| == j
    ensures forall i {:trigger r[i]} :: 0 <= i < j ==> r[i] == Credit(sources[i], counts[i])
  {
    if j == 0 then [] else CreditPrefix(sources, counts, j - 1) + [Credit(sources[j - 1], counts[j - 1])]
  }

  /** Every source credited with what it produced today. */
  function CreditAll(sources: seq<SourceState>, counts: seq<nat>): (r: seq<SourceState>)
    requires |counts| == |sources|
    ensures |r| == |sources|
    ensures forall j {:trigger r[j]} :: 0 <= j < |sources| ==> r[j] == Credit(sources[j], counts[j])
  {
    CreditPrefix(sources, counts, |sources|)
  }

  /** Generation for every source (simulationSlice.ts:147-158): the id
      counter and each source's counter advance by what it produced, and
      the new tasks join the buffer tail. */
  function Generate(st: SimulationState, counts: seq<nat>): (r: SimulationState)
    requires |counts| == |st.sources|
    ensures r.day == st.day && r.executors == st.executors && r.done == st.done
    ensures |r.sources| == |st.sources|
    ensures r.buffer.historySum == st.buffer.historySum && r.buffer.max == st.buffer.max
  {
    st.(nextTaskId := st.nextTaskId + Total(counts),
        sources := CreditAll(st.sources, counts),
        buffer := st.buffer.(tasks := st.buffer.tasks + Arrivals(st, counts)))
  }

  // ---------------------------------------------------------------- completion

  /** `executor.startedExecutionAt || state.day`: a missing or zero start
      falls back to today. */
  function StartDay(x: ExecutorState, day: int): int
  {
    match x.startedExecutionAt
    case None => day
    case Some(s) => if s != 0 then s else day
  }

  /** The busy executor has held its task for at least the task's work days. */
  predicate Completes(x: ExecutorState, day: int)
  {
    x.currentTask.Some? && day - StartDay(x, day) >= x.currentTask.value.workDays
  }

  function Stamp(t: Task, day: int): Task
  {
    t.(executedAt := Some(day))
  }

  /** One executor after the completion check: a busy one is charged a day
      of utilization, and it goes idle if its task is done. */
  function AfterCheck(x: ExecutorState, day: int): ExecutorState
  {
    if x.currentTask.None? then x
    else if Completes(x, day) then ExecutorState(None, None, x.daysUtilized + 1)
    else x.(daysUtilized := x.daysUtilized + 1)
  }

  /** Executors 0 .. k-1 after the completion check. */
  function CheckPrefix(ex: seq<ExecutorState>, day: int, k: nat): (ys: seq<ExecutorState>)
    requires k <= |ex|
    ensures |ys| == k
    ensures forall i {:trigger ys[i]} :: 0 <= i < k ==> ys[i] == AfterCheck(ex[i], day)
  {
    if k == 0 then [] else CheckPrefix(ex, day, k - 1) + [AfterCheck(ex[k - 1], day)]
  }

  /** Every executor after the completion check. */
  function CheckAll(ex: seq<ExecutorState>, day: int): (ys: seq<ExecutorState>)
    ensures |ys| == |ex|
    ensures forall k {:trigger ys[k]} :: 0 <= k < |ex| ==> ys[k] == AfterCheck(ex[k], day)
  {
    CheckPrefix(ex, day, |ex|)
  }

  /** The tasks executors 0 .. k-1 complete today, stamped, in index order. */
  function FinishedPrefix(ex: seq<ExecutorState>, day: int, k: nat): seq<Task>
    requires k <= |ex|
  {
    if k == 0 then []
    else FinishedPrefix(ex, day, k - 1)
         + (if Completes(ex[k - 1], day) then [Stamp(ex[k - 1].currentTask.value, day)] else [])
  }

  function Finished(ex: seq<ExecutorState>, day: int): seq<Task>
  {
    FinishedPrefix(ex, day, |ex|)
  }

  /** `executedAt - createdAt` of a completed task. */
  function Latency(t: Task): int
    requires t.executedAt.Some?
  {
    t.executedAt.value - t.createdAt
  }

  predicate AllStamped(ts: seq<Task>)
  {
    forall i :: 0 <= i < |ts| ==> ts[i].executedAt.Some?
  }

  function LatencySum(ts: seq<Task>): int
    requires AllStamped(ts)
  {
    if ts == [] then 0 else LatencySum(ts[..|ts| - 1]) + Latency(ts[|ts| - 1])
  }

  /** The number of recent completions the ledger keeps. */
  const Window := 20

  /** The ledger's task list after the completions `fs` are pushed onto `d`
      one by one, each push followed by the `slice(-20)` trim. */
  function Recent(d: seq<Task>, fs: seq<Task>): seq<Task>
  {
    if fs == [] then d else Last(d + fs, Window)
  }

  /** The completion check over every executor (simulationSlice.ts:163-190). */
  function Complete(st: SimulationState): (r: SimulationState)
    ensures r.day == st.day && r.nextTaskId == st.nextTaskId && r.sources == st.sources && r.buffer == st.buffer
    ensures |r.executors| == |st.executors|
  {
    var fs := Finished(st.executors, st.day);
    FinishedStamped(st.executors, st.day, |st.executors|);
    st.(executors := CheckAll(st.executors, st.day),
        done := DoneState(st.done.total + |fs|, st.done.daysSum + LatencySum(fs), Recent(st.done.tasks, fs)))
  }

  lemma {:induction false} FinishedStamped(ex: seq<ExecutorState>, day: int, k: nat)
    requires k <= |ex|
    ensures AllStamped(FinishedPrefix(ex, day, k))
    ensures forall i :: 0 <= i < |FinishedPrefix(ex, day, k)| ==> FinishedPrefix(ex, day, k)[i].executedAt == Some(day)
  {
    if k > 0 {
      FinishedStamped(ex, day, k - 1);
    }
  }

  // ---------------------------------------------------------------- dispatch

  /** How many of executors 0 .. k-1 are idle. */
  function IdleBefore(ex: seq<ExecutorState>, k: nat): nat
    requires k <= |ex|
  {
    if k == 0 then 0 else IdleBefore(ex, k - 1) + (if ex[k - 1].currentTask.None? then 1 else 0)
  }

  function IdleCount(ex: seq<ExecutorState>): nat
  {
    IdleBefore(ex, |ex|)
  }

  /** An executor after dispatch, given how many idle executors precede it:
      the idle executor of rank r takes the r-th task of the queue, if there
      is one, and starts it today. */
  function Assign(x: ExecutorState, rank: nat, queue: seq<Task>, day: int): ExecutorState
  {
    if x.currentTask.None? && rank < |queue|
    then x.(currentTask := Some(queue[rank]), startedExecutionAt := Some(day))
    else x
  }

  /** Executors 0 .. k-1 after dispatch from the queue `q`. */
  function AssignPrefix(ex: seq<ExecutorState>, q: seq<Task>, day: int, k: nat): (ys: seq<ExecutorState>)
    requires k <= |ex|
    ensures |ys| == k
    ensures forall i {:trigger ys[i]} :: 0 <= i < k ==> ys[i] == Assign(ex[i], IdleBefore(ex, i), q, day)
  {
    if k == 0 then []
    else AssignPrefix(ex, q, day, k - 1) + [Assign(ex[k - 1], IdleBefore(ex, k - 1), q, day)]
  }

  /** Every executor after dispatch from the queue `q`. */
  function AssignAll(ex: seq<ExecutorState>, q: seq<Task>, day: int): (ys: seq<ExecutorState>)
    ensures |ys| == |ex|
    ensures forall k {:trigger ys[k]} :: 0 <= k < |ex| ==> ys[k] == Assign(ex[k], IdleBefore(ex, k), q, day)
  {
    AssignPrefix(ex, q, day, |ex|)
  }

  /** Dispatch (simulationSlice.ts:192-203): idle executors, in index order,
      take tasks from the buffer head until one of the two runs out. */
  function Dispatch(st: SimulationState): (r: SimulationState)
    ensures r.day == st.day && r.nextTaskId == st.nextTaskId && r.sources == st.sources && r.done == st.done
    ensures r.buffer.historySum == st.buffer.historySum && r.buffer.max == st.buffer.max
    ensures |r.executors| == |st.executors|
  {
    var q := st.buffer.tasks;
    var taken := Min(IdleCount(st.executors), |q|);
    st.(executors := AssignAll(st.executors, q, st.day),
        buffer := st.buffer.(tasks := q[taken..]))
  }

  // ---------------------------------------------------------------- the day

  /** The end-of-day snapshot of the buffer (simulationSlice.ts:206-208). */
  function Snapshot(st: SimulationState): SimulationState
  {
    var len := |st.buffer.tasks|;
    st.(buffer := st.buffer.(historySum := st.buffer.historySum + len, max := Max(st.buffer.max, len)))
  }

  function Tick(st: SimulationState): SimulationState
  {
    st.(day := st.day + 1)
  }

  /** One iteration of the `processDay` loop body (simulationSlice.ts:141-209). */
  function Day(st: SimulationState, counts: seq<nat>): (r: SimulationState)
    requires |counts| == |st.sources|
    ensures r.day == st.day + 1
    ensures |r.sources| == |st.sources| && |r.executors| == |st.executors|
    ensures r.buffer.historySum == st.buffer.historySum + |r.buffer.tasks|
    ensures r.buffer.max == Max(st.buffer.max, |r.buffer.tasks|)
  {
    Snapshot(Dispatch(Complete(Generate(Tick(st), counts))))
  }

  /** The tasks that complete during the day that follows `st`. */
  function CompletedOn(st: SimulationState): seq<Task>
  {
    Finished(st.executors, st.day + 1)
  }

  /** A step the processDay loop can repeat: defined on every state given
      one count per source, advancing the day and keeping the sources and
      executors. */
  ghost predicate Steps(step: (SimulationState, seq<nat>) --> SimulationState)
  {
    forall s: SimulationState, c: seq<nat> :: |c| == |s.sources| ==>
      step.requires(s, c)
      && step(s, c).day == s.day + 1
      && |step(s, c).sources| == |s.sources| && |step(s, c).executors| == |s.executors|
  }

  /** The state after `n` repetitions of `step`, repetition d using `arrivals[d]`. */
  function Iterate(step: (SimulationState, seq<nat>) --> SimulationState, st: SimulationState, n: nat, arrivals: seq<seq<nat>>): (r: SimulationState)
    requires Steps(step) && Oracle(arrivals, n, |st.sources|)
    ensures r.day == st.day + n
    ensures |r.sources| == |st.sources| && |r.executors| == |st.executors|
  {
    if n == 0 then st else step(Iterate(step, st, n - 1, arrivals), arrivals[n - 1])
  }

  /** `n` consecutive days, day d using `arrivals[d]`: the state after the
      processDay loop has run `n` times. */
  function Run(st: SimulationState, n: nat, arrivals: seq<seq<nat>>): (r: SimulationState)
    requires Oracle(arrivals, n, |st.sources|)
    ensures r.day == st.day + n
    ensures |r.sources| == |st.sources| && |r.executors| == |st.executors|
  {
    assert Steps(Day);
    Iterate(Day, st, n, arrivals)
  }
}
