/** The record shapes of the simulation (src/components/types.ts) and the
    slice's initial state (src/store/simulationSlice.ts). JavaScript numbers
    are modelled as unbounded integers; the generation rate is a `real` that
    the model only stores. */
module SimTypes {

  datatype Option<T> = None | Some(value: T)

  /** One unit of work. `executedAt` is absent until the task completes. */
  datatype Task = Task(id: int, createdAt: int, workDays: int, executedAt: Option<int>)

  /** An arrival stream: its configuration and its cumulative counter. */
  datatype SourceState = SourceState(taskGenerationRate: real, tasksGenerated: nat, workDays: int)

  /** A single-task worker; idle when `currentTask` is None. */
  datatype ExecutorState = ExecutorState(currentTask: Option<Task>, startedExecutionAt: Option<int>, daysUtilized: nat)

  /** The FIFO queue of tasks not yet handed to an executor, with its statistics. */
  datatype BufferState = BufferState(historySum: nat, max: nat, tasks: seq<Task>)

  /** The completion ledger: running totals and a window of recent completions. */
  datatype DoneState = DoneState(total: nat, daysSum: int, tasks: seq<Task>)

  datatype SimulationState = SimulationState(
    day: nat,
    nextTaskId: int,
    sources: seq<SourceState>,
    buffer: BufferState,
    executors: seq<ExecutorState>,
    done: DoneState)

  /** An executor with no task and no utilization, as addExecutor and reset create it. */
  const IdleExecutor := ExecutorState(None, None, 0)

  const EmptyBuffer := BufferState(0, 0, [])

  const EmptyLedger := DoneState(0, 0, [])

  /** The slice's `initialState`: day 0, two sources (rate 2 with one work day,
      rate 1 with two work days) and one idle executor. */
  function InitialState(): (st: SimulationState)
    ensures st.day == 0 && st.nextTaskId == 1
    ensures |st.sources| == 2 && |st.executors| == 1
    ensures st.buffer.tasks == [] && st.done.tasks == []
  {
    SimulationState(
      0, 1,
      [SourceState(2.0, 0, 1), SourceState(1.0, 0, 2)],
      EmptyBuffer,
      [IdleExecutor],
      EmptyLedger)
  }
}
