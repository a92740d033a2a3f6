# Task-queue simulation slice, modelled in Dafny

The application simulates a small queueing system in days. Sources produce
tasks. Tasks wait in a FIFO buffer. Executors take tasks from the buffer and
hold each one for its number of work days. Finished tasks go to a ledger,
whose statistics are total count, sum of latencies and a short list of recent
completions. Everything lives in one Redux slice, `simulationSlice`.

This project models that slice:

- the state types of `src/components/types.ts` (module `SimTypes`);
- the initial state;
- the day loop of `processDay`;
- the configuration reducers `setTaskGenerationRate`, `setWorkDays`,
  `addSource`, `removeSource`, `addExecutor`, `removeExecutor` and
  `resetSimulation`.

## Layout

- `types.dfy` (`SimTypes`): one datatype per record of the state. The JS
  `null` becomes `Option`. It also holds `InitialState`.
- `array_ops.dfy` (`ArrayOps`): `Math.max`, `slice(-n)` (`Last`), and
  `splice(i, 1)` with JavaScript's clamping of the start index.
- `day_step.dfy` (`DayStep`): one pure function per phase of a simulated
  day: `Generate`, `Complete`, `Dispatch` and `Snapshot`. `Day` composes
  them after the clock tick, and `Run` iterates `Day`.
- `invariants.dfy` (`Invariants`): two predicates.
  - `Inv` holds in every reachable state:
    - there is at least one source and one executor;
    - each executor's clock fields agree with its task;
    - the buffer maximum bounds the buffer;
    - the ledger list holds at most 20 tasks;
    - ids are never reused, and each task sits in exactly one place.
  - `Conserved`: tasks generated = tasks buffered + tasks held + tasks done.
- `generation.dfy`, `completion.dfy`, `assignment.dfy`: what each phase
  computes and keeps.
- `day_facts.dfy` (`DayFacts`): facts about a whole day and about runs of
  days.
- `reducers.dfy` (`Reducers`): the configuration reducers as functions on
  values, with what each does to `Inv` and `Conserved`.
- `slice.dfy` (`SimulationSlice`): the class `Simulation`. Its fields are
  the slice state, updated in place by methods that follow the source's
  loops. Each method is proved equal to the matching function of
  `DayStep` or `Reducers`. The class keeps `Valid()` (that is, `Inv`), and
  `processDay` also keeps `Conserved`.

How the JavaScript is modelled:

- **Poisson draws.** `generateTasks` draws each source's task count from a
  Poisson generator. Here the counts are an input, `arrivals`: row `d` is
  day `d` of the run, and entry `j` of a row is what source `j` produces.
- **The `processDay` payload.** It is an `Option<int>`. A null, zero or
  negative payload runs no day (`DaysOf`).
- **Setters with a bad index.** A setter whose index names no source
  throws in JavaScript, so the store keeps its state. The functions return
  `None` in that case, and the methods leave the state unchanged and
  return `false`.
- **`splice` with a negative index** counts from the end of the list.
- **Code and comments that disagree.** Where they differ, the model
  follows the code. The comment at `simulationSlice.ts:51` speaks of
  "4 tasks per 5 days", but the rate is 2. The ledger is trimmed to 20
  once it exceeds 10 (lines 183-185). As pushes come one at a time, this
  always amounts to "keep the last 20" (`RecentStep`), and it is modelled
  as written.

## Model

| member | source | states |
|---|---|---|
| SimTypes.InitialState | src/store/simulationSlice.ts:45-77 | day 0, next id 1, two sources, one executor, empty buffer and empty ledger list |
| Reducers.InitialValid | src/store/simulationSlice.ts:45-77 | the initial state satisfies the invariant and the conservation identity |
| ArrayOps.Max | src/store/simulationSlice.ts:208 | `Math.max`: the result is one of the two arguments and bounds both |
| ArrayOps.Last | src/store/simulationSlice.ts:183-185 | `slice(-n)`: the result has min(length, n) elements and is a suffix of the list |
| ArrayOps.LastOfLast | src/store/simulationSlice.ts:183-185 | trimming to the last n, appending, then trimming again equals appending and trimming once |
| ArrayOps.SpliceOne | src/store/simulationSlice.ts:99 | definition; no contract: `splice(start, 1)` with JavaScript's clamping of the start index; its behaviour is stated by `SpliceOneAt` and `SpliceOneOutside` |
| ArrayOps.SpliceOneAt | src/store/simulationSlice.ts:99 | `splice(i, 1)` with an in-range i removes exactly element i and keeps the order of the others |
| ArrayOps.SpliceOneOutside | src/store/simulationSlice.ts:99 | `splice(i, 1)` past the end changes nothing; a negative i removes element length + i; below -length it removes the first element |
| ArrayOps.RemoveGuarded | src/store/simulationSlice.ts:96-101 | the guarded removal never empties a non-empty list, leaves a one-element list alone, and removes exactly the indexed element otherwise |
| ArrayOps.RemoveAllFloor | src/store/simulationSlice.ts:96-101 | any sequence of guarded removals leaves at least one element and removes at most one element per call |
| DayStep.DaysOf | src/store/simulationSlice.ts:141 | definition; no contract: the loop bound `payload ? payload : 0`, so a null, zero or negative payload runs no day; stated by `PayloadDays` |
| DayStep.Tick | src/store/simulationSlice.ts:144 | definition; no contract: the day counter grows by one |
| DayStep.Batch | src/store/simulationSlice.ts:32-39 | definition; no contract: the k tasks of one source, with ids from the next id on, today's date and the source's work days; stated by `ArrivalsPrefixIds` |
| DayStep.CreditAll | src/store/simulationSlice.ts:147-153 | each source's `tasksGenerated` grows by exactly its own count that day |
| DayStep.Generate | src/store/simulationSlice.ts:147-158 | generation touches only the sources, the id counter and the buffer list: day, executors, ledger and buffer statistics are unchanged |
| DayStep.StartDay | src/store/simulationSlice.ts:171 | definition; no contract: the `startedExecutionAt || state.day` fallback, so a missing or zero start counts as today; `FallbackNeverFires` shows the fallback is dead |
| DayStep.Completes | src/store/simulationSlice.ts:174 | definition; no contract: a busy executor's task is due when the days since its start reach its work days |
| DayStep.Stamp | src/store/simulationSlice.ts:176-179 | definition; no contract: the completed task is the held task with `executedAt` set to the day |
| DayStep.AfterCheck | src/store/simulationSlice.ts:168-188 | definition; no contract: one executor after the check: a busy one gains a day of utilization and is cleared when its task is due |
| DayStep.Recent | src/store/simulationSlice.ts:180-185 | definition; no contract: the ledger list after each push with the trim; `RecentStep` and `RecentOfHistory` show it keeps the last 20 |
| DayStep.CheckAll | src/store/simulationSlice.ts:164-189 | executor k after the check is its own checked state: a busy one gains a day of utilization and goes idle when its task is due |
| DayStep.FinishedStamped | src/store/simulationSlice.ts:176-179 | every task completed in a check is stamped `executedAt` with that day |
| DayStep.Complete | src/store/simulationSlice.ts:163-190 | the completion check leaves day, id counter, sources and buffer unchanged |
| DayStep.Assign | src/store/simulationSlice.ts:196-202 | definition; no contract: an idle executor takes the task at its idle rank, if the buffer reaches that far, and starts it today; stated by `AssignCases` |
| DayStep.AssignAll | src/store/simulationSlice.ts:193-203 | executor k after dispatch depends only on its own state and on how many idle executors precede it in index order |
| DayStep.Dispatch | src/store/simulationSlice.ts:192-203 | dispatch touches only the executors and the buffer list |
| DayStep.Snapshot | src/store/simulationSlice.ts:207-208 | definition; no contract: `historySum` grows by the buffer length and `max` takes the maximum with it; stated by `Day` and `SnapshotBuffer` |
| DayStep.Day | src/store/simulationSlice.ts:143-208 | a day advances the clock by one; `historySum` grows by the final buffer length, and `max` becomes the maximum of the old max and that length |
| DayStep.Iterate | src/store/simulationSlice.ts:141-209 | n iterations of a day step advance the clock by n and keep the numbers of sources and executors |
| DayStep.Run | src/store/simulationSlice.ts:141-209 | a run of n days advances the clock by exactly n and keeps the numbers of sources and executors |
| Generation.ArrivalsPrefixIds | src/store/simulationSlice.ts:32-39 | the tasks generated in a day number as many as the counts, carry consecutive ids from `nextTaskId`, are created today and are not executed |
| Generation.ArrivalsBlock | src/store/simulationSlice.ts:147-158 | task k of source j is at offset (counts of sources before j) + k of the day's arrivals, with source j's work days |
| Generation.GenerateAppends | src/store/simulationSlice.ts:147-158 | generation appends, in order and after the old buffer, one task per arrival, with consecutive fresh ids, today's date and no execution stamp; it advances `nextTaskId` and each source's counter by the counts |
| Generation.GenerateSourceOrder | src/store/simulationSlice.ts:147-158 | sources are served in index order: the k-th new task of source j sits at a fixed position, with id, date and source j's work days |
| Generation.GenerateConserves | src/store/simulationSlice.ts:150-157 | the generated total and the buffer length both grow by the day's total count, so the conservation identity is kept |
| Generation.GenerateIds | src/store/simulationSlice.ts:33-37 | generation keeps ids increasing along the buffer and never reuses an id |
| Completion.FallbackNeverFires | src/store/simulationSlice.ts:171-174 | for a busy executor whose clock is consistent, the fallback from a missing start to the current day is never taken: it completes iff day minus its start is at least the task's work days |
| Completion.RecentOfHistory | src/store/simulationSlice.ts:180-185 | the ledger list is always the last 20 of the whole completion history, in completion order |
| Completion.RecentStep | src/store/simulationSlice.ts:180-185 | one push followed by the `> 10` / `slice(-20)` trim equals keeping the last 20 of the longer history |
| Completion.PushCompleted | src/store/simulationSlice.ts:174-185 | checking one executor adds one to `total`, its latency to `daysSum` and the stamped task to the trimmed list if it completes, and changes the ledger not at all otherwise |
| Completion.PushOne | src/store/simulationSlice.ts:180-185 | one push of a stamped task, the counter updates and the trim extend the ledger's completions by exactly that task |
| Completion.LatencySnoc | src/store/simulationSlice.ts:182 | `daysSum` over one more completion grows by that task's latency |
| Completion.FinishedHas | src/store/simulationSlice.ts:174-180 | every executor whose task is due contributes that task, stamped with the day, to the day's completions |
| Completion.FinishedDistinct | src/store/simulationSlice.ts:176-180 | completions in one day have distinct ids when no task is held twice |
| Completion.CompleteKeepsHeld | src/store/simulationSlice.ts:168-189 | an executor busy after the check was busy before, was not due, and keeps its task and start day |
| Completion.CompleteHeldIds | src/store/simulationSlice.ts:163-190 | after the check, held tasks are still distinct and older than every buffered task |
| Completion.CompleteLedgerOrder | src/store/simulationSlice.ts:180-185 | the ledger list after the check has distinct ids, all older than every buffered task |
| Completion.HeldNotFinished | src/store/simulationSlice.ts:186-187 | a task still held after the check is neither in the old ledger nor among the day's completions |
| Completion.CompleteLedgerApart | src/store/simulationSlice.ts:180-187 | no task is both in the ledger list and held by an executor after the check |
| Completion.CompleteIds | src/store/simulationSlice.ts:163-190 | the completion check keeps the id-ordering invariant |
| Completion.CompleteClocks | src/store/simulationSlice.ts:169-187 | the check keeps clock consistency: utilization stays within the day count and a finished executor has neither task nor start |
| Completion.CompleteConserves | src/store/simulationSlice.ts:180-187 | each completion moves one task from "held" to `done.total`, so the conservation identity is kept |
| Assignment.DispatchShape | src/store/simulationSlice.ts:193-203 | dispatch assigns by executor rank and removes exactly the handed-out tasks from the front of the buffer |
| Assignment.AssignCases | src/store/simulationSlice.ts:196-202 | a busy executor is unchanged; the r-th idle executor takes the buffer's r-th task and starts today if there is one, and stays idle otherwise |
| Assignment.DispatchFills | src/store/simulationSlice.ts:197 | after dispatch the buffer is empty or every executor is busy |
| Assignment.DispatchFifo | src/store/simulationSlice.ts:197-200 | the tasks handed out, in executor order, followed by the remaining buffer are exactly the old buffer; busy executors are untouched; newly busy ones start today with their utilization unchanged |
| Assignment.DispatchInIndexOrder | src/store/simulationSlice.ts:193-199 | of two newly assigned executors, the lower index gets the older task |
| Assignment.StaysIdle | src/store/simulationSlice.ts:197 | an executor is idle after dispatch iff it was idle and the buffer ran out before its turn |
| Assignment.DispatchConserves | src/store/simulationSlice.ts:198-199 | the buffer shrinks by exactly the number of newly busy executors, so the conservation identity is kept |
| Assignment.DispatchClocks | src/store/simulationSlice.ts:200 | dispatch keeps clock consistency |
| Assignment.RestOfQueue | src/store/simulationSlice.ts:198 | the buffer after dispatch is the old buffer without its first `Taken` tasks, in the same order |
| Assignment.HeldAfterDispatch | src/store/simulationSlice.ts:198-199 | a newly assigned executor holds the buffer task of its idle rank, and every held task is older than the remaining buffer |
| Assignment.DispatchIds | src/store/simulationSlice.ts:192-203 | dispatch keeps the id-ordering invariant |
| DayFacts.DayInv | src/store/simulationSlice.ts:143-208 | one day keeps the invariant |
| DayFacts.DayConserves | src/store/simulationSlice.ts:143-208 | one day keeps the conservation identity |
| DayFacts.DayLedger | src/store/simulationSlice.ts:180-185 | over a day, `total` grows by the number of completions and `daysSum` by their latencies, and the list is the trimmed history extended by them |
| DayFacts.CompletedStamps | src/store/simulationSlice.ts:176-182 | each of the day's completions is stamped with the day, and its latency is that day minus its creation day |
| DayFacts.DayUtilization | src/store/simulationSlice.ts:168-169 | an executor's `daysUtilized` grows by one exactly on the days it starts busy |
| DayFacts.DayMonotone | src/store/simulationSlice.ts:144-208 | a day advances the clock by one and the id counter and source counters by the counts; utilization, `done.total`, `historySum` and `max` never decrease |
| DayFacts.DayKeepsRunning | src/store/simulationSlice.ts:171-174 | an executor whose task is not yet due keeps the task and its start day through the day |
| DayFacts.PayloadDays | src/store/simulationSlice.ts:141 | a positive payload runs that many days; null, zero or a negative payload leaves the state unchanged |
| DayFacts.RunZero | src/store/simulationSlice.ts:141 | a run of no days is the identity |
| DayFacts.RunStep | src/store/simulationSlice.ts:141-209 | a run of n+1 days is a run of n days followed by one more day |
| DayFacts.DayAsStep | src/store/simulationSlice.ts:141-209 | the day is a step the loop can repeat: it agrees with `Day` wherever applied, and repeating it n times is the run of n days |
| DayFacts.IterateKeeps | src/store/simulationSlice.ts:141-209 | a property kept by every day step holds after any number of days |
| DayFacts.RunInv | src/store/simulationSlice.ts:141-209 | any run of days keeps the invariant |
| DayFacts.RunConserves | src/store/simulationSlice.ts:141-209 | any run of days keeps the conservation identity |
| DayFacts.RunKeeps | src/store/simulationSlice.ts:141-209 | a run keeps the invariant and the conservation identity, each whenever it held at the start |
| DayFacts.HoldsUntilDue | src/store/simulationSlice.ts:171-188 | a busy executor keeps its task and start day on every day before the task is due |
| DayFacts.CompletesWhenDue | src/store/simulationSlice.ts:171-188 | a task whose work days have elapsed by the next day is among that day's completions |
| DayFacts.CompletesOnDueDay | src/store/simulationSlice.ts:171-188 | a held task is completed, stamped with its due day, at the end of the run that reaches that day |
| DayFacts.CompletesExactlyOnTime | src/store/simulationSlice.ts:171-200 | a task with w >= 1 work days handed out on day s is held through every earlier day and completes on exactly day s + w |
| Reducers.SetTaskGenerationRate | src/store/simulationSlice.ts:83-85 | fails iff the index names no source; otherwise replaces only that source's rate |
| Reducers.SetWorkDays | src/store/simulationSlice.ts:86-88 | fails iff the index names no source; otherwise replaces only that source's work days |
| Reducers.AddSource | src/store/simulationSlice.ts:89-95 | appends one source with rate 1, one work day and a zero counter, keeping the others and all other state |
| Reducers.RemoveSource | src/store/simulationSlice.ts:96-101 | never removes the last source; removes exactly the indexed source otherwise; touches nothing else |
| Reducers.AddExecutor | src/store/simulationSlice.ts:102-108 | appends one idle executor with zero utilization, keeping the others and all other state |
| Reducers.RemoveExecutor | src/store/simulationSlice.ts:109-114 | never removes the last executor; removes exactly the indexed executor otherwise; touches nothing else |
| Reducers.ResetSourcesPrefix | src/store/simulationSlice.ts:117-121 | each source keeps its rate and work days, and its counter is zeroed |
| Reducers.IdleExecutors | src/store/simulationSlice.ts:133-137 | n fresh idle executors with zero utilization |
| Reducers.Reset | src/store/simulationSlice.ts:115-138 | day 0, id 1, empty buffer and ledger; the same sources with counters zeroed; the same number of executors, all idle |
| Reducers.SettersKeep | src/store/simulationSlice.ts:83-88 | both setters keep the invariant and the total generated count |
| Reducers.WorkDaysApplyToNewTasks | src/store/simulationSlice.ts:86-88 | a new work-day value leaves queued tasks alone and is carried by every task the source generates afterwards |
| Reducers.AddSourceKeeps | src/store/simulationSlice.ts:89-95 | adding a source keeps the invariant, the generated total and the conservation identity |
| Reducers.AddExecutorKeeps | src/store/simulationSlice.ts:102-108 | adding an executor keeps the invariant, the busy count and the conservation identity |
| Reducers.RemoveSourceKeeps | src/store/simulationSlice.ts:96-101 | removal keeps the invariant; the generated total drops by the removed source's counter, so conservation survives iff that counter was 0; a guarded or out-of-range call is a no-op |
| Reducers.DropExecutorKeeps | src/store/simulationSlice.ts:111-112 | deleting one of several executors keeps the invariant |
| Reducers.RemoveExecutorKeeps | src/store/simulationSlice.ts:109-114 | removal keeps the invariant; the busy count drops by one iff the removed executor was busy, so conservation survives iff it was idle; a guarded or out-of-range call is a no-op |
| Reducers.RemoveUndoesAdd | src/store/simulationSlice.ts:89-114 | removing the element just added restores the state |
| Reducers.ResetFacts | src/store/simulationSlice.ts:115-138 | reset yields a valid, conserved state, is idempotent, and fixes the initial state |
| SimulationSlice.Simulation.constructor | src/store/simulationSlice.ts:45-77 | the store starts in the initial state, which is valid and conserved |
| SimulationSlice.Simulation.GenerateTasks | src/store/simulationSlice.ts:22-42 | returns exactly `taskCount` tasks, the i-th with id `nextTaskId + i`, today's date and the source's work days |
| SimulationSlice.Simulation.GenerateForSource | src/store/simulationSlice.ts:149-157 | one source's turn: its counter and `nextTaskId` grow by the count, and its batch is appended to the buffer; nothing else changes |
| SimulationSlice.Simulation.GenerateNewTasks | src/store/simulationSlice.ts:147-158 | the generation loop computes `Generate` |
| SimulationSlice.Simulation.CheckExecutor | src/store/simulationSlice.ts:165-189 | one executor's check: it is replaced by its checked state and the ledger absorbs its completion, if any |
| SimulationSlice.Simulation.CheckCompletions | src/store/simulationSlice.ts:163-190 | the completion loop computes `Complete` |
| SimulationSlice.Simulation.AssignExecutor | src/store/simulationSlice.ts:194-202 | one executor's turn at the buffer: it takes the task of its idle rank if there is one |
| SimulationSlice.Simulation.AssignTasks | src/store/simulationSlice.ts:192-203 | the dispatch loop computes `Dispatch` |
| SimulationSlice.Simulation.SnapshotBuffer | src/store/simulationSlice.ts:206-208 | the snapshot computes `Snapshot` |
| SimulationSlice.Simulation.SimulateDay | src/store/simulationSlice.ts:143-208 | one iteration of the day loop computes `Day` |
| SimulationSlice.Simulation.NextDay | src/store/simulationSlice.ts:143-208 | one more iteration of the loop extends the run by one day |
| SimulationSlice.Simulation.RunDays | src/store/simulationSlice.ts:141-209 | the day loop, run `days` times, computes `days` repetitions of the day step |
| SimulationSlice.Simulation.ProcessDay | src/store/simulationSlice.ts:139-210 | `processDay` computes `Run` for the payload's number of days and keeps the invariant and the conservation identity |
| SimulationSlice.Simulation.SetTaskGenerationRate | src/store/simulationSlice.ts:83-85 | succeeds iff the functional reducer does, then has its result; otherwise the state is unchanged; keeps `Valid` and `Conserved` |
| SimulationSlice.Simulation.SetWorkDays | src/store/simulationSlice.ts:86-88 | succeeds iff the functional reducer does, then has its result; otherwise the state is unchanged; keeps `Valid` and `Conserved` |
| SimulationSlice.Simulation.AddSource | src/store/simulationSlice.ts:89-95 | computes `AddSource`, keeping the invariant and conservation |
| SimulationSlice.Simulation.RemoveSource | src/store/simulationSlice.ts:96-101 | computes `RemoveSource`, keeping the invariant |
| SimulationSlice.Simulation.AddExecutor | src/store/simulationSlice.ts:102-108 | computes `AddExecutor`, keeping the invariant and conservation |
| SimulationSlice.Simulation.RemoveExecutor | src/store/simulationSlice.ts:109-114 | computes `RemoveExecutor`, keeping the invariant |
| SimulationSlice.Simulation.ResetSimulation | src/store/simulationSlice.ts:115-138 | computes `Reset`, keeping the invariant and establishing conservation |

## Left out

- `generatePoissonRandom` (simulationSlice.ts:7-19) and `Math.random`: its
  randomness and floating-point arithmetic are replaced by the explicit
  per-day, per-source counts `arrivals`. The lambda `rate / 5` is not
  modelled. The rate is stored and reset but never read by the model.
- `taskGenerationRate` is a Dafny `real`. No floating-point behaviour is
  modelled.
- JavaScript numbers are unbounded integers here. The 2^53 precision limit
  of counters and ids is not modelled.
- Fractional values are not modelled: a payload of 2.5 runs three days,
  and a fractional index or work-day count behaves in other ways.
- The optional `startedExecutionAt` of `Task` (types.ts:4) is never written
  by the slice and is left out of the `Task` datatype.
- Redux Toolkit plumbing is not part of this model: `createSlice`, the
  Immer drafts, the exported action creators and the store.
- The UI and the timer that dispatch these actions are not part of this
  model.
- The unchecked `!` of `shift()` (line 198) cannot fail, because the
  buffer was checked non-empty on line 197.
- `removeSource` and `removeExecutor` may discard a source's counter or a
  held task. The model therefore does not claim that they keep
  conservation. `RemoveSourceKeeps` and `RemoveExecutorKeeps` state exactly
  when it survives.
