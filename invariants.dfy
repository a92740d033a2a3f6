/** What every reachable simulation state satisfies, and the bookkeeping
    identity that `processDay` keeps. */
module Invariants {
  import opened SimTypes
  import opened DayStep

  /** An executor's clock fields agree with its task and with the current
      day: a busy executor started on a day between 1 and today (so the
      `startedExecutionAt || day` fallback never applies), an idle one has
      no start, and it cannot have been busy on more days than have passed. */
  predicate ExecutorClock(x: ExecutorState, day: int)
  {
    (x.currentTask.Some? <==> x.startedExecutionAt.Some?)
    && (x.startedExecutionAt.Some? ==> 1 <= x.startedExecutionAt.value <= day)
    && x.daysUtilized <= day
  }

  predicate Clocks(ex: seq<ExecutorState>, day: int)
  {
    forall k :: 0 <= k < |ex| ==> ExecutorClock(ex[k], day)
  }

  /** Ids strictly increase along the queue. */
  predicate Increasing(q: seq<Task>)
  {
    forall i, j :: 0 <= i < j < |q| ==> q[i].id < q[j].id
  }

  /** No two tasks of the list share an id. */
  predicate DistinctIds(ts: seq<Task>)
  {
    forall i, j :: 0 <= i < |ts| && 0 <= j < |ts| && i != j ==> ts[i].id != ts[j].id
  }

  /** An id that was handed out before every task still in the queue. */
  predicate Precedes(id: int, q: seq<Task>, next: int)
  {
    id < next && forall i :: 0 <= i < |q| ==> id < q[i].id
  }

  predicate Busy(x: ExecutorState)
  {
    x.currentTask.Some?
  }

  function HeldId(x: ExecutorState): int
    requires Busy(x)
  {
    x.currentTask.value.id
  }

  /** Tasks held by executors left the queue before every task now in it. */
  predicate HeldPrecede(ex: seq<ExecutorState>, q: seq<Task>, next: int)
  {
    forall k :: 0 <= k < |ex| && Busy(ex[k]) ==> Precedes(HeldId(ex[k]), q, next)
  }

  /** No task is held by two executors. */
  predicate HeldDistinct(ex: seq<ExecutorState>)
  {
    forall k1, k2 :: 0 <= k1 < |ex| && 0 <= k2 < |ex| && k1 != k2 && Busy(ex[k1]) && Busy(ex[k2])
      ==> HeldId(ex[k1]) != HeldId(ex[k2])
  }

  /** Completed tasks left the queue before every task now in it. */
  predicate LedgerPrecede(d: seq<Task>, q: seq<Task>, next: int)
  {
    forall i :: 0 <= i < |d| ==> Precedes(d[i].id, q, next)
  }

  /** No completed task is still held by an executor. */
  predicate LedgerApart(d: seq<Task>, ex: seq<ExecutorState>)
  {
    forall i, k :: 0 <= i < |d| && 0 <= k < |ex| && Busy(ex[k]) ==> d[i].id != HeldId(ex[k])
  }

  /** Ids are never reused and each task sits in one place only: in the
      buffer (in increasing id order), with one executor, or in the ledger. */
  predicate IdsOrdered(st: SimulationState)
  {
    var q := st.buffer.tasks;
    Increasing(q)
    && (forall i :: 0 <= i < |q| ==> q[i].id < st.nextTaskId)
    && HeldPrecede(st.executors, q, st.nextTaskId)
    && HeldDistinct(st.executors)
    && LedgerPrecede(st.done.tasks, q, st.nextTaskId)
    && DistinctIds(st.done.tasks)
    && LedgerApart(st.done.tasks, st.executors)
  }

  /** The invariant of every state the slice can reach. */
  predicate Inv(st: SimulationState)
  {
    |st.sources| >= 1 && |st.executors| >= 1
    && Clocks(st.executors, st.day)
    && |st.buffer.tasks| <= st.buffer.max
    && |st.done.tasks| <= Window
    && IdsOrdered(st)
  }

  // ---------------------------------------------------------------- counting

  /** The sum of `tasksGenerated` over sources 0 .. j-1. */
  function GeneratedPrefix(sources: seq<SourceState>, j: nat): nat
    requires j <= |sources|
  {
    if j == 0 then 0 else GeneratedPrefix(sources, j - 1) + sources[j - 1].tasksGenerated
  }

  function Generated(sources: seq<SourceState>): nat
  {
    GeneratedPrefix(sources, |sources|)
  }

  lemma {:induction false} IdleBeforeBound(ex: seq<ExecutorState>, k: nat)
    requires k <= |ex|
    ensures IdleBefore(ex, k) <= k
  {
    if k > 0 {
      IdleBeforeBound(ex, k - 1);
    }
  }

  /** The number of busy executors. */
  function BusyCount(ex: seq<ExecutorState>): nat
  {
    IdleBeforeBound(ex, |ex|);
    |ex| - IdleCount(ex)
  }

  /** Conservation: every task ever generated is in the buffer, with an
      executor, or counted as done. */
  predicate Conserved(st: SimulationState)
  {
    Generated(st.sources) == |st.buffer.tasks| + BusyCount(st.executors) + st.done.total
  }
}
