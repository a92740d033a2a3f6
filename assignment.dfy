/** Properties of dispatch: idle executors take tasks from the buffer head
    in index order (simulationSlice.ts:192-203). */
module Assignment {
  import opened SimTypes
  import opened ArrayOps
  import opened DayStep
  import opened Invariants

  lemma {:induction false} IdleBeforeMono(ex: seq<ExecutorState>, a: nat, b: nat)
    requires a <= b <= |ex|
    ensures IdleBefore(ex, a) <= IdleBefore(ex, b)
    decreases b
  {
    if a < b {
      IdleBeforeMono(ex, a, b - 1);
    }
  }

  /** An idle executor's rank is below the number of idle executors up to
      any later position: distinct idle executors have distinct ranks. */
  lemma IdleRankBelow(ex: seq<ExecutorState>, k: nat, b: nat)
    requires k < b <= |ex| && !Busy(ex[k])
    ensures IdleBefore(ex, k) < IdleBefore(ex, b)
  {
    IdleBeforeMono(ex, k + 1, b);
  }

  /** The number of tasks dispatch hands out. */
  function Taken(st: SimulationState): nat
  {
    Min(IdleCount(st.executors), |st.buffer.tasks|)
  }

  /** Dispatch replaces the executors by their assigned versions and drops
      the handed-out tasks from the buffer head. */
  lemma DispatchShape(st: SimulationState)
    ensures Dispatch(st).executors == AssignAll(st.executors, st.buffer.tasks, st.day)
    ensures Dispatch(st).buffer.tasks == st.buffer.tasks[Taken(st)..]
  {
  }

  /** What happened to executor k: a busy one kept its task untouched; an
      idle one of rank r took the r-th task of the buffer and started it
      today, or stayed idle because the buffer ran out. */
  lemma AssignCases(st: SimulationState, k: nat)
    requires k < |st.executors|
    ensures var x := st.executors[k]; var y := Dispatch(st).executors[k];
      var rank := IdleBefore(st.executors, k);
      (Busy(x) ==> y == x)
      && (!Busy(x) && rank < |st.buffer.tasks| ==>
            rank < Taken(st)
            && y == x.(currentTask := Some(st.buffer.tasks[rank]), startedExecutionAt := Some(st.day)))
      && (!Busy(x) && rank >= |st.buffer.tasks| ==> y == x)
  {
    var ex := st.executors;
    if !Busy(ex[k]) {
      IdleRankBelow(ex, k, |ex|);
    }
  }

  /** No executor is left idle while tasks wait: after dispatch the buffer
      is empty or every executor is busy. */
  lemma DispatchFills(st: SimulationState)
    ensures Dispatch(st).buffer.tasks == []
            || forall k :: 0 <= k < |st.executors| ==> Busy(Dispatch(st).executors[k])
  {
    var ex := st.executors;
    var q := st.buffer.tasks;
    if IdleCount(ex) < |q| {
      forall k | 0 <= k < |ex|
        ensures Busy(Dispatch(st).executors[k])
      {
        AssignCases(st, k);
        if !Busy(ex[k]) {
          IdleRankBelow(ex, k, |ex|);
        }
      }
    }
  }

  /** The tasks handed to executors 0 .. k-1 that were idle, in index order. */
  function NewlyAssigned(before: seq<ExecutorState>, after: seq<ExecutorState>, k: nat): seq<Task>
    requires k <= |before| && k <= |after|
  {
    if k == 0 then []
    else NewlyAssigned(before, after, k - 1)
         + (if !Busy(before[k - 1]) && Busy(after[k - 1]) then [after[k - 1].currentTask.value] else [])
  }

  /** Executor k-1 adds the task of its rank to the handed-out list
      exactly when it was idle and the queue reaches that far. */
  lemma AssignedStep(ex: seq<ExecutorState>, q: seq<Task>, day: int, k: nat)
    requires 0 < k <= |ex|
    ensures var ys := AssignAll(ex, q, day); var r := IdleBefore(ex, k - 1);
      NewlyAssigned(ex, ys, k)
      == NewlyAssigned(ex, ys, k - 1) + (if !Busy(ex[k - 1]) && r < |q| then [q[r]] else [])
  {
    var ys := AssignAll(ex, q, day);
    assert ys[k - 1] == Assign(ex[k - 1], IdleBefore(ex, k - 1), q, day);
  }

  /** The tasks handed to the first k executors are the first tasks of the
      queue, one per idle executor among them, until the queue runs out. */
  lemma {:induction false} AssignedPrefix(ex: seq<ExecutorState>, q: seq<Task>, day: int, k: nat)
    requires k <= |ex|
    ensures IdleBefore(ex, k) <= |q| ==> NewlyAssigned(ex, AssignAll(ex, q, day), k) == q[..IdleBefore(ex, k)]
    ensures IdleBefore(ex, k) >= |q| ==> NewlyAssigned(ex, AssignAll(ex, q, day), k) == q
  {
    if k > 0 {
      AssignedPrefix(ex, q, day, k - 1);
      AssignedStep(ex, q, day, k);
      var r := IdleBefore(ex, k - 1);
      assert q[..|q|] == q;
      if !Busy(ex[k - 1]) && r < |q| {
        PrefixSnoc(q, r);
      }
    }
  }

  /** FIFO dispatch: the tasks handed out, listed by executor index, are
      exactly the oldest tasks of the buffer, and the buffer keeps the rest
      in order; busy executors are untouched and every newly busy one
      starts today. */
  lemma DispatchFifo(st: SimulationState)
    ensures var r := Dispatch(st);
      var handed := NewlyAssigned(st.executors, r.executors, |st.executors|);
      st.buffer.tasks == handed + r.buffer.tasks
      && |handed| == Taken(st)
      && (forall k :: 0 <= k < |st.executors| && Busy(st.executors[k]) ==> r.executors[k] == st.executors[k])
      && (forall k :: 0 <= k < |st.executors| && !Busy(st.executors[k]) && Busy(r.executors[k]) ==>
            r.executors[k].startedExecutionAt == Some(st.day)
            && r.executors[k].daysUtilized == st.executors[k].daysUtilized)
  {
    AssignedPrefix(st.executors, st.buffer.tasks, st.day, |st.executors|);
    DispatchShape(st);
    var q := st.buffer.tasks;
    assert q == q[..Taken(st)] + q[Taken(st)..];
    forall k | 0 <= k < |st.executors|
      ensures Busy(st.executors[k]) ==> Dispatch(st).executors[k] == st.executors[k]
    {
      AssignCases(st, k);
    }
  }

  /** Of two executors that take a task on the same day, the one with the
      lower index takes the older task. */
  lemma DispatchInIndexOrder(st: SimulationState, k1: nat, k2: nat)
    requires Increasing(st.buffer.tasks)
    requires k1 < k2 < |st.executors|
    requires !Busy(st.executors[k1]) && Busy(Dispatch(st).executors[k1])
    requires !Busy(st.executors[k2]) && Busy(Dispatch(st).executors[k2])
    ensures HeldId(Dispatch(st).executors[k1]) < HeldId(Dispatch(st).executors[k2])
  {
    AssignCases(st, k1);
    AssignCases(st, k2);
    IdleRankBelow(st.executors, k1, k2);
  }

  /** An executor is idle after dispatch exactly when it was idle and its
      rank reached past the end of the queue. */
  lemma StaysIdle(ex: seq<ExecutorState>, q: seq<Task>, day: int, k: nat)
    requires k < |ex|
    ensures AssignAll(ex, q, day)[k].currentTask.None?
            <==> ex[k].currentTask.None? && IdleBefore(ex, k) >= |q|
  {
    var ys := AssignAll(ex, q, day);
    assert ys[k] == Assign(ex[k], IdleBefore(ex, k), q, day);
  }

  /** Idle executors among the first k after dispatch: those whose rank
      reached past the end of the queue. */
  lemma {:induction false} IdleAfterAssign(ex: seq<ExecutorState>, q: seq<Task>, day: int, k: nat)
    requires k <= |ex|
    ensures IdleBefore(ex, k) <= |q| ==> IdleBefore(AssignAll(ex, q, day), k) == 0
    ensures IdleBefore(ex, k) >= |q| ==> IdleBefore(AssignAll(ex, q, day), k) == IdleBefore(ex, k) - |q|
  {
    if k > 0 {
      IdleAfterAssign(ex, q, day, k - 1);
      StaysIdle(ex, q, day, k - 1);
      var ys := AssignAll(ex, q, day);
      var r := IdleBefore(ex, k - 1);
      var idle := ex[k - 1].currentTask.None?;
      assert IdleBefore(ex, k) == r + (if idle then 1 else 0);
      assert IdleBefore(ys, k) == IdleBefore(ys, k - 1) + (if ys[k - 1].currentTask.None? then 1 else 0);
    }
  }

  /** Each task handed out leaves the buffer and occupies one executor, so
      dispatch keeps the conservation identity. */
  lemma DispatchConserves(st: SimulationState)
    ensures |Dispatch(st).buffer.tasks| + Taken(st) == |st.buffer.tasks|
    ensures BusyCount(Dispatch(st).executors) == BusyCount(st.executors) + Taken(st)
    ensures Conserved(st) ==> Conserved(Dispatch(st))
  {
    DispatchShape(st);
    IdleAfterAssign(st.executors, st.buffer.tasks, st.day, |st.executors|);
    IdleBeforeBound(st.executors, |st.executors|);
  }

  /** Dispatch stamps today as the start, so clocks stay consistent. */
  lemma DispatchClocks(st: SimulationState)
    requires st.day >= 1 && Clocks(st.executors, st.day)
    ensures Clocks(Dispatch(st).executors, st.day)
  {
    forall k | 0 <= k < |st.executors|
      ensures ExecutorClock(Dispatch(st).executors[k], st.day)
    {
      AssignCases(st, k);
    }
  }

  /** The buffer after dispatch is what is left behind the handed-out tasks. */
  lemma RestOfQueue(st: SimulationState, i: nat)
    requires i < |Dispatch(st).buffer.tasks|
    ensures Taken(st) + i < |st.buffer.tasks|
    ensures Dispatch(st).buffer.tasks[i] == st.buffer.tasks[Taken(st) + i]
  {
    DispatchShape(st);
  }

  /** An executor busy after dispatch holds either its old task or a task
      that was in the buffer ahead of every task still there. */
  lemma HeldAfterDispatch(st: SimulationState, k: nat)
    requires IdsOrdered(st) && k < |st.executors| && Busy(Dispatch(st).executors[k])
    ensures Precedes(HeldId(Dispatch(st).executors[k]), Dispatch(st).buffer.tasks, st.nextTaskId)
    ensures !Busy(st.executors[k]) ==>
              IdleBefore(st.executors, k) < Taken(st)
              && HeldId(Dispatch(st).executors[k]) == st.buffer.tasks[IdleBefore(st.executors, k)].id
  {
    AssignCases(st, k);
    var q' := Dispatch(st).buffer.tasks;
    var id := HeldId(Dispatch(st).executors[k]);
    forall i | 0 <= i < |q'|
      ensures id < q'[i].id
    {
      RestOfQueue(st, i);
    }
  }

  /** Dispatch keeps ids unique: each task handed out leaves the buffer
      head and goes to exactly one executor. */
  lemma DispatchIds(st: SimulationState)
    requires IdsOrdered(st)
    ensures IdsOrdered(Dispatch(st))
  {
    var r := Dispatch(st);
    var ex := st.executors;
    var ys := r.executors;
    var q := st.buffer.tasks;
    var q' := r.buffer.tasks;
    assert Increasing(q') && forall i :: 0 <= i < |q'| ==> q'[i].id < r.nextTaskId by {
      DispatchShape(st);
    }
    forall k | 0 <= k < |ys| && Busy(ys[k])
      ensures Precedes(HeldId(ys[k]), q', r.nextTaskId)
    {
      HeldAfterDispatch(st, k);
    }
    forall k1, k2 | 0 <= k1 < |ys| && 0 <= k2 < |ys| && k1 != k2 && Busy(ys[k1]) && Busy(ys[k2])
      ensures HeldId(ys[k1]) != HeldId(ys[k2])
    {
      HeldAfterDispatch(st, k1);
      HeldAfterDispatch(st, k2);
      AssignCases(st, k1);
      AssignCases(st, k2);
      if !Busy(ex[k1]) && !Busy(ex[k2]) {
        if k1 < k2 {
          IdleRankBelow(ex, k1, k2);
        } else {
          IdleRankBelow(ex, k2, k1);
        }
      }
    }
    forall i, k | 0 <= i < |r.done.tasks| && 0 <= k < |ys| && Busy(ys[k])
      ensures r.done.tasks[i].id != HeldId(ys[k])
    {
      HeldAfterDispatch(st, k);
      AssignCases(st, k);
      assert Precedes(st.done.tasks[i].id, q, st.nextTaskId);
    }
  }
}
