/** Properties of the completion check and of the ledger it feeds
    (simulationSlice.ts:163-190). */
module Completion {
  import opened SimTypes
  import opened ArrayOps
  import opened DayStep
  import opened Invariants

  /** With the start recorded as a positive day, the `|| state.day`
      fallback of the source never applies. */
  lemma FallbackNeverFires(x: ExecutorState, day: int)
    requires ExecutorClock(x, day - 1) && Busy(x)
    ensures StartDay(x, day) == x.startedExecutionAt.value
    ensures Completes(x, day) <==> day - x.startedExecutionAt.value >= x.currentTask.value.workDays
  {
  }

  /** The ledger's task list is always the most recent completions, in
      completion order: if it held the last `Window` tasks of a history,
      after today's completions it holds the last `Window` of the longer
      history, and it never grows beyond `Window`. */
  lemma RecentOfHistory(history: seq<Task>, fs: seq<Task>)
    ensures Recent(Last(history, Window), fs) == Last(history + fs, Window)
    ensures |Recent(Last(history, Window), fs)| <= Window
  {
    if fs == [] {
      assert history + fs == history;
    } else {
      LastOfLast(history, fs, Window);
    }
  }

  /** One push followed by the source's trim (`slice(-20)` once the list
      has more than 10 entries) extends the window by the new completion:
      pushing completions one at a time, trimming after each, gives
      `Recent` of all of them. */
  lemma RecentStep(d: seq<Task>, fs: seq<Task>, t: Task)
    ensures var w := Recent(d, fs) + [t];
      (if |w| > 10 then Last(w, Window) else w) == Recent(d, fs + [t])
  {
    if fs == [] {
      assert fs + [t] == [t];
    } else {
      LastOfLast(d + fs, [t], Window);
      assert d + (fs + [t]) == (d + fs) + [t];
      var l := Last(d + fs, Window);
      if |l| < Window {
        assert l == d + fs;
      }
    }
  }

  /** The ledger `d0` after the completions `fs` are pushed one by one. */
  function Ledger(d0: DoneState, fs: seq<Task>): DoneState
    requires AllStamped(fs)
  {
    DoneState(d0.total + |fs|, d0.daysSum + LatencySum(fs), Recent(d0.tasks, fs))
  }

  /** Checking executor `e` changes the ledger exactly by the source's loop
      body: a push of the stamped task, the counters, and the trim. */
  lemma PushCompleted(d0: DoneState, ex: seq<ExecutorState>, day: int, e: nat)
    requires e < |ex|
    ensures AllStamped(FinishedPrefix(ex, day, e)) && AllStamped(FinishedPrefix(ex, day, e + 1))
    ensures var before := Ledger(d0, FinishedPrefix(ex, day, e));
      var after := Ledger(d0, FinishedPrefix(ex, day, e + 1));
      if Completes(ex[e], day)
      then var t := Stamp(ex[e].currentTask.value, day); var w := before.tasks + [t];
        after == DoneState(before.total + 1, before.daysSum + Latency(t), if |w| > 10 then Last(w, Window) else w)
      else after == before
  {
    FinishedStamped(ex, day, e);
    var fs := FinishedPrefix(ex, day, e);
    if Completes(ex[e], day) {
      var t := Stamp(ex[e].currentTask.value, day);
      assert FinishedPrefix(ex, day, e + 1) == fs + [t];
      PushOne(d0, fs, t);
    } else {
      assert FinishedPrefix(ex, day, e + 1) == fs;
    }
  }

  /** Pushing one more stamped completion onto the ledger, as the source's
      loop body does it, extends the completions by that task. */
  lemma PushOne(d0: DoneState, fs: seq<Task>, t: Task)
    requires AllStamped(fs) && t.executedAt.Some?
    ensures AllStamped(fs + [t])
    ensures var before := Ledger(d0, fs); var w := before.tasks + [t];
      Ledger(d0, fs + [t]) == DoneState(before.total + 1, before.daysSum + Latency(t), if |w| > 10 then Last(w, Window) else w)
  {
    LatencySnoc(fs, t);
    RecentStep(d0.tasks, fs, t);
  }

  /** The latency sum of one more completion grows by its latency. */
  lemma LatencySnoc(fs: seq<Task>, t: Task)
    requires AllStamped(fs) && t.executedAt.Some?
    ensures AllStamped(fs + [t])
    ensures LatencySum(fs + [t]) == LatencySum(fs) + Latency(t)
  {
    assert (fs + [t])[..|fs|] == fs;
  }

  lemma {:induction false} FinishedLength(ex: seq<ExecutorState>, day: int, k: nat)
    requires k <= |ex|
    ensures |FinishedPrefix(ex, day, k)| <= k
  {
    if k > 0 {
      FinishedLength(ex, day, k - 1);
    }
  }

  /** A busy executor that is due today contributes its task, stamped with
      today, to today's completions. */
  lemma {:induction false} FinishedHas(ex: seq<ExecutorState>, day: int, k: nat, j: nat)
    requires j < k <= |ex| && Completes(ex[j], day)
    ensures Stamp(ex[j].currentTask.value, day) in FinishedPrefix(ex, day, k)
  {
    if j < k - 1 {
      FinishedHas(ex, day, k - 1, j);
    }
  }

  /** An id that no completing executor holds is not among today's completions. */
  lemma {:induction false} FinishedAvoids(ex: seq<ExecutorState>, day: int, k: nat, id: int)
    requires k <= |ex|
    requires forall j :: 0 <= j < k && Completes(ex[j], day) ==> HeldId(ex[j]) != id
    ensures forall i :: 0 <= i < |FinishedPrefix(ex, day, k)| ==> FinishedPrefix(ex, day, k)[i].id != id
  {
    if k > 0 {
      FinishedAvoids(ex, day, k - 1, id);
    }
  }

  /** Every completion carries the id of a task some executor held. */
  lemma {:induction false} FinishedFromHeld(ex: seq<ExecutorState>, day: int, k: nat, q: seq<Task>, next: int, d: seq<Task>)
    requires k <= |ex|
    requires HeldPrecede(ex, q, next) && LedgerApart(d, ex)
    ensures LedgerPrecede(FinishedPrefix(ex, day, k), q, next)
    ensures forall i, m :: 0 <= i < |d| && 0 <= m < |FinishedPrefix(ex, day, k)| ==> d[i].id != FinishedPrefix(ex, day, k)[m].id
  {
    if k > 0 {
      FinishedFromHeld(ex, day, k - 1, q, next, d);
    }
  }

  /** Today's completions are pairwise distinct when the held tasks are. */
  lemma {:induction false} FinishedDistinct(ex: seq<ExecutorState>, day: int, k: nat)
    requires k <= |ex| && HeldDistinct(ex)
    ensures DistinctIds(FinishedPrefix(ex, day, k))
  {
    if k > 0 {
      FinishedDistinct(ex, day, k - 1);
      if Completes(ex[k - 1], day) {
        FinishedAvoids(ex, day, k - 1, HeldId(ex[k - 1]));
      }
    }
  }

  lemma SuffixKeepsDistinct(xs: seq<Task>, n: nat)
    requires DistinctIds(xs)
    ensures DistinctIds(Last(xs, n))
  {
    if |xs| > n {
      var r := xs[|xs| - n..];
      assert Last(xs, n) == r;
      forall i, j | 0 <= i < |r| && 0 <= j < |r| && i != j
        ensures r[i].id != r[j].id
      {
        assert r[i] == xs[|xs| - n + i] && r[j] == xs[|xs| - n + j];
      }
    }
  }

  /** Appending completions whose ids are fresh for the ledger keeps the
      ledger's ids distinct and older than the queue. */
  lemma AppendKeepsIds(d: seq<Task>, fs: seq<Task>, q: seq<Task>, next: int)
    requires DistinctIds(d) && DistinctIds(fs)
    requires forall i, m :: 0 <= i < |d| && 0 <= m < |fs| ==> d[i].id != fs[m].id
    requires LedgerPrecede(d, q, next) && LedgerPrecede(fs, q, next)
    ensures DistinctIds(d + fs) && LedgerPrecede(d + fs, q, next)
  {
    var all := d + fs;
    forall i, j | 0 <= i < |all| && 0 <= j < |all| && i != j
      ensures all[i].id != all[j].id
    {
      if i < |d| && j >= |d| {
        assert all[i] == d[i] && all[j] == fs[j - |d|];
      } else if i >= |d| && j < |d| {
        assert all[i] == fs[i - |d|] && all[j] == d[j];
      } else if i >= |d| && j >= |d| {
        assert all[i] == fs[i - |d|] && all[j] == fs[j - |d|];
      } else {
        assert all[i] == d[i] && all[j] == d[j];
      }
    }
    forall i | 0 <= i < |all|
      ensures Precedes(all[i].id, q, next)
    {
      if i >= |d| {
        assert all[i] == fs[i - |d|];
      } else {
        assert all[i] == d[i];
      }
    }
  }

  /** Every element of a window is one of the list's elements. */
  lemma LastElements(xs: seq<Task>, n: nat, i: nat)
    requires i < |Last(xs, n)|
    ensures Last(xs, n)[i] == xs[|xs| - |Last(xs, n)| + i]
  {
    if |xs| > n {
      assert Last(xs, n) == xs[|xs| - n..];
    }
  }

  /** An executor busy after the check held the same task before it and
      was not due. */
  lemma CompleteKeepsHeld(st: SimulationState, k: nat)
    requires k < |st.executors| && Busy(Complete(st).executors[k])
    ensures Busy(st.executors[k]) && !Completes(st.executors[k], st.day)
    ensures Complete(st).executors[k].currentTask == st.executors[k].currentTask
    ensures Complete(st).executors[k].startedExecutionAt == st.executors[k].startedExecutionAt
  {
    assert Complete(st).executors[k] == AfterCheck(st.executors[k], st.day);
  }

  /** Executors keep only tasks they held before the check. */
  lemma CompleteHeldIds(st: SimulationState)
    requires IdsOrdered(st)
    ensures HeldPrecede(Complete(st).executors, st.buffer.tasks, st.nextTaskId)
    ensures HeldDistinct(Complete(st).executors)
  {
    var ys := Complete(st).executors;
    forall k | 0 <= k < |ys| && Busy(ys[k])
      ensures Busy(st.executors[k]) && HeldId(ys[k]) == HeldId(st.executors[k])
    {
      CompleteKeepsHeld(st, k);
    }
  }

  /** A window of a list only holds elements of the list. */
  lemma WindowFrom(d: seq<Task>, fs: seq<Task>, i: nat)
    requires i < |Recent(d, fs)|
    ensures (exists m :: 0 <= m < |d| && Recent(d, fs)[i] == d[m])
            || (exists m :: 0 <= m < |fs| && Recent(d, fs)[i] == fs[m])
  {
    if fs != [] {
      var all := d + fs;
      LastElements(all, Window, i);
      var m := |all| - |Last(all, Window)| + i;
      assert Recent(d, fs)[i] == all[m];
      if m >= |d| {
        assert all[m] == fs[m - |d|];
      } else {
        assert all[m] == d[m];
      }
    } else {
      assert Recent(d, fs)[i] == d[i];
    }
  }

  /** The new ledger window holds old entries and today's completions only,
      so its ids are distinct and older than the queue. */
  lemma CompleteLedgerOrder(st: SimulationState)
    requires IdsOrdered(st)
    ensures LedgerPrecede(Complete(st).done.tasks, st.buffer.tasks, st.nextTaskId)
    ensures DistinctIds(Complete(st).done.tasks)
  {
    var ex := st.executors;
    var q := st.buffer.tasks;
    var fs := Finished(ex, st.day);
    var d := st.done.tasks;
    var w := Complete(st).done.tasks;
    assert w == Recent(d, fs);
    if fs != [] {
      FinishedFromHeld(ex, st.day, |ex|, q, st.nextTaskId, d);
      FinishedDistinct(ex, st.day, |ex|);
      AppendKeepsIds(d, fs, q, st.nextTaskId);
      var all := d + fs;
      SuffixKeepsDistinct(all, Window);
      forall i | 0 <= i < |w|
        ensures Precedes(w[i].id, q, st.nextTaskId)
      {
        LastElements(all, Window, i);
      }
    }
  }

  /** A task still held after the check is neither in the old ledger nor
      among today's completions. */
  lemma HeldNotFinished(st: SimulationState, k: nat)
    requires IdsOrdered(st)
    requires k < |st.executors| && Busy(Complete(st).executors[k])
    ensures forall m :: 0 <= m < |st.done.tasks| ==> st.done.tasks[m].id != HeldId(Complete(st).executors[k])
    ensures forall m :: 0 <= m < |Finished(st.executors, st.day)| ==>
              Finished(st.executors, st.day)[m].id != HeldId(Complete(st).executors[k])
  {
    CompleteKeepsHeld(st, k);
    FinishedAvoids(st.executors, st.day, |st.executors|, HeldId(st.executors[k]));
  }

  /** No task in the new ledger window is still held by an executor. */
  lemma CompleteLedgerApart(st: SimulationState)
    requires IdsOrdered(st)
    ensures LedgerApart(Complete(st).done.tasks, Complete(st).executors)
  {
    var ys := Complete(st).executors;
    var fs := Finished(st.executors, st.day);
    var d := st.done.tasks;
    var w := Complete(st).done.tasks;
    assert w == Recent(d, fs);
    forall i, k | 0 <= i < |w| && 0 <= k < |ys| && Busy(ys[k])
      ensures w[i].id != HeldId(ys[k])
    {
      HeldNotFinished(st, k);
      WindowFrom(d, fs, i);
    }
  }

  /** The completion check keeps ids unique: the completed tasks leave the
      executors and enter the ledger, and no other task moves. */
  lemma CompleteIds(st: SimulationState)
    requires IdsOrdered(st)
    ensures IdsOrdered(Complete(st))
  {
    CompleteHeldIds(st);
    CompleteLedgerOrder(st);
    CompleteLedgerApart(st);
  }

  /** The completion check charges every busy executor one day of
      utilization and keeps the clock fields consistent with today. */
  lemma CompleteClocks(st: SimulationState)
    requires st.day >= 1
    requires forall k :: 0 <= k < |st.executors| ==> ExecutorClock(st.executors[k], st.day - 1)
    ensures Clocks(Complete(st).executors, st.day)
  {
  }

  lemma {:induction false} CompleteIdle(ex: seq<ExecutorState>, ys: seq<ExecutorState>, day: int, k: nat)
    requires |ys| == |ex| && k <= |ex|
    requires forall i :: 0 <= i < |ex| ==> ys[i] == AfterCheck(ex[i], day)
    ensures IdleBefore(ys, k) == IdleBefore(ex, k) + |FinishedPrefix(ex, day, k)|
  {
    if k > 0 {
      CompleteIdle(ex, ys, day, k - 1);
    }
  }

  /** Every completion frees one executor and adds one to the ledger's
      total, so the completion check keeps the conservation identity. */
  lemma CompleteConserves(st: SimulationState)
    ensures BusyCount(Complete(st).executors) + |Finished(st.executors, st.day)| == BusyCount(st.executors)
    ensures Complete(st).done.total == st.done.total + |Finished(st.executors, st.day)|
    ensures Conserved(st) ==> Conserved(Complete(st))
  {
    CompleteIdle(st.executors, Complete(st).executors, st.day, |st.executors|);
    IdleBeforeBound(Complete(st).executors, |st.executors|);
  }
}
