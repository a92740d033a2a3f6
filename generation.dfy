/** Properties of the generation phase (simulationSlice.ts:22-42, 147-158). */
module Generation {
  import opened SimTypes
  import opened DayStep
  import opened Invariants

  lemma {:induction false} SumPrefixMono(counts: seq<nat>, a: nat, b: nat)
    requires a <= b <= |counts|
    ensures SumPrefix(counts, a) <= SumPrefix(counts, b)
    decreases b
  {
    if a < b {
      SumPrefixMono(counts, a, b - 1);
    }
  }

  /** The tasks of one day form one run of ids starting at the counter, all
      created today and none executed. */
  lemma {:induction false} ArrivalsPrefixIds(nextId: int, day: int, sources: seq<SourceState>, counts: seq<nat>, j: nat)
    requires j <= |sources| && j <= |counts|
    ensures |ArrivalsPrefix(nextId, day, sources, counts, j)| == SumPrefix(counts, j)
    ensures forall i :: 0 <= i < |ArrivalsPrefix(nextId, day, sources, counts, j)| ==>
              ArrivalsPrefix(nextId, day, sources, counts, j)[i].id == nextId + i
              && ArrivalsPrefix(nextId, day, sources, counts, j)[i].createdAt == day
              && ArrivalsPrefix(nextId, day, sources, counts, j)[i].executedAt == None
  {
    if j > 0 {
      ArrivalsPrefixIds(nextId, day, sources, counts, j - 1);
      var p := ArrivalsPrefix(nextId, day, sources, counts, j - 1);
      var b := Batch(nextId + SumPrefix(counts, j - 1), day, sources[j - 1].workDays, counts[j - 1]);
      var a := ArrivalsPrefix(nextId, day, sources, counts, j);
      assert a == p + b;
      forall i | 0 <= i < |a|
        ensures a[i].id == nextId + i && a[i].createdAt == day && a[i].executedAt == None
      {
        if i >= |p| {
          assert a[i] == b[i - |p|];
        }
      }
    }
  }

  /** The k-th task of source j's batch sits right after the tasks of the
      sources before it, and carries source j's work days. */
  lemma {:induction false} ArrivalsBlock(nextId: int, day: int, sources: seq<SourceState>, counts: seq<nat>, n: nat, j: nat, k: nat)
    requires n <= |sources| && n <= |counts| && j < n && k < counts[j]
    ensures SumPrefix(counts, j) + k < |ArrivalsPrefix(nextId, day, sources, counts, n)|
    ensures ArrivalsPrefix(nextId, day, sources, counts, n)[SumPrefix(counts, j) + k]
            == Task(nextId + SumPrefix(counts, j) + k, day, sources[j].workDays, None)
    decreases n
  {
    ArrivalsPrefixIds(nextId, day, sources, counts, n - 1);
    var p := ArrivalsPrefix(nextId, day, sources, counts, n - 1);
    var b := Batch(nextId + SumPrefix(counts, n - 1), day, sources[n - 1].workDays, counts[n - 1]);
    assert ArrivalsPrefix(nextId, day, sources, counts, n) == p + b;
    if j == n - 1 {
      assert (p + b)[SumPrefix(counts, j) + k] == b[k];
    } else {
      ArrivalsBlock(nextId, day, sources, counts, n - 1, j, k);
      SumPrefixMono(counts, j + 1, n - 1);
    }
  }

  /** Generation appends the day's tasks at the buffer tail with contiguous
      ids from the old counter; the counter ends one past the last of them,
      and each source's counter grows by what that source produced. */
  lemma GenerateAppends(st: SimulationState, counts: seq<nat>)
    requires |counts| == |st.sources|
    ensures var r := Generate(st, counts);
      var q := st.buffer.tasks;
      |r.buffer.tasks| == |q| + Total(counts)
      && r.buffer.tasks[..|q|] == q
      && r.nextTaskId == st.nextTaskId + Total(counts)
      && (forall p :: |q| <= p < |r.buffer.tasks| ==>
            r.buffer.tasks[p].id == st.nextTaskId + (p - |q|)
            && r.buffer.tasks[p].createdAt == st.day
            && r.buffer.tasks[p].executedAt == None)
      && (forall j :: 0 <= j < |st.sources| ==>
            r.sources[j] == st.sources[j].(tasksGenerated := st.sources[j].tasksGenerated + counts[j]))
  {
    var r := Generate(st, counts);
    var q := st.buffer.tasks;
    var a := Arrivals(st, counts);
    ArrivalsPrefixIds(st.nextTaskId, st.day, st.sources, counts, |counts|);
    assert r.buffer.tasks == q + a;
    forall p | |q| <= p < |r.buffer.tasks|
      ensures r.buffer.tasks[p].id == st.nextTaskId + (p - |q|)
              && r.buffer.tasks[p].createdAt == st.day && r.buffer.tasks[p].executedAt == None
    {
      assert r.buffer.tasks[p] == a[p - |q|];
    }
  }

  /** Source j's k-th new task of the day lands at the given offset past
      the old buffer tail and takes source j's work days. */
  lemma GenerateSourceOrder(st: SimulationState, counts: seq<nat>, j: nat, k: nat)
    requires |counts| == |st.sources| && j < |counts| && k < counts[j]
    ensures var p := |st.buffer.tasks| + SumPrefix(counts, j) + k;
      p < |Generate(st, counts).buffer.tasks|
      && Generate(st, counts).buffer.tasks[p]
         == Task(st.nextTaskId + SumPrefix(counts, j) + k, st.day, st.sources[j].workDays, None)
  {
    ArrivalsBlock(st.nextTaskId, st.day, st.sources, counts, |counts|, j, k);
    var q := st.buffer.tasks;
    var a := Arrivals(st, counts);
    assert Generate(st, counts).buffer.tasks == q + a;
    assert (q + a)[|q| + SumPrefix(counts, j) + k] == a[SumPrefix(counts, j) + k];
  }

  lemma {:induction false} GeneratedCredit(a: seq<SourceState>, b: seq<SourceState>, counts: seq<nat>, j: nat)
    requires |a| == |b| == |counts| && j <= |a|
    requires forall i :: 0 <= i < |a| ==> b[i].tasksGenerated == a[i].tasksGenerated + counts[i]
    ensures GeneratedPrefix(b, j) == GeneratedPrefix(a, j) + SumPrefix(counts, j)
  {
    if j > 0 {
      GeneratedCredit(a, b, counts, j - 1);
    }
  }

  /** Generation adds as many tasks to the buffer as it adds to the
      sources' counters, so it keeps the conservation identity. */
  lemma GenerateConserves(st: SimulationState, counts: seq<nat>)
    requires |counts| == |st.sources|
    ensures Generated(Generate(st, counts).sources) == Generated(st.sources) + Total(counts)
    ensures |Generate(st, counts).buffer.tasks| == |st.buffer.tasks| + Total(counts)
    ensures Conserved(st) ==> Conserved(Generate(st, counts))
  {
    GenerateAppends(st, counts);
    GeneratedCredit(st.sources, Generate(st, counts).sources, counts, |counts|);
  }

  /** Generation keeps ids unique and increasing along the buffer: the new
      ids are above every id handed out so far. */
  lemma GenerateIds(st: SimulationState, counts: seq<nat>)
    requires |counts| == |st.sources|
    requires IdsOrdered(st)
    ensures IdsOrdered(Generate(st, counts))
  {
    var r := Generate(st, counts);
    var q := st.buffer.tasks;
    var q' := r.buffer.tasks;
    GenerateAppends(st, counts);
    assert forall i :: 0 <= i < |q| ==> q'[i] == q[i];
    assert Increasing(q');
    forall k | 0 <= k < |r.executors| && Busy(r.executors[k])
      ensures Precedes(HeldId(r.executors[k]), q', r.nextTaskId)
    {
      assert Precedes(HeldId(st.executors[k]), q, st.nextTaskId);
    }
    forall i | 0 <= i < |r.done.tasks|
      ensures Precedes(r.done.tasks[i].id, q', r.nextTaskId)
    {
      assert Precedes(st.done.tasks[i].id, q, st.nextTaskId);
    }
  }
}
