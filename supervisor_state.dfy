/**
 * The bookkeeping of `incrementalAsyncMapGroupingByImplementation` in
 * `KotlinFileOnChangeSaver.kt`, as values: the per-key computation map, the launched mapper
 * tasks, the grace cancellers, the value cells and the maps sent downstream, together with the
 * steps that change them (`addingNewKey`, `removingKey`, the completion of a task, and the two
 * halves of a grace canceller) and the invariant every step keeps.
 *
 * A coroutine is named by its index in `tasks` or `cancellers`, a `MutableStateFlow<Set<T>>`
 * by its index in `cells`. Cancellation is cooperative: a cancelled task never completes.
 */
module KeyedTaskState {
  import opened Wrappers

  type TaskId = nat
  type JobId = nat
  type CellId = nat

  datatype NotCancelled<R> =
    | Loading(task: TaskId, values: CellId)
    | Done(value: R, values: CellId)

  /** `ComputationStateOfKey`: a running or finished key, or one waiting out its grace period. */
  datatype KeyState<R> =
    | Live(state: NotCancelled<R>)
    | InCancellationGracePeriod(notCancelledState: NotCancelled<R>, cancellingJob: JobId)
  {
    /** The state the key had before it was removed, or its state when it was not. */
    function Underlying(): NotCancelled<R> {
      if Live? then state else notCancelledState
    }

    /** `valuesForThisKey`: the cell of the key, looked up through a grace period. */
    function ValuesForThisKey(): CellId {
      Underlying().values
    }
  }

  /** A key keeps its cell through its grace period. */
  lemma GracePeriodKeepsCell<R>(ns: NotCancelled<R>, j: JobId)
    ensures InCancellationGracePeriod(ns, j).ValuesForThisKey() == Live(ns).ValuesForThisKey() == ns.values
  {
  }

  datatype TaskStatus = Running | Cancelled | Completed

  /** A mapper task launched by `launchTaskFor(key, values)`. */
  datatype Task<K> = Task(key: K, values: CellId, status: TaskStatus)

  /**
   * Where a grace canceller is: waiting out the delay; past the cancel it performs under the
   * lock; finished after removing its key; cancelled because the key came back; or finished
   * after the upstream flow ended, having cancelled its task without removing the key.
   */
  datatype GracePhase = Delaying | TaskCancelled | Retired | Aborted | Drained
  {
    /** The canceller has not finished yet. */
    predicate Active() {
      Delaying? || TaskCancelled?
    }

    /** The canceller may still be the one its key's entry names. */
    predicate Pending() {
      Active() || Drained?
    }
  }

  /** A job launched by `launchCancellationWithGracePeriod(key, task)`. */
  datatype Canceller<K> = Canceller(key: K, target: Option<TaskId>, phase: GracePhase)

  /** Whether a step went through, or the message of the `IllegalStateException` that `error` throws. */
  datatype Outcome = Pass | Fail(message: string)

  const AlreadyRunning := "Entity is already running"
  const GraceRemovesItself := "Will never happen. Grace period's tasks are responsible to remove themselves."
  const RemovingMissingKey := "Will never happen. Removing a key will never be requested for a key that does not exist."
  const NotLoadingOrCancelling := "A running task can only be in cancelling or loading state"

  /** Everything the steps of the supervisor share. */
  datatype Ledger<T, K, R> = Ledger(
    results: map<K, KeyState<R>>,
    tasks: seq<Task<K>>,
    cancellers: seq<Canceller<K>>,
    cells: seq<set<T>>,
    emitted: seq<map<K, KeyState<R>>>)

  /** The task a grace canceller is given: the task of a `Loading` state, none for `Done`. */
  function TargetOf<R>(ns: NotCancelled<R>): (t: Option<TaskId>)
    ensures t.Some? <==> ns.Loading?
    ensures t.Some? ==> t.value == ns.task
  {
    if ns.Loading? then Some(ns.task) else None
  }

  /** `Job.cancel()` on a task: a running task is cancelled, a finished one is left as it is. */
  function CancelTask<K>(tasks: seq<Task<K>>, t: TaskId): (r: seq<Task<K>>)
    requires t < |tasks|
    ensures |r| == |tasks| && r[t].status != Running
    ensures forall i :: 0 <= i < |tasks| ==> r[i].key == tasks[i].key && r[i].values == tasks[i].values
    ensures forall i :: 0 <= i < |tasks| && i != t ==> r[i] == tasks[i]
    ensures tasks[t].status != Running ==> r == tasks
  {
    if tasks[t].status == Running then tasks[t := tasks[t].(status := Cancelled)] else tasks
  }

  /** `Job.cancel()` on a canceller: an unfinished one is aborted, a finished one is left as it is. */
  function CancelJob<K>(c: Canceller<K>): (r: Canceller<K>)
    ensures r.key == c.key && r.target == c.target && !r.phase.Active()
    ensures !c.phase.Active() ==> r == c
  {
    if c.phase.Active() then c.(phase := Aborted) else c
  }

  /** The indices an entry holds exist. */
  predicate EntryIndexed<T, K(==,!new), R>(l: Ledger<T, K, R>, e: KeyState<R>) {
    && (e.Underlying().Loading? ==> e.Underlying().task < |l.tasks|)
    && (e.InCancellationGracePeriod? ==> e.cancellingJob < |l.cancellers|)
  }

  /** The grace canceller `j` of key `k`, whose state before removal was `ns`, agrees with that state. */
  predicate GraceJobOk<T, K(==,!new), R>(l: Ledger<T, K, R>, k: K, ns: NotCancelled<R>, j: JobId) {
    && j < |l.cancellers|
    && var c := l.cancellers[j];
    && c.key == k && c.phase.Pending()
    && (ns.Loading? ==> ns.task < |l.tasks| && c.target == Some(ns.task)
                        && l.tasks[ns.task].status == (if c.phase.Delaying? then Running else Cancelled))
    && (ns.Done? ==> c.target.None? || (c.target.value < |l.tasks| && l.tasks[c.target.value].key == k
                                        && l.tasks[c.target.value].status == Completed))
  }

  /** The entry of `k` refers to an existing cell, and to tasks and a canceller of `k` in the right state. */
  predicate EntryOk<T, K(==,!new), R>(l: Ledger<T, K, R>, k: K, e: KeyState<R>) {
    var ns := e.Underlying();
    && ns.values < |l.cells|
    && (ns.Loading? ==> ns.task < |l.tasks| && l.tasks[ns.task].key == k && l.tasks[ns.task].values == ns.values)
    && (e.Live? && ns.Loading? ==> l.tasks[ns.task].status == Running)
    && (e.InCancellationGracePeriod? ==> GraceJobOk(l, k, ns, e.cancellingJob))
  }

  /** Every running task is the one its key's entry is loading. */
  predicate TasksHeld<T, K(==,!new), R>(l: Ledger<T, K, R>) {
    forall t :: 0 <= t < |l.tasks| && l.tasks[t].status == Running ==>
      l.tasks[t].key in l.results && l.results[l.tasks[t].key].Underlying() == Loading(t, l.tasks[t].values)
  }

  /** Every unfinished canceller is the one its key's entry names, and its target exists. */
  predicate CancellersHeld<T, K(==,!new), R>(l: Ledger<T, K, R>) {
    && (forall j :: 0 <= j < |l.cancellers| && l.cancellers[j].phase.Active() ==>
          && l.cancellers[j].key in l.results
          && l.results[l.cancellers[j].key].InCancellationGracePeriod?
          && l.results[l.cancellers[j].key].cancellingJob == j)
    && (forall j :: 0 <= j < |l.cancellers| && l.cancellers[j].target.Some? ==> l.cancellers[j].target.value < |l.tasks|)
  }

  /** No two keys share a cell. */
  predicate CellsDistinct<T, K(==,!new), R>(l: Ledger<T, K, R>) {
    forall k1, k2 :: k1 in l.results && k2 in l.results && k1 != k2 ==>
      l.results[k1].ValuesForThisKey() != l.results[k2].ValuesForThisKey()
  }

  /**
   * The invariant, with `live` the keys present in the last snapshot: they are exactly the
   * keys whose entry is not in its grace period, and with no grace period no entry ever is.
   */
  predicate Consistent<T, K(==,!new), R>(l: Ledger<T, K, R>, live: set<K>, gracePeriod: nat) {
    && (forall k :: k in l.results ==> EntryOk(l, k, l.results[k]))
    && TasksHeld(l) && CancellersHeld(l) && CellsDistinct(l)
    && live <= l.results.Keys
    && (forall k :: k in l.results ==> (l.results[k].Live? <==> k in live))
    && (gracePeriod == 0 ==> forall k :: k in l.results ==> l.results[k].Live?)
  }

  /**
   * `r` differs from `l` only in what belongs to `key`: other keys' entries, tasks and
   * cancellers are as they were, no task changes key, and the cells and the emitted maps
   * only grow.
   */
  ghost predicate Touches<T, K(!new), R>(l: Ledger<T, K, R>, r: Ledger<T, K, R>, key: K) {
    && (forall k :: k != key ==> (k in r.results <==> k in l.results))
    && (forall k :: k != key && k in r.results ==> r.results[k] == l.results[k])
    && |l.tasks| <= |r.tasks|
    && (forall t :: 0 <= t < |l.tasks| ==> r.tasks[t].key == l.tasks[t].key && r.tasks[t].values == l.tasks[t].values)
    && (forall t :: 0 <= t < |l.tasks| && l.tasks[t].key != key ==> r.tasks[t] == l.tasks[t])
    && |l.cancellers| <= |r.cancellers|
    && (forall j :: 0 <= j < |l.cancellers| ==> r.cancellers[j].key == l.cancellers[j].key)
    && (forall j :: 0 <= j < |l.cancellers| && l.cancellers[j].key != key ==> r.cancellers[j] == l.cancellers[j])
    && |l.cells| <= |r.cells|
    && (forall c :: 0 <= c < |l.cells| ==> r.cells[c] == l.cells[c])
    && l.emitted <= r.emitted
  }

  /** `put(key, newLoadingTask(key))`: a new empty cell and a running task for `key` that reads it. */
  function Launched<T, K(==,!new), R>(l: Ledger<T, K, R>, key: K): (r: Ledger<T, K, R>)
    ensures Touches(l, r, key) && r.emitted == l.emitted && r.cancellers == l.cancellers
    ensures key in r.results && r.results[key] == Live(Loading(|l.tasks|, |l.cells|))
    ensures |r.tasks| == |l.tasks| + 1 && r.tasks[|l.tasks|] == Task(key, |l.cells|, Running)
    ensures |r.cells| == |l.cells| + 1 && r.cells[|l.cells|] == {}
  {
    l.(results := l.results[key := Live(Loading(|l.tasks|, |l.cells|))],
       tasks := l.tasks + [Task(key, |l.cells|, Running)],
       cells := l.cells + [{}])
  }

  /**
   * `addingNewKey`: a key with no entry gets a new loading task; a key in its grace period
   * has its canceller cancelled and gets back the state it had, or a new task when that state
   * is a task the canceller has already cancelled; a key that is present is an error.
   */
  function AddingNewKey<T, K(==,!new), R>(l: Ledger<T, K, R>, key: K): (r: (Outcome, Ledger<T, K, R>))
    requires key in l.results ==> EntryIndexed(l, l.results[key])
    ensures r.0.Fail? <==> key in l.results && l.results[key].Live?
    ensures r.0.Fail? ==> r.0 == Fail(AlreadyRunning) && r.1 == l
    ensures r.0.Pass? ==> key in r.1.results && r.1.results[key].Live?
    ensures (key in l.results ==> EntryOk(l, key, l.results[key])) ==> Touches(l, r.1, key)
    ensures r.1.emitted == l.emitted
    ensures key !in l.results ==> r.1 == Launched(l, key)
    ensures key in l.results && l.results[key].InCancellationGracePeriod? ==>
      var ns, j := l.results[key].notCancelledState, l.results[key].cancellingJob;
      && |r.1.cancellers| == |l.cancellers| && r.1.cancellers[j] == CancelJob(l.cancellers[j])
      && (forall i :: 0 <= i < |l.cancellers| && i != j ==> r.1.cancellers[i] == l.cancellers[i])
      && if ns.Loading? && l.tasks[ns.task].status == Cancelled
         then && r.1.results[key] == Live(Loading(|l.tasks|, |l.cells|))
              && r.1.tasks == l.tasks + [Task(key, |l.cells|, Running)] && r.1.cells == l.cells + [{}]
         else r.1.results[key] == Live(ns) && r.1.tasks == l.tasks && r.1.cells == l.cells
  {
    if key !in l.results then (Pass, Launched(l, key))
    else
      match l.results[key]
      case Live(_) => (Fail(AlreadyRunning), l)
      case InCancellationGracePeriod(ns, j) =>
        var stopped := l.(cancellers := l.cancellers[j := CancelJob(l.cancellers[j])]);
        var needToRestartKey := ns.Loading? && l.tasks[ns.task].status == Cancelled;
        if needToRestartKey then (Pass, Launched(stopped, key))
        else (Pass, stopped.(results := stopped.results[key := Live(ns)]))
  }

  /**
   * `removingKey`: without a grace period the entry goes, its loading task is cancelled, and a
   * finished key's removal is sent downstream; with one, the entry enters its grace period with
   * a new canceller aimed at its loading task. A key in its grace period or without an entry is
   * an error.
   */
  function RemovingKey<T, K(==,!new), R>(l: Ledger<T, K, R>, key: K, gracePeriod: nat): (r: (Outcome, Ledger<T, K, R>))
    requires key in l.results ==> EntryIndexed(l, l.results[key])
    ensures r.0 == Fail(RemovingMissingKey) <==> key !in l.results
    ensures r.0 == Fail(GraceRemovesItself) <==> key in l.results && l.results[key].InCancellationGracePeriod?
    ensures r.0.Fail? ==> r.1 == l
    ensures r.0.Pass? <==> key in l.results && l.results[key].Live?
    ensures (key in l.results ==> EntryOk(l, key, l.results[key])) ==> Touches(l, r.1, key)
    ensures r.0.Pass? && gracePeriod == 0 ==>
      && key !in r.1.results && r.1.cancellers == l.cancellers
      && r.1.emitted == (if l.results[key].state.Done? then l.emitted + [r.1.results] else l.emitted)
    ensures r.0.Pass? && gracePeriod > 0 ==>
      && key in r.1.results
      && r.1.results[key] == InCancellationGracePeriod(l.results[key].state, |l.cancellers|)
      && r.1.cancellers == l.cancellers + [Canceller(key, TargetOf(l.results[key].state), Delaying)]
      && r.1.tasks == l.tasks && r.1.emitted == l.emitted
  {
    if key !in l.results then (Fail(RemovingMissingKey), l)
    else
      match l.results[key]
      case InCancellationGracePeriod(_, _) => (Fail(GraceRemovesItself), l)
      case Live(ns) =>
        if gracePeriod == 0 then
          var stateAfterRemovingKey := l.results - {key};
          match ns
          case Loading(t, _) => (Pass, l.(results := stateAfterRemovingKey, tasks := CancelTask(l.tasks, t)))
          case Done(_, _) => (Pass, l.(results := stateAfterRemovingKey, emitted := l.emitted + [stateAfterRemovingKey]))
        else
          var job := |l.cancellers|;
          (Pass, l.(results := l.results[key := InCancellationGracePeriod(ns, job)],
                    cancellers := l.cancellers + [Canceller(key, TargetOf(ns), Delaying)]))
  }

  /**
   * The end of the task `t` of `launchTaskFor`: a loading entry becomes `Done` with the task's
   * own cell and the map is sent; an entry in its grace period records `Done` and keeps its
   * canceller, and nothing is sent; a `Done` or missing entry is an error.
   */
  function TaskFinished<T, K(==,!new), R>(l: Ledger<T, K, R>, t: TaskId, result: R): (r: (Outcome, Ledger<T, K, R>))
    requires t < |l.tasks|
    ensures var key := l.tasks[t].key;
      r.0.Fail? <==> key !in l.results || (l.results[key].Live? && l.results[key].state.Done?)
    ensures r.0.Fail? ==> r.0 == Fail(NotLoadingOrCancelling) && r.1 == l
    ensures r.0.Pass? ==>
      var key := l.tasks[t].key;
      && key in r.1.results && r.1.results[key].Underlying() == Done(result, l.tasks[t].values)
      && r.1.results[key].Live? == l.results[key].Live?
      && (r.1.results[key].InCancellationGracePeriod? ==> r.1.results[key].cancellingJob == l.results[key].cancellingJob)
      && r.1.tasks == l.tasks[t := l.tasks[t].(status := Completed)]
      && r.1.emitted == (if r.1.results[key].Live? then l.emitted + [r.1.results] else l.emitted)
    ensures Touches(l, r.1, l.tasks[t].key) && r.1.cancellers == l.cancellers && r.1.cells == l.cells
  {
    var key, values := l.tasks[t].key, l.tasks[t].values;
    var finished := l.tasks[t := l.tasks[t].(status := Completed)];
    if key !in l.results then (Fail(NotLoadingOrCancelling), l)
    else
      match l.results[key]
      case InCancellationGracePeriod(_, j) =>
        (Pass, l.(results := l.results[key := InCancellationGracePeriod(Done(result, values), j)], tasks := finished))
      case Live(Loading(_, _)) =>
        var updatedState := l.results[key := Live(Done(result, values))];
        (Pass, l.(results := updatedState, tasks := finished, emitted := l.emitted + [updatedState]))
      case Live(Done(_, _)) => (Fail(NotLoadingOrCancelling), l)
  }

  /**
   * A grace canceller whose delay has run out cancels its task, if it has one, while holding
   * the map's lock.
   */
  function GraceElapsed<T, K(==,!new), R>(l: Ledger<T, K, R>, j: JobId): (r: Ledger<T, K, R>)
    requires j < |l.cancellers| && l.cancellers[j].phase.Delaying?
    requires l.cancellers[j].target.Some? ==> l.cancellers[j].target.value < |l.tasks|
    ensures r.results == l.results && r.cells == l.cells && r.emitted == l.emitted
    ensures r.cancellers == l.cancellers[j := l.cancellers[j].(phase := TaskCancelled)]
    ensures r.tasks == (if l.cancellers[j].target.Some? then CancelTask(l.tasks, l.cancellers[j].target.value) else l.tasks)
  {
    var c := l.cancellers[j];
    l.(tasks := if c.target.Some? then CancelTask(l.tasks, c.target.value) else l.tasks,
       cancellers := l.cancellers[j := c.(phase := TaskCancelled)])
  }

  /** The grace canceller, its task joined, removes its key and sends the map. */
  function GraceRemoval<T, K(==,!new), R>(l: Ledger<T, K, R>, j: JobId): (r: Ledger<T, K, R>)
    requires j < |l.cancellers| && l.cancellers[j].phase.TaskCancelled?
    ensures l.cancellers[j].key !in r.results && r.results == l.results - {l.cancellers[j].key}
    ensures r.emitted == l.emitted + [r.results]
    ensures r.cancellers == l.cancellers[j := l.cancellers[j].(phase := Retired)]
    ensures r.tasks == l.tasks && r.cells == l.cells
  {
    var key := l.cancellers[j].key;
    var removed := l.results - {key};
    l.(results := removed, cancellers := l.cancellers[j := l.cancellers[j].(phase := Retired)], emitted := l.emitted + [removed])
  }

  /**
   * An unfinished grace canceller when the grace scope is cancelled because the upstream flow
   * ended: it cancels its task and finishes without removing its key.
   */
  function Drain<T, K(==,!new), R>(l: Ledger<T, K, R>, j: JobId): (r: Ledger<T, K, R>)
    requires j < |l.cancellers|
    requires l.cancellers[j].target.Some? ==> l.cancellers[j].target.value < |l.tasks|
    ensures r.results == l.results && r.cells == l.cells && r.emitted == l.emitted
    ensures |r.cancellers| == |l.cancellers| && !r.cancellers[j].phase.Active()
    ensures r.cancellers[j] == (if l.cancellers[j].phase.Active() then l.cancellers[j].(phase := Drained) else l.cancellers[j])
    ensures forall i :: 0 <= i < |l.cancellers| && i != j ==> r.cancellers[i] == l.cancellers[i]
    ensures |r.tasks| == |l.tasks|
    ensures forall t :: 0 <= t < |l.tasks| && r.tasks[t].status == Running ==> r.tasks[t] == l.tasks[t]
    ensures l.cancellers[j].phase.Active() && l.cancellers[j].target.Some? ==> r.tasks[l.cancellers[j].target.value].status != Running
  {
    var c := l.cancellers[j];
    if !c.phase.Active() then l
    else
      l.(tasks := if c.target.Some? then CancelTask(l.tasks, c.target.value) else l.tasks,
         cancellers := l.cancellers[j := c.(phase := Drained)])
  }

  /** Under the invariant every entry satisfies what the steps index with. */
  lemma ConsistentEntriesIndexed<T, K(!new), R>(l: Ledger<T, K, R>, live: set<K>, gracePeriod: nat, key: K)
    requires Consistent(l, live, gracePeriod) && key in l.results
    ensures EntryIndexed(l, l.results[key]) && EntryOk(l, key, l.results[key])
  {
  }

  /**
   * The invariant for every key but `key`, where nothing running or pending belongs to `key`:
   * the state in between taking `key`'s entry apart and putting a new one in.
   */
  ghost predicate ConsistentApartFrom<T, K(!new), R>(l: Ledger<T, K, R>, live: set<K>, gracePeriod: nat, key: K) {
    && (forall k :: k in l.results && k != key ==> EntryOk(l, k, l.results[k]))
    && (forall t :: 0 <= t < |l.tasks| && l.tasks[t].status == Running ==>
          l.tasks[t].key != key && l.tasks[t].key in l.results && l.results[l.tasks[t].key].Underlying() == Loading(t, l.tasks[t].values))
    && (forall j :: 0 <= j < |l.cancellers| && l.cancellers[j].phase.Active() ==>
          && l.cancellers[j].key != key && l.cancellers[j].key in l.results
          && l.results[l.cancellers[j].key].InCancellationGracePeriod?
          && l.results[l.cancellers[j].key].cancellingJob == j)
    && (forall j :: 0 <= j < |l.cancellers| && l.cancellers[j].target.Some? ==> l.cancellers[j].target.value < |l.tasks|)
    && (forall k1, k2 :: k1 in l.results && k2 in l.results && k1 != k2 && k1 != key && k2 != key ==>
          l.results[k1].ValuesForThisKey() != l.results[k2].ValuesForThisKey())
    && (forall k :: k in l.results && k != key ==> (l.results[k].Live? <==> k in live))
    && live - {key} <= l.results.Keys
    && (gracePeriod == 0 ==> forall k :: k in l.results && k != key ==> l.results[k].Live?)
  }

  /** A key with no entry can be given one. */
  lemma AbsentKeyApart<T, K(!new), R>(l: Ledger<T, K, R>, live: set<K>, gracePeriod: nat, key: K)
    requires Consistent(l, live, gracePeriod) && key !in l.results
    ensures ConsistentApartFrom(l, live, gracePeriod, key)
  {
  }

  /** Launching a task for `key` into a state that holds nothing of `key` restores the invariant, with `key` present. */
  lemma {:induction false} LaunchedKeepsConsistent<T, K(!new), R>(m: Ledger<T, K, R>, live: set<K>, gracePeriod: nat, key: K)
    requires ConsistentApartFrom(m, live, gracePeriod, key)
    ensures Consistent(Launched(m, key), live + {key}, gracePeriod)
  {
    var r := Launched(m, key);
    forall k | k in r.results ensures EntryOk(r, k, r.results[k]) {
      if k != key {
        assert r.results[k] == m.results[k];
        assert EntryOk(m, k, m.results[k]);
      }
    }
    forall t | 0 <= t < |r.tasks| && r.tasks[t].status == Running
      ensures r.tasks[t].key in r.results && r.results[r.tasks[t].key].Underlying() == Loading(t, r.tasks[t].values)
    {
      if t < |m.tasks| { assert r.tasks[t] == m.tasks[t]; }
    }
    forall j | 0 <= j < |r.cancellers| && r.cancellers[j].phase.Active()
      ensures r.cancellers[j].key in r.results && r.results[r.cancellers[j].key].InCancellationGracePeriod?
              && r.results[r.cancellers[j].key].cancellingJob == j
    {
    }
    forall k1, k2 | k1 in r.results && k2 in r.results && k1 != k2
      ensures r.results[k1].ValuesForThisKey() != r.results[k2].ValuesForThisKey()
    {
      if k1 != key && k2 != key {
      } else if k1 == key {
        assert EntryOk(m, k2, m.results[k2]);
      } else {
        assert EntryOk(m, k1, m.results[k1]);
      }
    }
  }

  /** The state after `addingNewKey` has cancelled the grace canceller of `key`. */
  function StoppedGrace<T, K(==,!new), R>(l: Ledger<T, K, R>, j: JobId): (r: Ledger<T, K, R>)
    requires j < |l.cancellers|
    ensures r.results == l.results && r.tasks == l.tasks && r.cells == l.cells && r.emitted == l.emitted
    ensures r.cancellers == l.cancellers[j := CancelJob(l.cancellers[j])]
  {
    l.(cancellers := l.cancellers[j := CancelJob(l.cancellers[j])])
  }

  /** Once the grace canceller is cancelled, a key whose task it had cancelled holds nothing running or pending. */
  lemma {:induction false} StoppedGraceApart<T, K(!new), R>(l: Ledger<T, K, R>, live: set<K>, gracePeriod: nat, key: K)
    requires Consistent(l, live, gracePeriod) && key in l.results && l.results[key].InCancellationGracePeriod?
    requires var ns := l.results[key].notCancelledState; ns.Loading? && l.tasks[ns.task].status == Cancelled
    ensures ConsistentApartFrom(StoppedGrace(l, l.results[key].cancellingJob), live, gracePeriod, key)
  {
    var j := l.results[key].cancellingJob;
    var m := StoppedGrace(l, j);
    forall k | k in m.results && k != key ensures EntryOk(m, k, m.results[k]) {
      assert EntryOk(l, k, l.results[k]);
      if l.results[k].InCancellationGracePeriod? {
        assert l.results[k].cancellingJob != j;
      }
    }
    forall t | 0 <= t < |m.tasks| && m.tasks[t].status == Running ensures m.tasks[t].key != key {
    }
    forall i | 0 <= i < |m.cancellers| && m.cancellers[i].phase.Active() ensures m.cancellers[i].key != key {
      assert i != j;
      assert l.cancellers[i].phase.Active();
    }
  }

  /** Giving `key` back the state it had before its grace period keeps the invariant, with `key` present. */
  lemma {:induction false} RestoredKeepsConsistent<T, K(!new), R>(l: Ledger<T, K, R>, live: set<K>, gracePeriod: nat, key: K)
    requires Consistent(l, live, gracePeriod) && key in l.results && l.results[key].InCancellationGracePeriod?
    requires var ns := l.results[key].notCancelledState; !(ns.Loading? && l.tasks[ns.task].status == Cancelled)
    ensures var m := StoppedGrace(l, l.results[key].cancellingJob);
            Consistent(m.(results := m.results[key := Live(l.results[key].notCancelledState)]), live + {key}, gracePeriod)
  {
    var ns, j := l.results[key].notCancelledState, l.results[key].cancellingJob;
    var m := StoppedGrace(l, j);
    var r := m.(results := m.results[key := Live(ns)]);
    assert GraceJobOk(l, key, ns, j);
    forall k | k in r.results ensures EntryOk(r, k, r.results[k]) {
      if k != key {
        assert EntryOk(l, k, l.results[k]);
        if l.results[k].InCancellationGracePeriod? {
          assert l.results[k].cancellingJob != j;
        }
      }
    }
    forall i | 0 <= i < |r.cancellers| && r.cancellers[i].phase.Active()
      ensures r.cancellers[i].key in r.results && r.results[r.cancellers[i].key].InCancellationGracePeriod?
              && r.results[r.cancellers[i].key].cancellingJob == i
    {
      assert i != j;
      assert l.cancellers[i].phase.Active();
    }
  }

  /** Adding a key that is not present keeps the invariant, and the key is then present. */
  lemma AddingNewKeyKeepsConsistent<T, K(!new), R>(l: Ledger<T, K, R>, live: set<K>, gracePeriod: nat, key: K)
    requires Consistent(l, live, gracePeriod) && key !in live
    ensures key in l.results ==> EntryIndexed(l, l.results[key])
    ensures AddingNewKey(l, key).0 == Pass
    ensures Consistent(AddingNewKey(l, key).1, live + {key}, gracePeriod)
  {
    if key !in l.results {
      AbsentKeyApart(l, live, gracePeriod, key);
      LaunchedKeepsConsistent(l, live, gracePeriod, key);
    } else {
      var ns, j := l.results[key].notCancelledState, l.results[key].cancellingJob;
      if ns.Loading? && l.tasks[ns.task].status == Cancelled {
        StoppedGraceApart(l, live, gracePeriod, key);
        LaunchedKeepsConsistent(StoppedGrace(l, j), live, gracePeriod, key);
      } else {
        RestoredKeepsConsistent(l, live, gracePeriod, key);
      }
    }
  }

  /** Dropping the entry of a key that has nothing running or unfinished left keeps the invariant, without the key. */
  lemma {:induction false} DroppedKeepsConsistent<T, K(!new), R>(l: Ledger<T, K, R>, live: set<K>, gracePeriod: nat, key: K, r: Ledger<T, K, R>)
    requires Consistent(l, live, gracePeriod) && key in l.results
    requires r.results == l.results - {key} && r.cells == l.cells
    requires |r.cancellers| == |l.cancellers|
    requires forall i :: 0 <= i < |l.cancellers| ==> r.cancellers[i].key == l.cancellers[i].key && r.cancellers[i].target == l.cancellers[i].target
    requires forall i :: 0 <= i < |l.cancellers| && r.cancellers[i] != l.cancellers[i] ==> l.cancellers[i].key == key
    requires forall i :: 0 <= i < |l.cancellers| && r.cancellers[i].key == key ==> !r.cancellers[i].phase.Active()
    requires |r.tasks| == |l.tasks|
    requires forall t :: 0 <= t < |l.tasks| ==> r.tasks[t].key == l.tasks[t].key && r.tasks[t].values == l.tasks[t].values
    requires forall t :: 0 <= t < |l.tasks| && r.tasks[t].status != l.tasks[t].status ==> l.tasks[t].key == key
    requires forall t :: 0 <= t < |l.tasks| && r.tasks[t].key == key ==> r.tasks[t].status != Running
    ensures Consistent(r, live - {key}, gracePeriod)
  {
    forall k | k in r.results ensures EntryOk(r, k, r.results[k]) {
      assert EntryOk(l, k, l.results[k]);
      var ns := l.results[k].Underlying();
      if ns.Loading? { assert r.tasks[ns.task] == l.tasks[ns.task]; }
      if l.results[k].InCancellationGracePeriod? {
        var c := l.cancellers[l.results[k].cancellingJob];
        if c.target.Some? { assert r.tasks[c.target.value] == l.tasks[c.target.value]; }
      }
    }
    forall t | 0 <= t < |r.tasks| && r.tasks[t].status == Running
      ensures r.tasks[t].key in r.results && r.results[r.tasks[t].key].Underlying() == Loading(t, r.tasks[t].values)
    {
      assert r.tasks[t] == l.tasks[t];
    }
    forall j | 0 <= j < |r.cancellers| && r.cancellers[j].phase.Active()
      ensures r.cancellers[j].key in r.results && r.results[r.cancellers[j].key].InCancellationGracePeriod?
              && r.results[r.cancellers[j].key].cancellingJob == j
    {
      assert r.cancellers[j] == l.cancellers[j];
    }
  }

  /** A key in its grace period keeps the invariant when its state before removal is kept and a new canceller is named. */
  lemma {:induction false} EnteredGraceKeepsConsistent<T, K(!new), R>(l: Ledger<T, K, R>, live: set<K>, gracePeriod: nat, key: K)
    requires Consistent(l, live, gracePeriod) && key in l.results && l.results[key].Live? && gracePeriod > 0
    ensures var ns := l.results[key].state;
            Consistent(l.(results := l.results[key := InCancellationGracePeriod(ns, |l.cancellers|)],
                          cancellers := l.cancellers + [Canceller(key, TargetOf(ns), Delaying)]), live - {key}, gracePeriod)
  {
    var ns := l.results[key].state;
    var r := l.(results := l.results[key := InCancellationGracePeriod(ns, |l.cancellers|)],
                cancellers := l.cancellers + [Canceller(key, TargetOf(ns), Delaying)]);
    assert EntryOk(l, key, l.results[key]);
    forall k | k in r.results ensures EntryOk(r, k, r.results[k]) {
      if k != key {
        assert EntryOk(l, k, l.results[k]);
        if l.results[k].InCancellationGracePeriod? {
          assert r.cancellers[l.results[k].cancellingJob] == l.cancellers[l.results[k].cancellingJob];
        }
      }
    }
    forall j | 0 <= j < |r.cancellers| && r.cancellers[j].phase.Active()
      ensures r.cancellers[j].key in r.results && r.results[r.cancellers[j].key].InCancellationGracePeriod?
              && r.results[r.cancellers[j].key].cancellingJob == j
    {
      if j < |l.cancellers| {
        assert r.cancellers[j] == l.cancellers[j];
        assert l.cancellers[j].key != key;
      }
    }
    forall j | 0 <= j < |r.cancellers| && r.cancellers[j].target.Some? ensures r.cancellers[j].target.value < |r.tasks| {
      if j < |l.cancellers| { assert r.cancellers[j] == l.cancellers[j]; }
    }
  }

  /** Removing a present key keeps the invariant, and the key is then no longer present. */
  lemma RemovingKeyKeepsConsistent<T, K(!new), R>(l: Ledger<T, K, R>, live: set<K>, gracePeriod: nat, key: K)
    requires Consistent(l, live, gracePeriod) && key in live
    ensures key in l.results && EntryIndexed(l, l.results[key])
    ensures RemovingKey(l, key, gracePeriod).0 == Pass
    ensures Consistent(RemovingKey(l, key, gracePeriod).1, live - {key}, gracePeriod)
  {
    var ns := l.results[key].state;
    assert EntryOk(l, key, l.results[key]);
    var r := RemovingKey(l, key, gracePeriod).1;
    if gracePeriod > 0 {
      EnteredGraceKeepsConsistent(l, live, gracePeriod, key);
    } else {
      forall t | 0 <= t < |l.tasks| && r.tasks[t].key == key ensures r.tasks[t].status != Running {
        if l.tasks[t].status == Running {
          assert l.results[key].Underlying() == Loading(t, l.tasks[t].values);
        }
      }
      DroppedKeepsConsistent(l, live, gracePeriod, key, r);
    }
  }

  /** A running task that finishes keeps the invariant. */
  lemma {:induction false} TaskFinishedKeepsConsistent<T, K(!new), R>(l: Ledger<T, K, R>, live: set<K>, gracePeriod: nat, t: TaskId, result: R)
    requires Consistent(l, live, gracePeriod) && t < |l.tasks| && l.tasks[t].status == Running
    ensures TaskFinished(l, t, result).0 == Pass
    ensures Consistent(TaskFinished(l, t, result).1, live, gracePeriod)
  {
    var key := l.tasks[t].key;
    var r := TaskFinished(l, t, result).1;
    assert l.results[key].Underlying() == Loading(t, l.tasks[t].values);
    assert EntryOk(l, key, l.results[key]);
    forall k | k in r.results ensures EntryOk(r, k, r.results[k]) {
      if k != key {
        assert EntryOk(l, k, l.results[k]);
        var ns := l.results[k].Underlying();
        if ns.Loading? { assert r.tasks[ns.task] == l.tasks[ns.task]; }
        if l.results[k].InCancellationGracePeriod? {
          var c := l.cancellers[l.results[k].cancellingJob];
          if c.target.Some? { assert r.tasks[c.target.value] == l.tasks[c.target.value]; }
        }
      }
    }
    forall i | 0 <= i < |r.tasks| && r.tasks[i].status == Running
      ensures r.tasks[i].key in r.results && r.results[r.tasks[i].key].Underlying() == Loading(i, r.tasks[i].values)
    {
      assert r.tasks[i] == l.tasks[i];
    }
  }

  /** A grace canceller whose delay runs out keeps the invariant. */
  lemma {:induction false} GraceElapsedKeepsConsistent<T, K(!new), R>(l: Ledger<T, K, R>, live: set<K>, gracePeriod: nat, j: JobId)
    requires Consistent(l, live, gracePeriod) && j < |l.cancellers| && l.cancellers[j].phase.Delaying?
    ensures l.cancellers[j].target.Some? ==> l.cancellers[j].target.value < |l.tasks|
    ensures Consistent(GraceElapsed(l, j), live, gracePeriod)
  {
    var key := l.cancellers[j].key;
    var r := GraceElapsed(l, j);
    assert l.cancellers[j].phase.Active();
    assert EntryOk(l, key, l.results[key]);
    forall k | k in r.results ensures EntryOk(r, k, r.results[k]) {
      assert EntryOk(l, k, l.results[k]);
      if k != key {
        var ns := l.results[k].Underlying();
        if ns.Loading? { assert r.tasks[ns.task] == l.tasks[ns.task]; }
        if l.results[k].InCancellationGracePeriod? {
          var c := l.cancellers[l.results[k].cancellingJob];
          assert r.cancellers[l.results[k].cancellingJob] == c;
          if c.target.Some? { assert r.tasks[c.target.value] == l.tasks[c.target.value]; }
        }
      }
    }
    forall i | 0 <= i < |r.tasks| && r.tasks[i].status == Running
      ensures r.tasks[i].key in r.results && r.results[r.tasks[i].key].Underlying() == Loading(i, r.tasks[i].values)
    {
      assert r.tasks[i] == l.tasks[i];
    }
    forall i | 0 <= i < |r.cancellers| && r.cancellers[i].phase.Active()
      ensures r.cancellers[i].key in r.results && r.results[r.cancellers[i].key].InCancellationGracePeriod?
              && r.results[r.cancellers[i].key].cancellingJob == i
    {
      if i != j { assert r.cancellers[i] == l.cancellers[i]; }
    }
  }

  /** A grace canceller that removes its key keeps the invariant; the key was not present. */
  lemma GraceRemovalKeepsConsistent<T, K(!new), R>(l: Ledger<T, K, R>, live: set<K>, gracePeriod: nat, j: JobId)
    requires Consistent(l, live, gracePeriod) && j < |l.cancellers| && l.cancellers[j].phase.TaskCancelled?
    ensures l.cancellers[j].key !in live
    ensures Consistent(GraceRemoval(l, j), live, gracePeriod)
  {
    var key := l.cancellers[j].key;
    var r := GraceRemoval(l, j);
    assert l.cancellers[j].phase.Active();
    assert l.results[key].InCancellationGracePeriod?;
    assert l.results[key].cancellingJob == j;
    forall t | 0 <= t < |l.tasks| && r.tasks[t].key == key ensures r.tasks[t].status != Running {
      assert EntryOk(l, key, l.results[key]);
    }
    DroppedKeepsConsistent(l, live, gracePeriod, key, r);
    assert live - {key} == live;
  }

  /** Draining a canceller at the end of the flow keeps the invariant. */
  lemma {:induction false} DrainKeepsConsistent<T, K(!new), R>(l: Ledger<T, K, R>, live: set<K>, gracePeriod: nat, j: JobId)
    requires Consistent(l, live, gracePeriod) && j < |l.cancellers|
    ensures l.cancellers[j].target.Some? ==> l.cancellers[j].target.value < |l.tasks|
    ensures Consistent(Drain(l, j), live, gracePeriod)
  {
    if l.cancellers[j].phase.Active() {
      var key := l.cancellers[j].key;
      var r := Drain(l, j);
      assert EntryOk(l, key, l.results[key]);
      forall k | k in r.results ensures EntryOk(r, k, r.results[k]) {
        assert EntryOk(l, k, l.results[k]);
        if k != key {
          var ns := l.results[k].Underlying();
          if ns.Loading? { assert r.tasks[ns.task] == l.tasks[ns.task]; }
          if l.results[k].InCancellationGracePeriod? {
            var c := l.cancellers[l.results[k].cancellingJob];
            assert r.cancellers[l.results[k].cancellingJob] == c;
            if c.target.Some? { assert r.tasks[c.target.value] == l.tasks[c.target.value]; }
          }
        }
      }
      forall i | 0 <= i < |r.tasks| && r.tasks[i].status == Running
        ensures r.tasks[i].key in r.results && r.results[r.tasks[i].key].Underlying() == Loading(i, r.tasks[i].values)
      {
        assert r.tasks[i] == l.tasks[i];
      }
      forall i | 0 <= i < |r.cancellers| && r.cancellers[i].phase.Active()
        ensures r.cancellers[i].key in r.results && r.results[r.cancellers[i].key].InCancellationGracePeriod?
                && r.results[r.cancellers[i].key].cancellingJob == i
      {
        assert r.cancellers[i] == l.cancellers[i];
      }
    }
  }

  /** `it[key]?.valuesForThisKey?.value = values`: the cell of a present key is overwritten; nothing else changes. */
  function WriteCell<T, K(==,!new), R>(l: Ledger<T, K, R>, key: K, values: set<T>): (r: Ledger<T, K, R>)
    requires key in l.results ==> l.results[key].ValuesForThisKey() < |l.cells|
    ensures r.results == l.results && r.tasks == l.tasks && r.cancellers == l.cancellers && r.emitted == l.emitted
    ensures |r.cells| == |l.cells|
    ensures key in l.results ==> r.cells[l.results[key].ValuesForThisKey()] == values
    ensures forall c :: 0 <= c < |l.cells| && (key !in l.results || c != l.results[key].ValuesForThisKey()) ==> r.cells[c] == l.cells[c]
  {
    if key in l.results then l.(cells := l.cells[l.results[key].ValuesForThisKey() := values]) else l
  }

  /** Writing a cell keeps the invariant. */
  lemma WrittenCellKeepsConsistent<T, K(!new), R>(l: Ledger<T, K, R>, live: set<K>, gracePeriod: nat, key: K, values: set<T>)
    requires Consistent(l, live, gracePeriod)
    ensures key in l.results ==> l.results[key].ValuesForThisKey() < |l.cells|
    ensures Consistent(WriteCell(l, key, values), live, gracePeriod)
  {
    if key in l.results {
      assert EntryOk(l, key, l.results[key]);
      var r := WriteCell(l, key, values);
      forall k | k in r.results ensures EntryOk(r, k, r.results[k]) {
        assert EntryOk(l, k, l.results[k]);
      }
    }
  }

  /** Under the invariant a key has at most one running task. */
  lemma OneRunningTaskPerKey<T, K(!new), R>(l: Ledger<T, K, R>, live: set<K>, gracePeriod: nat, t1: TaskId, t2: TaskId)
    requires Consistent(l, live, gracePeriod)
    requires t1 < |l.tasks| && t2 < |l.tasks| && l.tasks[t1].key == l.tasks[t2].key
    requires l.tasks[t1].status == Running && l.tasks[t2].status == Running
    ensures t1 == t2
  {
    assert l.results[l.tasks[t1].key].Underlying() == Loading(t1, l.tasks[t1].values);
  }

  /** Under the invariant a key has at most one unfinished grace canceller. */
  lemma OneActiveCancellerPerKey<T, K(!new), R>(l: Ledger<T, K, R>, live: set<K>, gracePeriod: nat, j1: JobId, j2: JobId)
    requires Consistent(l, live, gracePeriod)
    requires j1 < |l.cancellers| && j2 < |l.cancellers| && l.cancellers[j1].key == l.cancellers[j2].key
    requires l.cancellers[j1].phase.Active() && l.cancellers[j2].phase.Active()
    ensures j1 == j2
  {
    assert l.results[l.cancellers[j1].key].cancellingJob == j1;
  }

  /**
   * A key that comes back while its grace canceller is still waiting keeps its task and its
   * cell, and no task is launched: the canceller never got to cancel it.
   */
  lemma RevivalKeepsTask<T, K(!new), R>(l: Ledger<T, K, R>, live: set<K>, gracePeriod: nat, key: K)
    requires Consistent(l, live, gracePeriod) && key in l.results && l.results[key].InCancellationGracePeriod?
    requires l.cancellers[l.results[key].cancellingJob].phase.Delaying?
    ensures AddingNewKey(l, key).1.results[key] == Live(l.results[key].notCancelledState)
    ensures AddingNewKey(l, key).1.tasks == l.tasks && AddingNewKey(l, key).1.cells == l.cells
    ensures !AddingNewKey(l, key).1.cancellers[l.results[key].cancellingJob].phase.Active()
  {
    assert EntryOk(l, key, l.results[key]);
  }

  /** Once the grace canceller has cancelled the task, a key that comes back gets a new task and a new, empty cell. */
  lemma RevivalAfterCancelRestarts<T, K(!new), R>(l: Ledger<T, K, R>, live: set<K>, gracePeriod: nat, key: K)
    requires Consistent(l, live, gracePeriod) && key in l.results && l.results[key].InCancellationGracePeriod?
    requires l.results[key].notCancelledState.Loading?
    requires l.cancellers[l.results[key].cancellingJob].phase.TaskCancelled?
    ensures AddingNewKey(l, key).1.results[key] == Live(Loading(|l.tasks|, |l.cells|))
    ensures AddingNewKey(l, key).1.tasks == l.tasks + [Task(key, |l.cells|, Running)]
    ensures AddingNewKey(l, key).1.cells == l.cells + [{}]
  {
    assert EntryOk(l, key, l.results[key]);
  }

  /** Under the invariant the keys of the last snapshot have an entry outside a grace period, and every other entry is in its grace period. */
  lemma PresentKeysMatchSnapshot<T, K(!new), R>(l: Ledger<T, K, R>, live: set<K>, gracePeriod: nat)
    requires Consistent(l, live, gracePeriod)
    ensures forall k :: k in live ==> k in l.results && l.results[k].Live?
    ensures forall k :: k in l.results && k !in live ==> l.results[k].InCancellationGracePeriod?
  {
  }

  /**
   * Only its own grace canceller takes out an entry in its grace period: adding or removing any
   * key, a task finishing, another canceller's steps and the end of the flow all leave it present,
   * and the only canceller of that key that can still remove it is the one the entry names.
   */
  lemma OnlyGraceRemovalRemovesGraceEntries<T, K(!new), R>(l: Ledger<T, K, R>, live: set<K>, gracePeriod: nat, k: K,
                                                           key: K, t: TaskId, result: R, j: JobId)
    requires Consistent(l, live, gracePeriod) && k in l.results && l.results[k].InCancellationGracePeriod?
    requires key in l.results ==> EntryIndexed(l, l.results[key])
    ensures k in AddingNewKey(l, key).1.results && k in RemovingKey(l, key, gracePeriod).1.results
    ensures t < |l.tasks| ==> k in TaskFinished(l, t, result).1.results
    ensures j < |l.cancellers| && l.cancellers[j].phase.Delaying? ==> k in GraceElapsed(l, j).results
    ensures j < |l.cancellers| ==> k in Drain(l, j).results
    ensures j < |l.cancellers| && l.cancellers[j].phase.TaskCancelled? ==> (k in GraceRemoval(l, j).results <==> l.cancellers[j].key != k)
    ensures j < |l.cancellers| && l.cancellers[j].phase.TaskCancelled? && l.cancellers[j].key == k ==> l.results[k].cancellingJob == j
  {
  }
}
