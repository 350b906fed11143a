/**
 * Short runs of the supervisor that show the behaviour the grace period exists for: a key that
 * leaves and comes back within the grace period keeps its task, while one that comes back
 * after its task was cancelled, or that leaves with no grace period at all, loses it.
 */
module KeyedTaskScenarios {
  import opened KeyedTaskState
  import opened KeyedTaskSupervisor

  /** A snapshot of one item has one key, whose group is that item. */
  lemma SingleItemSnapshot<T, K>(x: T, keySelector: T -> K)
    ensures KeysOf([x], keySelector) == {keySelector(x)}
    ensures Group([x], keySelector, keySelector(x)) == {x}
  {
    assert x in [x];
  }

  /**
   * With a grace period, an item that disappears for one snapshot and then comes back finds
   * its key loading the same task, reading the same cell, now holding the item again, and
   * nothing has been sent downstream.
   */
  method ReturnWithinGracePeriod<T(==), K(==,!new), R>(gracePeriod: nat, keySelector: T -> K, x: T)
    returns (sv: Supervisor<T, K, R>, t: TaskId, c: CellId)
    requires gracePeriod > 0
    ensures sv.Valid() && sv.previousSet == {keySelector(x)}
    ensures sv.results.Keys == {keySelector(x)} && sv.results[keySelector(x)] == Live(Loading(t, c))
    ensures t < |sv.tasks| && sv.tasks[t] == Task(keySelector(x), c, Running)
    ensures c < |sv.cells| && sv.cells[c] == {x}
    ensures sv.emitted == []
  {
    var k := keySelector(x);
    SingleItemSnapshot(x, keySelector);
    sv := new Supervisor(gracePeriod, keySelector);
    ghost var start := sv.State();
    ghost var _ := sv.Snapshot([x]);
    assert Settled(start, sv.State(), k, true, false, {x}, gracePeriod);
    t, c := sv.results[k].state.task, sv.results[k].state.values;
    ghost var first := sv.State();
    ghost var _ := sv.Snapshot([]);
    assert Settled(first, sv.State(), k, false, true, {}, gracePeriod);
    ghost var second := sv.State();
    assert EntryOk(second, k, second.results[k]);
    ghost var _ := sv.Snapshot([x]);
    assert Settled(second, sv.State(), k, true, false, {x}, gracePeriod);
    assert forall k' :: k' != k ==> Settled(second, sv.State(), k', false, false, {}, gracePeriod);
  }

  /**
   * With a grace period, an item that disappears until its canceller has cancelled the task
   * comes back to a new task reading a new cell.
   */
  method ReturnAfterTaskCancelled<T(==), K(==,!new), R>(gracePeriod: nat, keySelector: T -> K, x: T)
    returns (sv: Supervisor<T, K, R>, t: TaskId, restarted: TaskId)
    requires gracePeriod > 0
    ensures sv.Valid()
    ensures t < |sv.tasks| && restarted < |sv.tasks| && t != restarted
    ensures keySelector(x) in sv.results && sv.results[keySelector(x)] == Live(Loading(restarted, sv.tasks[restarted].values))
    ensures sv.tasks[restarted] == Task(keySelector(x), sv.tasks[restarted].values, Running)
    ensures sv.tasks[restarted].values < |sv.cells| && sv.cells[sv.tasks[restarted].values] == {x}
  {
    var k := keySelector(x);
    SingleItemSnapshot(x, keySelector);
    sv := new Supervisor(gracePeriod, keySelector);
    ghost var start := sv.State();
    ghost var _ := sv.Snapshot([x]);
    assert Settled(start, sv.State(), k, true, false, {x}, gracePeriod);
    t := sv.results[k].state.task;
    ghost var first := sv.State();
    ghost var _ := sv.Snapshot([]);
    assert Settled(first, sv.State(), k, false, true, {}, gracePeriod);
    var j := sv.results[k].cancellingJob;
    sv.GraceElapses(j);
    ghost var second := sv.State();
    assert EntryOk(second, k, second.results[k]);
    ghost var _ := sv.Snapshot([x]);
    assert Settled(second, sv.State(), k, true, false, {x}, gracePeriod);
    restarted := sv.results[k].state.task;
  }

  /**
   * With a grace period, an item that does not come back has its key removed by its canceller,
   * and the map without the key is sent downstream.
   */
  method GracePeriodRunsOut<T(==), K(==,!new), R>(gracePeriod: nat, keySelector: T -> K, x: T)
    returns (sv: Supervisor<T, K, R>, t: TaskId)
    requires gracePeriod > 0
    ensures sv.Valid() && sv.results == map[] && sv.emitted == [map[]]
    ensures t < |sv.tasks| && sv.tasks[t] == Task(keySelector(x), sv.tasks[t].values, Cancelled)
  {
    var k := keySelector(x);
    SingleItemSnapshot(x, keySelector);
    sv := new Supervisor(gracePeriod, keySelector);
    ghost var start := sv.State();
    ghost var _ := sv.Snapshot([x]);
    assert Settled(start, sv.State(), k, true, false, {x}, gracePeriod);
    assert forall k' :: k' != k ==> Settled(start, sv.State(), k', false, false, {}, gracePeriod);
    assert sv.results.Keys == {k};
    t := sv.results[k].state.task;
    ghost var first := sv.State();
    ghost var _ := sv.Snapshot([]);
    assert Settled(first, sv.State(), k, false, true, {}, gracePeriod);
    assert forall k' :: k' != k ==> Settled(first, sv.State(), k', false, false, {}, gracePeriod);
    assert sv.results.Keys == {k};
    var j := sv.results[k].cancellingJob;
    sv.GraceElapses(j);
    sv.GraceRemovesKey(j);
  }

  /** Without a grace period, an item that disappears has its key removed at once and its task cancelled. */
  method RemovalWithoutGracePeriod<T(==), K(==,!new), R>(keySelector: T -> K, x: T)
    returns (sv: Supervisor<T, K, R>, t: TaskId)
    ensures sv.Valid() && sv.results == map[] && sv.previousSet == {}
    ensures t < |sv.tasks| && sv.tasks[t].key == keySelector(x) && sv.tasks[t].status != Running
  {
    var k := keySelector(x);
    SingleItemSnapshot(x, keySelector);
    sv := new Supervisor(0, keySelector);
    ghost var start := sv.State();
    ghost var _ := sv.Snapshot([x]);
    assert Settled(start, sv.State(), k, true, false, {x}, 0);
    assert forall k' :: k' != k ==> Settled(start, sv.State(), k', false, false, {}, 0);
    assert sv.results.Keys == {k};
    t := sv.results[k].state.task;
    ghost var first := sv.State();
    ghost var _ := sv.Snapshot([]);
    assert Settled(first, sv.State(), k, false, true, {}, 0);
    assert forall k' :: k' != k ==> Settled(first, sv.State(), k', false, false, {}, 0);
  }
}
