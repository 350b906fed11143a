/**
 * `incrementalAsyncMapGroupingByImplementation` in `KotlinFileOnChangeSaver.kt` as an object:
 * the fields are the values its coroutines share (the `results` map behind its lock, the
 * launched tasks and grace cancellers, the value cells, what was sent downstream and
 * `previousSet`), and each method is one step a coroutine takes while holding the lock:
 * taking in a snapshot of the upstream flow, a mapper task finishing, the two halves of a grace
 * canceller, and the end of the upstream flow.
 */
module KeyedTaskSupervisor {
  import opened Wrappers
  import opened KeyedTaskState

  /** The keys of `groupBy(keySelector)`. */
  function KeysOf<T(==), K>(items: seq<T>, keySelector: T -> K): set<K> {
    set x | x in items :: keySelector(x)
  }

  /** The items of one key in `groupBy(keySelector)`, made a set, or the empty set for a key with none. */
  function Group<T(==), K(==)>(items: seq<T>, keySelector: T -> K, key: K): set<T> {
    set x | x in items && keySelector(x) == key
  }

  /** The groups partition the items: each item is in the group of its own key, and a key has items exactly when it is a key of the snapshot. */
  lemma GroupsPartitionItems<T, K>(items: seq<T>, keySelector: T -> K)
    ensures forall x :: x in items ==> keySelector(x) in KeysOf(items, keySelector) && x in Group(items, keySelector, keySelector(x))
    ensures forall k :: Group(items, keySelector, k) != {} <==> k in KeysOf(items, keySelector)
    ensures forall k1, k2, x :: k1 != k2 && x in Group(items, keySelector, k1) ==> x !in Group(items, keySelector, k2)
  {
    forall k | k in KeysOf(items, keySelector) ensures Group(items, keySelector, k) != {} {
      var x :| x in items && keySelector(x) == k;
      assert x in Group(items, keySelector, k);
    }
  }

  /**
   * `key` is dropped at once by this snapshot while it holds a finished result, which is when
   * `removingKey` sends the map without it.
   */
  predicate SendsOnRemoval<T, K(==,!new), R>(l: Ledger<T, K, R>, key: K, current: set<K>, previousSet: set<K>, gracePeriod: nat) {
    && gracePeriod == 0 && key in previousSet && key !in current
    && key in l.results && l.results[key].Live? && l.results[key].state.Done?
  }

  /**
   * The `when (key)` of `collect`: `addingNewKey` for a key that was not in the previous
   * snapshot, `removingKey` for one that is not in this one, and nothing for one in both.
   */
  function StepCore<T, K(==,!new), R>(l: Ledger<T, K, R>, key: K, current: set<K>, previousSet: set<K>, gracePeriod: nat): (r: (Outcome, Ledger<T, K, R>))
    requires key in l.results ==> EntryOk(l, key, l.results[key])
    ensures Touches(l, r.1, key)
    ensures r.0.Pass? && key in r.1.results ==> r.1.results[key].ValuesForThisKey() < |r.1.cells|
    ensures key in previousSet && key in current ==> r == (Pass, l)
    ensures gracePeriod > 0 ==> r.1.emitted == l.emitted
  {
    if key !in previousSet then AddingNewKey(l, key)
    else if key !in current then RemovingKey(l, key, gracePeriod)
    else (Pass, l)
  }

  /**
   * The updater `collect` passes to `results.update` for `key`: the step of `StepCore`, then,
   * if the key still has an entry, its cell receives the key's items of this snapshot (none
   * for a removed key). A failing step throws before the cell is written.
   */
  function SnapshotStep<T, K(==,!new), R>(l: Ledger<T, K, R>, key: K, current: set<K>, previousSet: set<K>, group: set<T>, gracePeriod: nat): (r: (Outcome, Ledger<T, K, R>))
    requires key in l.results ==> EntryOk(l, key, l.results[key])
    ensures r.0 == StepCore(l, key, current, previousSet, gracePeriod).0
    ensures r.0.Fail? ==> r.1 == l
  {
    var step := StepCore(l, key, current, previousSet, gracePeriod);
    if step.0.Fail? then step else (Pass, WriteCell(step.1, key, group))
  }

  /** A step of `collect` sends the map without `key` exactly when it drops `key` while it holds a finished result; that map is the entries as they were, less `key`. */
  lemma SnapshotStepSends<T, K(!new), R>(l: Ledger<T, K, R>, key: K, current: set<K>, previousSet: set<K>, group: set<T>, gracePeriod: nat)
    requires key in l.results ==> EntryOk(l, key, l.results[key])
    ensures var r := SnapshotStep(l, key, current, previousSet, group, gracePeriod).1;
            && r.emitted == (if SendsOnRemoval(l, key, current, previousSet, gracePeriod) then l.emitted + [r.results] else l.emitted)
            && (SendsOnRemoval(l, key, current, previousSet, gracePeriod) ==> r.results == l.results - {key})
  {
  }

  /** `k`'s entry, and every task of `k`, are as they were in `l0`. */
  ghost predicate Pristine<T, K(!new), R>(l0: Ledger<T, K, R>, l: Ledger<T, K, R>, k: K) {
    && (k in l.results <==> k in l0.results)
    && (k in l.results ==> l.results[k] == l0.results[k])
    && |l0.tasks| <= |l.tasks|
    && (forall t :: 0 <= t < |l0.tasks| && l0.tasks[t].key == k ==> l.tasks[t] == l0.tasks[t])
  }

  /**
   * Nothing of `k` changed since `l0`: its entry and its tasks (`Pristine`), its grace
   * cancellers, and the cell its entry reads.
   */
  ghost predicate Untouched<T, K(!new), R>(l0: Ledger<T, K, R>, l: Ledger<T, K, R>, k: K) {
    && Pristine(l0, l, k)
    && |l0.cancellers| <= |l.cancellers|
    && (forall j :: 0 <= j < |l0.cancellers| && l0.cancellers[j].key == k ==> l.cancellers[j] == l0.cancellers[j])
    && |l0.cells| <= |l.cells|
    && (k in l0.results && l0.results[k].ValuesForThisKey() < |l0.cells| ==>
          l.cells[l0.results[k].ValuesForThisKey()] == l0.cells[l0.results[k].ValuesForThisKey()])
  }

  /** `k` is loading a task launched after `l0`, reading a cell made after `l0`. */
  ghost predicate Relaunched<T, K(!new), R>(l0: Ledger<T, K, R>, l: Ledger<T, K, R>, k: K) {
    && k in l.results && l.results[k].Live? && l.results[k].state.Loading?
    && var ns := l.results[k].state;
    && |l0.tasks| <= ns.task < |l.tasks| && |l0.cells| <= ns.values
    && l.tasks[ns.task] == Task(k, ns.values, Running)
  }

  /**
   * `k`, absent from the previous snapshot, is present again: with a new task if it had no
   * entry; back in the state it had before its grace period if its task was not cancelled,
   * with the grace canceller stopped; with a new task if it was.
   */
  ghost predicate Revived<T, K(!new), R>(l0: Ledger<T, K, R>, l: Ledger<T, K, R>, k: K) {
    if k !in l0.results then Relaunched(l0, l, k)
    else
      && l0.results[k].InCancellationGracePeriod?
      && var ns, j := l0.results[k].notCancelledState, l0.results[k].cancellingJob;
      && j < |l.cancellers| && l.cancellers[j].key == k && !l.cancellers[j].phase.Active()
      && if ns.Loading? && ns.task < |l0.tasks| && l0.tasks[ns.task].status == Cancelled
         then Relaunched(l0, l, k)
         else k in l.results && l.results[k] == Live(ns)
  }

  /**
   * `k`, present in the previous snapshot but not in this one: without a grace period its entry
   * is gone and its task cancelled; with one it waits in its grace period, holding the state it
   * had, a new waiting canceller aimed at its task, and an emptied cell.
   */
  ghost predicate Removed<T, K(!new), R>(l0: Ledger<T, K, R>, l: Ledger<T, K, R>, k: K, gracePeriod: nat) {
    && k in l0.results && l0.results[k].Live?
    && var ns := l0.results[k].state;
    && (gracePeriod == 0 ==>
          && k !in l.results
          && (ns.Loading? ==> ns.task < |l.tasks| && l.tasks[ns.task].key == k && l.tasks[ns.task].status != Running))
    && (gracePeriod > 0 ==>
          && k in l.results && l.results[k].InCancellationGracePeriod? && l.results[k].notCancelledState == ns
          && l.results[k].cancellingJob < |l.cancellers|
          && l.cancellers[l.results[k].cancellingJob] == Canceller(k, TargetOf(ns), Delaying)
          && ns.values < |l.cells| && l.cells[ns.values] == {})
  }

  /**
   * What one snapshot does to `k`, between `l0` and `l`: a key of the snapshot is present, not
   * in its grace period, and its cell holds its items; a key of both snapshots keeps its entry;
   * a key only of the new one is `Revived`, one only of the old one `Removed`; any other key is
   * `Untouched`.
   */
  ghost predicate Settled<T, K(!new), R>(l0: Ledger<T, K, R>, l: Ledger<T, K, R>, k: K, inCurrent: bool, inPrevious: bool, group: set<T>, gracePeriod: nat) {
    if inCurrent then
      && k in l.results && l.results[k].Live?
      && l.results[k].ValuesForThisKey() < |l.cells| && l.cells[l.results[k].ValuesForThisKey()] == group
      && (inPrevious ==> k in l0.results && l.results[k] == l0.results[k])
      && (!inPrevious ==> Revived(l0, l, k))
    else if inPrevious then Removed(l0, l, k, gracePeriod)
    else Untouched(l0, l, k)
  }

  /** A step of `collect` for a key that has not been handled yet keeps the invariant, and the key is then present exactly when it is in the snapshot. */
  lemma SnapshotStepKeepsConsistent<T, K(!new), R>(l: Ledger<T, K, R>, live: set<K>, gracePeriod: nat, key: K,
                                                   current: set<K>, previousSet: set<K>, group: set<T>)
    requires Consistent(l, live, gracePeriod) && key in current + previousSet && (key in live <==> key in previousSet)
    ensures key in l.results ==> EntryOk(l, key, l.results[key])
    ensures StepCore(l, key, current, previousSet, gracePeriod).0 == Pass
    ensures Consistent(StepCore(l, key, current, previousSet, gracePeriod).1, if key in current then live + {key} else live - {key}, gracePeriod)
    ensures Consistent(SnapshotStep(l, key, current, previousSet, group, gracePeriod).1, if key in current then live + {key} else live - {key}, gracePeriod)
  {
    if key in l.results { ConsistentEntriesIndexed(l, live, gracePeriod, key); }
    var live' := if key in current then live + {key} else live - {key};
    if key !in previousSet {
      AddingNewKeyKeepsConsistent(l, live, gracePeriod, key);
    } else if key !in current {
      RemovingKeyKeepsConsistent(l, live, gracePeriod, key);
    } else {
      assert live' == live;
    }
    WrittenCellKeepsConsistent(StepCore(l, key, current, previousSet, gracePeriod).1, live', gracePeriod, key, group);
  }

  /** A step of `collect` for a key that has not been handled yet leaves it `Settled`. */
  lemma {:induction false} SnapshotStepSettles<T, K(!new), R>(l0: Ledger<T, K, R>, l: Ledger<T, K, R>, live: set<K>, gracePeriod: nat, key: K,
                                                              current: set<K>, previousSet: set<K>, group: set<T>)
    requires Consistent(l0, previousSet, gracePeriod) && Consistent(l, live, gracePeriod)
    requires key in current + previousSet && (key in live <==> key in previousSet) && Pristine(l0, l, key)
    requires |l0.cells| <= |l.cells| && (key !in current ==> group == {})
    ensures key in l.results ==> EntryOk(l, key, l.results[key])
    ensures Settled(l0, SnapshotStep(l, key, current, previousSet, group, gracePeriod).1, key, key in current, key in previousSet, group, gracePeriod)
  {
    SnapshotStepKeepsConsistent(l, live, gracePeriod, key, current, previousSet, group);
    var m := StepCore(l, key, current, previousSet, gracePeriod).1;
    var r := SnapshotStep(l, key, current, previousSet, group, gracePeriod).1;
    assert r == WriteCell(m, key, group);
    if key in l0.results { assert EntryOk(l0, key, l0.results[key]); }
    if key !in previousSet {
      if key in l0.results {
        var ns := l0.results[key].notCancelledState;
        if ns.Loading? { assert l.tasks[ns.task] == l0.tasks[ns.task]; }
      }
    } else if key !in current {
      assert EntryOk(l, key, l.results[key]);
    }
  }

  /** A change confined to `key` leaves every other key as `Settled` as it was. */
  lemma {:induction false} TouchesKeepsSettled<T, K(!new), R>(l0: Ledger<T, K, R>, l: Ledger<T, K, R>, m: Ledger<T, K, R>, key: K,
                                                              k: K, inCurrent: bool, inPrevious: bool, group: set<T>, gracePeriod: nat)
    requires Touches(l, m, key) && k != key && Settled(l0, l, k, inCurrent, inPrevious, group, gracePeriod)
    ensures Settled(l0, m, k, inCurrent, inPrevious, group, gracePeriod)
  {
    assert k in m.results <==> k in l.results;
    if k in l.results {
      assert m.results[k] == l.results[k];
      var e := l.results[k];
      if e.ValuesForThisKey() < |l.cells| { assert m.cells[e.ValuesForThisKey()] == l.cells[e.ValuesForThisKey()]; }
      if e.Live? && e.state.Loading? && e.state.task < |l.tasks| {
        assert l.tasks[e.state.task].key == k ==> m.tasks[e.state.task] == l.tasks[e.state.task];
      }
      if e.InCancellationGracePeriod? && e.cancellingJob < |l.cancellers| {
        assert l.cancellers[e.cancellingJob].key == k ==> m.cancellers[e.cancellingJob] == l.cancellers[e.cancellingJob];
      }
    }
    if inCurrent && !inPrevious && k in l0.results && l0.results[k].InCancellationGracePeriod? {
      var j := l0.results[k].cancellingJob;
      if j < |l.cancellers| && l.cancellers[j].key == k { assert m.cancellers[j] == l.cancellers[j]; }
    }
    if !inCurrent && inPrevious && k in l0.results && l0.results[k].Live? && l0.results[k].state.Loading? {
      var t := l0.results[k].state.task;
      if t < |l.tasks| && l.tasks[t].key == k { assert m.tasks[t] == l.tasks[t]; }
    }
  }

  /** Writing the cell of `key` leaves every other key as `Settled` as it was, since no two keys share a cell. */
  lemma {:induction false} WriteKeepsSettled<T, K(!new), R>(l0: Ledger<T, K, R>, m: Ledger<T, K, R>, key: K, values: set<T>,
                                                            k: K, inCurrent: bool, inPrevious: bool, group: set<T>, gracePeriod: nat)
    requires CellsDistinct(m) && (key in m.results ==> m.results[key].ValuesForThisKey() < |m.cells|)
    requires k != key && Settled(l0, m, k, inCurrent, inPrevious, group, gracePeriod)
    ensures Settled(l0, WriteCell(m, key, values), k, inCurrent, inPrevious, group, gracePeriod)
  {
    var r := WriteCell(m, key, values);
    if k in m.results && key in m.results {
      var c := m.results[k].ValuesForThisKey();
      assert c != m.results[key].ValuesForThisKey();
      if c < |m.cells| { assert r.cells[c] == m.cells[c]; }
    }
  }

  /** A change confined to `key` leaves every other key `Pristine` if it was. */
  lemma TouchesKeepsPristine<T, K(!new), R>(l0: Ledger<T, K, R>, l: Ledger<T, K, R>, m: Ledger<T, K, R>, key: K, k: K)
    requires Touches(l, m, key) && k != key && Pristine(l0, l, k)
    ensures Pristine(l0, m, k)
  {
    forall t | 0 <= t < |l0.tasks| && l0.tasks[t].key == k ensures m.tasks[t] == l0.tasks[t] {
      assert l.tasks[t].key == k;
    }
  }

  /** A step of `collect` for `key` leaves every other key as `Settled` or `Pristine` as it was. */
  lemma SnapshotStepFrames<T, K(!new), R>(l0: Ledger<T, K, R>, l: Ledger<T, K, R>, live: set<K>, gracePeriod: nat, key: K,
                                          current: set<K>, previousSet: set<K>, group: set<T>, k: K, groupOfK: set<T>)
    requires Consistent(l, live, gracePeriod) && key in current + previousSet && (key in live <==> key in previousSet) && k != key
    ensures key in l.results ==> EntryOk(l, key, l.results[key])
    ensures Pristine(l0, l, k) ==> Pristine(l0, SnapshotStep(l, key, current, previousSet, group, gracePeriod).1, k)
    ensures Settled(l0, l, k, k in current, k in previousSet, groupOfK, gracePeriod) ==>
            Settled(l0, SnapshotStep(l, key, current, previousSet, group, gracePeriod).1, k, k in current, k in previousSet, groupOfK, gracePeriod)
  {
    SnapshotStepKeepsConsistent(l, live, gracePeriod, key, current, previousSet, group);
    var m := StepCore(l, key, current, previousSet, gracePeriod).1;
    assert SnapshotStep(l, key, current, previousSet, group, gracePeriod).1 == WriteCell(m, key, group);
    if Pristine(l0, l, k) {
      TouchesKeepsPristine(l0, l, m, key, k);
    }
    if Settled(l0, l, k, k in current, k in previousSet, groupOfK, gracePeriod) {
      TouchesKeepsSettled(l0, l, m, key, k, k in current, k in previousSet, groupOfK, gracePeriod);
      WriteKeepsSettled(l0, m, key, group, k, k in current, k in previousSet, groupOfK, gracePeriod);
    }
  }

  /**
   * Part way through a snapshot that started in `l0`: the keys in `todo` are still to be
   * handled and are as they were; all other keys are `Settled`; `live` holds the keys that
   * are present outside a grace period.
   */
  ghost predicate SnapshotProgress<T, K(!new), R>(l0: Ledger<T, K, R>, l: Ledger<T, K, R>, live: set<K>, todo: set<K>,
                                                  items: seq<T>, keySelector: T -> K, previousSet: set<K>, gracePeriod: nat) {
    ProgressShape(l0, l, live, todo, KeysOf(items, keySelector), previousSet, gracePeriod)
    && ProgressKeys(l0, l, todo, items, keySelector, previousSet, gracePeriod)
  }

  /** The part of `SnapshotProgress` about the whole ledger. */
  ghost predicate ProgressShape<T, K(!new), R>(l0: Ledger<T, K, R>, l: Ledger<T, K, R>, live: set<K>, todo: set<K>,
                                               current: set<K>, previousSet: set<K>, gracePeriod: nat) {
    && todo <= current + previousSet
    && live == (current - todo) + (previousSet * todo)
    && Consistent(l, live, gracePeriod) && Consistent(l0, previousSet, gracePeriod)
    && |l0.cells| <= |l.cells| && l0.emitted <= l.emitted && (gracePeriod > 0 ==> l.emitted == l0.emitted)
  }

  /** The part of `SnapshotProgress` about each key. */
  ghost predicate ProgressKeys<T, K(!new), R>(l0: Ledger<T, K, R>, l: Ledger<T, K, R>, todo: set<K>,
                                              items: seq<T>, keySelector: T -> K, previousSet: set<K>, gracePeriod: nat) {
    && (forall k :: k in todo ==> Pristine(l0, l, k))
    && (forall k :: k !in todo ==> Settled(l0, l, k, k in KeysOf(items, keySelector), k in previousSet, Group(items, keySelector, k), gracePeriod))
  }

  /** Before any key is handled. */
  lemma SnapshotProgressStarts<T, K(!new), R>(l0: Ledger<T, K, R>, items: seq<T>, keySelector: T -> K, previousSet: set<K>, gracePeriod: nat)
    requires Consistent(l0, previousSet, gracePeriod)
    ensures SnapshotProgress(l0, l0, previousSet, KeysOf(items, keySelector) + previousSet, items, keySelector, previousSet, gracePeriod)
  {
  }

  /** The items of a key outside the snapshot form the empty group. */
  lemma GroupOutsideSnapshot<T, K>(items: seq<T>, keySelector: T -> K, key: K)
    requires key !in KeysOf(items, keySelector)
    ensures Group(items, keySelector, key) == {}
  {
    assert forall x :: x in Group(items, keySelector, key) ==> keySelector(x) in KeysOf(items, keySelector);
  }

  /** Handling one more key leaves it and every handled key `Settled`, and every key still to be handled `Pristine`. */
  lemma {:induction false} SnapshotStepKeys<T, K(!new), R>(l0: Ledger<T, K, R>, l: Ledger<T, K, R>, live: set<K>, todo: set<K>,
                                                           items: seq<T>, keySelector: T -> K, previousSet: set<K>, gracePeriod: nat, key: K)
    requires SnapshotProgress(l0, l, live, todo, items, keySelector, previousSet, gracePeriod) && key in todo
    ensures key in l.results ==> EntryOk(l, key, l.results[key])
    ensures ProgressKeys(l0, SnapshotStep(l, key, KeysOf(items, keySelector), previousSet, Group(items, keySelector, key), gracePeriod).1,
                         todo - {key}, items, keySelector, previousSet, gracePeriod)
  {
    var current := KeysOf(items, keySelector);
    var group := Group(items, keySelector, key);
    if key !in current { GroupOutsideSnapshot(items, keySelector, key); }
    SnapshotStepSettles(l0, l, live, gracePeriod, key, current, previousSet, group);
    var r := SnapshotStep(l, key, current, previousSet, group, gracePeriod).1;
    forall k | k != key
      ensures Pristine(l0, l, k) ==> Pristine(l0, r, k)
      ensures Settled(l0, l, k, k in current, k in previousSet, Group(items, keySelector, k), gracePeriod) ==>
              Settled(l0, r, k, k in current, k in previousSet, Group(items, keySelector, k), gracePeriod)
    {
      SnapshotStepFrames(l0, l, live, gracePeriod, key, current, previousSet, group, k, Group(items, keySelector, k));
    }
  }

  /** Handling one more key keeps the shape of the progress, and the step does not fail. */
  lemma SnapshotStepShape<T, K(!new), R>(l0: Ledger<T, K, R>, l: Ledger<T, K, R>, live: set<K>, todo: set<K>,
                                         current: set<K>, previousSet: set<K>, gracePeriod: nat, key: K, group: set<T>)
    requires ProgressShape(l0, l, live, todo, current, previousSet, gracePeriod) && key in todo
    ensures key in l.results ==> EntryOk(l, key, l.results[key])
    ensures SnapshotStep(l, key, current, previousSet, group, gracePeriod).0 == Pass
    ensures ProgressShape(l0, SnapshotStep(l, key, current, previousSet, group, gracePeriod).1,
                          if key in current then live + {key} else live - {key}, todo - {key}, current, previousSet, gracePeriod)
  {
    SnapshotStepKeepsConsistent(l, live, gracePeriod, key, current, previousSet, group);
    SnapshotStepSends(l, key, current, previousSet, group, gracePeriod);
    LiveStep(live, todo, current, previousSet, key);
  }

  /** Handling `key` moves it out of `todo` and into or out of `live`, keeping how the two relate. */
  lemma LiveStep<K>(live: set<K>, todo: set<K>, current: set<K>, previousSet: set<K>, key: K)
    requires todo <= current + previousSet && live == (current - todo) + (previousSet * todo) && key in todo
    ensures todo - {key} <= current + previousSet
    ensures (if key in current then live + {key} else live - {key}) == (current - (todo - {key})) + (previousSet * (todo - {key}))
  {
  }

  /** Handling one more key keeps the progress, and the step does not fail. */
  lemma {:induction false} SnapshotProgressStep<T, K(!new), R>(l0: Ledger<T, K, R>, l: Ledger<T, K, R>, live: set<K>, todo: set<K>,
                                                               items: seq<T>, keySelector: T -> K, previousSet: set<K>, gracePeriod: nat, key: K)
    requires SnapshotProgress(l0, l, live, todo, items, keySelector, previousSet, gracePeriod) && key in todo
    ensures key in l.results ==> EntryOk(l, key, l.results[key])
    ensures Pristine(l0, l, key)
    ensures var current := KeysOf(items, keySelector);
            var step := SnapshotStep(l, key, current, previousSet, Group(items, keySelector, key), gracePeriod);
            && step.0 == Pass
            && SnapshotProgress(l0, step.1, if key in current then live + {key} else live - {key}, todo - {key},
                                items, keySelector, previousSet, gracePeriod)
  {
    var current := KeysOf(items, keySelector);
    var group := Group(items, keySelector, key);
    SnapshotStepShape(l0, l, live, todo, current, previousSet, gracePeriod, key, group);
    SnapshotStepKeys(l0, l, live, todo, items, keySelector, previousSet, gracePeriod, key);
  }

  /**
   * The maps sent since the snapshot started in `l0`: one per key of `senders`, in that order,
   * each without its key; the senders are distinct and are the handled keys that `l0` held as
   * finished and that the snapshot drops at once. Each map holds every key the snapshot neither
   * adds nor drops with its entry of `l0`.
   */
  ghost predicate SentSoFar<T, K(!new), R>(l0: Ledger<T, K, R>, l: Ledger<T, K, R>, senders: seq<K>, todo: set<K>,
                                          current: set<K>, previousSet: set<K>, gracePeriod: nat) {
    && l0.emitted <= l.emitted && |l.emitted| == |l0.emitted| + |senders|
    && (forall i :: 0 <= i < |senders| ==> senders[i] !in l.emitted[|l0.emitted| + i])
    && (forall i, j :: 0 <= i < j < |senders| ==> senders[i] != senders[j])
    && (forall k :: k in senders <==> k !in todo && SendsOnRemoval(l0, k, current, previousSet, gracePeriod))
    && (forall j :: |l0.emitted| <= j < |l.emitted| ==> StableKept(l0.results, l.emitted[j], current, previousSet))
  }

  /** Every key in both snapshots or in neither has in `m` the entry it has in `m0`, or none as in `m0`. */
  ghost predicate StableKept<K(!new), V>(m0: map<K, V>, m: map<K, V>, current: set<K>, previousSet: set<K>) {
    forall k :: (k in current <==> k in previousSet) ==> (k in m <==> k in m0) && (k in m0 ==> m[k] == m0[k])
  }

  /** Part way through a snapshot, the keys it does not add or drop still hold their entries of `l0`. */
  lemma ProgressKeepsStable<T, K(!new), R>(l0: Ledger<T, K, R>, l: Ledger<T, K, R>, live: set<K>, todo: set<K>,
                                           items: seq<T>, keySelector: T -> K, previousSet: set<K>, gracePeriod: nat)
    requires SnapshotProgress(l0, l, live, todo, items, keySelector, previousSet, gracePeriod)
    ensures StableKept(l0.results, l.results, KeysOf(items, keySelector), previousSet)
  {
    forall k | k in KeysOf(items, keySelector) <==> k in previousSet
      ensures (k in l.results <==> k in l0.results) && (k in l.results ==> l.results[k] == l0.results[k])
    {
      if k !in todo {
        assert Settled(l0, l, k, k in KeysOf(items, keySelector), k in previousSet, Group(items, keySelector, k), gracePeriod);
      }
    }
  }

  /** Handling a key that was as it is in `l0` adds it to the senders exactly when its step sends. */
  lemma {:induction false} SentSoFarStep<T, K(!new), R>(l0: Ledger<T, K, R>, l: Ledger<T, K, R>, r: Ledger<T, K, R>, senders: seq<K>,
                                                        todo: set<K>, current: set<K>, previousSet: set<K>, gracePeriod: nat, key: K)
    requires SentSoFar(l0, l, senders, todo, current, previousSet, gracePeriod) && key in todo
    requires (key in l.results <==> key in l0.results) && (key in l.results ==> l.results[key] == l0.results[key])
    requires r.emitted == if SendsOnRemoval(l, key, current, previousSet, gracePeriod) then l.emitted + [r.results] else l.emitted
    requires SendsOnRemoval(l, key, current, previousSet, gracePeriod) ==> r.results == l.results - {key}
    requires StableKept(l0.results, l.results, current, previousSet)
    ensures SentSoFar(l0, r, senders + (if SendsOnRemoval(l0, key, current, previousSet, gracePeriod) then [key] else []),
                      todo - {key}, current, previousSet, gracePeriod)
  {
    var sends := SendsOnRemoval(l0, key, current, previousSet, gracePeriod);
    assert sends == SendsOnRemoval(l, key, current, previousSet, gracePeriod);
    var senders' := senders + (if sends then [key] else []);
    assert key !in senders;
    forall i | 0 <= i < |senders'| ensures senders'[i] !in r.emitted[|l0.emitted| + i] {
      if i < |senders| { assert r.emitted[|l0.emitted| + i] == l.emitted[|l0.emitted| + i]; }
    }
  }

  /** One pass of the `forEach` of `collect` keeps both loop invariants. */
  lemma HandleKeyStep<T, K(!new), R>(l0: Ledger<T, K, R>, l: Ledger<T, K, R>, live: set<K>, todo: set<K>, senders: seq<K>,
                                     items: seq<T>, keySelector: T -> K, previousSet: set<K>, gracePeriod: nat, key: K)
    requires SnapshotProgress(l0, l, live, todo, items, keySelector, previousSet, gracePeriod) && key in todo
    requires SentSoFar(l0, l, senders, todo, KeysOf(items, keySelector), previousSet, gracePeriod)
    ensures key in l.results ==> EntryOk(l, key, l.results[key])
    ensures var current := KeysOf(items, keySelector);
            var step := SnapshotStep(l, key, current, previousSet, Group(items, keySelector, key), gracePeriod);
            && step.0 == Pass
            && SnapshotProgress(l0, step.1, if key in current then live + {key} else live - {key}, todo - {key},
                                items, keySelector, previousSet, gracePeriod)
            && SentSoFar(l0, step.1, senders + (if SendsOnRemoval(l0, key, current, previousSet, gracePeriod) then [key] else []),
                         todo - {key}, current, previousSet, gracePeriod)
  {
    var current := KeysOf(items, keySelector);
    var group := Group(items, keySelector, key);
    SnapshotProgressStep(l0, l, live, todo, items, keySelector, previousSet, gracePeriod, key);
    var step := SnapshotStep(l, key, current, previousSet, group, gracePeriod);
    SnapshotStepSends(l, key, current, previousSet, group, gracePeriod);
    ProgressKeepsStable(l0, l, live, todo, items, keySelector, previousSet, gracePeriod);
    SentSoFarStep(l0, l, step.1, senders, todo, current, previousSet, gracePeriod, key);
  }

  /** Once every key is handled, the live keys are the snapshot's and every key is `Settled`. */
  lemma SnapshotProgressEnds<T, K(!new), R>(l0: Ledger<T, K, R>, l: Ledger<T, K, R>, live: set<K>,
                                            items: seq<T>, keySelector: T -> K, previousSet: set<K>, gracePeriod: nat)
    requires SnapshotProgress(l0, l, live, {}, items, keySelector, previousSet, gracePeriod)
    ensures Consistent(l, KeysOf(items, keySelector), gracePeriod)
    ensures forall k :: Settled(l0, l, k, k in KeysOf(items, keySelector), k in previousSet, Group(items, keySelector, k), gracePeriod)
    ensures l0.emitted <= l.emitted && (gracePeriod > 0 ==> l.emitted == l0.emitted)
  {
    assert live == KeysOf(items, keySelector);
  }

  /**
   * The shared state of one collection of the flow: the fields of a `Ledger`, the last
   * snapshot's keys, and whether the upstream flow has ended.
   */
  class Supervisor<T(==), K(==,!new), R> {
    const gracePeriod: nat
    const keySelector: T -> K
    var results: map<K, KeyState<R>>
    var tasks: seq<Task<K>>
    var cancellers: seq<Canceller<K>>
    var cells: seq<set<T>>
    var emitted: seq<map<K, KeyState<R>>>
    var previousSet: set<K>
    var exhausted: bool

    /** The fields as a `Ledger`. */
    function State(): Ledger<T, K, R>
      reads this
    {
      Ledger(results, tasks, cancellers, cells, emitted)
    }

    /** The ledger is consistent with the last snapshot, and once the flow has ended no grace canceller is unfinished. */
    ghost predicate Valid()
      reads this
    {
      && Consistent(State(), previousSet, gracePeriod)
      && (exhausted ==> forall j :: 0 <= j < |cancellers| ==> !cancellers[j].phase.Active())
    }

    /** The start of the collection: no entry, no task, no canceller, nothing sent, an empty previous set. */
    constructor(gracePeriod: nat, keySelector: T -> K)
      ensures Valid() && !exhausted && this.gracePeriod == gracePeriod && this.keySelector == keySelector
      ensures results == map[] && tasks == [] && cancellers == [] && cells == [] && emitted == [] && previousSet == {}
    {
      this.gracePeriod := gracePeriod;
      this.keySelector := keySelector;
      results, tasks, cancellers, cells, emitted := map[], [], [], [], [];
      previousSet := {};
      exhausted := false;
    }

    /** `SynchronizedValue.update`: the value the updater computed becomes the state. */
    method Install(l: Ledger<T, K, R>)
      modifies this
      ensures State() == l && previousSet == old(previousSet) && exhausted == old(exhausted)
    {
      results, tasks, cancellers, cells, emitted := l.results, l.tasks, l.cancellers, l.cells, l.emitted;
    }

    /**
     * The body of `collect` for one snapshot of the upstream flow: every key of this snapshot
     * or the previous one is handled once, in any order, by `SnapshotStep`; then this
     * snapshot's keys become the previous set. No step fails, and every key ends `Settled`;
     * with a grace period nothing is sent.
     */
    method Snapshot(items: seq<T>) returns (ghost senders: seq<K>)
      requires Valid() && !exhausted
      modifies this
      ensures Valid() && !exhausted && previousSet == KeysOf(items, keySelector)
      ensures forall k :: Settled(old(State()), State(), k, k in previousSet, k in old(previousSet), Group(items, keySelector, k), gracePeriod)
      ensures old(emitted) <= emitted && (gracePeriod > 0 ==> emitted == old(emitted))
      ensures |emitted| == |old(emitted)| + |senders|
      ensures forall i :: 0 <= i < |senders| ==> senders[i] !in emitted[|old(emitted)| + i]
      ensures forall i, j :: 0 <= i < j < |senders| ==> senders[i] != senders[j]
      ensures forall k :: k in senders <==> SendsOnRemoval(old(State()), k, previousSet, old(previousSet), gracePeriod)
      ensures forall j :: |old(emitted)| <= j < |emitted| ==> StableKept(old(results), emitted[j], previousSet, old(previousSet))
    {
      senders := HandleKeys(items);
      previousSet := KeysOf(items, keySelector);
    }

    /** The `forEach` of `collect`: one `results.update` with `SnapshotStep` per key of this or the previous snapshot. */
    method HandleKeys(items: seq<T>) returns (ghost senders: seq<K>)
      requires Valid() && !exhausted
      modifies this
      ensures previousSet == old(previousSet) && !exhausted
      ensures Consistent(State(), KeysOf(items, keySelector), gracePeriod)
      ensures forall k :: Settled(old(State()), State(), k, k in KeysOf(items, keySelector), k in previousSet, Group(items, keySelector, k), gracePeriod)
      ensures old(emitted) <= emitted && (gracePeriod > 0 ==> emitted == old(emitted))
      ensures SentSoFar(old(State()), State(), senders, {}, KeysOf(items, keySelector), previousSet, gracePeriod)
    {
      var current := KeysOf(items, keySelector);
      ghost var l0 := State();
      ghost var live := previousSet;
      var todo := current + previousSet;
      senders := [];
      SnapshotProgressStarts(l0, items, keySelector, previousSet, gracePeriod);
      while todo != {}
        invariant previousSet == old(previousSet) && !exhausted
        invariant SnapshotProgress(l0, State(), live, todo, items, keySelector, previousSet, gracePeriod)
        invariant SentSoFar(l0, State(), senders, todo, current, previousSet, gracePeriod)
        decreases |todo|
      {
        var key :| key in todo;
        HandleKeyStep(l0, State(), live, todo, senders, items, keySelector, previousSet, gracePeriod, key);
        var step := SnapshotStep(State(), key, current, previousSet, Group(items, keySelector, key), gracePeriod);
        Install(step.1);
        senders := senders + (if SendsOnRemoval(l0, key, current, previousSet, gracePeriod) then [key] else []);
        live := if key in current then live + {key} else live - {key};
        todo := todo - {key};
      }
      SnapshotProgressEnds(l0, State(), live, items, keySelector, previousSet, gracePeriod);
    }

    /**
     * The end of a mapper task with `result`: the key records it, and is sent downstream
     * unless it is in its grace period.
     */
    method TaskFinishes(t: TaskId, result: R) returns (outcome: Outcome)
      requires Valid() && t < |tasks| && tasks[t].status == Running
      modifies this
      ensures Valid() && outcome == Pass && previousSet == old(previousSet) && exhausted == old(exhausted)
      ensures (outcome, State()) == TaskFinished(old(State()), t, result)
    {
      TaskFinishedKeepsConsistent(State(), previousSet, gracePeriod, t, result);
      var step := TaskFinished(State(), t, result);
      outcome := step.0;
      Install(step.1);
    }

    /** The grace canceller `j`, its delay over, cancels its task under the lock. */
    method GraceElapses(j: JobId)
      requires Valid() && j < |cancellers| && cancellers[j].phase.Delaying?
      modifies this
      ensures Valid() && previousSet == old(previousSet) && exhausted == old(exhausted)
      ensures State() == GraceElapsed(old(State()), j)
    {
      GraceElapsedKeepsConsistent(State(), previousSet, gracePeriod, j);
      Install(GraceElapsed(State(), j));
    }

    /** The grace canceller `j`, its task joined, removes its key and sends the map. */
    method GraceRemovesKey(j: JobId)
      requires Valid() && j < |cancellers| && cancellers[j].phase.TaskCancelled?
      modifies this
      ensures Valid() && previousSet == old(previousSet) && exhausted == old(exhausted)
      ensures State() == GraceRemoval(old(State()), j)
    {
      GraceRemovalKeepsConsistent(State(), previousSet, gracePeriod, j);
      Install(GraceRemoval(State(), j));
    }

    /**
     * The upstream flow has ended and `withCoroutineScope` cancels the grace scope: every
     * unfinished canceller cancels its task and finishes, leaving its key in place.
     */
    method Shutdown()
      requires Valid() && !exhausted
      modifies this
      ensures Valid() && exhausted && previousSet == old(previousSet)
      ensures results == old(results) && cells == old(cells) && emitted == old(emitted)
      ensures |cancellers| == old(|cancellers|) && |tasks| == old(|tasks|)
      ensures forall j :: 0 <= j < |cancellers| ==>
        cancellers[j] == if old(cancellers[j].phase.Active()) then old(cancellers[j]).(phase := Drained) else old(cancellers[j])
      ensures forall j :: 0 <= j < |cancellers| && old(cancellers[j].phase.Active()) && old(cancellers[j].target.Some?) ==>
        tasks[old(cancellers[j].target.value)].status != Running
    {
      var j := 0;
      while j < |cancellers|
        invariant 0 <= j <= |cancellers| == old(|cancellers|) && |tasks| == old(|tasks|)
        invariant Consistent(State(), previousSet, gracePeriod) && previousSet == old(previousSet)
        invariant results == old(results) && cells == old(cells) && emitted == old(emitted)
        invariant forall i :: 0 <= i < j ==>
          cancellers[i] == if old(cancellers[i].phase.Active()) then old(cancellers[i]).(phase := Drained) else old(cancellers[i])
        invariant forall i :: j <= i < |cancellers| ==> cancellers[i] == old(cancellers[i])
        invariant forall i :: 0 <= i < j && old(cancellers[i].phase.Active()) && old(cancellers[i].target.Some?) ==>
          old(cancellers[i].target.value) < |tasks| && tasks[old(cancellers[i].target.value)].status != Running
      {
        DrainKeepsConsistent(State(), previousSet, gracePeriod, j);
        Install(Drain(State(), j));
        j := j + 1;
      }
      exhausted := true;
    }
  }
}
